/** `escapeHtml`: the text filter applied to destinations and notes before they are rendered. */
module Html {

  /** The five characters the filter replaces. */
  predicate IsSpecial(c: char) {
    c == '&' || c == '<' || c == '>' || c == '"' || c == '\''
  }

  /** Characters that must never appear raw in escaped output. */
  predicate IsRawMarkup(c: char) {
    c == '<' || c == '>' || c == '"' || c == '\''
  }

  /** `t` begins with one of the five character entities. */
  predicate StartsEntity(t: string) {
    "&amp;" <= t || "&lt;" <= t || "&gt;" <= t || "&quot;" <= t || "&#39;" <= t
  }

  lemma StartsEntityExtends(t: string, more: string)
    requires StartsEntity(t)
    ensures StartsEntity(t + more)
  {
    assert forall p: string :: p <= t ==> (t + more)[..|p|] == t[..|p|];
  }

  /** Every `&` in `t` is the start of an entity. */
  predicate AmpersandsStartEntities(t: string) {
    forall i :: 0 <= i < |t| && t[i] == '&' ==> StartsEntity(t[i..])
  }

  /** The replacement table of the filter; every other character stands for itself. */
  function Entity(c: char): (e: string)
    ensures IsSpecial(c) ==> StartsEntity(e) && |e| > 1
    ensures !IsSpecial(c) ==> e == [c]
    ensures forall i :: 0 <= i < |e| ==> !IsRawMarkup(e[i])
    ensures forall i :: 0 < i < |e| ==> e[i] != '&'
  {
    if c == '&' then "&amp;"
    else if c == '<' then "&lt;"
    else if c == '>' then "&gt;"
    else if c == '"' then "&quot;"
    else if c == '\'' then "&#39;"
    else [c]
  }

  /**
   * `escapeHtml(s)`: every special character replaced by its entity, in one left-to-right
   * pass; the empty string (the falsy case) gives the empty string.
   */
  function EscapeHtml(s: string): (r: string)
    ensures |r| >= |s|
    ensures forall i :: 0 <= i < |r| ==> !IsRawMarkup(r[i])
    decreases |s|
  {
    if s == [] then [] else Entity(s[0]) + EscapeHtml(s[1..])
  }

  /** The filter works character by character: escaping a concatenation escapes each part. */
  lemma {:induction false} EscapeHtmlAppend(a: string, b: string)
    ensures EscapeHtml(a + b) == EscapeHtml(a) + EscapeHtml(b)
    decreases |a|
  {
    if a == [] {
      assert a + b == b;
    } else {
      assert (a + b)[0] == a[0] && (a + b)[1..] == a[1..] + b;
      EscapeHtmlAppend(a[1..], b);
    }
  }

  /** Text without any of the five special characters passes through unchanged. */
  lemma {:induction false} EscapeHtmlKeepsPlain(s: string)
    requires forall i :: 0 <= i < |s| ==> !IsSpecial(s[i])
    ensures EscapeHtml(s) == s
    decreases |s|
  {
    if s != [] {
      EscapeHtmlKeepsPlain(s[1..]);
      assert s == [s[0]] + s[1..];
    }
  }

  /** Every `&` in the escaped text is the start of one of the five entities. */
  lemma {:induction false} EscapedAmpersandsStartEntities(s: string)
    ensures AmpersandsStartEntities(EscapeHtml(s))
    decreases |s|
  {
    if s != [] {
      var e, rest := Entity(s[0]), EscapeHtml(s[1..]);
      var r := EscapeHtml(s);
      assert r == e + rest;
      EscapedAmpersandsStartEntities(s[1..]);
      forall i | 0 <= i < |r| && r[i] == '&'
        ensures StartsEntity(r[i..])
      {
        if i < |e| {
          assert e[i] == '&';
          assert i == 0 && IsSpecial(s[0]);
          assert r[i..] == e + rest;
          StartsEntityExtends(e, rest);
        } else {
          assert r[i..] == rest[i - |e|..];
          assert rest[i - |e|] == '&';
          assert AmpersandsStartEntities(rest);
          assert StartsEntity(rest[i - |e|..]);
        }
      }
    }
  }

  /** Decodes the five entities and keeps every other character: the inverse of the filter. */
  function Unescape(t: string): string
    decreases |t|
  {
    if t == [] then []
    else if "&amp;" <= t then "&" + Unescape(t[5..])
    else if "&lt;" <= t then "<" + Unescape(t[4..])
    else if "&gt;" <= t then ">" + Unescape(t[4..])
    else if "&quot;" <= t then "\"" + Unescape(t[6..])
    else if "&#39;" <= t then "'" + Unescape(t[5..])
    else [t[0]] + Unescape(t[1..])
  }

  /** Escaping loses nothing: decoding the escaped text gives the input back. */
  lemma {:induction false} UnescapeEscapeHtml(s: string)
    ensures Unescape(EscapeHtml(s)) == s
    decreases |s|
  {
    if s != [] {
      var e, rest := Entity(s[0]), EscapeHtml(s[1..]);
      var r := e + rest;
      assert EscapeHtml(s) == r;
      UnescapeEscapeHtml(s[1..]);
      assert r[|e|..] == rest;
      if s[0] == '&' {
        assert "&amp;" <= r;
      } else if s[0] == '<' {
        assert r[..4] == "&lt;";
        assert !("&amp;" <= r) by { assert r[1] == 'l'; }
      } else if s[0] == '>' {
        assert r[..4] == "&gt;";
        assert !("&amp;" <= r) by { assert r[1] == 'g'; }
        assert !("&lt;" <= r) by { assert r[1] == 'g'; }
      } else if s[0] == '"' {
        assert r[..6] == "&quot;";
        assert !("&amp;" <= r) && !("&lt;" <= r) && !("&gt;" <= r) by { assert r[1] == 'q'; }
      } else if s[0] == '\'' {
        assert r[..5] == "&#39;";
        assert !("&amp;" <= r) && !("&lt;" <= r) && !("&gt;" <= r) && !("&quot;" <= r) by { assert r[1] == '#'; }
      } else {
        assert r[0] == s[0] && r[0] != '&';
        assert !StartsEntity(r) by {
          assert "&amp;"[0] == '&' && "&lt;"[0] == '&' && "&gt;"[0] == '&' && "&quot;"[0] == '&' && "&#39;"[0] == '&';
        }
      }
      assert s == [s[0]] + s[1..];
    }
  }
}
