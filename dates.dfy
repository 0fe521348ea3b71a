/**
 * Calendar dates as the trip forms deliver them: ISO strings "YYYY-MM-DD".
 * For strings of that fixed shape, lexicographic order is chronological order,
 * so the comparisons `new Date(a) < new Date(b)` of the handlers are modelled
 * by the lexicographic order `Before` on the strings themselves.
 */
module Dates {

  type Date = string

  /** `a` sorts strictly before `b`. */
  predicate Before(a: Date, b: Date)
    ensures Before(a, b) ==> a != b
    decreases |a|
  {
    if a == [] then b != []
    else if b == [] then false
    else if a[0] != b[0] then a[0] < b[0]
    else Before(a[1..], b[1..])
  }

  lemma {:induction false} BeforeIrreflexive(a: Date)
    ensures !Before(a, a)
  {
    if a != [] {
      BeforeIrreflexive(a[1..]);
    }
  }

  lemma {:induction false} BeforeTransitive(a: Date, b: Date, c: Date)
    requires Before(a, b) && Before(b, c)
    ensures Before(a, c)
  {
    if a != [] && a[0] == b[0] && b[0] == c[0] {
      BeforeTransitive(a[1..], b[1..], c[1..]);
    }
  }

  /** Any two dates are equal or ordered one way or the other. */
  lemma {:induction false} BeforeTotal(a: Date, b: Date)
    ensures a == b || Before(a, b) || Before(b, a)
  {
    if a != [] && b != [] && a[0] == b[0] {
      BeforeTotal(a[1..], b[1..]);
      if a[1..] == b[1..] {
        assert a == [a[0]] + a[1..] && b == [b[0]] + b[1..];
      }
    }
  }

  lemma BeforeAsymmetric(a: Date, b: Date)
    requires Before(a, b)
    ensures !Before(b, a)
  {
    if Before(b, a) {
      BeforeTransitive(a, b, a);
      BeforeIrreflexive(a);
    }
  }

  /** "Not before" is "on or after": equal, or strictly after. */
  lemma NotBeforeIff(a: Date, b: Date)
    ensures !Before(a, b) <==> a == b || Before(b, a)
  {
    BeforeTotal(a, b);
    BeforeIrreflexive(a);
    if Before(b, a) {
      BeforeAsymmetric(b, a);
    }
  }

  /** "Not before" (`>=` on dates) is transitive. */
  lemma NotBeforeTransitive(a: Date, b: Date, c: Date)
    requires !Before(b, a) && !Before(c, b)
    ensures !Before(c, a)
  {
    BeforeTotal(a, b);
    if Before(c, a) && Before(a, b) {
      BeforeTransitive(c, a, b);
    }
  }
}
