/**
 * The browser's local storage as the page handlers use it: one item per user
 * holding that user's trip list, read fail-soft and written back whole, plus
 * the login, add, delete and edit handlers that read, change and save it.
 */
module Store {
  import opened Wrappers
  import opened Dates
  import opened Text
  import opened Trips
  import opened Dashboard

  /** The text of a storage item, as the trip loader can read it. */
  datatype Stored =
    | Blank                  // the empty string
    | Json(trips: seq<Trip>) // the JSON text of a list of trip records
    | FalsyJson              // JSON text of null, false, 0 or ""
    | Unparsable             // non-empty text that is not JSON

  const TripsPrefix: string := "trips_"

  /** The part of a trips key after the prefix; `None` for keys of other items. */
  function EmailOfKey(key: string): Option<string> {
    if TripsPrefix <= key then Some(key[|TripsPrefix|..]) else None
  }

  /** `tripsKey(email)`: the storage key of a user's trip list; the email can be read back from it. */
  function TripsKey(email: string): (key: string)
    ensures EmailOfKey(key) == Some(email)
    ensures key != "loggedInUser"
  {
    assert (TripsPrefix + email)[..|TripsPrefix|] == TripsPrefix;
    assert (TripsPrefix + email)[0] == 't' != "loggedInUser"[0];
    TripsPrefix + email
  }

  /** Distinct users have distinct trips keys. */
  lemma TripsKeyInjective(a: string, b: string)
    requires a != b
    ensures TripsKey(a) != TripsKey(b)
  {
    assert EmailOfKey(TripsKey(a)) != EmailOfKey(TripsKey(b));
  }

  /**
   * `loadTripsFor(email)`: the stored list when the item holds one; the empty list
   * when the item is absent, blank, falsy or unparsable. Loading never fails.
   */
  function LoadTrips(items: map<string, Stored>, email: string): (trips: seq<Trip>)
    ensures TripsKey(email) in items && items[TripsKey(email)].Json? ==>
      trips == items[TripsKey(email)].trips
    ensures TripsKey(email) !in items || !items[TripsKey(email)].Json? ==> trips == []
  {
    var key := TripsKey(email);
    if key !in items then []
    else match items[key]
      case Json(ts) => ts
      case Blank => []
      case FalsyJson => []
      case Unparsable => []
  }

  /** `saveTripsFor(email, trips)`: the whole list written to the user's item. */
  function Saved(items: map<string, Stored>, email: string, trips: seq<Trip>): (r: map<string, Stored>)
    ensures r.Keys == items.Keys + {TripsKey(email)}
    ensures r[TripsKey(email)] == Json(trips)
    ensures forall k :: k in items && k != TripsKey(email) ==> r[k] == items[k]
  {
    items[TripsKey(email) := Json(trips)]
  }

  /** Saving a list and loading it back gives the same list, in the same order. */
  lemma LoadAfterSave(items: map<string, Stored>, email: string, trips: seq<Trip>)
    ensures LoadTrips(Saved(items, email, trips), email) == trips
  {
  }

  /** Saving one user's list leaves every other user's list as it was. */
  lemma SaveKeepsOtherUsers(items: map<string, Stored>, email: string, trips: seq<Trip>, other: string)
    requires other != email
    ensures LoadTrips(Saved(items, email, trips), other) == LoadTrips(items, other)
  {
    TripsKeyInjective(email, other);
  }

  /** The login check: a Gmail address and a password of at least six UTF-16 code units. */
  predicate CredentialsAccepted(email: string, password: string)
    ensures CredentialsAccepted(email, password) ==> |email| >= 10 && |password| >= 3
  {
    EndsWith(email, "@gmail.com") && Utf16Length(password) >= 6
  }

  /**
   * The storage after an accepted login: a user whose item is absent or blank
   * gets an empty list; every item that holds text already is left alone.
   */
  function AfterLogin(items: map<string, Stored>, email: string): (r: map<string, Stored>)
    ensures r.Keys == items.Keys + {TripsKey(email)}
    ensures TripsKey(email) !in items || items[TripsKey(email)] == Blank ==> r[TripsKey(email)] == Json([])
    ensures TripsKey(email) in items && items[TripsKey(email)] != Blank ==> r[TripsKey(email)] == items[TripsKey(email)]
    ensures forall k :: k in items && k != TripsKey(email) ==> r[k] == items[k]
  {
    var key := TripsKey(email);
    if key !in items || items[key] == Blank then items[key := Json([])] else items
  }

  /** Logging in never changes what any user's trip list loads as. */
  lemma LoginKeepsTrips(items: map<string, Stored>, email: string, other: string)
    ensures LoadTrips(AfterLogin(items, email), other) == LoadTrips(items, other)
  {
    var key := TripsKey(email);
    if key !in items || items[key] == Blank {
      if other == email {
        assert LoadTrips(items, other) == [];
      } else {
        SaveKeepsOtherUsers(items, email, [], other);
      }
    }
  }

  /** The storage after a valid add: the loaded list with `t` appended, saved. */
  function Added(items: map<string, Stored>, email: string, t: Trip): (r: map<string, Stored>)
    ensures LoadTrips(r, email) == LoadTrips(items, email) + [t]
    ensures r.Keys == items.Keys + {TripsKey(email)}
    ensures forall k :: k in items && k != TripsKey(email) ==> k in r && r[k] == items[k]
  {
    Saved(items, email, LoadTrips(items, email) + [t])
  }

  /** The storage after a confirmed delete: the loaded list without the records carrying `id`, saved. */
  function Deleted(items: map<string, Stored>, email: string, id: int): (r: map<string, Stored>)
    ensures LoadTrips(r, email) == WithoutId(LoadTrips(items, email), id)
    ensures TripsKey(email) in r && r[TripsKey(email)].Json?
    ensures r.Keys == items.Keys + {TripsKey(email)}
    ensures forall k :: k in items && k != TripsKey(email) ==> k in r && r[k] == items[k]
  {
    Saved(items, email, WithoutId(LoadTrips(items, email), id))
  }

  /** The storage after an edit: the edited list saved, or nothing written at all. */
  function Edited(items: map<string, Stored>, email: string, id: int, answers: Option<EditAnswers>): (r: map<string, Stored>)
    ensures !ApplyEdit(LoadTrips(items, email), id, answers).Updated? ==> r == items
    ensures r.Keys <= items.Keys + {TripsKey(email)}
    ensures ApplyEdit(LoadTrips(items, email), id, answers).Updated? ==>
      LoadTrips(r, email) == ApplyEdit(LoadTrips(items, email), id, answers).trips
    ensures forall k :: k in items && k != TripsKey(email) ==> k in r && r[k] == items[k]
  {
    match ApplyEdit(LoadTrips(items, email), id, answers)
    case Updated(trips) => Saved(items, email, trips)
    case NotFound => items
    case Cancelled => items
    case Rejected => items
  }

  /** A valid add grows the user's list by exactly one record, appended last. */
  lemma AddAppendsOne(items: map<string, Stored>, email: string, id: int, form: TripForm)
    requires NewTrip(id, form).Success?
    ensures var before, after := LoadTrips(items, email), LoadTrips(Added(items, email, NewTrip(id, form).value), email);
      && |after| == |before| + 1
      && after[..|before|] == before
      && after[|before|] == NewTrip(id, form).value
  {
    var before := LoadTrips(items, email);
    var t := NewTrip(id, form).value;
    LoadAfterSave(items, email, before + [t]);
    assert (before + [t])[..|before|] == before;
  }

  /** Deleting twice is deleting once, down to the stored text. */
  lemma DeleteTwiceIsDeleteOnce(items: map<string, Stored>, email: string, id: int)
    ensures Deleted(Deleted(items, email, id), email, id) == Deleted(items, email, id)
  {
    var kept := WithoutId(LoadTrips(items, email), id);
    LoadAfterSave(items, email, kept);
    WithoutIdIdempotent(LoadTrips(items, email), id);
  }

  /** Deleting an id that no record carries leaves the loaded list as it was. */
  lemma DeleteAbsentKeepsTrips(items: map<string, Stored>, email: string, id: int)
    requires !HasId(LoadTrips(items, email), id)
    ensures LoadTrips(Deleted(items, email, id), email) == LoadTrips(items, email)
  {
    WithoutIdAbsent(LoadTrips(items, email), id);
  }

  /** A rejected, cancelled or unknown-id edit writes nothing. */
  lemma EditWithoutUpdateWritesNothing(items: map<string, Stored>, email: string, id: int, answers: Option<EditAnswers>)
    ensures !HasId(LoadTrips(items, email), id) ==> Edited(items, email, id, answers) == items
    ensures answers.None? ==> Edited(items, email, id, answers) == items
    ensures answers.Some? && Before(answers.value.endDate, answers.value.startDate) ==>
      Edited(items, email, id, answers) == items
  {
  }

  /**
   * Unique ids survive every handler, provided the add handler is given an id no
   * record of the user carries yet.
   */
  lemma HandlersKeepIdsUnique(items: map<string, Stored>, email: string, t: Trip, id: int, answers: Option<EditAnswers>)
    requires UniqueIds(LoadTrips(items, email))
    ensures !HasId(LoadTrips(items, email), t.id) ==> UniqueIds(LoadTrips(Added(items, email, t), email))
    ensures UniqueIds(LoadTrips(Deleted(items, email, id), email))
    ensures UniqueIds(LoadTrips(Edited(items, email, id, answers), email))
  {
    var trips := LoadTrips(items, email);
    if !HasId(trips, t.id) {
      AppendFreshKeepsUnique(trips, t);
    }
    WithoutIdKeepsUnique(trips, id);
    var r := ApplyEdit(trips, id, answers);
    if r.Updated? {
      var edited := r.trips;
      assert |edited| == |trips| && forall j :: 0 <= j < |trips| ==> edited[j].id == trips[j].id;
      assert UniqueIds(edited);
      assert LoadTrips(Edited(items, email, id, answers), email) == edited;
    } else {
      assert Edited(items, email, id, answers) == items;
    }
  }

  /**
   * The local storage of one browser: the per-user trip items and the
   * `loggedInUser` item (`None` when absent).
   */
  class TripStore {
    var items: map<string, Stored>
    var loggedInUser: Option<string>

    constructor ()
      ensures items == map[] && loggedInUser == None
    {
      items := map[];
      loggedInUser := None;
    }

    /** `loadTripsFor(email)`. */
    method Load(email: string) returns (trips: seq<Trip>)
      ensures trips == LoadTrips(items, email)
    {
      var key := TripsKey(email);
      if key in items && items[key].Json? {
        trips := items[key].trips;
      } else {
        trips := [];
      }
    }

    /** `saveTripsFor(email, trips)`. */
    method Save(email: string, trips: seq<Trip>)
      modifies this
      ensures items == Saved(old(items), email, trips)
      ensures loggedInUser == old(loggedInUser)
    {
      items := items[TripsKey(email) := Json(trips)];
    }

    /**
     * The login form's submit handler: on accepted credentials, remember the user
     * and initialise an absent or empty trip item to `[]`.
     */
    method Login(rawEmail: string, rawPassword: string) returns (accepted: bool)
      modifies this
      ensures accepted == CredentialsAccepted(Trim(rawEmail), Trim(rawPassword))
      ensures accepted ==>
        loggedInUser == Some(Trim(rawEmail)) && items == AfterLogin(old(items), Trim(rawEmail))
      ensures !accepted ==> loggedInUser == old(loggedInUser) && items == old(items)
    {
      var email, password := Trim(rawEmail), Trim(rawPassword);
      if !EndsWith(email, "@gmail.com") || Utf16Length(password) < 6 {
        return false;
      }
      loggedInUser := Some(email);
      var key := TripsKey(email);
      if key !in items || items[key] == Blank {
        items := items[key := Json([])];
      }
      accepted := true;
    }

    /**
     * The add form's submit handler for the user `email`; `id` is the creation
     * time the handler reads from the clock.
     */
    method AddTrip(email: string, id: int, form: TripForm) returns (outcome: Result<Trip, FormError>)
      modifies this
      ensures outcome == NewTrip(id, form)
      ensures outcome.Failure? ==> items == old(items)
      ensures outcome.Success? ==> items == Added(old(items), email, outcome.value)
      ensures loggedInUser == old(loggedInUser)
    {
      outcome := NewTrip(id, form);
      if outcome.Failure? {
        return;
      }
      var trips := Load(email);
      trips := trips + [outcome.value];
      Save(email, trips);
    }

    /** The delete button's handler; `confirmed` is the answer to the confirmation dialog. */
    method DeleteTrip(email: string, id: int, confirmed: bool)
      modifies this
      ensures items == if confirmed then Deleted(old(items), email, id) else old(items)
      ensures loggedInUser == old(loggedInUser)
    {
      if !confirmed {
        return;
      }
      var trips := Load(email);
      var kept := WithoutId(trips, id);
      Save(email, kept);
    }

    /**
     * The edit button's handler; `answers` holds the four prompt answers, or
     * `None` when one of the prompts was cancelled.
     */
    method EditTrip(email: string, id: int, answers: Option<EditAnswers>) returns (result: EditResult)
      modifies this
      ensures result == ApplyEdit(LoadTrips(old(items), email), id, answers)
      ensures items == Edited(old(items), email, id, answers)
      ensures loggedInUser == old(loggedInUser)
    {
      var trips := Load(email);
      var found := FirstIndexOf(trips, id);
      if found.None? {
        return NotFound;
      }
      if answers.None? {
        return Cancelled;
      }
      var a := answers.value;
      if Before(a.endDate, a.startDate) {
        return Rejected;
      }
      var i := found.value;
      trips := trips[i := trips[i].(
        destination := a.destination,
        startDate := a.startDate,
        endDate := a.endDate,
        budget := Some(a.budget))];
      Save(email, trips);
      result := Updated(trips);
    }

    /** The dashboard page for the user `email` at the date `now`. */
    method ShowDashboard(email: string, now: Date) returns (summary: Summary)
      ensures summary == Summarize(LoadTrips(items, email), now)
    {
      var trips := Load(email);
      summary := Summarize(trips, now);
    }
  }
}
