/**
 * The dashboard's summary of a loaded trip list: how many trips, the total
 * budget, and the next upcoming trip (the earliest one starting today or later).
 */
module Dashboard {
  import opened Wrappers
  import opened Dates
  import opened Trips

  /** `Number(t.budget || 0)`: a missing budget counts as 0. */
  function BudgetOf(t: Trip): (b: int)
    ensures t.budget.None? ==> b == 0
    ensures t.budget.Some? ==> b == t.budget.value
  {
    t.budget.GetOr(0)
  }

  /** `trips.reduce((s, t) => s + Number(t.budget || 0), 0)`: a left fold over the list. */
  function TotalBudget(trips: seq<Trip>): (total: int)
    ensures (forall i :: 0 <= i < |trips| ==> BudgetOf(trips[i]) >= 0) ==> total >= 0
    ensures (forall i :: 0 <= i < |trips| ==> BudgetOf(trips[i]) == 0) ==> total == 0
    decreases |trips|
  {
    if trips == [] then 0
    else TotalBudget(trips[..|trips| - 1]) + BudgetOf(trips[|trips| - 1])
  }

  /** The total is additive over concatenation, so it does not depend on how the list is split. */
  lemma {:induction false} TotalBudgetAppend(a: seq<Trip>, b: seq<Trip>)
    ensures TotalBudget(a + b) == TotalBudget(a) + TotalBudget(b)
    decreases |b|
  {
    if b == [] {
      assert a + b == a;
    } else {
      var b' := b[..|b| - 1];
      assert (a + b)[..|a + b| - 1] == a + b';
      assert (a + b)[|a + b| - 1] == b[|b| - 1];
      TotalBudgetAppend(a, b');
    }
  }

  /** A record without a budget adds nothing to the total. */
  lemma MissingBudgetCountsZero(a: seq<Trip>, t: Trip, b: seq<Trip>)
    requires t.budget.None?
    ensures TotalBudget(a + [t] + b) == TotalBudget(a + b)
  {
    TotalBudgetAppend(a + [t], b);
    TotalBudgetAppend(a, [t]);
    TotalBudgetAppend(a, b);
    assert TotalBudget([t]) == TotalBudget([]) + BudgetOf(t);
  }

  /** `new Date(t.startDate) >= new Date()`: the trip starts today or later. */
  predicate StartsOnOrAfter(t: Trip, now: Date)
    ensures StartsOnOrAfter(t, now) <==> t.startDate == now || Before(now, t.startDate)
  {
    NotBeforeIff(t.startDate, now);
    !Before(t.startDate, now)
  }

  /** The filter of the upcoming computation: the trips starting at `now` or later, in list order. */
  function StartingFrom(trips: seq<Trip>, now: Date): (r: seq<Trip>)
    ensures |r| <= |trips|
    ensures forall t :: t in r <==> t in trips && StartsOnOrAfter(t, now)
    decreases |trips|
  {
    if trips == [] then []
    else
      assert trips == [trips[0]] + trips[1..];
      (if StartsOnOrAfter(trips[0], now) then [trips[0]] else []) + StartingFrom(trips[1..], now)
  }

  /** The filter keeps list order: filtering a concatenation filters each part. */
  lemma {:induction false} StartingFromAppend(a: seq<Trip>, b: seq<Trip>, now: Date)
    ensures StartingFrom(a + b, now) == StartingFrom(a, now) + StartingFrom(b, now)
    decreases |a|
  {
    if a == [] {
      assert a + b == b;
    } else {
      assert (a + b)[0] == a[0] && (a + b)[1..] == a[1..] + b;
      StartingFromAppend(a[1..], b, now);
    }
  }

  /** Sorted by start date, earliest first. */
  predicate SortedByStart(s: seq<Trip>) {
    forall i :: 0 < i < |s| ==> !Before(s[i].startDate, s[i - 1].startDate)
  }

  /**
   * Inserts `t` in front of the first record that does not start before it;
   * `t` therefore precedes every record with the same start date.
   */
  function InsertByStart(t: Trip, s: seq<Trip>): (r: seq<Trip>)
    ensures multiset(r) == multiset(s) + multiset{t}
    ensures r[0] == t || (s != [] && r[0] == s[0])
    decreases |s|
  {
    if s == [] || !Before(s[0].startDate, t.startDate) then [t] + s
    else
      assert s == [s[0]] + s[1..];
      [s[0]] + InsertByStart(t, s[1..])
  }

  /** The head of an insertion: `t` unless the first record starts strictly before it. */
  lemma InsertByStartHead(t: Trip, s: seq<Trip>)
    ensures InsertByStart(t, s)[0] ==
      if s == [] || !Before(s[0].startDate, t.startDate) then t else s[0]
  {
  }

  /**
   * The comparator sort `(a, b) => new Date(a.startDate) - new Date(b.startDate)`:
   * a stable insertion sort, so records with equal start dates keep their list order.
   */
  function SortByStart(s: seq<Trip>): (r: seq<Trip>)
    ensures multiset(r) == multiset(s)
    decreases |s|
  {
    if s == [] then []
    else
      assert s == [s[0]] + s[1..];
      InsertByStart(s[0], SortByStart(s[1..]))
  }

  lemma {:induction false} InsertByStartSorted(t: Trip, s: seq<Trip>)
    requires SortedByStart(s)
    ensures SortedByStart(InsertByStart(t, s))
    decreases |s|
  {
    if s == [] || !Before(s[0].startDate, t.startDate) {
    } else {
      var tail := InsertByStart(t, s[1..]);
      assert SortedByStart(s[1..]) by {
        forall i | 0 < i < |s[1..]| ensures !Before(s[1..][i].startDate, s[1..][i - 1].startDate) {
          assert s[1..][i] == s[i + 1] && s[1..][i - 1] == s[i];
        }
      }
      InsertByStartSorted(t, s[1..]);
      var r := [s[0]] + tail;
      assert !Before(tail[0].startDate, s[0].startDate) by {
        if tail[0] == t {
          BeforeAsymmetric(s[0].startDate, t.startDate);
        } else {
          assert tail[0] == s[1];
        }
      }
      forall i | 0 < i < |r| ensures !Before(r[i].startDate, r[i - 1].startDate) {
        if i > 1 {
          assert r[i] == tail[i - 1] && r[i - 1] == tail[i - 2];
        }
      }
    }
  }

  /** The sort's result is ordered by start date (and, by its contract, a permutation of its input). */
  lemma {:induction false} SortByStartSorted(s: seq<Trip>)
    ensures SortedByStart(SortByStart(s))
    decreases |s|
  {
    if s != [] {
      SortByStartSorted(s[1..]);
      InsertByStartSorted(s[0], SortByStart(s[1..]));
    }
  }

  /** `trips.filter(starts today or later).sort(by start date)[0]`: the next upcoming trip. */
  function Upcoming(trips: seq<Trip>, now: Date): (r: Option<Trip>)
    ensures r.Some? ==> r.value in trips && StartsOnOrAfter(r.value, now)
  {
    var sorted := SortByStart(StartingFrom(trips, now));
    assert sorted != [] ==> sorted[0] in multiset(sorted);
    if sorted == [] then None else Some(sorted[0])
  }

  /**
   * Position `k` holds the upcoming trip as the dashboard promises it: it starts at
   * `now` or later, no such trip starts earlier, and every such trip before it in
   * the list starts strictly later (ties go to the first in list order).
   */
  predicate IsFirstEarliest(trips: seq<Trip>, now: Date, k: nat) {
    && k < |trips|
    && StartsOnOrAfter(trips[k], now)
    && (forall j :: 0 <= j < |trips| && StartsOnOrAfter(trips[j], now) ==>
          !Before(trips[j].startDate, trips[k].startDate))
    && (forall j :: 0 <= j < k && StartsOnOrAfter(trips[j], now) ==>
          Before(trips[k].startDate, trips[j].startDate))
  }

  /**
   * A single left-to-right scan for the upcoming trip: the reference definition the
   * filter-and-sort computation is compared with.
   */
  function FirstEarliestIndex(trips: seq<Trip>, now: Date): (r: Option<nat>)
    ensures r.None? <==> forall j :: 0 <= j < |trips| ==> !StartsOnOrAfter(trips[j], now)
    ensures r.Some? ==> r.value < |trips| && StartsOnOrAfter(trips[r.value], now)
    decreases |trips|
  {
    if trips == [] then None
    else
      assert forall j :: 0 < j < |trips| ==> trips[j] == trips[1..][j - 1];
      match FirstEarliestIndex(trips[1..], now)
      case None =>
        if StartsOnOrAfter(trips[0], now) then Some(0) else None
      case Some(k) =>
        if StartsOnOrAfter(trips[0], now) && !Before(trips[k + 1].startDate, trips[0].startDate)
        then Some(0)
        else Some(k + 1)
  }

  /** The scan finds the earliest upcoming trip, the first one in list order on ties. */
  lemma {:induction false} FirstEarliestIndexCorrect(trips: seq<Trip>, now: Date)
    requires FirstEarliestIndex(trips, now).Some?
    ensures IsFirstEarliest(trips, now, FirstEarliestIndex(trips, now).value)
    decreases |trips|
  {
    var rest := trips[1..];
    assert forall j :: 0 < j < |trips| ==> trips[j] == rest[j - 1];
    var k := FirstEarliestIndex(trips, now).value;
    match FirstEarliestIndex(rest, now)
    case None =>
      assert k == 0;
      BeforeIrreflexive(trips[0].startDate);
    case Some(m) =>
      FirstEarliestIndexCorrect(rest, now);
      if k == 0 {
        BeforeIrreflexive(trips[0].startDate);
        forall j | 0 < j < |trips| && StartsOnOrAfter(trips[j], now)
          ensures !Before(trips[j].startDate, trips[0].startDate)
        {
          NotBeforeTransitive(trips[0].startDate, trips[m + 1].startDate, trips[j].startDate);
        }
      } else {
        assert k == m + 1;
        if StartsOnOrAfter(trips[0], now) {
          BeforeAsymmetric(trips[k].startDate, trips[0].startDate);
          BeforeTotal(trips[k].startDate, trips[0].startDate);
        }
      }
  }

  /** The record a scan result points at, if any. */
  function TripAt(trips: seq<Trip>, k: Option<nat>): Option<Trip> {
    if k.Some? && k.value < |trips| then Some(trips[k.value]) else None
  }

  /**
   * One step of the filter-and-sort computation: a first trip that qualifies wins
   * unless the upcoming trip of the rest starts strictly before it.
   */
  lemma UpcomingStep(trips: seq<Trip>, now: Date)
    requires trips != []
    ensures Upcoming(trips, now) ==
      if !StartsOnOrAfter(trips[0], now) then Upcoming(trips[1..], now)
      else if Upcoming(trips[1..], now).None? then Some(trips[0])
      else if Before(Upcoming(trips[1..], now).value.startDate, trips[0].startDate)
      then Upcoming(trips[1..], now)
      else Some(trips[0])
  {
    var t0, rest := trips[0], trips[1..];
    var filtered := StartingFrom(rest, now);
    var sortedRest := SortByStart(filtered);
    if StartsOnOrAfter(t0, now) {
      var f := [t0] + filtered;
      assert StartingFrom(trips, now) == f;
      assert f[0] == t0 && f[1..] == filtered;
      assert SortByStart(f) == InsertByStart(t0, sortedRest);
      InsertByStartHead(t0, sortedRest);
    } else {
      assert StartingFrom(trips, now) == filtered;
    }
  }

  /** The sorted filter's head is the trip the scan finds. */
  lemma {:induction false} UpcomingIsFirstEarliest(trips: seq<Trip>, now: Date)
    ensures Upcoming(trips, now) == TripAt(trips, FirstEarliestIndex(trips, now))
    decreases |trips|
  {
    if trips != [] {
      var rest := trips[1..];
      UpcomingIsFirstEarliest(rest, now);
      UpcomingStep(trips, now);
      var found := FirstEarliestIndex(rest, now);
      assert found.Some? ==> trips[found.value + 1] == rest[found.value];
    }
  }

  /**
   * The upcoming trip as the dashboard shows it: none exactly when no trip starts
   * at `now` or later; otherwise the earliest such trip, the first in list order on ties.
   */
  lemma UpcomingSpec(trips: seq<Trip>, now: Date)
    ensures Upcoming(trips, now).None? <==> forall j :: 0 <= j < |trips| ==> !StartsOnOrAfter(trips[j], now)
    ensures Upcoming(trips, now).Some? ==>
      exists k :: 0 <= k < |trips| && Upcoming(trips, now).value == trips[k] && IsFirstEarliest(trips, now, k)
  {
    UpcomingIsFirstEarliest(trips, now);
    if FirstEarliestIndex(trips, now).Some? {
      FirstEarliestIndexCorrect(trips, now);
    }
  }

  /** The three figures the dashboard page displays. */
  datatype Summary = Summary(totalTrips: nat, totalBudget: int, upcoming: string)

  /**
   * The dashboard page: the number of trips, the total budget, and the upcoming
   * trip's destination or "None".
   */
  function Summarize(trips: seq<Trip>, now: Date): (r: Summary)
    ensures r.totalTrips == |trips|
    ensures r.totalBudget == TotalBudget(trips)
    ensures r.upcoming == match Upcoming(trips, now)
      case None => "None"
      case Some(t) => t.destination
  {
    Summary(|trips|, TotalBudget(trips), match Upcoming(trips, now) case None => "None" case Some(t) => t.destination)
  }

  /** Appending a trip raises the count by one and the total by that trip's budget. */
  lemma SummarizeAppend(trips: seq<Trip>, t: Trip, now: Date)
    ensures Summarize(trips + [t], now).totalTrips == Summarize(trips, now).totalTrips + 1
    ensures Summarize(trips + [t], now).totalBudget == Summarize(trips, now).totalBudget + BudgetOf(t)
  {
    TotalBudgetAppend(trips, [t]);
    assert TotalBudget([t]) == TotalBudget([]) + BudgetOf(t);
  }
}
