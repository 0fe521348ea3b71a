/**
 * Trip records and the pure list operations the page handlers perform on a
 * loaded trip list: building a record from the add form, the delete filter,
 * the edit lookup and the edit itself.
 */
module Trips {
  import opened Wrappers
  import opened Dates
  import opened Text

  /**
   * One saved trip. `budget` is `None` when the stored record has no budget
   * (records written by the add form always have one).
   */
  datatype Trip = Trip(
    id: int,
    destination: string,
    startDate: Date,
    endDate: Date,
    budget: Option<int>,
    notes: string)

  /**
   * The add form's fields as the browser delivers them. A date field is "" when
   * left blank; `budget` is `None` when the number field is the empty string.
   */
  datatype TripForm = TripForm(
    destination: string,
    startDate: Date,
    endDate: Date,
    budget: Option<int>,
    notes: string)

  datatype FormError =
    | MissingField     // a required field is empty
    | EndBeforeStart   // the end date lies before the start date

  /** Some required field of the add form is empty (destination after trimming). */
  predicate MissingRequired(form: TripForm)
    ensures !MissingRequired(form) ==>
      exists k :: 0 <= k < |form.destination| && !IsSpace(form.destination[k])
  {
    TrimEmptyIff(form.destination);
    Trim(form.destination) == [] || form.startDate == [] || form.endDate == [] || form.budget.None?
  }

  /**
   * The add-form submit handler up to the append: required fields first, then the
   * date order; on success the record to append, with trimmed destination and notes.
   */
  function NewTrip(id: int, form: TripForm): (r: Result<Trip, FormError>)
    ensures r == Failure(MissingField) <==> MissingRequired(form)
    ensures r == Failure(EndBeforeStart) <==> !MissingRequired(form) && Before(form.endDate, form.startDate)
    ensures r.Success? ==>
      && r.value.id == id
      && r.value.destination == Trim(form.destination) != []
      && r.value.startDate == form.startDate != []
      && r.value.endDate == form.endDate != []
      && !Before(r.value.endDate, r.value.startDate)
      && r.value.budget == form.budget && r.value.budget.Some?
      && r.value.notes == Trim(form.notes)
  {
    var destination := Trim(form.destination);
    if destination == [] || form.startDate == [] || form.endDate == [] || form.budget.None? then
      Failure(MissingField)
    else if Before(form.endDate, form.startDate) then
      Failure(EndBeforeStart)
    else
      Success(Trip(id, destination, form.startDate, form.endDate, form.budget, Trim(form.notes)))
  }

  /** Some record of the list carries `id`. */
  predicate HasId(trips: seq<Trip>, id: int) {
    exists i :: 0 <= i < |trips| && trips[i].id == id
  }

  /** No two records of the list share an id. */
  predicate UniqueIds(trips: seq<Trip>) {
    forall i, j :: 0 <= i < j < |trips| ==> trips[i].id != trips[j].id
  }

  /** The ids of the records, in list order. */
  function Ids(trips: seq<Trip>): (r: seq<int>)
    ensures |r| == |trips| && forall i :: 0 <= i < |trips| ==> r[i] == trips[i].id
  {
    seq(|trips|, i requires 0 <= i < |trips| => trips[i].id)
  }

  /** The delete handler's filter: the records whose id is not `id`, in list order. */
  function WithoutId(trips: seq<Trip>, id: int): (r: seq<Trip>)
    ensures |r| <= |trips|
    ensures forall t :: t in r <==> t in trips && t.id != id
    decreases |trips|
  {
    if trips == [] then []
    else
      assert trips == [trips[0]] + trips[1..];
      (if trips[0].id == id then [] else [trips[0]]) + WithoutId(trips[1..], id)
  }

  /** The filter keeps order: filtering a concatenation filters each part. */
  lemma {:induction false} WithoutIdAppend(a: seq<Trip>, b: seq<Trip>, id: int)
    ensures WithoutId(a + b, id) == WithoutId(a, id) + WithoutId(b, id)
    decreases |a|
  {
    if a == [] {
      assert a + b == b;
    } else {
      assert (a + b)[0] == a[0] && (a + b)[1..] == a[1..] + b;
      WithoutIdAppend(a[1..], b, id);
    }
  }

  /** Deleting an id no record carries leaves the list as it was. */
  lemma {:induction false} WithoutIdAbsent(trips: seq<Trip>, id: int)
    requires !HasId(trips, id)
    ensures WithoutId(trips, id) == trips
    decreases |trips|
  {
    if trips != [] {
      assert trips[0].id != id;
      assert !HasId(trips[1..], id) by {
        forall i | 0 <= i < |trips[1..]| ensures trips[1..][i].id != id {
          assert trips[1..][i] == trips[i + 1];
        }
      }
      WithoutIdAbsent(trips[1..], id);
      assert trips == [trips[0]] + trips[1..];
    }
  }

  /** Deleting twice is deleting once. */
  lemma WithoutIdIdempotent(trips: seq<Trip>, id: int)
    ensures WithoutId(WithoutId(trips, id), id) == WithoutId(trips, id)
  {
    var r := WithoutId(trips, id);
    assert !HasId(r, id) by {
      forall i | 0 <= i < |r| ensures r[i].id != id {
        assert r[i] in r;
      }
    }
    WithoutIdAbsent(r, id);
  }

  /** When ids are unique, deleting a present id removes exactly one record. */
  lemma {:induction false} WithoutIdRemovesOne(trips: seq<Trip>, id: int)
    requires UniqueIds(trips) && HasId(trips, id)
    ensures |WithoutId(trips, id)| == |trips| - 1
    decreases |trips|
  {
    var rest := trips[1..];
    assert UniqueIds(rest) by {
      forall i, j | 0 <= i < j < |rest| ensures rest[i].id != rest[j].id {
        assert rest[i] == trips[i + 1] && rest[j] == trips[j + 1];
      }
    }
    if trips[0].id == id {
      assert !HasId(rest, id) by {
        forall i | 0 <= i < |rest| ensures rest[i].id != id {
          assert rest[i] == trips[i + 1];
        }
      }
      WithoutIdAbsent(rest, id);
    } else {
      var k :| 0 <= k < |trips| && trips[k].id == id;
      assert rest[k - 1] == trips[k];
      WithoutIdRemovesOne(rest, id);
    }
  }

  /** The delete filter never creates duplicate ids. */
  lemma {:induction false} WithoutIdKeepsUnique(trips: seq<Trip>, id: int)
    requires UniqueIds(trips)
    ensures UniqueIds(WithoutId(trips, id))
    decreases |trips|
  {
    if trips != [] {
      var rest := trips[1..];
      assert UniqueIds(rest) by {
        forall i, j | 0 <= i < j < |rest| ensures rest[i].id != rest[j].id {
          assert rest[i] == trips[i + 1] && rest[j] == trips[j + 1];
        }
      }
      WithoutIdKeepsUnique(rest, id);
      var tail := WithoutId(rest, id);
      if trips[0].id != id {
        var r := [trips[0]] + tail;
        forall i, j | 0 <= i < j < |r| ensures r[i].id != r[j].id {
          if i == 0 {
            assert r[j] == tail[j - 1] && tail[j - 1] in tail;
            var k :| 0 <= k < |rest| && rest[k] == r[j];
            assert rest[k] == trips[k + 1];
          } else {
            assert r[i] == tail[i - 1] && r[j] == tail[j - 1];
          }
        }
      }
    }
  }

  /** Appending a record whose id is fresh keeps the ids unique. */
  lemma AppendFreshKeepsUnique(trips: seq<Trip>, t: Trip)
    requires UniqueIds(trips) && !HasId(trips, t.id)
    ensures UniqueIds(trips + [t])
  {
    var r := trips + [t];
    forall i, j | 0 <= i < j < |r| ensures r[i].id != r[j].id {
      assert r[i] == trips[i];
    }
  }

  /** `trips.find(x => x.id == id)`: the position of the first record with that id, if any. */
  function FirstIndexOf(trips: seq<Trip>, id: int): (r: Option<nat>)
    ensures r.None? <==> !HasId(trips, id)
    ensures r.Some? ==>
      && r.value < |trips|
      && trips[r.value].id == id
      && forall j :: 0 <= j < r.value ==> trips[j].id != id
    decreases |trips|
  {
    if trips == [] then None
    else if trips[0].id == id then Some(0)
    else match FirstIndexOf(trips[1..], id)
      case None =>
        assert forall i :: 0 < i < |trips| ==> trips[i] == trips[1..][i - 1];
        None
      case Some(k) => Some(k + 1)
  }

  /** The four answers of the edit prompts: destination, start date, end date and budget. */
  datatype EditAnswers = EditAnswers(destination: string, startDate: Date, endDate: Date, budget: int)

  datatype EditResult =
    | NotFound                  // no record carries the id ("Trip not found")
    | Cancelled                 // one of the four prompts was cancelled
    | Rejected                  // the new end date lies before the new start date
    | Updated(trips: seq<Trip>) // the edited list, to be saved

  /**
   * `edited` is `trips` with record `i` given the answers' destination, dates and
   * budget; its id and notes, every other record and the length are unchanged.
   */
  predicate OverwrittenAt(trips: seq<Trip>, i: nat, a: EditAnswers, edited: seq<Trip>) {
    && i < |trips| == |edited|
    && (forall j :: 0 <= j < |trips| && j != i ==> edited[j] == trips[j])
    && edited[i].id == trips[i].id
    && edited[i].notes == trips[i].notes
    && edited[i].destination == a.destination
    && edited[i].startDate == a.startDate
    && edited[i].endDate == a.endDate
    && edited[i].budget == Some(a.budget)
  }

  /**
   * The edit handler on a loaded list: find the first record with `id`, ask the
   * four prompts (`None` when one of them is cancelled), re-check the date order
   * and overwrite destination, dates and budget of that one record.
   */
  function ApplyEdit(trips: seq<Trip>, id: int, answers: Option<EditAnswers>): (r: EditResult)
    ensures r == NotFound <==> !HasId(trips, id)
    ensures r == Cancelled <==> HasId(trips, id) && answers.None?
    ensures r == Rejected <==>
      HasId(trips, id) && answers.Some? && Before(answers.value.endDate, answers.value.startDate)
    ensures r.Updated? ==>
      && answers.Some?
      && !Before(answers.value.endDate, answers.value.startDate)
      && FirstIndexOf(trips, id).Some?
      && OverwrittenAt(trips, FirstIndexOf(trips, id).value, answers.value, r.trips)
  {
    match FirstIndexOf(trips, id)
    case None => NotFound
    case Some(i) =>
      if answers.None? then Cancelled
      else
        var a := answers.value;
        if Before(a.endDate, a.startDate) then Rejected
        else
          Updated(trips[i := trips[i].(
            destination := a.destination,
            startDate := a.startDate,
            endDate := a.endDate,
            budget := Some(a.budget))])
  }

  /** An edit never changes the ids, nor their order. */
  lemma ApplyEditKeepsIds(trips: seq<Trip>, id: int, answers: Option<EditAnswers>)
    ensures ApplyEdit(trips, id, answers).Updated? ==>
      Ids(ApplyEdit(trips, id, answers).trips) == Ids(trips)
  {
  }
}
