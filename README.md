# Travel Planner: trip store and dashboard, modelled in Dafny

This project models the non-UI logic of the Travel Planner web app (`app.js`). The app keeps
each user's trips in the browser's local storage under the key `trips_<email>`, and its page
handlers do the following:

- **Login** accepts a Gmail address with a password of at least six UTF-16 code units,
  remembers the user and initialises an absent or empty trip item to `[]`.
- **Add** validates the trip form and appends one record to the loaded list, then saves the
  whole list.
- **Delete** filters out the records with the given id, then saves.
- **Edit** finds the first record with the id, re-checks that the end date is not before the
  start date, overwrites destination, dates and budget, then saves.
- **Dashboard** shows the number of trips, the total budget and the next upcoming trip.
- **`escapeHtml`** replaces `& < > " '` by their entities before text is rendered.

Modules:

- `Wrappers` (`wrappers.dfy`): `Option` and `Result`.
- `Dates` (`dates.dfy`): dates are ISO strings `YYYY-MM-DD`. `Before` is their lexicographic
  order, which is chronological for that shape. The file also proves that this order is a
  strict total order.
- `Text` (`text.dfy`): `trim`, using the exact ECMAScript white-space set; `endsWith`; and
  `Utf16Length`, the UTF-16 code-unit count that `length` returns, used by the password check.
- `Html` (`html.dfy`): `escapeHtml` and an inverse used to prove that escaping loses nothing.
- `Trips` (`trips.dfy`): the trip record, add-form validation, the delete filter, the edit
  lookup and the edit, and id uniqueness.
- `Dashboard` (`dashboard.dfy`): the total budget (a left fold, like `reduce`), the upcoming
  trip as filter + stable sort + head, and a one-pass reference scan proved equal to it.
- `Store` (`store.dfy`): the storage map and the pure state transitions (`Saved`,
  `AfterLogin`, `Added`, `Deleted`, `Edited`). The class `TripStore` holds the storage map and
  the `loggedInUser` item, and its methods perform the handlers step by step. Each method's
  contract says that the new storage is exactly the corresponding transition of the old one.

A storage item is one of:

- absent;
- `Blank` (the empty string);
- `Json(trips)` (a JSON-encoded list);
- `FalsyJson` (JSON for `null`, `false`, `0` or `""`);
- `Unparsable`.

Loading gives the stored list for `Json` and the empty list otherwise. Login initialises the
item only when it is absent or blank, because `!getItem(key)` is true only for those.

Notes on what the code does:

- The edit handler re-checks only the date order. It accepts an empty or untrimmed destination.
- No handler checks that a new id is unique. `Store.HandlersKeepIdsUnique` proves that
  uniqueness is preserved when the caller supplies an id that no record carries yet.
- A delete of an unknown id raises no error and leaves the loaded list unchanged. It still
  saves, so an absent, blank, falsy or unparsable item becomes `[]`. An unknown id at edit
  reports "not found" and writes nothing.

## Model

| member | source | states |
|---|---|---|
| Store.TripsKey | app.js:16 | the key is `trips_` followed by the email; the email can be read back from it; it never equals the `loggedInUser` key |
| Store.TripsKeyInjective | app.js:16 | distinct emails give distinct storage keys |
| Store.LoadTrips | app.js:17-21 | loading returns the stored list when the item holds one, and the empty list when it is absent, blank, falsy or unparsable (it never fails) |
| Store.LoadAfterSave | app.js:17-24 | saving a list and then loading it returns the same list in the same order |
| Store.SaveKeepsOtherUsers | app.js:22-24 | saving one user's list leaves every other user's loaded list unchanged |
| Store.CredentialsAccepted | app.js:34 | the login test; an accepted email is at least as long as `@gmail.com` and an accepted password has at least 3 characters; `TripStore.Login` states the full acceptance condition |
| Store.Saved | app.js:22-24 | saving sets the user's item to the whole list and leaves every other item as it was |
| Store.AfterLogin | app.js:41 | an absent or empty item of the user becomes the empty list `[]`; an item already holding text keeps its value; no other key is added and every other item is unchanged |
| Store.LoginKeepsTrips | app.js:41 | login never changes what any user's trip list loads as |
| Store.Added | app.js:85-87 | after an add the user's list loads as the old list with the record appended; the only key that can be added is the user's; other items are unchanged |
| Store.Deleted | app.js:147-148 | after a delete the user's item holds a list, which loads as the filtered old list; the only key that can be added is the user's; other items are unchanged |
| Store.Edited | app.js:153-169 | without an update the storage is unchanged; with one, the user's list loads as the edited list; no key other than the user's can be added; other items are unchanged |
| Store.AddAppendsOne | app.js:85-87 | a valid add grows the list by one record, appended last, with all earlier records unchanged |
| Store.DeleteTwiceIsDeleteOnce | app.js:147-148 | deleting the same id twice leaves the same storage as deleting it once |
| Store.DeleteAbsentKeepsTrips | app.js:147-148 | deleting an id that no record carries leaves the loaded list unchanged |
| Store.EditWithoutUpdateWritesNothing | app.js:153-169 | an edit with an unknown id, a cancelled prompt or an end before the start writes nothing |
| Store.HandlersKeepIdsUnique | app.js:86 | add with a fresh id, delete and edit all preserve unique ids |
| Store.TripStore.Load | app.js:17-21 | the method returns exactly the fail-soft loaded list and changes nothing |
| Store.TripStore.Save | app.js:22-24 | the user's item now holds the whole list; nothing else changes |
| Store.TripStore.Login | app.js:29-42 | accepted iff the trimmed email ends with `@gmail.com` and the trimmed password is at least 6 UTF-16 code units long; on acceptance the session is the user and the storage is `AfterLogin`; otherwise nothing changes |
| Store.TripStore.AddTrip | app.js:68-87 | the outcome is the form check; a rejected form changes nothing; an accepted form leaves exactly `Added` (loaded list plus the new record, saved) |
| Store.TripStore.DeleteTrip | app.js:145-148 | a declined confirmation changes nothing; otherwise the storage is `Deleted` (the filtered list, saved) |
| Store.TripStore.EditTrip | app.js:153-169 | the result is `ApplyEdit` on the loaded list, and the storage is the edited list saved, or unchanged when nothing was updated |
| Store.TripStore.ShowDashboard | app.js:195-200 | the count is the loaded list's length, the total is its total budget, and the summary is the dashboard of the loaded list |
| Trips.MissingRequired | app.js:76 | a form with all required fields present has a destination with at least one non-white-space character |
| Trips.NewTrip | app.js:70-86 | `MissingField` iff the trimmed destination, a date or the budget is empty; `EndBeforeStart` iff all are present and end < start; otherwise a record with the given id, trimmed destination and notes, the dates and the budget, with end >= start |
| Trips.WithoutId | app.js:147 | the result holds exactly the records whose id differs from the target, and is no longer than the input |
| Trips.WithoutIdAppend | app.js:147 | the filter keeps list order: filtering a concatenation filters each part |
| Trips.WithoutIdAbsent | app.js:147 | when no record carries the id, the list is unchanged |
| Trips.WithoutIdIdempotent | app.js:147 | filtering twice equals filtering once |
| Trips.WithoutIdRemovesOne | app.js:147 | with unique ids, deleting a present id removes exactly one record |
| Trips.WithoutIdKeepsUnique | app.js:147 | the filter never creates duplicate ids |
| Trips.AppendFreshKeepsUnique | app.js:86 | appending a record with a fresh id keeps ids unique |
| Trips.FirstIndexOf | app.js:154 | `None` iff no record has the id; otherwise the index of a record with the id, with no earlier record having it |
| Trips.ApplyEdit | app.js:153-168 | `NotFound` iff no record has the id; `Cancelled` iff a prompt was cancelled; `Rejected` iff end < start; otherwise only the first matching record changes, in destination, dates and budget, keeping its id and notes, the other records and the length |
| Trips.ApplyEditKeepsIds | app.js:165-168 | an edit leaves the sequence of ids unchanged |
| Dashboard.BudgetOf | app.js:197 | a missing budget counts 0; a present budget counts its value |
| Dashboard.TotalBudget | app.js:197 | the left-fold total is non-negative when every budget is, and 0 when every budget counts 0; `TotalBudgetAppend` and `MissingBudgetCountsZero` state its additivity |
| Dashboard.TotalBudgetAppend | app.js:197 | the total budget is additive over concatenation |
| Dashboard.MissingBudgetCountsZero | app.js:197 | a record without a budget adds 0 to the total |
| Dashboard.StartsOnOrAfter | app.js:199 | the filter test `new Date(t.startDate) >= new Date()`: the trip starts on `now` or strictly after it |
| Dashboard.StartingFrom | app.js:199 | the filter keeps exactly the records starting at `now` or later and is no longer than the input (with `StartingFromAppend` this fixes the result) |
| Dashboard.StartingFromAppend | app.js:199 | the filter keeps list order: filtering a concatenation filters each part |
| Dashboard.InsertByStart | app.js:199 | insertion adds exactly the new record to the multiset of records |
| Dashboard.SortByStart | app.js:199 | the sort returns a permutation of its input |
| Dashboard.InsertByStartSorted | app.js:199 | inserting into a list sorted by start date keeps it sorted |
| Dashboard.SortByStartSorted | app.js:199 | the sort's result is ordered by start date |
| Dashboard.FirstEarliestIndex | app.js:199 | the scan finds nothing iff no record starts at `now` or later; otherwise it finds a qualifying record |
| Dashboard.FirstEarliestIndexCorrect | app.js:199 | the found record is the earliest qualifying one and, on ties, the first in list order |
| Dashboard.UpcomingStep | app.js:199 | a first trip that starts at `now` or later is the upcoming trip unless the rest's upcoming trip starts strictly before it; a first trip that does not qualify is skipped |
| Dashboard.UpcomingIsFirstEarliest | app.js:199 | the head of the sorted filter is exactly the record the scan finds |
| Dashboard.Upcoming | app.js:199 | a result is a record of the list that starts at `now` or later; `UpcomingSpec` and `UpcomingIsFirstEarliest` state that it is the earliest such record, the first in list order on ties |
| Dashboard.UpcomingSpec | app.js:199-200 | no upcoming trip iff no record starts at `now` or later; otherwise it is a record of the list that starts at `now` or later, no qualifying record starts earlier, and every qualifying record before it in the list starts strictly later |
| Dashboard.Summarize | app.js:195-200 | the count is the list length, the total is the total budget, and the label is the upcoming trip's destination or "None" |
| Dashboard.SummarizeAppend | app.js:195-197 | appending a trip raises the count by one and the total by that trip's budget (0 if missing) |
| Html.Entity | app.js:206 | each special character maps to its entity; any other character maps to itself; no replacement contains raw markup or a non-leading `&` |
| Html.EscapeHtml | app.js:204-207 | the output contains none of `< > " '` and is at least as long as the input |
| Html.EscapeHtmlAppend | app.js:206 | escaping works character by character: escaping a concatenation escapes each part |
| Html.EscapeHtmlKeepsPlain | app.js:206 | text without special characters is returned unchanged |
| Html.EscapedAmpersandsStartEntities | app.js:206 | each `&` in the output starts one of the five entities |
| Html.UnescapeEscapeHtml | app.js:204-207 | decoding the escaped text gives back the input, so escaping loses nothing |
| Text.Trim | app.js:31-32 | trim returns the slice that remains after removing white space at both ends; everything removed is white space, and the slice neither starts nor ends with it |
| Text.TrimEmptyIff | app.js:70-76 | a trimmed field is empty (falsy) iff the raw input is all white space |
| Text.TrimIdempotent | app.js:70 | trimming twice equals trimming once |
| Text.Utf16Length | app.js:34 | `length` counts UTF-16 code units: one character counts 1, or 2 when it lies above U+FFFF; the total lies between the number of characters and twice it, and equals it when no character lies above U+FFFF |
| Text.Utf16LengthAppend | app.js:34 | the code-unit count is additive over concatenation, so with the one-character case it is the sum over the characters |
| Text.EndsWith | app.js:34 | `s.endsWith(suffix)` holds iff the suffix fits in `s` and matches its last characters one by one |
| Text.EndsWithIff | app.js:34 | `endsWith(suffix)` holds iff the string is some prefix followed by the suffix |
| Dates.Before | app.js:80 | the date comparison `new Date(a) < new Date(b)` on ISO strings; a date is never before an equal one; `BeforeTotal`, `BeforeTransitive` and `BeforeIrreflexive` state that it is a strict total order |
| Dates.BeforeTotal | app.js:199 | any two dates are equal or strictly ordered one way or the other |
| Dates.BeforeTransitive | app.js:199 | the date order is transitive |
| Dates.BeforeIrreflexive | app.js:199 | no date lies before itself |
| Dates.NotBeforeIff | app.js:199 | "not before" means equal or strictly after |
| Dates.NotBeforeTransitive | app.js:199 | "on or after" is transitive |

## Left out

- DOM rendering, `innerHTML` templates, page navigation and `form.reset` are not modelled.
- The answers to `confirm` and `prompt` are parameters: `confirmed` for delete, and
  `Option<EditAnswers>` for edit, where `None` means one of the four prompts was cancelled.
  `alert` messages become result values.
- `requireLogin`, `getLoggedEmail` and logout are not modelled. The handlers take the user's email as a
  parameter. The source's fall-through when nobody is logged in, which would use the key
  `trips_null`, is not modelled.
- JSON text is not modelled. A stored item is one of the five abstract cases listed above. An
  item whose JSON is a truthy non-list value, or a list of values that are not trip records,
  is not modelled.
- JavaScript `Date` parsing is not modelled. Dates are ISO strings compared
  lexicographically. An unparsable date ("Invalid Date", for which every comparison is false)
  is not modelled; for example, the edit prompts would let one through.
- Dashboard.StartsOnOrAfter: `now` is a date. The source compares a start date (UTC
  midnight) with the current instant, so in the source a trip starting today usually does not
  count as upcoming. The model counts it.
- `Number(...)` coercion is not modelled. Budgets are integers; floats and `NaN` are out of
  scope. An empty add-form budget is `None`, and an edit budget is already a number.
- `Date.now()` is not called. The new record's id is a parameter. Ids are compared as
  integers, where the source compares them as strings.
- The edit handler changes the found record's fields in place inside the loaded array. The
  model replaces that element of the loaded sequence. Nothing else refers to the record, so
  the result is the same.
- Two tabs racing on the same item (last writer wins) are not modelled; the model has a
  single session.
- Dashboard.SortByStart: stability (equal start dates keep their list order) is proved only
  for the head of the sorted list, through `UpcomingIsFirstEarliest`. Stability of the whole
  sorted list is not stated.
