# correction42 slot tracker, modelled in Dafny

The program watches the correction slots of one project on the 42 intranet.
Each turn it asks the API for the slots between today and `nb_days` days
later. It announces every slot it has not seen before and appends it to its
tracked list. It then announces and removes every tracked slot the API no
longer lists, and waits ten seconds. A fetch that fails with a status the
program knows (404, 401, anything else) is printed and retried after the
same wait. Any other exception ends the program.

The model has these modules:

- `Wrappers`: an `Option` type.
- `Calendar`: proleptic Gregorian dates for years 1 to 9999, their day
  ordinal, and `date + timedelta(days=n)` with its overflow error.
- `Timestamp`: the fixed-width `%Y-%m-%dT%H:%M:%S` parser applied to the
  first 19 characters of a string, and the ISO form that is its inverse.
- `Slots`: the slot record, its identifier-only equality and its two display
  forms.
- `Fetch`: the request window, the status and body classification of
  `get_slots`, and its three error messages.
- `Reconcile`: reference definitions of what a turn adds and removes, and
  the lemmas about them.
- `Loop`: the `Tracker` class, with the tracked list as a `seq` field and one
  turn of the `while True` loop as the `Cycle` method. `Cycle` runs its two
  `for` loops as `AppendArrivals` and `DropDeparted`.
- `Scenarios`: two worked runs of the loop.
- `Config`: the project-name normalisation.

Outside input is passed in as parameters:

- today's date is a `today: Date` parameter;
- the API is a `server: Window -> Response` function;
- what the user sees is a returned list of `Event`s: the console lines, the
  notification and the waits, in order.

## Model

| member | source | states |
|---|---|---|
| Calendar.DaysInMonth | correction.py:30-31 | every month has 28 to 31 days |
| Calendar.OrdinalRange | correction.py:99 | every valid date has an ordinal in 1..3652059; the ordinal is 1 exactly for 0001-01-01 and 3652059 exactly for 9999-12-31 |
| Calendar.OrdinalInjective | correction.py:99 | two valid dates have the same ordinal iff they are the same date |
| Calendar.NextDay | correction.py:99 | the next day is a valid date one ordinal later; it is missing exactly for 9999-12-31 |
| Calendar.FromOrdinal | correction.py:99 | `date.fromordinal`: for every ordinal in 1..3652059 there is a valid date with exactly that ordinal |
| Calendar.AddDays | correction.py:99 | `date + timedelta(days=n)` is defined iff the resulting ordinal stays within 1..3652059 (otherwise Python raises OverflowError), and is then a valid date whose ordinal is the old ordinal plus n |
| Calendar.AddDaysExact | correction.py:99 | the addition yields e iff e is a valid date whose ordinal is the old ordinal plus n |
| Calendar.AddDaysStep | correction.py:99 | adding one day more gives the next calendar day |
| Timestamp.ValueOfPadded | correction.py:30-31 | reading a zero-padded field back gives the number written |
| Timestamp.PaddedOfValue | correction.py:30-31 | a digit field is the zero-padded form of its value |
| Timestamp.Prefix | correction.py:30-31 | `[:19]`: the first 19 characters, or the whole string when it is shorter |
| Timestamp.ParseTimestamp | correction.py:30-31 | parsing succeeds iff the string has at least 19 characters, its first 19 follow `YYYY-MM-DDTHH:MM:SS`, and the fields form a real date and time |
| Timestamp.ParseIgnoresSuffix | correction.py:30-31 | whatever follows the 19th character has no effect on the parse |
| Timestamp.ParseFormatIso | correction.py:30-31 | the ISO form of any valid timestamp, followed by any suffix, parses back to that timestamp |
| Timestamp.FormatParse | correction.py:30-31 | a parsed prefix is the ISO form of its value, up to the accepted `' 5'` day spelling and lower-case `t` |
| Slots.ParseSlot | correction.py:28-31 | a record gives a slot iff it has `id`, `start` and `end` and both timestamps parse; the slot carries exactly those values |
| Slots.ParseToRecord | correction.py:28-31 | the record written for a slot parses back to that slot |
| Slots.SameSlotIgnoresTimestamps | correction.py:33-36 | `Slot.__eq__` (`SameSlot`): two slots are equal exactly when they differ at most in their timestamps |
| Slots.SameSlotIffSameId | correction.py:33-36 | two parsed slots are equal iff their records' `id`s are equal, whatever their timestamps |
| Slots.Clock | correction.py:40 | `%H:%M` is five characters |
| Slots.Stamp | correction.py:41 | `%d/%m/%Y %H:%M` is sixteen characters |
| Slots.IsToday | correction.py:39 | the short-form condition holds exactly when the start and the end both fall on today's date |
| Slots.Display | correction.py:38-41 | the short form (13 characters) is used exactly when start and end fall on today's date; otherwise the full form (35 characters) is used |
| Slots.ReadClockOf | correction.py:40 | hour and minute can be read back from `%H:%M` |
| Slots.ReadStampOf | correction.py:41 | date, hour and minute can be read back from `%d/%m/%Y %H:%M` |
| Slots.DisplayReadsBack | correction.py:38-41 | the short form shows the start and end times, the full form shows the start and end dates and times, separated by `" - "` |
| Fetch.Message | correction.py:111-114 | every error message is `Could not get slots (`, a reason whose first letter is P for project-not-found, I for invalid-token and U for unknown-error, and `)` |
| Fetch.MessagesDistinct | correction.py:111-114 | the three messages are pairwise different, so the printed line tells which failure occurred |
| Fetch.ParseEach | correction.py:109 | applying a parser to a list succeeds iff it succeeds on every item; the result then has one value per item, in item order |
| Fetch.ParseAll | correction.py:109 | the list comprehension succeeds iff every record parses; the result then has one slot per record, in record order |
| Fetch.Classify | correction.py:106-114 | a body that is not JSON aborts whatever the status; with a JSON body, 200 gives the parsed slots (or aborts when a record does not parse), 404 gives project-not-found, 401 invalid-token, and any other status unknown-error |
| Fetch.ClassifyRoundTrip | correction.py:108-109 | a 200 answer gives exactly the slots its records describe: same length, same order, an empty answer included |
| Fetch.ToRecords | correction.py:109 | one record per slot |
| Fetch.RecordsParse | correction.py:109 | the records written for a list of slots parse back to that list |
| Fetch.FailureStatuses | correction.py:110-114 | every status other than 200 is a caught failure; it is project-not-found iff 404 and invalid-token iff 401 |
| Fetch.RequestWindow | correction.py:99 | the window exists iff today + nb_days stays in the calendar; it starts today and ends nb_days days later |
| Fetch.GetSlots | correction.py:96-114 | a window past the calendar aborts; otherwise the outcome is the classification of the server's answer for that window |
| Reconcile.ContainsByEquality | correction.py:147 | `Contains` is `x in list`, as on lines 147 and 152: it holds iff some element of the list equals `x` by `Slot.__eq__` |
| Reconcile.HasIdAppend | correction.py:147 | an identifier occurs in a concatenation iff it occurs in one of the parts |
| Reconcile.AfterAdditions | correction.py:146-150 | the first loop only appends: the old list is a prefix of the new one |
| Reconcile.ArrivalIds | correction.py:146-150 | an identifier arrives iff it is polled and not tracked before |
| Reconcile.ArrivalsAreFresh | correction.py:146-150 | every appended slot is a polled slot |
| Reconcile.ArrivalsDistinct | correction.py:146-150 | a slot repeated in the poll is appended once |
| Reconcile.ArrivalsStep | correction.py:146-150 | one more polled slot arrives exactly when the list built so far (the tracked slots, then the earlier arrivals) does not contain it, which is the test on line 147 |
| Reconcile.AdditionsAppendArrivals | correction.py:146-150 | the first loop appends exactly the arrivals, in poll order |
| Reconcile.NoArrivals | correction.py:146-150 | when every polled slot is already tracked nothing is appended |
| Reconcile.RetainedStep | correction.py:151-154 | one step of the second loop keeps the slot iff it is still polled and drops it otherwise |
| Reconcile.RetainedDepartedPartition | correction.py:151-154 | kept and dropped slots together are the tracked list, as a multiset |
| Reconcile.RetainedIds | correction.py:151-154 | an identifier is kept iff it was tracked and is still polled |
| Reconcile.RetainedAppend | correction.py:151-154 | keeping and dropping work slot by slot over a concatenation |
| Reconcile.RetainedWhole | correction.py:151-154 | when every tracked slot is still polled, everything is kept and nothing dropped |
| Reconcile.DepartedAreStale | correction.py:151-154 | every removed slot was tracked and is missing from the poll |
| Reconcile.RetainedDistinct | correction.py:151-154 | dropping slots keeps identifiers distinct |
| Reconcile.DistinctAppend | correction.py:150 | appending slots with new identifiers keeps identifiers distinct |
| Reconcile.FirstIndex | correction.py:154 | the position `list.remove` looks for: an element equal (by identifier) to the argument, with none such before it |
| Reconcile.RemoveFirst | correction.py:154 | `list.remove` drops exactly the element at that position and keeps the others in order |
| Reconcile.RemoveStep | correction.py:151-154 | removing a vanished slot from the partly processed list leaves the list the second loop's specification predicts |
| Reconcile.KeepStep | correction.py:151-153 | keeping a still-polled slot leaves that list unchanged |
| Reconcile.ArrivalsRetained | correction.py:146-154 | the second loop never drops a slot the first loop just appended |
| Reconcile.Reconciled | correction.py:146-154 | after both loops the list is the still-polled tracked slots, in old order and as first recorded, followed by the arrivals in poll order |
| Reconcile.ReconciledShape | correction.py:146-154 | the second loop removes exactly the departed slots of the tracked list before the turn, in that order; no arrival is removed |
| Reconcile.ReconciledIds | correction.py:146-154 | after a successful turn an identifier is tracked iff it was polled |
| Reconcile.ReconciledDistinct | correction.py:146-154 | a tracked list without duplicate identifiers keeps none after a turn |
| Reconcile.ReconcileIdempotent | correction.py:146-154 | reconciling twice with the same poll adds nothing, removes nothing and changes nothing |
| Loop.NewSlotEvents | correction.py:148-149 | one announcement per appended slot, the `i`-th announcing the `i`-th appended slot |
| Loop.RemovedEvents | correction.py:153 | one announcement per removed slot, the `i`-th announcing the removal of the `i`-th removed slot |
| Loop.TurnEvents | correction.py:146-156 | a successful turn outputs the arrival announcements in order, then the removal announcements in order, then one wait |
| Loop.AnnouncedSlots | correction.py:146-156 | in the output of a turn every announced new slot was polled and was not tracked, and every announced removal was tracked and is no longer polled |
| Loop.CycleEvents | correction.py:146-156 | the output of a successful turn ends with the wait; each new-slot announcement names a polled, untracked slot and each removal announcement a tracked slot no longer polled |
| Loop.QuietRepeat | correction.py:146-156 | a second turn on the same poll only waits and leaves the tracked list as it was |
| Loop.Tracker.constructor | correction.py:137 | tracking starts with an empty list |
| Loop.Tracker.Cycle | correction.py:138-156 | a successful turn leaves kept slots followed by arrivals, announces all additions before any removal, then waits, and keeps identifiers distinct; a caught failure prints its message, waits and leaves the list untouched for the retry; an uncaught exception stops the loop with the list untouched |
| Loop.AppendStep | correction.py:146-150 | one iteration of the first loop keeps its invariant: the list is the tracked slots followed by the arrivals so far, announced in order |
| Loop.Tracker.AppendArrivals | correction.py:146-150 | the first loop appends and announces exactly the arrivals, in poll order |
| Loop.Tracker.DropDeparted | correction.py:151-154 | the second loop, over a copy, removes and announces exactly the tracked slots no longer polled, in tracked order |
| Scenarios.WindowExists | correction.py:99 | on any day before the year 9999 a week-long request window fits in the calendar |
| Scenarios.ServingFetches | correction.py:96-109 | a server answering 200 with the records of some slots yields exactly those slots |
| Scenarios.FailingFails | correction.py:110-114 | a server answering any other status yields the matching caught failure |
| Scenarios.FirstPollFacts | correction.py:146-154 | the poll {a, b} against an empty list adds both and removes nothing |
| Scenarios.SecondPollFacts | correction.py:146-154 | the poll {b moved, c} against [a, b] adds c, keeps the old b, removes a |
| Scenarios.DiffScenario | correction.py:137-156 | two turns announce a and b, then c and the removal of a, and leave [b, c] with b as first recorded |
| Scenarios.RetryScenario | correction.py:139-156 | a failed turn prints its message and waits; the retry against the unchanged empty list announces the slot it finds |
| Config.ReplaceSpaces | correction.py:78 | `str.replace` of spaces by hyphens: same length, a hyphen exactly where a space was, no space left |
| Config.Lower | correction.py:78 | `str.lower()`: same length, each character lowered, no upper-case ASCII letter left |
| Config.NormaliseProjectName | correction.py:78 | spaces become hyphens and letters become lower case, position by position; the result has no spaces and no upper-case letters |
| Config.NormaliseIdempotent | correction.py:78 | normalising a normalised name changes nothing |

## Left out

- HTTP: the URL template, the headers, the 10-second timeout and transport errors. The server is a parameter that always answers. A connection error or timeout is not modelled. The program does not turn it into the unknown-error message; it ends the program.
- Non-list JSON bodies, records that are not objects, and field values that are not strings. A body is either undecodable or a list of string maps.
- Config file lookup, loading and saving, and the interactive prompts. Only the normalisation on line 78 is modelled.
- The console output, the `rich` status spinner and the desktop notification. They appear only as `Event`s. The `datetime.now()` prefix of the console lines is not modelled.
- `sleep`, `date.today()` and `KeyboardInterrupt`. The wait is a `Wait(10)` event and today is a parameter. The endless loop is modelled as repeated `Cycle` calls.
- `Slot.__eq__` raising `NotImplementedError` for a non-slot. The types rule this case out.
- Python object identity. A kept slot is the same value as the one first recorded, with its stale timestamps. Aliasing of the `Slot` objects is not modelled.
- Timestamp.ParseTimestamp: Unicode digits, which `strptime` also accepts, are not modelled. Short strings are always rejected, whereas `strptime` accepts single-digit fields when the string has fewer than 19 characters. Leap seconds are not modelled either. With 19 or more characters, the fixed-width layout is what `strptime` accepts, plus the two spellings `' 5'` for the day and lower-case `t`, which are both modelled.
- Calendar.FromOrdinal: counts days forward from 0001-01-01 instead of using CPython's 400-year-cycle arithmetic. Both give the same date, because distinct dates have distinct ordinals (`Calendar.OrdinalInjective`).
- Slots.Stamp: years below 1000 are written with four digits. Python's `%Y` padding for such years depends on the platform.
- Config.NormaliseProjectName: lower-casing covers ASCII letters only, not the rest of Unicode.
- Config.Lower: lowers ASCII letters only; `str.lower()` also lowers the other Unicode letters.
- Status codes: the program treats only 200 as success. Every other 2xx code gives the unknown-error message, and the model follows that.
