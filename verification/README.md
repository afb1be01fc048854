# Appointment scheduler booking engine, modelled in Dafny

This project models `AppointmentScheduler` (`core/scheduler.py`), the booking
engine of a doctor-appointment service. The engine keeps two in-memory lists:
the doctors, which are seeded from outside, and the appointments. It books an
appointment only after five checks pass, in a fixed order:

1. the ISO datetime must parse;
2. it must not be in the past;
3. the phone number must hold fewer than two upcoming bookings;
4. the doctor must exist;
5. no booking of that doctor may lie within 29 minutes either side.

It cancels an appointment by deleting it. It lists all appointments by sorting
the stored list in place by datetime string, and lists the upcoming ones as a
sorted, filtered copy.

Files and modules:

- `records.dfy` (`Records`): the doctor and appointment records. It also holds the parser type (instants in microseconds) and the 29-minute window half-width `Gap`.
- `isotext.dfy` (`IsoText`): Python's `str` ordering (`StrLe`). The source uses it on raw datetime text, and the module proves that it is a total order.
- `filtering.dfy` (`Filtering`): Python's list comprehension `[x for x in s if keep(x)]`, with its facts.
- `ordering.dfy` (`Ordering`): the stable `list.sort(key=lambda x: x['datetime'])` as an insertion sort `SortByDatetime`. The module proves that the sort is sorted, a permutation and stable, and that any stable sort gives the same result.
- `rules.dfy` (`Rules`): pure functions of the stored records. `ScanConflict` is the loop of `_is_conflict`, `Book` the decision of `add_appointment` and `Remaining` the filter of `cancel_appointment`. The module also defines the consistency conditions and proves them.
- `scheduler.dfy` (`Scheduler`): the class `AppointmentScheduler`. Its `appointments` field is a `seq` that the methods reassign. Each method is proved against the functions in `Rules`.
- `scenarios.dfy` (`Scenarios`): a worked booking sequence for one doctor, covering the edges of the exclusion window and the phone limit.

Inputs that the source takes from libraries are inputs of the model:

- `datetime.fromisoformat` is the class constant `parse: string -> Option<int>`. It gives instants in microseconds from `datetime.min`, and `None` stands for the ValueError. `MinInstant` and `MaxInstant` are `datetime.min` and `datetime.max` on that scale.
- Each `datetime.now()` reading is a parameter. `now` is the instant for the past-date check (line 82). `nowIso` is the `isoformat()` text for the phone limit (line 86) and for the upcoming list (line 138). These are separate clock readings in the source, so they are separate parameters.
- `uuid.uuid4()` is the parameter `freshId`.
- Writing `appointments.json` is the ghost field `saved`. `Valid()` states that the file and memory hold the same records up to order: the in-place sort changes memory without rewriting the file.

Two kinds of time comparison are kept apart, as in the code:

- The past-date check and the conflict check compare parsed instants.
- The phone limit, the upcoming filter and both sorts compare the raw datetime strings lexicographically.

No link between the two orders is assumed. They can disagree, for instance for `2026-10-11 10:00:00` (space separator) against a clock text of `2026-10-11T09:00:00.500000`.

Where the comments in `core/scheduler.py` promise more than its code does, the model follows the code:

- **Exclusion window.** The docstring of `_is_conflict` speaks of a "30-minute gap" (lines 47-48), and line 53 says 30 minutes apart is valid. The code refuses only bookings at most 29 minutes apart: the window is `[e - 29 min, e + 29 min]`, closed, on microsecond instants. So bookings 29 minutes and 30 seconds apart are both accepted. `NoOverlap` states what the code keeps: more than 29 minutes apart.
- **Phone limit.** The comment at line 85 reads "Max 2 Upcoming Appointments per Phone Number". The code checks this only at booking time, against its own clock text, so the model proves it immediately after a successful booking (`Rules.BookEnforcesRules`).
- **Exceptions from the scan.** The `try` at lines 77-80 guards only the first parse. A stored record of the same doctor can still make `_is_conflict` raise, and the exception ends the booking:
  - ValueError when its datetime does not parse (line 58). The model's error is `StoredDateTimeUnreadable`.
  - OverflowError when its window runs past `datetime.min` or `datetime.max` (lines 61-62). The model's error is `WindowOutOfRange`.

  The new booking's own time is never widened, so a booking at 9999-12-31T23:45:00 is accepted. Later scans of that doctor then raise.
- **Cancelling.** A cancel that finds no record returns `False` with a message. The model returns `ok == false` and leaves the list unchanged.

## Model

| member | source | states |
|---|---|---|
| `Filtering.Filter` | core/scheduler.py:87-90 | the comprehension keeps each element exactly as often as the input holds it when it passes the test, and never otherwise |
| `Filtering.FilterAppend` | core/scheduler.py:119 | filtering distributes over concatenation, so kept records stay in input order |
| `Ordering.SortByDatetime` | core/scheduler.py:133 | the sorted list is a permutation of its input |
| `Ordering.SortIsSorted` | core/scheduler.py:133 | the sorted list is ascending by datetime string |
| `Ordering.SortIsStable` | core/scheduler.py:133 | records with equal datetime strings keep their input order |
| `Ordering.StableSortIsUnique` | core/scheduler.py:133 | two datetime-sorted lists that agree key by key, in order, are equal |
| `Ordering.SortByDatetimeIsTheStableSort` | core/scheduler.py:133-134 | any stable sort by datetime string, such as Python's `list.sort`, gives exactly `SortByDatetime` |
| `Ordering.SortKeepsPairwise` | core/scheduler.py:133 | sorting keeps every symmetric pairwise property of the records |
| `Rules.ScanClearIff` | core/scheduler.py:56-68 | the scan ends with no conflict iff every record of the doctor parses, has a window within the datetime range, and lies outside the window around the requested time |
| `Rules.ScanRaisesOnlyOnBadRecord` | core/scheduler.py:56-62 | the scan raises ValueError only on a record of the doctor whose datetime does not parse, and OverflowError only on one whose window leaves the datetime range |
| `Rules.ConflictExactly` | core/scheduler.py:45-68 | with every stored datetime readable and at least 29 minutes inside the datetime range, `_is_conflict(d, t)` raises nothing and is true iff some record of `d` at `e` has `e - 29 min <= t <= e + 29 min` |
| `Rules.BookChecksInOrder` | core/scheduler.py:76-101 | the refusal is decided by the first failing check, in the order format, past date, phone limit, doctor, conflict; each refusal holds iff the earlier checks pass and its own fails |
| `Rules.BookSucceedsExactly` | core/scheduler.py:70-114 | a booking succeeds iff all five checks pass, and then returns the requested record with status "scheduled" and the fresh id |
| `Rules.BookKeepsNoOverlap` | core/scheduler.py:99-112 | after a successful booking the doctor's bookings are still pairwise more than 29 minutes apart |
| `Rules.BookEnforcesRules` | core/scheduler.py:82-100 | after a successful booking the doctor exists, the new instant is not before now, and the phone has at most two upcoming bookings |
| `Rules.BookKeepsConsistent` | core/scheduler.py:104-113 | a successful booking with an unused id keeps readable datetimes, no overlap, unique ids and known doctors |
| `Rules.Remaining` | core/scheduler.py:119 | cancelling drops every record with the id and keeps all the others with their multiplicities |
| `Rules.CancelKeepsOrder` | core/scheduler.py:119 | the records kept by a cancellation stay in their original order |
| `Rules.CancelReportsRemoval` | core/scheduler.py:118-125 | cancel reports success iff the list got shorter, iff some record carried the id |
| `Rules.CancelTwice` | core/scheduler.py:116-125 | cancelling the same id a second time removes nothing and reports failure |
| `Rules.CancelRemovesAtMostOne` | core/scheduler.py:119-121 | with unique ids a cancellation removes at most one record |
| `Rules.CancelKeepsConsistent` | core/scheduler.py:119 | cancelling keeps every consistency condition |
| `Rules.SortKeepsConsistent` | core/scheduler.py:133 | sorting the stored list keeps every consistency condition |
| `Scheduler.AppointmentScheduler.constructor` | core/scheduler.py:13-20 | the scheduler starts from the loaded lists, with memory and file in agreement |
| `Scheduler.AppointmentScheduler.IsConflict` | core/scheduler.py:45-68 | the loop returns what `ScanConflict` specifies, including both exceptions: no conflict exactly when the slot is free |
| `Scheduler.AppointmentScheduler.AddAppointment` | core/scheduler.py:70-114 | the result is `Book`'s; a refusal changes nothing; a success appends exactly the new record, rewrites the file, enforces the phone limit and keeps consistency |
| `Scheduler.AppointmentScheduler.CancelAppointment` | core/scheduler.py:116-125 | the list becomes `Remaining`; the result is true iff some record had the id; the file is rewritten only on success; consistency is kept |
| `Scheduler.AppointmentScheduler.GetAllDoctors` | core/scheduler.py:127-129 | returns the doctors as loaded |
| `Scheduler.AppointmentScheduler.GetAllAppointments` | core/scheduler.py:131-134 | sorts the stored list in place with the stable sort, returns it, leaves the file alone and keeps consistency |
| `Scheduler.AppointmentScheduler.GetUpcomingAppointments` | core/scheduler.py:136-141 | returns exactly the records not below the clock text, sorted and stable, without changing the stored list |
| `Scenarios.ScenarioFirstBooking` | core/scheduler.py:104-114 | booking 10:00 into an empty calendar returns the scheduled record |
| `Scenarios.ScenarioFifteenMinutes` | core/scheduler.py:99-101 | 15 minutes after an existing booking is a conflict |
| `Scenarios.ScenarioTwentyNineMinutes` | core/scheduler.py:53-54 | 29 minutes after an existing booking is still a conflict |
| `Scenarios.ScenarioThirtyMinutes` | core/scheduler.py:47-48 | exactly 30 minutes after an existing booking is accepted |
| `Scenarios.ScenarioPhoneLimit` | core/scheduler.py:85-93 | a third upcoming booking for one phone is refused |
| `Scenarios.ScenarioPast` | core/scheduler.py:82-83 | a time before the clock is refused as past, whatever the doctor |

## Left out

- File I/O. `_ensure_data_files_exist` and `_load_data` (core/scheduler.py:22-38) read and create JSON files, so the constructor takes the loaded lists instead. `_save_appointments` (lines 40-43) is the ghost field `saved`.
- Corrupt files. When appointments.json does not decode, `_load_data` (lines 34-38) yields an empty list, but the file keeps its old bytes until the next save. The constructor's `saved == stored` does not hold in that case.
- Malformed JSON records. A missing key or a wrongly typed field would raise KeyError or TypeError; every record is taken to carry its six fields with their types.
- Timezone-aware datetimes. Comparing an aware datetime with a naive one raises TypeError; the parser is treated as yielding naive instants only.
- Message texts. The human-readable messages of each outcome are not modelled; the model returns the kind of error or the created record.
- Aliasing. `get_all_doctors` and `get_all_appointments` return the scheduler's own list objects; the model returns their values.
- Concurrency. The source has no locking, and the model is sequential.
- The HTTP layer (`api.py`), the tool-calling proxy (`server/main.py`) and the dashboard (`dashboard.py`) are not part of this model.
- Rules.ConflictExactly: states the iff only when every stored datetime parses and lies at least 29 minutes inside the datetime range. Otherwise the first record of the doctor that is unreadable, overflows or clashes decides. `ScanConflict`, `Rules.ScanClearIff` and `Rules.ScanRaisesOnlyOnBadRecord` capture that case.
- Rules.BookChecksInOrder: states the conflict refusal as an iff only under the same condition, for the same reason.
