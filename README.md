# Task tracker and banking dashboard: a Dafny model

This project models the core logic of a small MERN application in Dafny:

- **The task record** (`backend/models/Task.js`). A task has a required owner (`userId`) and a required `title`. `description` defaults to the empty string and `deadline` to null. `status` is one of `todo`, `in-progress`, `done` and defaults to `todo`. Every record has `createdAt`/`updatedAt` timestamps. A stored record is a *document*: a map from field names to values. `Decode` views a conforming document as a typed `Task`.
- **The task controller** (`backend/test/example_test.js`). The controller's own source is not part of this model. Its behaviour is the one its behavioural tests pin down.
  - It is modelled as a `TaskService` class over a map store with `AddTask`, `GetTasks`, `UpdateTask` and `DeleteTask`.
  - Each handler answers through a `MockRes` response recorder.
  - Every store call that can fail takes its failure as an explicit `Option<string>` parameter.
  - Each test case is replayed as a `Scenario…` method whose contract is what the test expects.
- **The mini calendar** (`frontend/src/components/CalendarMini.jsx`). This covers the `YYYY-MM-DD` keys (`pad`, `ymd`), `isSameDay`, the 42-day Sunday-first month grid, the grouping of events by day, and month navigation.
  - JavaScript's `Date` is replaced by an explicit proleptic Gregorian calendar on integer (year, month, day) triples (module `CivilDate`). Months run 0..11 and weekdays run 0 (Sunday)..6, as `getMonth`/`getDay` give them.
- **The account dashboard** (`frontend/src/pages/Tasks.jsx`). This covers the balance and history state, the transfer and deposit handlers with their validation, and the avatar initials.
- **The credential forms** (`frontend/src/pages/Register.jsx`, `Login.jsx`). This covers the payloads they post (name trimmed, e-mail lower-cased then trimmed, password verbatim), the error fallback, and the "sign in only on success" rule.
- The JavaScript string primitives the pages use live in module `Text`: `trim`, `\s`, `toLowerCase`/`toUpperCase`, and decimal printing of integers.

Behaviour worth knowing before reading the contracts:

- **Update merge.** An update writes *every* key of the body onto the task, as the update test requires for the unknown key `completed` (`backend/test/example_test.js:84-85`). It does not use an allow-list of schema fields. The update merge is therefore unrestricted: a body carrying `userId` re-assigns the owner.
- **Re-validation on save.** The save after an update re-validates the schema, as the model's `save` does. An update that would empty the title or set an unknown status is therefore rejected with 500.
- **Two-digit years.** The calendar builds every month view with `new Date(year, month, 1)`. That constructor reads a year from 0 to 99 as 1900 to 1999, and the model does the same (`CivilDate.FullYear`). So navigating forward from December of year 99 lands on January 2000. Navigating back from January of year 100 and then forward again also lands on January 2000.

## Model

| member | source | states |
|---|---|---|
| TaskSchema.ParseStatus | backend/models/Task.js:10 | a status is accepted iff it is one of `todo`, `in-progress`, `done`, and the accepted spelling maps back to itself |
| TaskSchema.ApplyDefaults | backend/models/Task.js:8-10 | absent `description`, `deadline`, `status` become `""`, null, `todo`; present fields are kept; no other key is added |
| TaskSchema.Violations | backend/models/Task.js:6-12 | a document breaking no rule has an owner reference and a non-empty string title; a missing owner is the first violation reported |
| TaskSchema.Decode | backend/models/Task.js:4-13 | the typed view of a conforming document carries the stored owner and its non-empty title |
| TaskSchema.DecodeIffConforms | backend/models/Task.js:4-13 | a document is a valid task iff it has every schema field and breaks no schema rule |
| TaskSchema.DecodeEncode | backend/models/Task.js:4-13 | a task with a title is stored and read back unchanged |
| TaskSchema.EncodeDecode | backend/models/Task.js:4-13 | decoding a conforming document loses none of its schema fields |
| TaskSchema.StatusInEnum | backend/models/Task.js:10 | every stored task's status is one of the three enum spellings |
| TaskSchema.NewDocument | backend/models/Task.js:6-12 | creation succeeds iff no rule is broken after defaults; missing `userId` or `title` is rejected; on success the record decodes, keeps owner, title and given fields, gets the defaults for absent fields, and both timestamps equal the creation time |
| TaskSchema.DraftAccepted | backend/models/Task.js:6-10 | a draft with an owner reference, a non-empty title and well-kinded optional fields is accepted |
| TaskSchema.SaveDocument | backend/models/Task.js:12 | a save succeeds iff the document breaks no rule; it keeps every other field, and every successful save sets `updatedAt` to the save time |
| TaskService.MockRes.Status | backend/test/example_test.js:15 | sets the status code and keeps the payload |
| TaskService.MockRes.Json | backend/test/example_test.js:16 | sets the payload and keeps the status code |
| TaskService.MockRes.constructor | backend/test/example_test.js:11-18 | a fresh recorder has status 200 and no payload |
| TaskService.OwnedBy | backend/test/example_test.js:121-136 | the owner query returns stored tasks only, each unchanged |
| TaskService.OwnedByExactly | backend/test/example_test.js:121-136 | in a store of valid tasks, the query returns exactly the tasks whose owner is the caller |
| TaskService.OwnedByDisjoint | backend/test/example_test.js:121-136 | no task is listed for two different callers |
| TaskService.Merge | backend/test/example_test.js:79-85 | every body key overwrites the field; every other field is kept; keys are the union |
| TaskService.TaskService.constructor | backend/test/example_test.js:20-24 | the store starts empty |
| TaskService.TaskService.AddTask | backend/test/example_test.js:26-57 | a valid draft is stored under a fresh id, owned by the caller, and answered 201 with exactly that record; a validation or store failure answers 500 with the error's message and stores nothing; store validity is kept |
| TaskService.TaskService.GetTasks | backend/test/example_test.js:121-149 | answers 200 with exactly the caller's tasks, unchanged, or 500 with the store's message; never changes the store |
| TaskService.UpdateAccepted | backend/test/example_test.js:79-85 | an update whose every field has the kind the schema gives it is accepted by the save of a stored task |
| TaskService.UpdatedRecord | backend/test/example_test.js:79-87 | the saved record of an update carries every body key, keeps every other field, still conforms, has `updatedAt` set to the save time, and keeps the owner unless the body names one |
| TaskService.TaskService.UpdateTask | backend/test/example_test.js:66-112 | on a successful save the task becomes the saved merge of the old record and the body and is answered 200 with the whole record; a missing id answers 404 "Task not found"; a failed lookup, validation or save answers 500 and changes nothing; no other task changes |
| TaskService.TaskService.DeleteTask | backend/test/example_test.js:158-194 | a found task has `remove` called exactly once, then is absent and answered 200 "Task deleted"; a missing id answers 404 "Task not found"; failures answer 500 with the message; no other task changes |
| TaskService.StoreWithOneTask | backend/test/example_test.js:67-77 | builds the store the update test stubs: one task with the old title, description and `completed: false` |
| TaskService.ScenarioAddTaskCreates | backend/test/example_test.js:26-41 | 201, and the created record carries the caller as owner, the body's title, description and deadline, and the default status |
| TaskService.ScenarioAddTaskStoreError | backend/test/example_test.js:43-57 | 500 with message "DB Error" |
| TaskService.ScenarioUpdateTask | backend/test/example_test.js:66-88 | 200; title becomes "New Task" and `completed` becomes true; description and owner are kept |
| TaskService.ScenarioUpdateMissing | backend/test/example_test.js:90-100 | 404 with exactly "Task not found" |
| TaskService.ScenarioUpdateStoreError | backend/test/example_test.js:102-112 | 500 with the store's message |
| TaskService.AddTitled | backend/test/example_test.js:123-128 | adds one task with the given title, owned by the user, under the next id and keeps the others |
| TaskService.ScenarioGetTasks | backend/test/example_test.js:121-137 | 200 listing exactly ids 0 and 1: "Task 1" and "Task 2", both owned by the user |
| TaskService.ScenarioGetTasksStoreError | backend/test/example_test.js:139-149 | 500 with message "DB Error" |
| TaskService.ScenarioDeleteTask | backend/test/example_test.js:158-170 | `remove` called once, the store is empty afterwards, 200 "Task deleted" |
| TaskService.ScenarioDeleteMissing | backend/test/example_test.js:172-182 | 404 with exactly "Task not found" |
| TaskService.ScenarioDeleteStoreError | backend/test/example_test.js:184-194 | 500 with message "DB Error" |
| Text.TrimStart | frontend/src/pages/Register.jsx:15 | removes exactly the leading whitespace: the result is a suffix, what was cut is all whitespace, and the result does not start with whitespace |
| Text.TrimEnd | frontend/src/pages/Register.jsx:15 | removes exactly the trailing whitespace |
| Text.Trim | frontend/src/pages/Register.jsx:15 | the result has no whitespace at either end and is the input minus whitespace-only borders |
| Text.TrimOfTrimmed | frontend/src/pages/Register.jsx:15 | trimming a trimmed string changes nothing |
| Text.TrimIdempotent | frontend/src/pages/Register.jsx:15 | trimming twice equals trimming once |
| Text.LowerChar | frontend/src/pages/Register.jsx:16 | an upper-case ASCII letter becomes its lower-case partner (32 code points up); every other character is kept; whitespace-ness is kept |
| Text.UpperChar | frontend/src/pages/Tasks.jsx:33 | a lower-case ASCII letter becomes its upper-case partner (32 code points down); every other character is kept; whitespace-ness is kept |
| Text.ToLower | frontend/src/pages/Register.jsx:16 | same length, and each character is the lower-case form of the input's character at that position; no upper-case letter is left |
| Text.ToLowerIffSameIgnoringCase | frontend/src/pages/Login.jsx:17 | two strings have the same lower-case form exactly when they differ at most in the case of their letters |
| Text.ToLowerOfLower | frontend/src/pages/Register.jsx:16 | lower-casing a string without upper-case letters changes nothing |
| Text.DigitValue | frontend/src/components/CalendarMini.jsx:4 | reading a digit is the inverse of printing it |
| Text.NatToString | frontend/src/components/CalendarMini.jsx:4-5 | a non-negative integer prints as at least one digit, without a leading zero, and as one digit exactly below 10 |
| Text.ParseNatToString | frontend/src/components/CalendarMini.jsx:4-5 | reading back the printed digits gives the number |
| Text.IntToString | frontend/src/components/CalendarMini.jsx:4-5 | a template literal prints an integer as at least one character, starting with `-` exactly for negatives |
| Text.ParseIntToString | frontend/src/components/CalendarMini.jsx:5 | every integer round-trips through its decimal rendering |
| CivilDate.DaysInMonth | frontend/src/components/CalendarMini.jsx:21 | every month has 28 to 31 days |
| CivilDate.NextDay | frontend/src/components/CalendarMini.jsx:21 | the day after a real day is a real day |
| CivilDate.PrevDay | frontend/src/components/CalendarMini.jsx:16 | the day before is a real day whose next day is the original |
| CivilDate.AddDays | frontend/src/components/CalendarMini.jsx:20-21 | `setDate(getDate() + n)` lands on a real day |
| CivilDate.SubDays | frontend/src/components/CalendarMini.jsx:15-16 | `setDate(getDate() - n)` lands on a real day |
| CivilDate.AddDaysAdditive | frontend/src/components/CalendarMini.jsx:20-21 | moving `a` then `b` days is moving `a + b` days |
| CivilDate.AddDaysAfterPrev | frontend/src/components/CalendarMini.jsx:15-21 | one day back then `n` forward is `n - 1` forward |
| CivilDate.AddSubDays | frontend/src/components/CalendarMini.jsx:15-21 | `n` days back then `n` forward returns to the same day |
| CivilDate.AddDaysWithinMonth | frontend/src/components/CalendarMini.jsx:20-21 | inside one month, moving forward only counts up the day |
| CivilDate.SubDaysIntoPrevMonth | frontend/src/components/CalendarMini.jsx:15-16 | going back from the 1st stays in the previous month, counting down from its last day |
| CivilDate.MultiplesStep | frontend/src/components/CalendarMini.jsx:21 | counting multiples of 4, 100, 400 one further adds one exactly at a multiple |
| CivilDate.LeapCount | frontend/src/components/CalendarMini.jsx:21 | the leap days before year `y + 1` are those before `y`, plus one exactly when `y` is a leap year |
| CivilDate.MonthsOfYear | frontend/src/components/CalendarMini.jsx:21 | the twelve month lengths add up to 366 in a leap year and 365 otherwise |
| CivilDate.YearLength | frontend/src/components/CalendarMini.jsx:21 | a year has 366 days iff it is a leap year, 365 otherwise |
| CivilDate.NextDayNumber | frontend/src/components/CalendarMini.jsx:21 | consecutive days have consecutive day numbers |
| CivilDate.AddDaysNumber | frontend/src/components/CalendarMini.jsx:20-21 | `n` days later is `n` day numbers later |
| CivilDate.SubDaysNumber | frontend/src/components/CalendarMini.jsx:15-16 | `n` days earlier is `n` day numbers earlier |
| CivilDate.DayOfWeek | frontend/src/components/CalendarMini.jsx:14 | the weekday is in 0..6 |
| CivilDate.EpochIsThursday | frontend/src/components/CalendarMini.jsx:14 | 1970-01-01 is a Thursday, as `getDay` says |
| CivilDate.NextDayOfWeek | frontend/src/components/CalendarMini.jsx:14 | the weekday advances by one, cyclically, from day to day |
| CivilDate.WeekdayBack | frontend/src/components/CalendarMini.jsx:14-16 | the day as many days before a day as its weekday is a Sunday |
| CivilDate.FirstOfMonth | frontend/src/components/CalendarMini.jsx:13 | the 1st of month `m` of year `y` is a real 1st, with an out-of-range month carried into the year (same month count `12 * year + month`) |
| CivilDate.FullYear | frontend/src/components/CalendarMini.jsx:13 | the year the Date constructor uses: a year from 0 to 99 is read as 1900 + y, any other as itself, so the result is never in 0..99 |
| CivilDate.MonthStart | frontend/src/components/CalendarMini.jsx:13 | `new Date(y, m, 1)` is a real 1st of a month, with an out-of-range month carried into the year and a year from 0 to 99 read as 1900 to 1999 |
| CivilDate.TwoDigitYears | frontend/src/components/CalendarMini.jsx:55 | `new Date(99, 12, 1)` is the 1st of January 2000 and `new Date(50, 3, 1)` the 1st of April 1950 |
| CivilDate.MonthCarry | frontend/src/components/CalendarMini.jsx:55 | in calendar arithmetic the month after month `m` is `m + 1` of the same year, or January of the next year after December |
| CivilDate.MonthBorrow | frontend/src/components/CalendarMini.jsx:54 | in calendar arithmetic the month before month `m` is `m - 1` of the same year, or December of the year before after January |
| CalendarMini.Pad | frontend/src/components/CalendarMini.jsx:4 | numbers 0..99 become exactly two digits that read back as the number; below 10 the first is `0`; from 10 on the plain decimal |
| CalendarMini.FourDigitYear | frontend/src/components/CalendarMini.jsx:5 | years 1000..9999 print as four digits |
| CalendarMini.Ymd | frontend/src/components/CalendarMini.jsx:5 | the key is the year, `-`, the 1-based month in two digits, `-`, the day in two digits; ten characters for four-digit years |
| CalendarMini.YmdRoundTrip | frontend/src/components/CalendarMini.jsx:5 | a day's key reads back as that day |
| CalendarMini.YmdInjective | frontend/src/components/CalendarMini.jsx:5 | two days have the same key iff they are the same day |
| CalendarMini.IsSameDay | frontend/src/components/CalendarMini.jsx:6-9 | true iff the two moments are on the same calendar day, whatever their times |
| CalendarMini.SameDayIffSameKey | frontend/src/components/CalendarMini.jsx:6-9 | same day iff same event key |
| CalendarMini.GridStartsOnSunday | frontend/src/components/CalendarMini.jsx:13-16 | stepping back the 1st's weekday lands on a Sunday |
| CalendarMini.AddAfterSubDays | frontend/src/components/CalendarMini.jsx:15-21 | `n` days back then `k <= n` forward is `n - k` back |
| CalendarMini.PrevDayOfMonthStart | frontend/src/components/CalendarMini.jsx:16 | the day before a 1st is the last day of the previous month |
| CalendarMini.NextMonthStart | frontend/src/components/CalendarMini.jsx:21 | a month's length after its 1st is the next month's 1st |
| CalendarMini.LeadingCell | frontend/src/components/CalendarMini.jsx:15-22 | grid cells before the 1st hold the last days of the previous month |
| CalendarMini.CellFromFirst | frontend/src/components/CalendarMini.jsx:15-22 | from the 1st on, cell `k` is `k - offset` days after the 1st |
| CalendarMini.TrailingCell | frontend/src/components/CalendarMini.jsx:19-22 | cells after the month's last day hold the first days of the next month |
| CalendarMini.GridLeading | frontend/src/components/CalendarMini.jsx:15-22 | in the 42-day grid from the Sunday on or before the 1st, the cells before the 1st are the last days of the previous month, in order |
| CalendarMini.GridMonth | frontend/src/components/CalendarMini.jsx:15-22 | in that grid, the cells from the 1st on are every day of the month, in order |
| CalendarMini.GridTrailing | frontend/src/components/CalendarMini.jsx:19-22 | in that grid, the cells after the month's last day are the first days of the next month, in order |
| CalendarMini.GridDays | frontend/src/components/CalendarMini.jsx:15-22 | every cell of that grid is a real day, the first is a Sunday, and cell `k` is `k` days after the first |
| CalendarMini.GridShape | frontend/src/components/CalendarMini.jsx:11-25 | that grid has the shape of the month view: Sunday first, consecutive days, previous month's tail, the whole month, next month's head |
| CalendarMini.GetMonthMatrix | frontend/src/components/CalendarMini.jsx:11-25 | the grid of the viewed month has the shape of the month view: 42 real days, the first a Sunday, consecutive cells consecutive days, the previous month's tail, every day of the month in order, then the next month's head |
| CalendarMini.EventsOn | frontend/src/components/CalendarMini.jsx:43-50 | an event is filed under a key iff it has that date; the list is empty iff no event has that date |
| CalendarMini.EventsOnAppend | frontend/src/components/CalendarMini.jsx:45-48 | grouping keeps input order: events of an earlier part come first |
| CalendarMini.EventsOnSnoc | frontend/src/components/CalendarMini.jsx:45-48 | one more event is appended to its own date's list and to no other |
| CalendarMini.EventsFor | frontend/src/components/CalendarMini.jsx:52 | a missing key gives the empty list |
| CalendarMini.BuildEventMap | frontend/src/components/CalendarMini.jsx:43-52 | keys are exactly the dates that have events; each key holds exactly that date's events in input order; a lookup of any date gives its events |
| CalendarMini.CalendarView.constructor | frontend/src/components/CalendarMini.jsx:33-36 | the view opens on the 1st of the initial month (a year from 0 to 99 read in the 1900s) and selects the initial moment |
| CalendarMini.CalendarView.GotoPrev | frontend/src/components/CalendarMini.jsx:54 | the view moves to the 1st of the previous month, from January to December of the year before; a year on view from 0 to 99 is first read as 1900 to 1999 |
| CalendarMini.CalendarView.GotoNext | frontend/src/components/CalendarMini.jsx:55 | the view moves to the 1st of the next month, from December to January of the year after; a year on view from 0 to 99 is first read as 1900 to 1999 |
| CalendarMini.CalendarView.GotoToday | frontend/src/components/CalendarMini.jsx:56-61 | the view moves to the current month (a year from 0 to 99 read in the 1900s) and the current moment is selected |
| CalendarMini.CalendarView.Select | frontend/src/components/CalendarMini.jsx:99-102 | a clicked cell's day becomes the selection; the view stays |
| CalendarMini.NextThenPrev | frontend/src/components/CalendarMini.jsx:54-55 | next then previous month returns to the same month, from every month but December of year -1 |
| CalendarMini.NextThenPrevBeforeYearZero | frontend/src/components/CalendarMini.jsx:54-55 | from December of year -1, next gives January of year 0 and previous then gives December 1899 |
| CalendarMini.PrevThenNext | frontend/src/components/CalendarMini.jsx:54-55 | previous then next month returns to the same month, from every month but January of year 100 |
| CalendarMini.PrevThenNextFromYear100 | frontend/src/components/CalendarMini.jsx:54-55 | from January of year 100, previous gives December of year 99 and next then gives January 2000 |
| Dashboard.TransferRejection | frontend/src/pages/Tasks.jsx:63-65 | a transfer passes iff there is a recipient and the amount is a number in (0, balance]; otherwise the first failed check's message, in the page's order |
| Dashboard.DepositRejection | frontend/src/pages/Tasks.jsx:76 | a deposit passes iff the amount is a positive number |
| Dashboard.Account.constructor | frontend/src/pages/Tasks.jsx:10-25 | the balance starts at 0 with the sample history and empty inputs and errors |
| Dashboard.Account.SetRecipient | frontend/src/pages/Tasks.jsx:10 | sets the recipient input only |
| Dashboard.Account.SetAmount | frontend/src/pages/Tasks.jsx:12 | sets the amount input only |
| Dashboard.Account.SetDepositAmount | frontend/src/pages/Tasks.jsx:13 | sets the deposit input only |
| Dashboard.Account.HandleTransfer | frontend/src/pages/Tasks.jsx:59-71 | a rejected transfer only sets its error; an accepted one lowers the balance by the amount, prepends one `Sent` entry keeping the rest in order, and clears recipient and amount; the balance never goes negative |
| Dashboard.Account.HandleDeposit | frontend/src/pages/Tasks.jsx:73-80 | a rejected deposit only sets its error; an accepted one raises the balance by the amount, prepends one `Deposited` entry and clears the input; the balance stays non-negative |
| Dashboard.FirstSpace | frontend/src/pages/Tasks.jsx:31 | the index of the first whitespace character, or the length when there is none |
| Dashboard.SplitWs | frontend/src/pages/Tasks.jsx:31 | `split(/\s+/)` gives at least one piece and no piece contains whitespace |
| Dashboard.TrimStartKeepsEnd | frontend/src/pages/Tasks.jsx:31 | trimming the front of a string that ends in a non-space leaves a non-empty trimmed string with the same last character |
| Dashboard.SplitTrimmedWords | frontend/src/pages/Tasks.jsx:29-31 | splitting a trimmed non-empty name gives only non-empty words |
| Dashboard.Initial | frontend/src/pages/Tasks.jsx:33 | a word's initial is its upper-cased first character, or nothing for an empty word |
| Dashboard.JoinInitials | frontend/src/pages/Tasks.jsx:33-34 | one letter per non-empty word, in order, never lower-case |
| Dashboard.DisplayName | frontend/src/pages/Tasks.jsx:29 | the name is trimmed; a missing or empty name becomes `Zihan Rashid` |
| Dashboard.NameWords | frontend/src/pages/Tasks.jsx:29-31 | the words of a non-empty display name are all non-empty |
| Dashboard.Initials | frontend/src/pages/Tasks.jsx:28-35 | there are at most three initials and none is a lower-case letter |
| Dashboard.InitialsEmptyIff | frontend/src/pages/Tasks.jsx:28-35 | the initials are empty exactly when the trimmed name is |
| Dashboard.FirstThreeInitials | frontend/src/pages/Tasks.jsx:32-34 | for non-empty words, the first (up to three) give one initial each: the upper-cased first letter |
| Dashboard.InitialsOfWords | frontend/src/pages/Tasks.jsx:28-35 | for a non-empty name, the initials are the upper-cased first letters of its first (up to three) words |
| Dashboard.TrimStartRun | frontend/src/pages/Tasks.jsx:31 | a whitespace run before a non-space (or the end) is exactly what the split skips |
| Dashboard.SplitWsCons | frontend/src/pages/Tasks.jsx:31 | a word, a non-empty whitespace run and the rest split into that word followed by the pieces of the rest; with `SplitWord` this fixes the split of every string |
| Dashboard.SplitWord | frontend/src/pages/Tasks.jsx:31 | a string without whitespace splits into itself alone |
| Dashboard.FirstSpaceAt | frontend/src/pages/Tasks.jsx:31 | the first whitespace is found at `i` when none comes before it |
| Dashboard.TrimStartOne | frontend/src/pages/Tasks.jsx:31 | one whitespace before a non-space is all the split skips |
| Dashboard.SplitTwoWords | frontend/src/pages/Tasks.jsx:31 | two words around one whitespace character split into exactly those two words |
| Dashboard.JoinTwoInitials | frontend/src/pages/Tasks.jsx:33-34 | two non-empty words give their two first letters, upper-cased |
| Dashboard.DefaultNameWords | frontend/src/pages/Tasks.jsx:29-31 | the default name splits into `Zihan` and `Rashid` |
| Dashboard.DefaultDisplayWords | frontend/src/pages/Tasks.jsx:29-31 | a missing or empty name is shown as the two words of the default |
| Dashboard.DefaultWordsInitials | frontend/src/pages/Tasks.jsx:33-34 | the default's two words give `ZR` |
| Dashboard.DefaultInitials | frontend/src/pages/Tasks.jsx:28-35 | without a name, or with an empty one, the initials are `ZR` |
| AuthForms.TrimKeepsLower | frontend/src/pages/Register.jsx:16 | trimming a string without upper-case letters leaves none |
| AuthForms.NormalizeEmail | frontend/src/pages/Register.jsx:16 | the address sent is the lower-cased input with exactly its surrounding whitespace removed, so it has no whitespace at either end and no upper-case letter |
| AuthForms.NormalizeEmailIdempotent | frontend/src/pages/Register.jsx:16 | normalising twice equals normalising once |
| AuthForms.NormalizeEmailIgnoresCase | frontend/src/pages/Login.jsx:17 | two addresses that differ only in the case of their letters are sent the same |
| AuthForms.ServerMessageOr | frontend/src/pages/Register.jsx:23-25 | the server's non-empty message wins; a missing or empty one gives the fallback |
| AuthForms.FailureAlwaysExplained | frontend/src/pages/Login.jsx:24-26 | with a non-empty fallback the shown message is never empty |
| AuthForms.MakeRegisterPayload | frontend/src/pages/Register.jsx:14-18 | the name is the input without surrounding whitespace; the e-mail is the lower-cased input without surrounding whitespace; the password is unchanged |
| AuthForms.MakeLoginPayload | frontend/src/pages/Login.jsx:16-19 | only the e-mail (the lower-cased input without surrounding whitespace) and the unchanged password are sent |
| AuthForms.SameAddressBothForms | frontend/src/pages/Login.jsx:17 | an address registered in one letter case is sent identically by the login form when typed in any other case |
| AuthForms.RegisterForm.constructor | frontend/src/pages/Register.jsx:6-7 | the form starts with empty inputs and no error |
| AuthForms.RegisterForm.HandleSubmit | frontend/src/pages/Register.jsx:10-27 | posts the normalised payload; the error is cleared, then on success the page goes to `/login`; on failure the server's message or "Registration failed. Please try again." is shown; the inputs are kept |
| AuthForms.RegisterForm.Respond | frontend/src/pages/Register.jsx:12-26 | after the post: on success no error and the page goes to `/login`; on failure the server's message or the form's own, never empty; the inputs are kept |
| AuthForms.LoginForm.constructor | frontend/src/pages/Login.jsx:7-9 | the form starts with empty inputs, no error and the current session |
| AuthForms.LoginForm.HandleSubmit | frontend/src/pages/Login.jsx:12-28 | posts the normalised payload; only success signs in with the response body and goes to `/tasks`; failure keeps the session and shows the server's message or "Login failed. Please try again." |
| AuthForms.LoginForm.Respond | frontend/src/pages/Login.jsx:14-27 | after the post: only success signs in with the response body, clears the error and goes to `/tasks`; failure keeps the session and route and shows a non-empty message |

## Left out

- The task controller's source (`backend/controllers/taskController.js`) is not part of this model. Its behaviour is taken from its tests, and anything the tests leave open is not modelled. One example is whether update and delete check the caller's ownership: they do not in this model.
- Express wiring, the Mongo connection, environment checks, the HTTP client configuration, and async/Promise plumbing are left out. They are I/O and configuration. Store failures and server replies become explicit parameters.
- Object ids are naturals handed out by a counter. Mongoose's id generation, `_id` itself and the response-chaining `return this` of the recorder are not modelled.
- Mongoose casting is reduced to kinds of value. A string deadline such as `'2025-12-31'` is taken as already cast to a time. Cast errors on other inputs are reported as `CastFailed` without Mongoose's exact wording.
  - `TaskSchema.Violations` rejects every non-string value for `title`, `description` and `status`. Mongoose's String cast instead converts booleans, numbers, ObjectIds and Dates through their own `toString`. So an update body `{title: true}` is answered 500 in the model, where Mongoose would save the title `"true"` and answer 200.
  - `TaskSchema.ValidationMessage` approximates the aggregated text of a validation error. It is not proved to match Mongoose's message character for character.
- A `description` of null is treated as a cast failure. Mongoose would store the null.
- Immutability of `createdAt` on save and strict-mode dropping of unknown keys on create are not modelled. An update may write any key, `createdAt` and `userId` included.
- `TaskService.TaskService.GetTasks` answers the caller's tasks as a map from id to document. The order of the list the store returns is not modelled.
- `TaskService.TaskService.UpdateTask` stores whatever the merged document validates to. It does not promise that the owner survives an update whose body carries `userId`, because the modelled merge is unrestricted.
- Text case mapping covers ASCII letters only. Characters whose upper case is longer (`ß` becomes `SS`) are not modelled, so the three-letter bound of `Dashboard.Initials` holds for this mapping only.
  - `Dashboard.Initial` takes the first character of a word. JavaScript takes the first UTF-16 code unit, and the two differ for characters outside the Basic Multilingual Plane.
- `parseFloat`, `NaN`, `toFixed(2)` and the text of history entries are left out. Amounts are exact `real` numbers taken as already parsed, with `None` for `NaN`. History entries are kept as `Sent`/`Received`/`Paid`/`Deposited` values, not formatted strings.
- The timers that clear the dashboard errors after three seconds, `useMemo`/`useEffect`, `navigate` beyond recording the route, `alert`, `logout`, `onSelectDate` callbacks, the locale-dependent `toLocaleString`/`toDateString`, and all JSX, styling and per-cell rendering flags are left out.
- Time zones and the finite range of JavaScript dates are left out. Days are proleptic Gregorian (year, month, day) triples with unbounded years. A moment's time of day is carried only to show that `isSameDay` and the keys ignore it.
- `CalendarMini.Ymd` prints the year in plain decimal, as a template literal does. It is ten characters only for years 1000..9999.
- The post's own payload is not checked by the server replies: a reply is an input independent of what was posted.
