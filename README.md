# ClientMaster recurring-task scheduler, modelled in Dafny

ClientMaster tracks work for an accounting practice. Its parts:

- **Tasks.** Each task is assigned to a doer for a client. It has a due date and a frequency label ("Daily", "Weekly", "Monthly", "Quarterly", "Half-yearly", "Yearly", "Specific Day's", "One Time").
- **Recurrence.** When a recurring task is completed, the server creates its next occurrence. Its due date comes from `calculateNextDueDate`.
- **Audit.** An auditor then approves or reopens completed work.
- **Dashboards.** Admins, auditors and employees each see counters and lists drawn from the task list.

This project models the following:

- **The recurrence calculator** (module `DateCalculator`) over a proleptic Gregorian calendar of whole days (`Calendar`). `Calendar` implements the date-fns calls the calculator makes: `addDays`, `addMonths` (which clamps the day to the month's end), `addYears`, `setDate` (which rolls over like JavaScript's `Date.setDate`) and `getDay`.
- **The task store** (`TaskStore`). The users, clients, tasks and task history tables are a `Store` class. Its maps and its history sequence are updated in place by the service functions.
  - Row identifiers are assigned the way AUTOINCREMENT assigns them.
  - `CURRENT_TIMESTAMP` is an explicit non-decreasing `Stamp` argument.
  - SQLite enforces the schema's FOREIGN KEY clauses only when the connection has them switched on. The store therefore carries a `foreignKeys` flag, and both behaviours are modelled.
- **The task routes** (`TaskApi`): create, status update (with the recurrence spawn), audit update, history and the task list. Each is a method over a `Store`. The requester is an `Option<Actor>`, the current day and the timestamp are arguments, and each route returns the HTTP response it sends.
- **The dashboards' classification and aggregation** (`AdminDashboard`, `AuditorDashboard`, `EmployeeDashboard`, with the shared status predicates in `TaskViews` and `Statuses`). The two `reduce` callbacks that build dictionaries are methods with loops.
- **The helpers inside the screens**:
  - the service checklist, client search, services decoding and initials (`ClientMaster`, with `ServicesJson` and `Text`);
  - the navigation table and its role and active-path rules (`Sidebar`);
  - the route guard (`ProtectedRoute`, with `Session`).

Behaviour of the code worth knowing:

- **The calculator can fail.** A Monthly task whose `dateOfMonth` is truthy but not numeric gets `setDate(…, NaN)`, an invalid date, and `toISOString` throws. `NextDueDate` returns `Failure` exactly then, and the status route answers 500 without spawning.
- **Monthly `dateOfMonth` rolls over rather than clamping.** `setDate` with a day past the end of the month moves into the following month; day 31 of a 30-day month is the 1st of the next. Only the month step itself (`addMonths`) clamps.
- **"Last" acts as "1st".** The occurrence table has no "Last", so the week number defaults to 1 (`LastOccurrenceSchedulesFirst`). An unknown weekday name counts as Sunday.
- **Creation seeds a due date from the calculator whenever the frequency is truthy and not "One Time"**, with or without parameters (`|| {}`). With no frequency, or "One Time", the due date is `due_date_logic.date` or null.
- **Any label other than "One Time" spawns a successor**, including labels the calculator does not know. For those labels the successor gets the parent's due date unchanged.
- **Completing an already completed task spawns again**, with the same due date (`RecompletionSpawnsAgain`).
- **A history entry the database refuses makes the route fail.** With foreign keys enforced, an unknown task or user id in the entry is refused. The handler then answers 500 and skips the rest, but the earlier row update stays. A completion of an unknown task id also answers 500, after the "Status Updated" entry is written.
- **History entries are written with a null user name.** The session token carries only the user's id and role, so `user.name` is undefined; the name is "System" only when there is no user at all.
- **A reopened task never returns to the auditor's pending list.** The status route does not touch `audit_status`, so the task stays "Reopened" after its doer completes it again (`StatusUpdateKeepsAudit`).
- **An empty `allowedRoles` list admits nobody**, and a signed-out user sees every navigation item.
- **A role outside the four hides every link but opens most pages.** Sign-up stores whatever role it is sent. A user holding another role sees no navigation link, yet the guards still render "/", "/settings" and "/about" for them (`UnknownRoleSeesNoLinks`).
- **Doers with the same name share one entry of `doerStats`**, because the accumulator is keyed by name.

## Model

| member | source | states |
|---|---|---|
| Calendar.ToCivil | src/utils/dateCalculator.ts:4 | every day number has a valid civil date that converts back to it |
| Calendar.ToCivilOfFromCivil | src/utils/dateCalculator.ts:4 | a valid civil date is recovered from its day number, so the two views are one calendar |
| Calendar.YearContaining | src/utils/dateCalculator.ts:4 | the year found for a day is the one whose first day is at or before it and whose successor starts after it |
| Calendar.YearUnique | src/utils/dateCalculator.ts:4 | a day lies in exactly one year |
| Calendar.YearStartStep | src/utils/dateCalculator.ts:4 | consecutive years start 365 or 366 days apart, as the leap-year rule says |
| Calendar.YearStartMonotone | src/utils/dateCalculator.ts:4 | later years start at least 365 days per year later |
| Calendar.MonthContaining | src/utils/dateCalculator.ts:4 | the month found for a day of the year is the one whose days contain it |
| Calendar.MonthUnique | src/utils/dateCalculator.ts:4 | a day of the year lies in exactly one month |
| Calendar.Weekday | src/utils/dateCalculator.ts:18 | `getDay` numbers the week 0 (Sunday) to 6 |
| Calendar.WeekdayAfter | src/utils/dateCalculator.ts:18-21 | moving k days on moves the weekday k places round the week |
| Calendar.WeekdayAfterWeeks | src/utils/dateCalculator.ts:61 | whole weeks keep the weekday |
| Calendar.MonthLength | src/utils/dateCalculator.ts:27 | every month has 28 to 31 days |
| Calendar.MonthStartStep | src/utils/dateCalculator.ts:27 | the next month starts when this one has run its length |
| Calendar.MonthStartMonotone | src/utils/dateCalculator.ts:27 | a later month starts no earlier than the end of an earlier one |
| Calendar.MonthBounds | src/utils/dateCalculator.ts:27 | a day lies in its own month, at its day-of-month offset from the month's start |
| Calendar.DayInMonth | src/utils/dateCalculator.ts:27 | the k-th day after a month's start is in that month, with day-of-month k + 1 |
| Calendar.DayOfMonth | src/utils/dateCalculator.ts:29 | a day d - 1 days after a month's start is day d of that month |
| Calendar.MonthIndexOrder | src/utils/dateCalculator.ts:27 | days of an earlier month come before days of a later one |
| Calendar.AddDays | src/utils/dateCalculator.ts:9 | `addDays` moves exactly k days |
| Calendar.AddMonths | src/utils/dateCalculator.ts:27 | `addMonths` lands k months on, on the same day-of-month clamped to the target month's length |
| Calendar.ClampedDayInMonth | src/utils/dateCalculator.ts:27 | the clamped day exists in the target month and has the clamped day-of-month |
| Calendar.AddYears | src/utils/dateCalculator.ts:40 | `addYears` adds k to the year, keeps the month, and keeps the day of the month clamped to the target month (29 February plus a year is 28 February) |
| Calendar.SetDate | src/utils/dateCalculator.ts:29 | `setDate` moves by the difference between the new and the old day-of-month, rolling over outside the month |
| Calendar.SetDateInMonth | src/utils/dateCalculator.ts:29 | with a day that exists in the month, `setDate` stays in the month and sets that day |
| DateCalculator.WeekdayNumber | src/utils/dateCalculator.ts:12-15 | a recognised weekday name maps to 0..6 |
| DateCalculator.OccurrenceNumber | src/utils/dateCalculator.ts:47 | a recognised occurrence maps to 1..4 |
| DateCalculator.WeeklyNext | src/utils/dateCalculator.ts:11-25 | Weekly moves 1 to 7 days on, onto the named weekday when one is recognised, and exactly 7 days otherwise |
| DateCalculator.WeeklyNextIsEarliest | src/utils/dateCalculator.ts:16-21 | no day strictly between the base and the result falls on the target weekday |
| DateCalculator.WeeklySameWeekday | src/utils/dateCalculator.ts:19-20 | on the target weekday already, Weekly gives base + 7, never the same date |
| DateCalculator.MonthlyNext | src/utils/dateCalculator.ts:26-31 | Monthly fails exactly on a truthy non-numeric `dateOfMonth`; without one it is base + 1 clamped month; with one it is that day of the next month, rolled over |
| DateCalculator.MonthlyWithDayInRange | src/utils/dateCalculator.ts:27-29 | a parsed day that exists in the next month becomes the result's day-of-month in that month |
| DateCalculator.SpecificDayNext | src/utils/dateCalculator.ts:42-65 | with occurrence and day, the result is in the next month, on the target weekday, with day-of-month in 1..28 in the occurrence's week; otherwise base + 1 |
| DateCalculator.WeekdayOffset | src/utils/dateCalculator.ts:57-59 | the offset to the target weekday is 0..6 and lands on it |
| DateCalculator.FirstOfNextMonth | src/utils/dateCalculator.ts:55-56 | `setDate(addMonths(base, 1), 1)` is the first day of the next month |
| DateCalculator.NthWeekday | src/utils/dateCalculator.ts:55-61 | the nth weekday of a month is in that month, on that weekday, in its nth week |
| DateCalculator.WeekOfMonth | src/utils/dateCalculator.ts:61 | the day found has the computed day-of-month in that month and the target weekday |
| DateCalculator.WeekdayKept | src/utils/dateCalculator.ts:61 | whole weeks after a target weekday stay on it |
| DateCalculator.NextDueDate | src/utils/dateCalculator.ts:3-70 | fails only for Monthly with a truthy non-numeric day; Daily +1 day; Weekly, Monthly and both Specific Day's labels their own rules (`WeeklyNext`, `MonthlyNext`, `SpecificDayNext`); Quarterly and both half-year labels the clamped `addMonths` by 3 and 6; Yearly the clamped `addYears` by 1; One Time and unknown labels return the base |
| DateCalculator.NextDueDateKeepsDay | src/utils/dateCalculator.ts:32-41 | Quarterly, half-yearly and yearly land 3, 6 and 12 months on, on the base's day of the month clamped to the target month's length |
| DateCalculator.NextDueDateAdvances | src/utils/dateCalculator.ts:3-70 | every recurring label gives a date strictly after the base, given a Monthly day of at least 1 |
| DateCalculator.NextDueDateIgnoresUnreadFields | src/utils/dateCalculator.ts:3-70 | `period`, `firstDate` and `date` never change the result |
| DateCalculator.LastOccurrenceSchedulesFirst | src/utils/dateCalculator.ts:47-48 | "Last" schedules the same day as "1st" |
| Text.Initials | src/components/ClientMaster.tsx:221 | the first two characters (fewer for a shorter name), upper-cased |
| Text.LowerIdempotent | src/components/ClientMaster.tsx:137-141 | lower-casing twice is lower-casing once |
| Text.ContainsEmptyAndSelf | src/components/ClientMaster.tsx:137-141 | every text contains "" and itself |
| Text.NatToString | src/api/tasks.ts:86 | the decimal form of an id is a non-empty string of digits |
| Text.ParseInt | src/utils/dateCalculator.ts:29 | `parseInt` is NaN exactly when no digit follows the white space and one optional sign; otherwise it is the value of the leading digits, negated exactly when the sign is a minus |
| Text.ParseIntSkipsWhitespace | src/utils/dateCalculator.ts:29 | any JavaScript white space before the number, the Unicode space separators included, is ignored |
| Text.ParseIntOfNatToString | src/utils/dateCalculator.ts:29 | `parseInt` reads a decimal numeral back as its number |
| Text.TrimStart | src/utils/dateCalculator.ts:29 | `parseInt` first skips leading white space (ASCII, no-break space, byte-order mark, line and paragraph separators and every Unicode space separator): the result is no longer than its input and does not start with white space |
| Text.DigitPrefix | src/utils/dateCalculator.ts:29 | `parseInt` reads the longest run of leading digits: a prefix of the text, all digits, followed by a non-digit or the end |
| Text.Split | src/components/ClientMaster.tsx:65 | `split(",")` gives at least one piece, none containing the separator |
| Text.JoinSplit | src/components/ClientMaster.tsx:65 | joining the pieces with the separator gives the text back |
| Text.SplitLength | src/components/ClientMaster.tsx:65 | there is one piece more than there are separators |
| ServicesJson.Encode | src/services/dbService.ts:27 | `JSON.stringify` of a string array is bracketed |
| ServicesJson.EscapeChar | src/services/dbService.ts:27 | `JSON.stringify` escapes a character exactly when it is a quote, a backslash or a control character, and never emits a bare quote |
| ServicesJson.Decode | src/components/ClientMaster.tsx:63 | only a bracketed text parses as a string array |
| ServicesJson.DecodeEncode | src/services/dbService.ts:27 | parsing an encoded services array gives the same array back |
| ServicesJson.ParseStringOfQuote | src/services/dbService.ts:27 | a quoted string literal parses back to the string, leaving the rest |
| ServicesJson.ParseMoreItemsOfMoreItems | src/services/dbService.ts:27 | the comma-separated tail of an encoded array parses back to its items |
| Util.Filter | src/components/AuditorDashboard.tsx:20 | `Array.prototype.filter`: every element kept satisfies the predicate and comes from the input, every satisfying element is kept, and the result is no longer than the input |
| TaskStore.NullIfFalsy | src/services/dbService.ts:82-83 | `x \|\| null` turns 0 into null and keeps every other id |
| TaskStore.OrEmpty | src/services/dbService.ts:33-35 | `x \|\| ""` keeps a non-empty text and gives "" otherwise |
| TaskStore.InsertedRow | src/services/dbService.ts:76-90 | a new row gets the next id, the given fields, and the defaults "One Time", "Not Started", "", `{}`, null client, doer and due date, audit "Pending", no completion |
| TaskStore.NormalizeServices | src/services/dbService.ts:27 | an array is JSON-encoded, a non-empty text kept, and a missing or empty value becomes "[]" |
| TaskStore.StatusApplied | src/services/dbService.ts:92-98 | only the matching row changes; the id set is unchanged |
| TaskStore.AuditApplied | src/services/dbService.ts:99-105 | only the matching row changes; the id set is unchanged |
| TaskStore.AuditKeepsCompletedAt | src/services/dbService.ts:99-105 | an audit update never changes any row's completion time |
| TaskStore.NewestFirstMembers | src/services/dbService.ts:112-114 | the history of a task is exactly the log entries with that task id |
| TaskStore.NewestFirstSorted | src/services/dbService.ts:112-114 | over a log in time order, a task's history comes newest first |
| TaskStore.RowsLater | src/db/database.ts:57-76 | the task table's invariant survives the clock moving on |
| TaskStore.HistoryLater | src/db/database.ts:78-88 | the history invariant survives the clock moving on |
| TaskStore.ClientsLater | src/db/database.ts:46-55 | the client table's invariant survives the clock moving on |
| TaskStore.RowRewrite | src/services/dbService.ts:92-105 | rewriting a row's status or audit fields keeps the task table's invariant and its references |
| TaskStore.RowInsert | src/services/dbService.ts:76-90 | inserting under the next id keeps the task table's invariant |
| TaskStore.HistoryAppend | src/services/dbService.ts:106-111 | appending a numbered, stamped entry keeps the history invariant |
| TaskStore.Store.constructor | src/db/database.ts:33-89 | a store starts with the given users and empty clients, tasks and history |
| TaskStore.Store.ViewOf | src/services/dbService.ts:62-68 | the LEFT JOINs find a client or doer name exactly when the referenced row exists |
| TaskStore.Store.CreateTask | src/services/dbService.ts:76-90 | inserts the defaulted row under a fresh id, refused only for a dangling reference with foreign keys enforced; nothing else changes |
| TaskStore.Store.UpdateTaskStatus | src/services/dbService.ts:92-98 | the tasks table becomes `StatusApplied`; users, clients, history and counters are unchanged |
| TaskStore.Store.UpdateTaskAudit | src/services/dbService.ts:99-105 | the tasks table becomes `AuditApplied`; users, clients, history and counters are unchanged |
| TaskStore.Store.LogTaskHistory | src/services/dbService.ts:106-111 | appends exactly one numbered entry, refused exactly for an unknown task or user with foreign keys enforced; nothing else changes |
| TaskStore.NewestFirst | src/services/dbService.ts:112-114 | the task's entries of a log kept in time order, newest first (its members and its order are the lemmas below) |
| TaskStore.Store.GetTaskHistory | src/services/dbService.ts:112-114 | exactly the task's entries, newest first |
| TaskStore.Store.GetAllTasks | src/services/dbService.ts:62-68 | every task once, with its joined names, newest first |
| TaskStore.Store.CreateClient | src/services/dbService.ts:26-39 | inserts the normalised client under a fresh id; nothing else changes |
| TaskStore.Store.UpdateClient | src/services/dbService.ts:40-55 | null for an unknown id; otherwise rewrites the normalised fields and returns the new row |
| TaskStore.Store.DeleteClient | src/services/dbService.ts:56-59 | true when a row was removed, false for an unknown id, refused for a client still referenced with foreign keys enforced |
| TaskStore.Store.DeleteUser | src/services/dbService.ts:18-21 | true when a row was removed, false for an unknown id, refused for a user still referenced with foreign keys enforced |
| TaskApi.ActorId | src/api/tasks.ts:68 | `user?.id \|\| null`: null without a user or for id 0, else the user's id |
| TaskApi.ActorName | src/api/tasks.ts:63 | "System" without a user, else the token's (possibly missing) name |
| TaskApi.CompletedAtFor | src/api/tasks.ts:60 | a completion time, today, exactly for "Completed" and "Completed Late" |
| TaskApi.InitialDueDate | src/api/tasks.ts:37-42 | a recurring label seeds from the calculator at today; otherwise the parsed `due_date_logic.date`, else null |
| TaskApi.InitialDueDateIsLater | src/api/tasks.ts:38-39 | a seeded recurring due date is strictly after today |
| TaskApi.NewTaskOf | src/api/tasks.ts:44 | the body goes to `createTask` with the computed due date |
| TaskApi.Successor | src/api/tasks.ts:76-85 | the body `createTask` receives for the next occurrence (its row is stated by `SuccessorRow`) |
| TaskApi.SuccessorDue | src/api/tasks.ts:72-74 | the calculator applied to the parent's due date, or else to the completion day, with its stored parameters |
| TaskApi.StatusEntry | src/api/tasks.ts:68 | the "Status Updated" entry, by `user?.id \|\| null` and the token's name |
| TaskApi.SpawnEntry | src/api/tasks.ts:86 | the "Auto-Generated" entry by "System", naming the parent's id |
| TaskApi.AuditEntry | src/api/tasks.ts:105 | the "Audit Updated" entry, naming the new audit status |
| TaskApi.SuccessorRow | src/api/tasks.ts:76-85 | the successor copies title, client, doer, remarks, frequency and parameters, is "Not Started" with the computed due date, unaudited |
| TaskApi.CreateTaskHandler | src/api/tasks.ts:29-54 | 400 without a title; 500 when the calculator fails or a write is refused; otherwise 201 with the new row and a "Created" entry only when a user is resolved |
| TaskApi.SpawnSuccessor | src/api/tasks.ts:76-86 | inserts exactly one successor under a fresh id and one "Auto-Generated" entry by "System" naming the parent |
| TaskApi.RecordStatus | src/api/tasks.ts:60-68 | writes the status and completion time, then one "Status Updated" entry, which may be refused |
| TaskApi.Lookup | src/api/tasks.ts:65 | the row found is the stored row with that id, if any |
| TaskApi.SpawnedDue | src/api/tasks.ts:71-74 | a successor is due exactly for a logged completion of a found task whose label is not "One Time" and whose next date is defined, from its due date or else today |
| TaskApi.StatusResponse | src/api/tasks.ts:56-94 | 200 exactly when the "Status Updated" entry was logged and either the status is not a completion or it names a found task that is one-time or has a defined next date; 500 otherwise |
| TaskApi.FinishStatus | src/api/tasks.ts:70-89 | creates the successor and its entry exactly when one is due, and answers as `StatusResponse` |
| TaskApi.StatusSteps | src/api/tasks.ts:56-94 | the status writes followed by the spawn writes make up the route's whole effect |
| TaskApi.UpdateStatusHandler | src/api/tasks.ts:56-94 | no legality check; the row is rewritten; one "Status Updated" entry unless refused; exactly one successor and one "Auto-Generated" entry when due; users and clients unchanged |
| TaskApi.RecompletionSpawnsAgain | src/api/tasks.ts:71 | after a spawn, completing the same task again spawns again with the same due date |
| TaskApi.UpdateAuditHandler | src/api/tasks.ts:96-111 | rewrites status, audit status and remarks, appends one "Audit Updated" entry (500 if refused), never creates a task |
| TaskApi.TaskHistoryHandler | src/api/tasks.ts:113-120 | answers the task's entries of the log, each once, newest first (`NewestFirst`) |
| TaskApi.AllTasksHandler | src/api/tasks.ts:20-27 | answers every task, with its joined names, newest first |
| AdminDashboard.CountersOf | src/components/AdminDashboard.tsx:26-29 | `totalDue` is the task count; `pending`, `completed` and `completedLate` count the pending, "Completed" and "Completed Late" tasks; with "Not Required" they add up to `totalDue` |
| AdminDashboard.CountersPartition | src/components/AdminDashboard.tsx:26-29 | every task is in exactly one of pending, completed, late and "Not Required" |
| AdminDashboard.DoerTallyCounts | src/components/AdminDashboard.tsx:32-41 | each field of a doer's tally counts that doer's tasks in that state; a task adds to at most one field and "Not Required" to none |
| AdminDashboard.DoerStats | src/components/AdminDashboard.tsx:32-42 | one entry per non-empty doer name, each the tally of that doer's tasks; tasks without a doer name are skipped; the names in order of first appearance |
| AdminDashboard.StatusesOf | src/components/AdminDashboard.tsx:45-48 | the statuses of the tasks, in order |
| AdminDashboard.BumpCounts | src/components/AdminDashboard.tsx:46 | one callback step keeps the dictionary equal to the multiset of statuses seen |
| AdminDashboard.BumpKeys | src/components/AdminDashboard.tsx:46 | one callback step adds a key only for a new status, and the values' sum grows by one |
| AdminDashboard.TalliedStep | src/components/AdminDashboard.tsx:45-48 | one callback step keeps the loop invariant |
| AdminDashboard.SumOverOther | src/components/AdminDashboard.tsx:45-48 | changing a status not among the keys leaves the values' sum alone |
| AdminDashboard.SumOverIncrement | src/components/AdminDashboard.tsx:46 | bumping a listed status adds one to the values' sum |
| AdminDashboard.StatusCounts | src/components/AdminDashboard.tsx:45-48 | each status seen maps to how often it occurs, the keys are distinct, and the values sum to the task count |
| AdminDashboard.Insert | src/components/AdminDashboard.tsx:52 | inserting a slice adds exactly that slice |
| AdminDashboard.InsertDescending | src/components/AdminDashboard.tsx:52 | inserting into a non-increasing list keeps it non-increasing |
| AdminDashboard.SortDescending | src/components/AdminDashboard.tsx:52 | the sort is non-increasing by value and a permutation of its input |
| AdminDashboard.PieChartData | src/components/AdminDashboard.tsx:49-52 | one slice per status, holding its count, sorted non-increasing |
| AuditorDashboard.AuditQueue | src/components/AuditorDashboard.tsx:20 | keeps exactly the completed or late tasks and those whose audit status is not "Pending" |
| AuditorDashboard.PendingAudits | src/components/AuditorDashboard.tsx:71 | exactly the queued tasks whose audit status is "Pending" |
| AuditorDashboard.CompletedAudits | src/components/AuditorDashboard.tsx:72 | exactly the queued tasks whose audit status is not "Pending" |
| AuditorDashboard.AuditPartition | src/components/AuditorDashboard.tsx:71-72 | `pendingAudits` and `completedAudits` split the queue, each task into exactly one |
| AuditorDashboard.PendingAuditsAreCompletions | src/components/AuditorDashboard.tsx:71-72 | a task awaiting review is finished work |
| AuditorDashboard.ApprovedReopenedBound | src/components/AuditorDashboard.tsx:106-120 | the Approved and Reopened cards count at most the reviewed tasks |
| AuditorDashboard.ApprovedReopenedReviewed | src/components/AuditorDashboard.tsx:106-120 | those cards count the same tasks in the queue as in `completedAudits` |
| AuditorDashboard.AuditRequestFor | src/components/AuditorDashboard.tsx:28-37 | Approve sends ("Audited", "Approved"), Reopen ("In Progress", "Reopened"), with the typed remarks or "" |
| AuditorDashboard.AuditOutcome | src/components/AuditorDashboard.tsx:28-37 | after the request the task is reviewed and no longer awaits review; approved exactly for Approve, reopened and in progress exactly for Reopen |
| AuditorDashboard.StatusUpdateKeepsAudit | src/api/tasks.ts:67 | a reopened task completed again stays reopened and never returns to `pendingAudits` |
| AuditorDashboard.DaysRemaining | src/components/AuditorDashboard.tsx:62-69 | 0 without a completion time; else 6 minus the whole days elapsed rounded up, floored at 0; 6 exactly at the completion instant |
| AuditorDashboard.DaysRemainingOverDays | src/components/AuditorDashboard.tsx:62-69 | for a completion day and a current day at the same time of day, six minus the days between them, and 0 from the sixth day on |
| EmployeeDashboard.MyTasks | src/components/EmployeeDashboard.tsx:21 | exactly the tasks whose doer is the signed-in user; none when nobody is signed in |
| EmployeeDashboard.PendingTasks | src/components/EmployeeDashboard.tsx:62 | exactly the tasks not completed, late or "Not Required" |
| EmployeeDashboard.DueToday | src/components/EmployeeDashboard.tsx:63-68 | the pending tasks due today |
| EmployeeDashboard.Overdue | src/components/EmployeeDashboard.tsx:69-74 | the pending tasks due before today |
| EmployeeDashboard.DueTodayOverdueDisjoint | src/components/EmployeeDashboard.tsx:59-74 | due-today and overdue are disjoint, hold only pending tasks with a due date, and together are no longer than the pending list |
| EmployeeDashboard.DueCountsBound | src/components/EmployeeDashboard.tsx:63-74 | due-today and overdue together count no more than the pending tasks |
| EmployeeDashboard.CompletionRate | src/components/EmployeeDashboard.tsx:76-78 | 0 for no tasks; otherwise the completed share as a percentage rounded half up, in 0..100, 100 when all are done |
| EmployeeDashboard.RoundedShare | src/components/EmployeeDashboard.tsx:77 | the integer formula is the rounded percentage, within 0..100 |
| ClientMaster.ServiceToggle | src/components/ClientMaster.tsx:92-98 | the toggled service's membership flips and every other service's membership stays |
| ClientMaster.ToggleKeepsOthers | src/components/ClientMaster.tsx:92-98 | the other services keep their relative order |
| ClientMaster.ToggleTwice | src/components/ClientMaster.tsx:92-98 | two toggles give the same services back; the same list when it was unchecked; the same multiset when it was listed once |
| ClientMaster.UncheckedTwice | src/components/ClientMaster.tsx:92-98 | checking then unchecking an unchecked service restores the list |
| ClientMaster.CheckedOnceTwice | src/components/ClientMaster.tsx:92-98 | unchecking then checking a service listed once moves it to the end and keeps the multiset |
| ClientMaster.SameCounts | src/components/ClientMaster.tsx:95-96 | adding the one removed copy back restores the multiset |
| ClientMaster.FilterClients | src/components/ClientMaster.tsx:137-141 | exactly the clients whose name, email or contact person contains the query ignoring case, in order; "" keeps all |
| ClientMaster.ServicesFromField | src/components/ClientMaster.tsx:61-66 | a JSON array reads as its items, another non-empty text as its comma-separated pieces, "" as none |
| ClientMaster.ServicesRoundTrip | src/components/ClientMaster.tsx:208-213 | a saved checklist reads back as the same list, a missing one as none, a plain text as its pieces |
| Sidebar.VisibleItems | src/components/Sidebar.tsx:40-41 | an item is hidden only when a user is signed in and the item's roles leave out the user's role |
| Sidebar.NavigationRoles | src/components/Sidebar.tsx:6-12 | Client Master and Task Creation are admin-only; Dashboard, Settings and Documentation are for all four roles |
| Sidebar.AllVisibleSignedOut | src/components/Sidebar.tsx:41 | without a user every item is shown |
| Sidebar.NavigationMatchesGuards | src/App.tsx:27-28 | for a user holding one of the four roles, an item is visible exactly when its route's guard renders the page |
| Sidebar.UnknownRoleSeesNoLinks | src/components/Sidebar.tsx:41 | a user holding any other role (sign-up accepts any, src/api/auth.ts:26) sees no link, while the guard renders exactly the pages without a role list |
| Sidebar.IsActive | src/components/Sidebar.tsx:43 | `isActive`: an exact match, or a raw prefix match for links other than "/" (stated by `ActiveRule`) |
| Sidebar.ActiveRule | src/components/Sidebar.tsx:43 | "/" is active only on "/"; other items on a raw prefix, so "/tasksX" activates "/tasks" |
| Sidebar.Avatar | src/components/Sidebar.tsx:78 | the name's first two characters upper-cased, or "U" |
| Sidebar.DisplayName | src/components/Sidebar.tsx:82 | the name, or "User" |
| Sidebar.DisplayRole | src/components/Sidebar.tsx:83 | the role, or "Role" |
| ProtectedRoute.Guard | src/components/ProtectedRoute.tsx:9-25 | spinner while loading; "/login" without a user; "/" for a role outside `allowedRoles`; the page otherwise, and always without `allowedRoles` |
| ProtectedRoute.EmptyRolesAdmitNobody | src/components/ProtectedRoute.tsx:21-23 | an empty `allowedRoles` list redirects every user |
| ProtectedRoute.PageRoles | src/App.tsx:27-28 | only "/clients" and "/tasks" restrict roles, to admin |

## Left out

- Time zones and time of day: a date is a whole day in one zone. JavaScript mixes the local zone (`getDay`, `setHours`) and UTC (`toISOString`, date-only strings), which can shift a day; the model does not.
- Timestamps: `completed_at` is the current day; `created_at` and `updated_at` are abstract `Stamp` values whose order alone matters. Entries with equal stamps have no specified order; the model lists them in reverse insertion order.
- The JavaScript `Date` range (±10^8 days) and invalid dates other than the Monthly NaN case are not modelled. Parsing a client-sent date string is the `parseDate` parameter.
- DateCalculator.WeekdayNumber: lookups of inherited keys such as "constructor" in the JavaScript tables are not modelled.
- AdminDashboard.DoerStats: `order` is the order of first appearance; `Object.values` lists integer-like keys first, in ascending numeric order (doers "Bob" then "42" are charted as "42", "Bob"), and the model does not capture that reordering.
- AdminDashboard.DoerStats: a doer name that is an inherited key of a plain object ("constructor", "toString", "__proto__") finds a truthy prototype member in the accumulator, which JavaScript then mis-tallies; the model counts such a name like any other.
- AdminDashboard.StatusCounts: a status that is an inherited key of a plain object is counted like any other here, while `acc[status] || 0` reads the prototype member in JavaScript.
- Text.Initials: takes the first two Unicode characters, while `substring(0, 2)` takes two UTF-16 code units, so a name starting with a character outside the Basic Multilingual Plane (an emoji) shows one character in JavaScript and two here. A lone surrogate is not a Dafny character.
- Sidebar.Avatar: the same two-characters-for-two-code-units difference as `Text.Initials`.
- TaskApi.UpdateStatusHandler: a stored `due_date_logic` text that is not valid JSON would make `JSON.parse` throw. The model keeps parameters decoded, since `createTask` only ever stores `JSON.stringify` output.
- ServicesJson.Decode: reads only string arrays as written by `JSON.stringify` (no whitespace, no `\u` escapes beyond control characters, no other JSON values); other valid JSON such as a number or an object is not modelled.
- Case mapping (`toLowerCase`, `toUpperCase`) is ASCII only; Unicode case folding is not modelled.
- AuditorDashboard.DaysRemaining: takes whole milliseconds and exact integer ceiling instead of floating-point division.
- EmployeeDashboard.CompletionRate: rounds the exact rational share half up; `Math.round` on a double can differ at exact halves (for example 57 of 200).
- AdminDashboard.PieChartData: the stability of the sort is not stated; the order of `Object.keys` for integer-like status names is not modelled (keys keep first-seen order).
- SQL execution, connection setup, authentication (bcrypt, JWT, cookies) and the acting user's resolution: the requester is an argument.
- User creation and `updateUserRole`: users are given to the store's constructor and never change except by `DeleteUser`.
- Fields a request body leaves out that SQLite writes as NULL into a nullable column (a status update without `status`, an audit update without `audit_remarks`) are required strings here.
- `auditor_id`: never written by the application.
- The 500 answers of the GET routes: the in-memory reads cannot fail.
- Concurrency (racing status updates, duplicate spawns) and the React state, `fetch` calls, charts and markup of the screens, including `handleAuditAction`'s request, `toggleHistory` and the status handler of the employee screen.
