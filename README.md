# Reminder scheduling core, modelled in Dafny

This project models the scheduling core of a desktop reminder app. Tasks are
one-time reminders, which fire at a date, or recurring ones, which fire on a
cron pattern. They are kept in an sqlite table. An `Orchestrator` arms one
scheduler job per running task and reports what it does as tagged events on a
queue that the window drains. When a job fires, it resolves the message, which
is its description or a quote picked with a ten-quote cooldown. It then
reports the message, and deletes a one-time task afterwards. The window's
buttons create, start/stop and delete tasks.

Modules: one per source file of the core, plus two helpers. `Decimal`
models Python's `str()` of integers, and `Wrappers` holds the `Option` type.
Neither is a source file of its own.

- `Decimal` (decimal.dfy), a helper: `str()` of integers, which builds job
  keys and cron fields. It comes with its parse as a partner, so the text is injective.
- `TaskStore` (task_store.dfy): the `tasks` table of database.py. It is a
  `Store` class over a `map<int, Row>` with an AUTOINCREMENT counter.
- `Quotes` (quotes.dfy): the cooldown selection of tasks.py. A `QuoteFiles`
  class holds the quotes file as a constant and the state file as a field.
  `random.choice` is a nondeterministic pick from the available set.
- `Scheduler` (orchestrator.py): the `Orchestrator` class. It holds the job
  table (`map<string, Job>`, keyed `task_<id>`) and the event queue
  (`seq<Event>`). It also states the invariant that ties the jobs to the
  running rows (`InSync`).
- `AppUi` (app_ui.py): how the form maps a recurrence rule to cron columns,
  which row a form stores, and the `App` class with its add, toggle and
  delete actions. Each action keeps `InSync` unless the row it schedules
  cannot be armed.

Exceptions that escape an operation are the `Raised` outcome. A failed parse in
the form is a `None` value. An sqlite error on insert is the `storeError`
parameter. The operations follow the code, except for the cron trigger's
checks on field text, which are not modelled (see "## Left out"). These
behaviours of the code are kept:

- The cron keywords are named after the table's columns, so a row with a day
  of month passes `day_of_month=`, a keyword the cron trigger does not take.
  `schedule_task` raises for every Monthly and Yearly task (see Findings).
- If quotes.json is not valid JSON, the exception escapes `_run_task`, which
  then emits nothing. There is no fallback text.
- A failed push is not reported on the queue. Nothing in the code emits an
  `error` event (the window only handles one, app_ui.py:216).
- The history resets only when every index is in it, not whenever there are
  ten quotes or fewer.
- A fired one-time job is not removed from the job table by this code.

## Model

| member | source | states |
|---|---|---|
| Decimal.NatToString | orchestrator.py:31 | `str(n)` is a non-empty run of digits with no leading zero; it is one character exactly when n < 10 |
| Decimal.ParseNatToString | app_ui.py:169 | the unpadded hour or minute text reads back as the number it was written from |
| Decimal.IntToStringInjective | orchestrator.py:31 | two different ids never give the same decimal text |
| TaskStore.FillDefaults | database.py:36-42 | every listed column missing from the data becomes NULL; present keys keep their values; no other key is added |
| TaskStore.Scan | database.py:63-69 | the rows of the table that pass the filter, each exactly once, in ascending id order |
| TaskStore.Store.Create | database.py:32-57 | the insert fails (None, table unchanged) exactly on a store error or a missing/NULL task_type; otherwise the id is fresh and never issued before, the counter grows, and the only new row is the filled data with status 'stopped' |
| TaskStore.Store.Get | database.py:59-61 | the row with that id, or None exactly when there is none |
| TaskStore.Store.GetAll | database.py:63-65 | every row once, sorted by ascending id |
| TaskStore.Store.GetByStatus | database.py:67-69 | exactly the rows whose status equals the argument, which defaults to 'running' |
| TaskStore.Store.UpdateStatus | database.py:71-74 | only that row's status changes; an absent id changes nothing; the id counter is untouched |
| TaskStore.Store.Delete | database.py:76-79 | only that row is removed; an absent id changes nothing |
| Quotes.RecentlyShown | tasks.py:9-15 | a missing or corrupt state file, or a state object without the key, gives an empty history |
| Quotes.Saved | tasks.py:48-50 | the written state holds the new history and keeps every other key |
| Quotes.Available | tasks.py:36-41 | every available index is in range; each unshown index is available; a shown index is available only when every index has been shown, and then all are; never empty when there are quotes |
| Quotes.LastN | tasks.py:47 | Python's `s[-k:]` for k >= 1: the last k elements, or all of a shorter list, in order |
| Quotes.UpdatedHistory | tasks.py:46-47 | the new history has 1 to 10 entries, ends with the chosen index, and before it holds the most recent old entries |
| Quotes.FormatQuote | tasks.py:52-53 | the text in quotes, then exactly " - ", then the author, or 'Unknown' when the author key is missing |
| Quotes.QuoteFiles.GetRandomQuoteWithCooldown | tasks.py:22-56 | a missing file gives the fallback text, an unparsable one raises, an empty list gives 'Quote file is empty.' (state untouched in all three); otherwise the pick is an available index, the state file holds the updated history, and the result is that quote formatted |
| Quotes.OnlyUnshownIndexLeft | tasks.py:36-43 | with three quotes and history [0, 1], index 2 is the only possible pick |
| Quotes.ReplayIsWindow | tasks.py:46-49 | after any run of picks, the history is the last ten of everything shown |
| Quotes.NoRepeatWithinWindow | tasks.py:22-49 | with more than ten quotes, a run of allowed picks never repeats a quote within ten picks |
| Scheduler.JobKeyInjective | orchestrator.py:31 | distinct tasks have distinct job ids `task_<id>` |
| Scheduler.OneJobPerTask | orchestrator.py:31-33 | in a job table keyed by task, two jobs for the same task are the same entry |
| Scheduler.CronArgsMirrorColumns | orchestrator.py:38-39 | as written, the cron arguments are exactly the non-NULL columns among month, day_of_month, day_of_week, hour and minute, under those names, with their text |
| Scheduler.DayOfMonthRejectedAsWritten | orchestrator.py:38-42 | as written, the cron trigger refuses the keyword names of a row exactly when the row has a day of month |
| Scheduler.CronTriggerArgsMirrorColumns | orchestrator.py:38-40 | the corrected arguments carry each non-NULL cron column under the trigger's own keyword (`day` for the day of month), and the trigger takes all of them as keyword names |
| Scheduler.ArmedTriggerAccepted | orchestrator.py:37-42 | on every recurring row the model arms, the trigger takes its keyword names, and they equal the corrected ones |
| Scheduler.JobFor | orchestrator.py:32-42 | the job runs this task with its type and its description (NULL captured as ""); a one-time row gets a date trigger at its run date, a recurring row a cron trigger with the keywords as written |
| Scheduler.CorrectedJobAgrees | orchestrator.py:37-42 | with `day=`, the trigger takes the keyword names of every job armed, and on each row the model of the code as written arms, the job is the same |
| Scheduler.WithStatus | database.py:71-74 | the table with only that row's status replaced; the same ids |
| Scheduler.RunningWithoutJobBreaksSync | app_ui.py:182-183 | a running row left without a job breaks "jobs = running rows" |
| Scheduler.StatusKeepsArmable | database.py:71-74 | changing a status keeps every row armable when every row was |
| Scheduler.StopKeepsSync | app_ui.py:244-246 | stopping a row and dropping its job keeps "jobs = running rows" |
| Scheduler.RunKeepsSync | app_ui.py:247-249 | setting a row running and arming its job keeps "jobs = running rows" |
| Scheduler.DeleteKeepsSync | app_ui.py:251-253 | deleting a row together with its job keeps "jobs = running rows" |
| Scheduler.InsertStoppedKeepsSync | database.py:44-54 | inserting a stopped row under a fresh id keeps the invariant, and no job sits under its key |
| Scheduler.InsertRunningKeepsSync | app_ui.py:177-183 | create, set running, then schedule keeps "jobs = running rows" |
| Scheduler.FirstRaise | orchestrator.py:56-57 | the index of the first row on which `schedule_task` raises: no row before it raises, and it raises unless it is the end |
| Scheduler.ArmAllArms | orchestrator.py:56-57 | after scheduling rows with ascending ids in turn, each armable row has its own key with its own job and each other row has no key, whatever the table held before |
| Scheduler.ArmAllProvenance | orchestrator.py:56-57 | after the loop, each job was there before unchanged or runs one of the rows |
| Scheduler.StartFacts | orchestrator.py:53-57 | over the running rows: the loop raises exactly when a running row raises; if not, each running armable row has its own job; every new job runs a running row; from an empty table with every row armable the jobs are exactly the running rows |
| Scheduler.Orchestrator.ScheduleTask | orchestrator.py:30-44 | any old job under `task_<id>` is gone first; it raises for a one-time row without a run date and for a recurring row with a day of month (`day_of_month=`), and on no other row in the model; an armable row gets exactly one job under its key and the events log then status_update(running); another task type gets no job and no events |
| Scheduler.Orchestrator.ScheduleTaskCorrected | orchestrator.py:30-44 | with `day=`: in the model only a one-time row without a run date raises; every recurring row and every dated one-time row gets its job and events |
| Scheduler.Orchestrator.UnscheduleTask | orchestrator.py:46-51 | an absent job changes nothing; a present one is removed alone, with log then status_update(stopped) |
| Scheduler.Orchestrator.RunTask | orchestrator.py:12-28 | the message is the description when it is non-empty, otherwise the quote (one cooldown step); events are log, then the local notification, then for one-time tasks the row is deleted and task_deleted follows; recurring tasks leave the table alone; the job table is untouched |
| Scheduler.Orchestrator.ScheduleEach | orchestrator.py:56-57 | the loop raises exactly when some row raises; with none raising, the jobs and the queue are those of scheduling every row in turn; otherwise those of the rows before the first that raises, with its key dropped |
| Scheduler.Orchestrator.Start | orchestrator.py:53-57 | logs 'Orchestrator started.' first, then is the loop over the running rows; raises exactly when a running row raises; otherwise every running armable row has its own job; every new job runs a running row; from an empty job table with armable rows, jobs and running rows match |
| Scheduler.Orchestrator.Shutdown | orchestrator.py:59-61 | appends the shutdown log and leaves the jobs alone |
| AppUi.Lower | app_ui.py:170 | `lower()` letter by letter, same length |
| AppUi.RecurrenceFieldsFollowRule | app_ui.py:162-174 | Every Minute/Every 5 Minutes/Hourly set only the minute to */1, */5, 0; other rules need a time and set the unpadded hour and minute; Weekly adds the lower-case three-letter day, Monthly the typed day, Yearly (needing a date) the month and day |
| AppUi.ZeroPadPads | app_ui.py:160 | the padded text ends with the original text and is zeros before it |
| AppUi.BuildTaskDataFollowsForm | app_ui.py:155-176 | the dictionary has the description; one-time needs date and time and has exactly the keys description, task_type and run_datetime; recurring has exactly description, task_type, recurrence_rule and the rule's columns; another kind has only the description; any parse failure gives nothing |
| AppUi.FilledRowFollowsForm | app_ui.py:155-177 | the dictionary names a task type exactly for one-time and recurring forms, and then the row inserted from it holds the form's description, date or rule, and cron columns, NULL elsewhere |
| AppUi.FormRowArmable | app_ui.py:161-174 | under the model of `schedule_task`, a row stored from a form raises exactly when it is a Monthly or Yearly recurring one, and can be armed otherwise |
| AppUi.MonthlyExampleRefused | app_ui.py:171 | a Monthly form for the 15th parses, and its row has day of month "15", which the trigger refuses, so it cannot be armed |
| AppUi.App.AddTask | app_ui.py:154-186 | a parse failure logs the invalid-fields line and changes nothing; a failed insert or a kind with no type logs the failure line and changes nothing; otherwise 'Task N created.' is logged, the new row is the only change to the table, running and the row the form calls for, and it is scheduled as `schedule_task` does; in the model it raises exactly for Monthly and Yearly tasks, which then break the invariant; otherwise the invariant is kept; the id counter and the issued ids are unchanged when nothing is created, and otherwise the counter grows and the only newly issued id is the new row's, so no id is handed out twice across actions |
| AppUi.App.CreateAndSchedule | app_ui.py:177-183 | a task is created exactly when there is no store error and the data names a type; then the filled row, under a fresh id, is set running and scheduled; the invariant is kept when it can be armed and broken when not; the counter and the issued ids change only by the new id |
| AppUi.App.Schedule | app_ui.py:180-183 | the row just created becomes running and is scheduled as read; the invariant is kept when it can be armed and broken when not; the id counter and the issued ids are untouched |
| AppUi.App.ToggleTask | app_ui.py:241-249 | a missing row is a no-op; a running row is stopped and unscheduled; any other status is set running and scheduled from the row as read; the invariant is kept when the row stopped or can be armed, and broken when a started row cannot be armed; from a synced state it never raises; the id counter and the issued ids are untouched |
| AppUi.App.DeleteTask | app_ui.py:251-255 | the job is dropped (if any), then the row, then 'Task N deleted.' is logged; the invariant is kept, whether or not every row can be armed; the id counter and the issued ids are untouched, so a deleted id is never reissued |

## Findings

| source | as written | input that shows it | evidently intended | confidence | as-written member | corrected member |
|---|---|---|---|---|---|---|
| orchestrator.py:38-40 | the cron keywords are named after the columns, so the day of month is passed as `day_of_month=` | a Monthly or Yearly task (recurrence_day_of_month = "15"): APScheduler's `CronTrigger` has no `day_of_month` parameter (it is `day`), so `add_job` raises TypeError and that task is never armed | pass the day of month as `day=` | medium (rests on the scheduling library's signature, which is not part of this model); not executed | Scheduler.Orchestrator.ScheduleTask, Scheduler.DayOfMonthRejectedAsWritten, AppUi.MonthlyExampleRefused | Scheduler.Orchestrator.ScheduleTaskCorrected, Scheduler.CronTriggerArgsMirrorColumns, Scheduler.CorrectedJobAgrees |

## Left out

- When APScheduler fires a trigger and how it computes the next run time, including misfires, past dates and the auto-removal of a fired date job. A job is only the data handed to `add_job`, so after a one-time fire its job stays in the model's job table.
- `send_pushover_notification`: an HTTP call with a keychain lookup, which always returns. It appears only as a comment in `RunTask`.
- Reading and writing quotes.json and state.json. Both files are values: `QuotesFile` and `StateFile`. A state file holding JSON that is not an object, a `recently_shown_indices` that is not a list of ints, and a failed state write are not modelled.
- Quotes.FormatQuote: a quote whose `author` is explicitly null (Python would print `None`) is not modelled. Neither is a quote without `text` (KeyError). The author is either present as text or missing.
- `datetime.strptime` and `datetime.fromisoformat` are left out. The form's date and time come in as parsed values or `None`. A malformed `run_datetime` text in the table is not modelled (`fromisoformat` would raise ValueError); only a NULL one raises.
- The stored `run_datetime` is the ISO text that sqlite's default adapter writes. sqlite's type affinity and the converter round trip are not modelled.
- TaskStore.Store.GetByStatus: the query has no ORDER BY. The model returns rows in ascending id order, which is one order sqlite may use.
- TaskStore.Store.Create: keys of `task_data` beyond the nine columns are ignored by the INSERT. The model keeps them in the filled dictionary but never stores them.
- Quotes.LastN: the window length is at least 1. The code always passes 10, and Python's `s[-0:]` (the whole list) is not modelled.
- AppUi.App.AddTask: the status-bar lines and the queue are separate sequences, so the model does not say that 'Task N created.' is shown before the scheduling events.
- Scheduler.Orchestrator.ScheduleTask: only the keyword names of the cron trigger are checked. The trigger's checks on each field's text are not modelled, and it raises ValueError for text it does not recognise. For example, a Weekly row whose typed weekday gives `day_of_week = ""` or `"fun"` (app_ui.py:170) raises in `add_job`, but the model arms it.
- Scheduler.Orchestrator.ScheduleTaskCorrected: the same applies with `day=`. A Monthly row whose typed day is empty, not a number, or outside 1-31 (for example "", "abc" or "32", app_ui.py:171) still raises, but the model arms it.
- Scheduler.Orchestrator.RunTask: the resolved message is a ghost out-parameter. The coroutine returns nothing.
- Threads, the asyncio loop, queue polling and `refresh_task_list`: these are concurrency and UI. The queue is a sequence that only grows. Messages logged to the window are a sequence of lines.
- All customtkinter widgets, the Windows toast, `SettingsWindow` and config.py (keychain, quiet hours) are left out.
- AppUi.Lower: lower-casing covers ASCII letters only. Python's `str.lower` also maps other alphabets.
- `init_db` and the connection handling of database.py are left out. The table is a map that starts empty.
