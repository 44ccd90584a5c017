/**
  The Orchestrator of orchestrator.py: the table of armed jobs kept by the
  scheduler, the outbound event queue read by the UI, and the fixed sequence
  a job runs when it fires. A job is the trigger description handed to
  `add_job` together with the arguments it captures; when the scheduler
  library fires a trigger is not part of this model.
 */
module Scheduler {
  import opened Wrappers
  import opened Decimal
  import opened TaskStore
  import Quotes

  /** The trigger passed to `add_job`: a date, or cron keyword arguments. */
  datatype Trigger = Date(runDate: string) | Cron(fields: map<string, string>)

  /** An armed job: its trigger and the arguments `_run_task` is called with. */
  datatype Job = Job(trigger: Trigger, taskId: int, description: string, taskType: string)

  /** The tagged dictionaries put on the update queue. */
  datatype Event =
    | Log(message: string)
    | StatusUpdate(taskId: int, status: string)
    | ShowNotification(message: string)
    | TaskDeleted(taskId: int)

  /** Whether an operation returned, or an exception escaped it. */
  datatype Outcome = Done | Raised

  const StartedText := "Orchestrator started."
  const ShutdownText := "Orchestrator shutting down."

  function ScheduledText(id: int): string {
    "\U{2705} Task " + IntToString(id) + " scheduled."
  }

  function UnscheduledText(id: int): string {
    "\U{23F9}\U{FE0F} Task " + IntToString(id) + " unscheduled."
  }

  function ExecutingText(id: int, message: string): string {
    "\U{25B6}\U{FE0F} Executing task " + IntToString(id) + ": '" + message + "'"
  }

  /** The scheduler id of a task's job, `task_<id>`. */
  function JobKey(id: int): string {
    "task_" + IntToString(id)
  }

  /** Two tasks never share a job id. */
  lemma JobKeyInjective(a: int, b: int)
    requires JobKey(a) == JobKey(b)
    ensures a == b
  {
    assert JobKey(a)[5..] == IntToString(a);
    assert JobKey(b)[5..] == IntToString(b);
    IntToStringInjective(a, b);
  }

  /** Every job sits under the key of its own task: at most one job per task. */
  ghost predicate KeyedByTask(jobs: map<string, Job>) {
    forall k :: k in jobs ==> k == JobKey(jobs[k].taskId)
  }

  lemma OneJobPerTask(jobs: map<string, Job>, k1: string, k2: string)
    requires KeyedByTask(jobs) && k1 in jobs && k2 in jobs
    requires jobs[k1].taskId == jobs[k2].taskId
    ensures k1 == k2
  {
  }

  /** `key` is present in `args` exactly when the column is not NULL, and holds its text. */
  predicate Mirrors(args: map<string, string>, key: string, column: Option<string>) {
    (key in args <==> column.Some?) && (column.Some? ==> args[key] == column.value)
  }

  const CronFields: seq<string> := ["month", "day_of_month", "day_of_week", "hour", "minute"]

  /** The `recurrence_<field>` column of a row. */
  function CronColumn(task: Row, field: string): Option<string> {
    if field == "month" then task.recurrenceMonth
    else if field == "day_of_month" then task.recurrenceDayOfMonth
    else if field == "day_of_week" then task.recurrenceDayOfWeek
    else if field == "hour" then task.recurrenceHour
    else if field == "minute" then task.recurrenceMinute
    else None
  }

  /**
    `cron_args` as written: one keyword per non-NULL cron column, named after
    the column.
   */
  function CronArgs(task: Row): map<string, string> {
    map f | f in CronFields && CronColumn(task, f).Some? :: CronColumn(task, f).value
  }

  /** The month .. minute columns map one to one onto `CronArgs`; nothing else is passed. */
  lemma CronArgsMirrorColumns(task: Row)
    ensures Mirrors(CronArgs(task), "month", task.recurrenceMonth)
    ensures Mirrors(CronArgs(task), "day_of_month", task.recurrenceDayOfMonth)
    ensures Mirrors(CronArgs(task), "day_of_week", task.recurrenceDayOfWeek)
    ensures Mirrors(CronArgs(task), "hour", task.recurrenceHour)
    ensures Mirrors(CronArgs(task), "minute", task.recurrenceMinute)
    ensures forall f :: f in CronArgs(task) ==> f in CronFields
  {
  }

  /** The keyword arguments the cron trigger of the scheduling library takes. */
  const CronTriggerParameters: set<string> := {
    "year", "month", "day", "week", "day_of_week", "hour", "minute", "second",
    "start_date", "end_date", "timezone", "jitter"
  }

  /**
    The trigger takes every keyword name in `args`. The checks it then makes
    on each field's text are not part of this model.
   */
  predicate CronTriggerAccepts(args: map<string, string>) {
    forall f :: f in args ==> f in CronTriggerParameters
  }

  /**
    As written, the trigger refuses the keywords of a row exactly when the
    row has a day of month: `day_of_month` is the one name it does not take.
   */
  lemma DayOfMonthRejectedAsWritten(task: Row)
    ensures !CronTriggerAccepts(CronArgs(task)) <==> task.recurrenceDayOfMonth.Some?
  {
    CronArgsMirrorColumns(task);
    if task.recurrenceDayOfMonth.Some? {
      assert "day_of_month" in CronArgs(task);
    }
  }

  /**
    The cron keywords with the day of month passed under the trigger's own
    name, `day`; the other four are passed as `CronArgs` passes them.
   */
  function CronTriggerArgs(task: Row): map<string, string> {
    var renamed := CronArgs(task) - {"day_of_month"};
    match task.recurrenceDayOfMonth
    case Some(d) => renamed["day" := d]
    case None => renamed
  }

  /** Each cron column reaches the trigger under its keyword, and the trigger takes every keyword. */
  lemma CronTriggerArgsMirrorColumns(task: Row)
    ensures Mirrors(CronTriggerArgs(task), "month", task.recurrenceMonth)
    ensures Mirrors(CronTriggerArgs(task), "day", task.recurrenceDayOfMonth)
    ensures Mirrors(CronTriggerArgs(task), "day_of_week", task.recurrenceDayOfWeek)
    ensures Mirrors(CronTriggerArgs(task), "hour", task.recurrenceHour)
    ensures Mirrors(CronTriggerArgs(task), "minute", task.recurrenceMinute)
    ensures CronTriggerAccepts(CronTriggerArgs(task))
  {
    CronArgsMirrorColumns(task);
  }

  /** A one-time row with a NULL run date: `fromisoformat(None)` raises. */
  predicate DateMissing(task: Row) {
    task.taskType == OneTime && task.runDatetime.None?
  }

  /**
    A recurring row whose cron keywords include `day_of_month`: `add_job`
    raises a TypeError for it (DayOfMonthRejectedAsWritten).
   */
  predicate CronRejected(task: Row) {
    task.taskType == Recurring && task.recurrenceDayOfMonth.Some?
  }

  /** The rows on which `schedule_task` raises, after the old job is gone. */
  predicate ScheduleRaises(task: Row) {
    DateMissing(task) || CronRejected(task)
  }

  /**
    The rows `schedule_task` arms as written: recurring ones without a day
    of month, and one-time ones with a run date.
   */
  predicate Armable(task: Row) {
    (task.taskType == Recurring && !CronRejected(task)) || (task.taskType == OneTime && task.runDatetime.Some?)
  }

  /** `task['description'] or ""`. */
  function Captured(description: Option<string>): string {
    match description
    case Some(d) => d
    case None => ""
  }

  /** The job `add_job` registers, as written, for a row it arms. */
  function JobFor(task: Row): (job: Job)
    requires Armable(task)
    ensures job.taskId == task.id && job.taskType == task.taskType
    ensures job.description == Captured(task.description)
    ensures task.taskType == OneTime ==> job.trigger == Date(task.runDatetime.value)
    ensures task.taskType == Recurring ==> job.trigger == Cron(CronArgs(task))
  {
    var trigger := if task.taskType == OneTime then Date(task.runDatetime.value) else Cron(CronArgs(task));
    Job(trigger, task.id, Captured(task.description), task.taskType)
  }

  /**
    On every row the code arms, the cron keywords it passes are the ones the
    trigger takes, and they equal the corrected keywords.
   */
  lemma ArmedTriggerAccepted(task: Row)
    requires Armable(task) && task.taskType == Recurring
    ensures CronTriggerAccepts(CronArgs(task))
    ensures CronArgs(task) == CronTriggerArgs(task)
  {
    DayOfMonthRejectedAsWritten(task);
    CronArgsMirrorColumns(task);
    assert "day_of_month" !in CronArgs(task);
  }

  /** The rows the corrected `schedule_task` arms: every recurring one, and one-time ones with a run date. */
  predicate ArmableCorrected(task: Row) {
    task.taskType == Recurring || (task.taskType == OneTime && task.runDatetime.Some?)
  }

  /** The job the corrected call registers: the day of month passed as `day`. */
  function CorrectedJobFor(task: Row): (job: Job)
    requires ArmableCorrected(task)
    ensures job.taskId == task.id && job.taskType == task.taskType
    ensures job.description == Captured(task.description)
    ensures task.taskType == OneTime ==> job.trigger == Date(task.runDatetime.value)
    ensures task.taskType == Recurring ==> job.trigger == Cron(CronTriggerArgs(task))
  {
    var trigger := if task.taskType == OneTime then Date(task.runDatetime.value) else Cron(CronTriggerArgs(task));
    Job(trigger, task.id, Captured(task.description), task.taskType)
  }

  /**
    The corrected call arms every row the written one arms, with the same
    job, and the trigger takes the keywords of every job it arms.
   */
  lemma CorrectedJobAgrees(task: Row)
    requires ArmableCorrected(task)
    ensures CorrectedJobFor(task).trigger.Cron? ==> CronTriggerAccepts(CorrectedJobFor(task).trigger.fields)
    ensures Armable(task) ==> CorrectedJobFor(task) == JobFor(task)
  {
    CronTriggerArgsMirrorColumns(task);
    if Armable(task) && task.taskType == Recurring {
      ArmedTriggerAccepted(task);
    }
  }

  function ScheduledEvents(id: int): seq<Event> {
    [Log(ScheduledText(id)), StatusUpdate(id, Running)]
  }

  function UnscheduledEvents(id: int): seq<Event> {
    [Log(UnscheduledText(id)), StatusUpdate(id, Stopped)]
  }

  /** What one fire puts on the queue: log, local notification, then the deletion of a one-time task. */
  function FireEvents(id: int, message: string, taskType: string): seq<Event> {
    [Log(ExecutingText(id, message)), ShowNotification(message)]
      + (if taskType == OneTime then [TaskDeleted(id)] else [])
  }

  // ---------------------------------------------------------------------------
  // The job table against the table of tasks.

  /** Every stored row can be armed. */
  ghost predicate AllArmable(rows: map<int, Row>) {
    forall id :: id in rows ==> Armable(rows[id])
  }

  /**
    The tasks with a job are exactly the rows whose status is 'running':
    every running row has a job under its key, and every job runs a
    running row.
   */
  ghost predicate InSync(rows: map<int, Row>, jobs: map<string, Job>) {
    (forall id :: id in rows && rows[id].status == Running ==> JobKey(id) in jobs) &&
    (forall k :: k in jobs ==> jobs[k].taskId in rows && rows[jobs[k].taskId].status == Running)
  }

  /** `update_task_status` on the table. */
  function WithStatus(rows: map<int, Row>, id: int, status: string): (r: map<int, Row>)
    ensures r.Keys == rows.Keys
    ensures id in rows ==> r[id] == rows[id].(status := status)
    ensures forall other :: other in rows && other != id ==> r[other] == rows[other]
  {
    if id in rows then rows[id := rows[id].(status := status)] else rows
  }

  /** A running row without a job breaks "jobs = running rows". */
  lemma RunningWithoutJobBreaksSync(rows: map<int, Row>, jobs: map<string, Job>, id: int)
    requires id in rows && rows[id].status == Running && JobKey(id) !in jobs
    ensures !InSync(rows, jobs)
  {
  }

  /** A status change keeps every row armable: armability does not depend on the status. */
  lemma StatusKeepsArmable(rows: map<int, Row>, id: int, status: string)
    requires AllArmable(rows)
    ensures AllArmable(WithStatus(rows, id, status))
  {
  }

  /** Stopping a row and dropping its job keeps the two tables in step. */
  lemma StopKeepsSync(rows: map<int, Row>, jobs: map<string, Job>, id: int)
    requires KeyedByTask(jobs) && InSync(rows, jobs)
    ensures InSync(WithStatus(rows, id, Stopped), jobs - {JobKey(id)})
  {
    var rows', jobs' := WithStatus(rows, id, Stopped), jobs - {JobKey(id)};
    forall other | other in rows' && rows'[other].status == Running
      ensures JobKey(other) in jobs'
    {
      if JobKey(other) == JobKey(id) {
        JobKeyInjective(other, id);
      }
    }
    forall k | k in jobs'
      ensures jobs'[k].taskId in rows' && rows'[jobs'[k].taskId].status == Running
    {
      assert jobs[k].taskId != id;
    }
  }

  /** Setting a row running and arming its job keeps the two tables in step. */
  lemma RunKeepsSync(rows: map<int, Row>, jobs: map<string, Job>, id: int, job: Job)
    requires KeyedByTask(jobs) && InSync(rows, jobs)
    requires id in rows && job.taskId == id
    ensures InSync(WithStatus(rows, id, Running), jobs[JobKey(id) := job])
  {
  }

  /** Deleting a row together with its job keeps the two tables in step. */
  lemma DeleteKeepsSync(rows: map<int, Row>, jobs: map<string, Job>, id: int)
    requires KeyedByTask(jobs) && InSync(rows, jobs)
    ensures InSync(rows - {id}, jobs - {JobKey(id)})
  {
    var rows', jobs' := rows - {id}, jobs - {JobKey(id)};
    forall other | other in rows' && rows'[other].status == Running
      ensures JobKey(other) in jobs'
    {
      if JobKey(other) == JobKey(id) {
        JobKeyInjective(other, id);
      }
    }
    forall k | k in jobs'
      ensures jobs'[k].taskId in rows' && rows'[jobs'[k].taskId].status == Running
    {
      assert jobs[k].taskId != id;
    }
  }

  /** A new row that is not running joins the table without a job. */
  lemma InsertStoppedKeepsSync(rows: map<int, Row>, jobs: map<string, Job>, row: Row)
    requires KeyedByTask(jobs) && InSync(rows, jobs)
    requires row.id !in rows && row.status != Running
    ensures InSync(rows[row.id := row], jobs)
    ensures JobKey(row.id) !in jobs
  {
    if JobKey(row.id) in jobs {
      assert JobKey(row.id) == JobKey(jobs[JobKey(row.id)].taskId);
      JobKeyInjective(row.id, jobs[JobKey(row.id)].taskId);
    }
  }

  /**
    Inserting a row, setting it running and arming its job keeps the two
    tables in step: the sequence `add_task` performs.
   */
  lemma InsertRunningKeepsSync(rows: map<int, Row>, jobs: map<string, Job>, row: Row)
    requires KeyedByTask(jobs) && InSync(rows, jobs)
    requires row.id !in rows && Armable(row)
    ensures InSync(rows[row.id := row.(status := Running)], jobs[JobKey(row.id) := JobFor(row)])
  {
    var stopped := row.(status := Stopped);
    InsertStoppedKeepsSync(rows, jobs, stopped);
    RunKeepsSync(rows[row.id := stopped], jobs, row.id, JobFor(row));
    assert WithStatus(rows[row.id := stopped], row.id, Running) == rows[row.id := row.(status := Running)];
  }

  // ---------------------------------------------------------------------------
  // The loop of `start`, as functions of the rows it schedules.

  /** The job table after a call of `schedule_task` on `task` that did not raise. */
  function Arm(jobs: map<string, Job>, task: Row): map<string, Job> {
    if Armable(task) then jobs[JobKey(task.id) := JobFor(task)] else jobs - {JobKey(task.id)}
  }

  /** The job table after scheduling the rows of `tasks` in order, none of which raised. */
  function ArmAll(jobs: map<string, Job>, tasks: seq<Row>): map<string, Job>
    decreases |tasks|
  {
    if tasks == [] then jobs
    else Arm(ArmAll(jobs, tasks[..|tasks| - 1]), tasks[|tasks| - 1])
  }

  /** The events scheduling the rows of `tasks` in order puts on the queue. */
  function ArmEvents(tasks: seq<Row>): seq<Event>
    decreases |tasks|
  {
    if tasks == [] then []
    else
      var last := tasks[|tasks| - 1];
      ArmEvents(tasks[..|tasks| - 1]) + (if Armable(last) then ScheduledEvents(last.id) else [])
  }

  /** One more row of the loop: the table and the events of the longer prefix. */
  lemma ArmNext(jobs: map<string, Job>, queue: seq<Event>, tasks: seq<Row>, i: nat)
    requires i < |tasks|
    ensures ArmAll(jobs, tasks[..i + 1]) == Arm(ArmAll(jobs, tasks[..i]), tasks[i])
    ensures queue + ArmEvents(tasks[..i + 1]) ==
      (queue + ArmEvents(tasks[..i])) + (if Armable(tasks[i]) then ScheduledEvents(tasks[i].id) else [])
  {
    assert tasks[..i + 1][..i] == tasks[..i];
  }

  /** The index of the first row on which `schedule_task` raises, or `|tasks|` when none does. */
  function FirstRaise(tasks: seq<Row>): (j: nat)
    ensures j <= |tasks|
    ensures j < |tasks| ==> ScheduleRaises(tasks[j])
    ensures forall i :: 0 <= i < j ==> !ScheduleRaises(tasks[i])
  {
    if tasks == [] then 0
    else if ScheduleRaises(tasks[0]) then 0
    else 1 + FirstRaise(tasks[1..])
  }

  /** A row that does not raise moves the loop past it. */
  lemma FirstRaisePast(tasks: seq<Row>, i: nat)
    requires i < |tasks| && i <= FirstRaise(tasks) && !ScheduleRaises(tasks[i])
    ensures i + 1 <= FirstRaise(tasks)
  {
  }

  /**
    Among rows with ascending ids, each armable row ends with its own job
    and each other row with none, whatever the table held before.
   */
  lemma {:induction false} ArmAllArms(jobs: map<string, Job>, tasks: seq<Row>, j: nat)
    requires forall a, b :: 0 <= a < b < |tasks| ==> tasks[a].id < tasks[b].id
    requires j < |tasks|
    ensures Armable(tasks[j]) ==>
      JobKey(tasks[j].id) in ArmAll(jobs, tasks) && ArmAll(jobs, tasks)[JobKey(tasks[j].id)] == JobFor(tasks[j])
    ensures !Armable(tasks[j]) ==> JobKey(tasks[j].id) !in ArmAll(jobs, tasks)
  {
    var n := |tasks| - 1;
    var prev := ArmAll(jobs, tasks[..n]);
    assert ArmAll(jobs, tasks) == Arm(prev, tasks[n]);
    if j == n {
      ArmOwnKey(prev, tasks[n]);
    } else {
      ArmAllArms(jobs, tasks[..n], j);
      assert tasks[..n][j] == tasks[j];
      if JobKey(tasks[n].id) == JobKey(tasks[j].id) {
        JobKeyInjective(tasks[n].id, tasks[j].id);
      }
      ArmOtherKey(prev, tasks[n], JobKey(tasks[j].id));
    }
  }

  /** One call arms the row's own key, or drops it. */
  lemma ArmOwnKey(jobs: map<string, Job>, task: Row)
    ensures Armable(task) ==> JobKey(task.id) in Arm(jobs, task) && Arm(jobs, task)[JobKey(task.id)] == JobFor(task)
    ensures !Armable(task) ==> JobKey(task.id) !in Arm(jobs, task)
  {
  }

  /** One call leaves every other key as it was. */
  lemma ArmOtherKey(jobs: map<string, Job>, task: Row, k: string)
    requires k != JobKey(task.id)
    ensures k in Arm(jobs, task) <==> k in jobs
    ensures k in jobs ==> Arm(jobs, task)[k] == jobs[k]
  {
  }

  /** Every job after the loop was there before, unchanged, or runs one of the rows. */
  lemma {:induction false} ArmAllProvenance(jobs: map<string, Job>, tasks: seq<Row>, k: string)
    requires k in ArmAll(jobs, tasks)
    ensures (k in jobs && ArmAll(jobs, tasks)[k] == jobs[k]) ||
            exists j :: 0 <= j < |tasks| && ArmAll(jobs, tasks)[k].taskId == tasks[j].id
  {
    if tasks != [] {
      var n := |tasks| - 1;
      if k == JobKey(tasks[n].id) && Armable(tasks[n]) {
        assert ArmAll(jobs, tasks)[k].taskId == tasks[n].id;
      } else {
        ArmAllProvenance(jobs, tasks[..n], k);
        if !(k in jobs && ArmAll(jobs, tasks[..n])[k] == jobs[k]) {
          var j :| 0 <= j < n && ArmAll(jobs, tasks[..n])[k].taskId == tasks[..n][j].id;
          assert ArmAll(jobs, tasks)[k].taskId == tasks[j].id;
        }
      }
    }
  }

  /**
    What the loop of `start` leaves after scheduling `tasks` from the job
    table `jobs0` and the queue `queue0`: the jobs and events of the rows
    before the first that raises, and that row's key dropped.
   */
  ghost predicate LoopResult(tasks: seq<Row>, jobs0: map<string, Job>, queue0: seq<Event>,
                             outcome: Outcome, jobs: map<string, Job>, queue: seq<Event>)
  {
    var j := FirstRaise(tasks);
    && (outcome == Raised <==> j < |tasks|)
    && (outcome == Done ==> jobs == ArmAll(jobs0, tasks) && queue == queue0 + ArmEvents(tasks))
    && (outcome == Raised ==>
          && jobs == ArmAll(jobs0, tasks[..j]) - {JobKey(tasks[j].id)}
          && queue == queue0 + ArmEvents(tasks[..j]))
  }

  /** `running` lists exactly the rows of `rows` whose status is 'running'. */
  ghost predicate ListsRunning(rows: map<int, Row>, running: seq<Row>) {
    IdKeyed(rows) &&
    forall r :: r in running <==> r.id in rows && rows[r.id] == r && r.status == Running
  }

  /** The loop over the running rows raises exactly when one of them raises. */
  lemma RunningRaise(rows: map<int, Row>, running: seq<Row>)
    requires ListsRunning(rows, running)
    ensures FirstRaise(running) < |running| <==>
      exists id :: id in rows && rows[id].status == Running && ScheduleRaises(rows[id])
  {
    if FirstRaise(running) < |running| {
      var r := running[FirstRaise(running)];
      assert r in running;
    }
    if exists id :: id in rows && rows[id].status == Running && ScheduleRaises(rows[id]) {
      var id :| id in rows && rows[id].status == Running && ScheduleRaises(rows[id]);
      assert rows[id] in running;
    }
  }

  /** After the whole loop, each running armable row has its own job. */
  lemma RunningArmed(rows: map<int, Row>, running: seq<Row>, jobs0: map<string, Job>)
    requires ListsRunning(rows, running)
    requires forall a, b :: 0 <= a < b < |running| ==> running[a].id < running[b].id
    ensures forall id :: id in rows && rows[id].status == Running && Armable(rows[id]) ==>
      JobKey(id) in ArmAll(jobs0, running) && ArmAll(jobs0, running)[JobKey(id)] == JobFor(rows[id])
  {
    forall id | id in rows && rows[id].status == Running && Armable(rows[id])
      ensures JobKey(id) in ArmAll(jobs0, running) && ArmAll(jobs0, running)[JobKey(id)] == JobFor(rows[id])
    {
      assert rows[id] in running;
      var j :| 0 <= j < |running| && running[j] == rows[id];
      ArmAllArms(jobs0, running, j);
    }
  }

  /** Every job the loop left that was not there before runs a running row. */
  lemma RunningProvenance(rows: map<int, Row>, running: seq<Row>, n: nat, jobs0: map<string, Job>, jobs: map<string, Job>)
    requires ListsRunning(rows, running) && n <= |running|
    requires forall k :: k in jobs ==> k in ArmAll(jobs0, running[..n]) && jobs[k] == ArmAll(jobs0, running[..n])[k]
    ensures forall k :: k in jobs ==> k in jobs0 || (jobs[k].taskId in rows && rows[jobs[k].taskId].status == Running)
  {
    forall k | k in jobs && k !in jobs0
      ensures jobs[k].taskId in rows && rows[jobs[k].taskId].status == Running
    {
      ArmAllProvenance(jobs0, running[..n], k);
      var j :| 0 <= j < n && jobs[k].taskId == running[..n][j].id;
      assert running[j] in running;
    }
  }

  /**
    From the loop's result over the running rows: it raised exactly when a
    running row raises; if not, each running armable row has its own job;
    every new job runs a running row; and from an empty table with every row
    armable, the jobs are exactly the running rows.
   */
  lemma StartFacts(rows: map<int, Row>, running: seq<Row>, jobs0: map<string, Job>, queue0: seq<Event>,
                   outcome: Outcome, jobs: map<string, Job>, queue: seq<Event>)
    requires ListsRunning(rows, running)
    requires forall a, b :: 0 <= a < b < |running| ==> running[a].id < running[b].id
    requires LoopResult(running, jobs0, queue0, outcome, jobs, queue)
    ensures outcome == Raised <==> exists id :: id in rows && rows[id].status == Running && ScheduleRaises(rows[id])
    ensures outcome == Done ==>
      forall id :: id in rows && rows[id].status == Running && Armable(rows[id]) ==>
        JobKey(id) in jobs && jobs[JobKey(id)] == JobFor(rows[id])
    ensures forall k :: k in jobs ==> k in jobs0 || (jobs[k].taskId in rows && rows[jobs[k].taskId].status == Running)
    ensures jobs0 == map[] && AllArmable(rows) ==> outcome == Done && InSync(rows, jobs)
  {
    var first := FirstRaise(running);
    RunningRaise(rows, running);
    if outcome == Done {
      assert running[..first] == running;
      RunningArmed(rows, running, jobs0);
    }
    RunningProvenance(rows, running, first, jobs0, jobs);
  }

  class Orchestrator {
    /** The task table the `database` module works on. */
    const store: Store
    /** The quote and state files the cooldown selection works on. */
    const quotes: Quotes.QuoteFiles
    /** The scheduler's job store, by job id. */
    var jobs: map<string, Job>
    /** The update queue shared with the UI. */
    var queue: seq<Event>

    /** Every job sits under its task's key. */
    ghost predicate Valid()
      reads this
    {
      KeyedByTask(jobs)
    }

    constructor (store: Store, quotes: Quotes.QuoteFiles)
      ensures Valid() && this.store == store && this.quotes == quotes
      ensures jobs == map[] && queue == []
    {
      this.store := store;
      this.quotes := quotes;
      jobs := map[];
      queue := [];
    }

    /**
      `schedule_task`: drops any job under the row's key, then arms the
      row's trigger and reports it. A row of another task type gets no job
      and no events. After the old job is gone, a one-time row without a run
      date raises, and so does a recurring row with a day of month, whose
      `day_of_month` keyword `add_job` rejects.
     */
    method ScheduleTask(task: Row) returns (outcome: Outcome)
      requires Valid()
      modifies this
      ensures Valid()
      ensures outcome == Raised <==> ScheduleRaises(task)
      ensures Armable(task) ==>
        jobs == old(jobs)[JobKey(task.id) := JobFor(task)] && queue == old(queue) + ScheduledEvents(task.id)
      ensures !Armable(task) ==> jobs == old(jobs) - {JobKey(task.id)} && queue == old(queue)
    {
      var jobId := JobKey(task.id);
      if jobId in jobs {
        jobs := jobs - {jobId};
      }
      if DateMissing(task) {
        return Raised;
      }
      if CronRejected(task) {
        return Raised;
      }
      if Armable(task) {
        jobs := jobs[jobId := JobFor(task)];
        queue := queue + ScheduledEvents(task.id);
      }
      outcome := Done;
    }

    /**
      `schedule_task` with the day of month passed as `day`: every recurring
      row is armed, and only a one-time row without a run date raises.
     */
    method ScheduleTaskCorrected(task: Row) returns (outcome: Outcome)
      requires Valid()
      modifies this
      ensures Valid()
      ensures outcome == Raised <==> DateMissing(task)
      ensures ArmableCorrected(task) ==>
        jobs == old(jobs)[JobKey(task.id) := CorrectedJobFor(task)] && queue == old(queue) + ScheduledEvents(task.id)
      ensures !ArmableCorrected(task) ==> jobs == old(jobs) - {JobKey(task.id)} && queue == old(queue)
    {
      var jobId := JobKey(task.id);
      if jobId in jobs {
        jobs := jobs - {jobId};
      }
      if DateMissing(task) {
        return Raised;
      }
      if ArmableCorrected(task) {
        jobs := jobs[jobId := CorrectedJobFor(task)];
        queue := queue + ScheduledEvents(task.id);
      }
      outcome := Done;
    }

    /** `unschedule_task`: removes the job of that task and reports it, only if there is one. */
    method UnscheduleTask(taskId: int)
      requires Valid()
      modifies this
      ensures Valid()
      ensures JobKey(taskId) in old(jobs) ==>
        jobs == old(jobs) - {JobKey(taskId)} && queue == old(queue) + UnscheduledEvents(taskId)
      ensures JobKey(taskId) !in old(jobs) ==> jobs == old(jobs) && queue == old(queue)
    {
      var jobId := JobKey(taskId);
      if jobId in jobs {
        jobs := jobs - {jobId};
        queue := queue + [Log(UnscheduledText(taskId)), StatusUpdate(taskId, Stopped)];
      }
    }

    /**
      `_run_task`, what a job does when it fires. The message is the
      description, or a quote when it is empty; the push notification is
      sent between the two events and always returns. A one-time task's row
      is then deleted. `message` is the resolved text; an exception from the
      quote selection ends the run before anything is emitted.
     */
    method RunTask(taskId: int, description: string, taskType: string) returns (outcome: Outcome, ghost message: string)
      requires Valid() && store.Valid()
      modifies this, store, quotes
      ensures Valid() && store.Valid()
      ensures jobs == old(jobs)
      ensures store.nextId == old(store.nextId) && store.issued == old(store.issued)
      ensures description != "" ==> outcome == Done && message == description && quotes.stateFile == old(quotes.stateFile)
      ensures description == "" ==>
        Quotes.CooldownStep(quotes.quotesFile, old(quotes.stateFile), quotes.stateFile,
                            if outcome == Raised then Quotes.Raised else Quotes.Text(message))
      ensures outcome == Raised ==> queue == old(queue) && store.rows == old(store.rows)
      ensures outcome == Done ==> queue == old(queue) + FireEvents(taskId, message, taskType)
      ensures outcome == Done && taskType == OneTime ==> store.rows == old(store.rows) - {taskId}
      ensures outcome == Done && taskType != OneTime ==> store.rows == old(store.rows)
    {
      message := description;
      var text := description;
      if description == "" {
        var quote := quotes.GetRandomQuoteWithCooldown();
        if quote.Raised? {
          return Raised, message;
        }
        text := quote.text;
        message := text;
      }
      queue := queue + [Log(ExecutingText(taskId, text))];
      // send_pushover_notification(text): an HTTP call outside this model
      queue := queue + [ShowNotification(text)];
      if taskType == OneTime {
        store.Delete(taskId);
        queue := queue + [TaskDeleted(taskId)];
      }
      outcome := Done;
    }

    /**
      The loop of `start`: schedules each row in turn, stopping at the
      first that raises. The job table and the queue are then those of the
      rows before it, with the raising row's key dropped.
     */
    method ScheduleEach(tasks: seq<Row>) returns (outcome: Outcome)
      requires Valid()
      modifies this
      ensures Valid()
      ensures LoopResult(tasks, old(jobs), old(queue), outcome, jobs, queue)
    {
      var i := 0;
      outcome := Done;
      while i < |tasks|
        invariant 0 <= i <= |tasks| && outcome == Done
        invariant Valid()
        invariant i <= FirstRaise(tasks)
        invariant jobs == ArmAll(old(jobs), tasks[..i])
        invariant queue == old(queue) + ArmEvents(tasks[..i])
      {
        outcome := ScheduleTask(tasks[i]);
        if outcome == Raised {
          return;
        }
        FirstRaisePast(tasks, i);
        ArmNext(old(jobs), old(queue), tasks, i);
        i := i + 1;
      }
      assert tasks[..i] == tasks;
    }

    /**
      `start`: logs, then re-arms the rows whose status is 'running', in the
      order the query returns them. An exception from one of them ends the
      loop and escapes.
     */
    method Start() returns (outcome: Outcome)
      requires Valid() && store.Valid()
      modifies this
      ensures Valid()
      ensures LoopResult(store.GetByStatus(Running), old(jobs), old(queue) + [Log(StartedText)], outcome, jobs, queue)
      ensures outcome == Raised <==>
        exists id :: id in store.rows && store.rows[id].status == Running && ScheduleRaises(store.rows[id])
      ensures outcome == Done ==>
        forall id :: id in store.rows && store.rows[id].status == Running && Armable(store.rows[id]) ==>
          JobKey(id) in jobs && jobs[JobKey(id)] == JobFor(store.rows[id])
      ensures forall k :: k in jobs ==>
        k in old(jobs) || (jobs[k].taskId in store.rows && store.rows[jobs[k].taskId].status == Running)
      ensures old(jobs) == map[] && AllArmable(store.rows) ==> outcome == Done && InSync(store.rows, jobs)
    {
      queue := queue + [Log(StartedText)];
      var running := store.GetByStatus(Running);
      outcome := ScheduleEach(running);
      StartFacts(store.rows, running, old(jobs), old(queue) + [Log(StartedText)], outcome, jobs, queue);
    }

    /** `shutdown`: the log event it emits; stopping the scheduler itself is the library's. */
    method Shutdown()
      modifies this
      ensures queue == old(queue) + [Log(ShutdownText)] && jobs == old(jobs)
    {
      queue := queue + [Log(ShutdownText)];
    }
  }
}
