/**
  The scheduling part of the App window in app_ui.py: turning the form into
  a task dictionary (the recurrence rule chooses the cron fields), and the
  add, start/stop and delete buttons, each a store update followed by an
  orchestrator call. Widgets and the queue polling are not modelled; the
  lines the window logs are kept as a list.
 */
module AppUi {
  import opened Wrappers
  import opened Decimal
  import opened TaskStore
  import opened Scheduler

  /** A time parsed with '%H:%M'. */
  datatype Clock = Clock(hour: nat, minute: nat)

  /** A date parsed with '%m/%d/%Y'. */
  datatype Day = Day(month: nat, day: nat, year: nat)

  /**
    The form when "Schedule Task" is pressed. Each parse is given by its
    result: `None` where `strptime` raises ValueError.
   */
  datatype Form = Form(
    taskKind: string,
    description: string,
    date: Option<Day>,
    time: Option<Clock>,
    rule: string,
    weekday: string,
    dayOfMonth: string)

  const InvalidFieldsText := "\U{274C} Invalid or missing fields for the selected task type."
  const CreateFailedText := "\U{274C} Failed to create task."

  function CreatedText(id: int): string {
    "\U{2705} Task " + IntToString(id) + " created."
  }

  function DeletedText(id: int): string {
    "\U{1F5D1}\U{FE0F} Task " + IntToString(id) + " deleted."
  }

  /** The rules that set only the minute field. */
  predicate MinuteRule(rule: string) {
    rule == "Every Minute" || rule == "Every 5 Minutes" || rule == "Hourly"
  }

  function LowerChar(c: char): char {
    if 'A' <= c <= 'Z' then (c as int + 32) as char else c
  }

  /** `str.lower()` on ASCII letters. */
  function Lower(s: string): (t: string)
    ensures |t| == |s| && forall i :: 0 <= i < |s| ==> t[i] == LowerChar(s[i])
  {
    seq(|s|, i requires 0 <= i < |s| => LowerChar(s[i]))
  }

  /** `name[:3].lower()`. */
  function WeekdayAbbrev(name: string): string {
    Lower(if |name| < 3 then name else name[..3])
  }

  /** Marks a present cron value. */
  predicate Holds(fields: TaskData, key: string, value: string) {
    key in fields && fields[key] == Some(value)
  }

  /**
    The cron fields `add_task` adds for a recurrence rule. Every rule but
    the three minute rules parses the time, and Yearly parses the date;
    `None` is the ValueError of a failed parse.
   */
  function RecurrenceFields(rule: string, time: Option<Clock>, weekday: string, dayOfMonth: string, date: Option<Day>)
    : Option<TaskData>
  {
    if rule == "Every Minute" then Some(map["recurrence_minute" := Some("*/1")])
    else if rule == "Every 5 Minutes" then Some(map["recurrence_minute" := Some("*/5")])
    else if rule == "Hourly" then Some(map["recurrence_minute" := Some("0")])
    else
      match time
      case None => None
      case Some(t) =>
        var clock := map["recurrence_hour" := Some(NatToString(t.hour)), "recurrence_minute" := Some(NatToString(t.minute))];
        if rule == "Weekly" then Some(clock["recurrence_day_of_week" := Some(WeekdayAbbrev(weekday))])
        else if rule == "Monthly" then Some(clock["recurrence_day_of_month" := Some(dayOfMonth)])
        else if rule == "Yearly" then
          match date
          case None => None
          case Some(d) =>
            Some(clock["recurrence_month" := Some(NatToString(d.month))]["recurrence_day_of_month" := Some(NatToString(d.day))])
        else Some(clock)
  }

  /**
    What each recurrence rule asks of the cron columns: the minute rules set
    the minute alone; the others need a time and set hour and minute, Weekly
    adds the day of the week, Monthly the day of the month as typed, Yearly
    (which also needs a date) the month and day of the date; any other rule
    sets only hour and minute.
   */
  ghost predicate RuleFields(rule: string, time: Option<Clock>, weekday: string, dayOfMonth: string, date: Option<Day>,
                             fields: Option<TaskData>)
  {
    && (MinuteRule(rule) ==> fields.Some? && fields.value.Keys == {"recurrence_minute"})
    && (rule == "Every Minute" ==> Holds(fields.value, "recurrence_minute", "*/1"))
    && (rule == "Every 5 Minutes" ==> Holds(fields.value, "recurrence_minute", "*/5"))
    && (rule == "Hourly" ==> Holds(fields.value, "recurrence_minute", "0"))
    && (!MinuteRule(rule) ==> (fields.None? <==> time.None? || (rule == "Yearly" && date.None?)))
    && (!MinuteRule(rule) && fields.Some? ==>
          && Holds(fields.value, "recurrence_hour", NatToString(time.value.hour))
          && Holds(fields.value, "recurrence_minute", NatToString(time.value.minute)))
    && (!MinuteRule(rule) && fields.Some? && rule == "Weekly" ==>
          && fields.value.Keys == {"recurrence_hour", "recurrence_minute", "recurrence_day_of_week"}
          && Holds(fields.value, "recurrence_day_of_week", WeekdayAbbrev(weekday)))
    && (!MinuteRule(rule) && fields.Some? && rule == "Monthly" ==>
          && fields.value.Keys == {"recurrence_hour", "recurrence_minute", "recurrence_day_of_month"}
          && Holds(fields.value, "recurrence_day_of_month", dayOfMonth))
    && (!MinuteRule(rule) && fields.Some? && rule == "Yearly" ==>
          && fields.value.Keys == {"recurrence_hour", "recurrence_minute", "recurrence_month", "recurrence_day_of_month"}
          && Holds(fields.value, "recurrence_month", NatToString(date.value.month))
          && Holds(fields.value, "recurrence_day_of_month", NatToString(date.value.day)))
    && (!MinuteRule(rule) && fields.Some? && rule != "Weekly" && rule != "Monthly" && rule != "Yearly" ==>
          fields.value.Keys == {"recurrence_hour", "recurrence_minute"})
  }

  /** The mapping in `add_task` sets exactly the cron columns its rule asks for. */
  lemma RecurrenceFieldsFollowRule(rule: string, time: Option<Clock>, weekday: string, dayOfMonth: string, date: Option<Day>)
    ensures RuleFields(rule, time, weekday, dayOfMonth, date, RecurrenceFields(rule, time, weekday, dayOfMonth, date))
  {
  }

  /** Left-pads with zeros to `width` characters. */
  function ZeroPad(s: string, width: nat): (t: string)
    ensures |t| == if |s| < width then width else |s|
    decreases width - |s|
  {
    if |s| >= width then s else ZeroPad("0" + s, width)
  }

  /** The padded text ends with the original text and has only zeros before it. */
  lemma {:induction false} ZeroPadPads(s: string, width: nat)
    ensures var t := ZeroPad(s, width);
      t[|t| - |s|..] == s && forall i :: 0 <= i < |t| - |s| ==> t[i] == '0'
    decreases width - |s|
  {
    if |s| < width {
      ZeroPadPads("0" + s, width);
      var t := ZeroPad(s, width);
      assert t[|t| - |s| - 1..] == "0" + s;
      assert t[|t| - |s|..] == t[|t| - |s| - 1..][1..];
    }
  }

  /**
    The text sqlite stores for the datetime of a one-time task:
    `YYYY-MM-DD HH:MM:SS`, as `datetime.isoformat(" ")` writes it.
   */
  function IsoText(d: Day, t: Clock): string {
    ZeroPad(NatToString(d.year), 4) + "-" + ZeroPad(NatToString(d.month), 2) + "-"
      + ZeroPad(NatToString(d.day), 2) + " " + ZeroPad(NatToString(t.hour), 2) + ":"
      + ZeroPad(NatToString(t.minute), 2) + ":00"
  }

  /**
    The `task_data` dictionary `add_task` builds, or `None` when a parse
    fails. A form that is neither one-time nor recurring yields only the
    description, with no task type.
   */
  function BuildTaskData(form: Form): Option<TaskData> {
    var base := map["description" := Some(form.description)];
    if form.taskKind == "One-Time" then
      if form.date.Some? && form.time.Some? then
        Some(base["task_type" := Some(OneTime)]["run_datetime" := Some(IsoText(form.date.value, form.time.value))])
      else None
    else if form.taskKind == "Recurring" then
      match RecurrenceFields(form.rule, form.time, form.weekday, form.dayOfMonth, form.date)
      case None => None
      case Some(fields) =>
        Some(base["task_type" := Some(Recurring)]["recurrence_rule" := Some(form.rule)] + fields)
    else Some(base)
  }

  /**
    The dictionary a one-time form should give: it needs date and time, and
    has exactly the description, the type and the run date.
   */
  ghost predicate OneTimeData(form: Form, data: Option<TaskData>) {
    && (data.Some? <==> form.date.Some? && form.time.Some?)
    && (data.Some? ==>
          && data.value.Keys == {"description", "task_type", "run_datetime"}
          && Holds(data.value, "task_type", OneTime)
          && Holds(data.value, "run_datetime", IsoText(form.date.value, form.time.value)))
  }

  /**
    The dictionary a recurring form should give: it fails when the rule's
    fields do, and has exactly the description, the type, the rule and the
    rule's cron columns.
   */
  ghost predicate RecurringData(form: Form, data: Option<TaskData>) {
    var fields := RecurrenceFields(form.rule, form.time, form.weekday, form.dayOfMonth, form.date);
    && (data.Some? <==> fields.Some?)
    && (data.Some? ==>
          && data.value.Keys == {"description", "task_type", "recurrence_rule"} + fields.value.Keys
          && Holds(data.value, "task_type", Recurring)
          && Holds(data.value, "recurrence_rule", form.rule)
          && forall k :: k in fields.value ==> k in data.value && data.value[k] == fields.value[k])
  }

  /**
    The dictionary a form should give: the description always, then by
    kind as above; any other form gives the description alone.
   */
  ghost predicate FormData(form: Form, data: Option<TaskData>) {
    && (data.Some? ==> Holds(data.value, "description", form.description))
    && (form.taskKind == "One-Time" ==> OneTimeData(form, data))
    && (form.taskKind == "Recurring" ==> RecurringData(form, data))
    && (form.taskKind != "One-Time" && form.taskKind != "Recurring" ==>
          data == Some(map["description" := Some(form.description)]))
  }

  /** `add_task` builds the dictionary its form calls for. */
  lemma BuildTaskDataFollowsForm(form: Form)
    ensures FormData(form, BuildTaskData(form))
  {
    if form.taskKind == "One-Time" {
      OneTimeDataFollowsForm(form);
    } else if form.taskKind == "Recurring" {
      RecurringDataFollowsForm(form);
    }
  }

  lemma OneTimeDataFollowsForm(form: Form)
    requires form.taskKind == "One-Time"
    ensures OneTimeData(form, BuildTaskData(form))
    ensures BuildTaskData(form).Some? ==> Holds(BuildTaskData(form).value, "description", form.description)
  {
    if form.date.Some? && form.time.Some? {
      var data := map["description" := Some(form.description)]["task_type" := Some(OneTime)]
        ["run_datetime" := Some(IsoText(form.date.value, form.time.value))];
      assert BuildTaskData(form) == Some(data);
      assert data.Keys == {"description", "task_type", "run_datetime"};
    }
  }

  lemma RecurringDataFollowsForm(form: Form)
    requires form.taskKind == "Recurring"
    ensures RecurringData(form, BuildTaskData(form))
    ensures BuildTaskData(form).Some? ==> Holds(BuildTaskData(form).value, "description", form.description)
  {
    var fields := RecurrenceFields(form.rule, form.time, form.weekday, form.dayOfMonth, form.date);
    if fields.Some? {
      RecurrenceFieldsFollowRule(form.rule, form.time, form.weekday, form.dayOfMonth, form.date);
      assert "task_type" !in fields.value && "recurrence_rule" !in fields.value && "description" !in fields.value;
      var typed := map["description" := Some(form.description)]["task_type" := Some(Recurring)]
        ["recurrence_rule" := Some(form.rule)];
      assert typed.Keys == {"description", "task_type", "recurrence_rule"};
      assert BuildTaskData(form) == Some(typed + fields.value);
      assert (typed + fields.value).Keys == typed.Keys + fields.value.Keys;
    }
  }

  /** The value of a cron column in a dictionary of cron fields, NULL when absent. */
  function Column(fields: TaskData, key: string): Option<string> {
    if key in fields then fields[key] else None
  }

  /** A one-time row as its form calls for: the run date, and no cron column. */
  ghost predicate OneTimeRow(form: Form, row: Row) {
    && form.date.Some? && form.time.Some?
    && row.taskType == OneTime
    && row.runDatetime == Some(IsoText(form.date.value, form.time.value))
    && row.recurrenceRule.None? && row.recurrenceMinute.None? && row.recurrenceHour.None?
    && row.recurrenceDayOfMonth.None? && row.recurrenceDayOfWeek.None? && row.recurrenceMonth.None?
  }

  /** A recurring row as its form calls for: no run date, the rule, and the rule's cron columns, NULL elsewhere. */
  ghost predicate RecurringRow(form: Form, row: Row) {
    var fields := RecurrenceFields(form.rule, form.time, form.weekday, form.dayOfMonth, form.date);
    && fields.Some?
    && row.taskType == Recurring && row.runDatetime.None?
    && row.recurrenceRule == Some(form.rule)
    && row.recurrenceMinute == Column(fields.value, "recurrence_minute")
    && row.recurrenceHour == Column(fields.value, "recurrence_hour")
    && row.recurrenceDayOfMonth == Column(fields.value, "recurrence_day_of_month")
    && row.recurrenceDayOfWeek == Column(fields.value, "recurrence_day_of_week")
    && row.recurrenceMonth == Column(fields.value, "recurrence_month")
  }

  /** The row a one-time or recurring form should store: its description, then by kind as above. */
  ghost predicate RowFromForm(form: Form, row: Row) {
    && row.description == Some(form.description)
    && (form.taskKind == "One-Time" ==> OneTimeRow(form, row))
    && (form.taskKind == "Recurring" ==> RecurringRow(form, row))
  }

  /** A key the dictionary lacks is NULL once filled; a key it has keeps its value. */
  lemma FilledColumn(data: TaskData, filled: TaskData, k: string)
    requires FilledFrom(data, filled) && k in Columns
    ensures filled[k] == Column(data, k)
  {
  }

  /**
    The form's dictionary names a task type exactly when the form is
    one-time or recurring, and the row inserted from it is the row the form
    calls for.
   */
  lemma FilledRowFollowsForm(form: Form, filled: TaskData, id: int)
    requires BuildTaskData(form).Some? && FilledFrom(BuildTaskData(form).value, filled)
    ensures Typed(BuildTaskData(form).value) <==> form.taskKind == "One-Time" || form.taskKind == "Recurring"
    ensures form.taskKind == "One-Time" || form.taskKind == "Recurring" ==>
      filled["task_type"].Some? && RowFromForm(form, RowOf(id, filled))
  {
    var data := BuildTaskData(form).value;
    BuildTaskDataFollowsForm(form);
    FilledColumn(data, filled, "description");
    FilledColumn(data, filled, "task_type");
    if form.taskKind == "One-Time" {
      OneTimeRowFollowsForm(form, filled, id);
    } else if form.taskKind == "Recurring" {
      RecurringRowFollowsForm(form, filled, id);
    }
  }

  lemma OneTimeRowFollowsForm(form: Form, filled: TaskData, id: int)
    requires form.taskKind == "One-Time"
    requires BuildTaskData(form).Some? && FilledFrom(BuildTaskData(form).value, filled)
    ensures filled["task_type"].Some? && OneTimeRow(form, RowOf(id, filled))
  {
    var data := BuildTaskData(form).value;
    OneTimeDataFollowsForm(form);
    FilledColumn(data, filled, "task_type");
    FilledColumn(data, filled, "run_datetime");
    FilledColumn(data, filled, "recurrence_rule");
    FilledColumn(data, filled, "recurrence_minute");
    FilledColumn(data, filled, "recurrence_hour");
    FilledColumn(data, filled, "recurrence_day_of_month");
    FilledColumn(data, filled, "recurrence_day_of_week");
    FilledColumn(data, filled, "recurrence_month");
  }

  lemma RecurringRowFollowsForm(form: Form, filled: TaskData, id: int)
    requires form.taskKind == "Recurring"
    requires BuildTaskData(form).Some? && FilledFrom(BuildTaskData(form).value, filled)
    ensures filled["task_type"].Some? && RecurringRow(form, RowOf(id, filled))
  {
    var data := BuildTaskData(form).value;
    var fields := RecurrenceFields(form.rule, form.time, form.weekday, form.dayOfMonth, form.date).value;
    RecurringDataFollowsForm(form);
    FieldsAreCronColumns(form.rule, form.time, form.weekday, form.dayOfMonth, form.date);
    var base := {"description", "task_type", "recurrence_rule"};
    assert Merged(data, base, fields);
    TypedKeysAreNotCron();
    CronColumnsFromFields(data, filled, base, fields);
    assert "recurrence_minute" in CronColumns && "recurrence_hour" in CronColumns;
    assert "recurrence_day_of_month" in CronColumns && "recurrence_day_of_week" in CronColumns;
    assert "recurrence_month" in CronColumns;
    FilledColumn(data, filled, "task_type");
    FilledColumn(data, filled, "recurrence_rule");
    FilledColumn(data, filled, "run_datetime");
  }

  /** The rules set cron columns only. */
  lemma FieldsAreCronColumns(rule: string, time: Option<Clock>, weekday: string, dayOfMonth: string, date: Option<Day>)
    ensures var fields := RecurrenceFields(rule, time, weekday, dayOfMonth, date);
      fields.Some? ==> "run_datetime" !in fields.value
  {
  }

  /** `data` is made of `base` keys and the entries of `fields`. */
  ghost predicate Merged(data: TaskData, base: set<string>, fields: TaskData) {
    && data.Keys == base + fields.Keys
    && forall f :: f in fields ==> f in data && data[f] == fields[f]
  }

  /** The five cron columns of the table. */
  const CronColumns: set<string> :=
    {"recurrence_minute", "recurrence_hour", "recurrence_day_of_month", "recurrence_day_of_week", "recurrence_month"}

  lemma TypedKeysAreNotCron()
    ensures {"description", "task_type", "recurrence_rule"} !! CronColumns
  {
  }

  /** In such a dictionary, once filled, each cron column reads as in `fields`. */
  lemma CronColumnsFromFields(data: TaskData, filled: TaskData, base: set<string>, fields: TaskData)
    requires FilledFrom(data, filled) && Merged(data, base, fields)
    requires base !! CronColumns
    ensures forall k :: k in CronColumns ==> filled[k] == Column(fields, k)
  {
    forall k | k in CronColumns
      ensures filled[k] == Column(fields, k)
    {
      FilledColumn(data, filled, k);
      MergedColumn(data, base, fields, k);
    }
  }

  /** In a dictionary made of `base` keys and `fields`, a key outside `base` reads as in `fields`. */
  lemma MergedColumn(data: TaskData, base: set<string>, fields: TaskData, k: string)
    requires Merged(data, base, fields) && k !in base
    ensures Column(data, k) == Column(fields, k)
  {
  }

  /**
    As written, a task from a Monthly or Yearly form is the one the
    scheduler refuses: its row has a day of month. Every other row a form
    creates can be armed.
   */
  lemma FormRowArmable(form: Form, row: Row)
    requires form.taskKind == "One-Time" || form.taskKind == "Recurring"
    requires RowFromForm(form, row)
    ensures ScheduleRaises(row) <==> form.taskKind == "Recurring" && (form.rule == "Monthly" || form.rule == "Yearly")
    ensures Armable(row) <==> !ScheduleRaises(row)
  {
    RecurrenceFieldsFollowRule(form.rule, form.time, form.weekday, form.dayOfMonth, form.date);
  }

  /** A monthly reminder on the 15th at 09:00. */
  const MonthlyExample := Form("Recurring", "pay rent", None, Some(Clock(9, 0)), "Monthly", "", "15")

  /**
    The form parses, and the row it creates hands the trigger `day_of_month`,
    which it does not take: `add_task` leaves that row running with no job.
   */
  lemma MonthlyExampleRefused(row: Row)
    requires RowFromForm(MonthlyExample, row)
    ensures BuildTaskData(MonthlyExample).Some?
    ensures row.recurrenceDayOfMonth == Some("15")
    ensures !CronTriggerAccepts(CronArgs(row)) && ScheduleRaises(row) && !Armable(row)
  {
    FormRowArmable(MonthlyExample, row);
    DayOfMonthRejectedAsWritten(row);
  }

  class App {
    const store: Store
    const orch: Orchestrator
    /** The lines `log` has shown in the status bar, oldest first. */
    var messages: seq<string>

    ghost predicate Valid()
      reads this, store, orch
    {
      orch.store == store && store.Valid() && orch.Valid()
    }

    /** The task table and the job table agree, and every row can be armed. */
    ghost predicate Synced()
      reads this, store, orch
    {
      AllArmable(store.rows) && InSync(store.rows, orch.jobs)
    }

    constructor (store: Store, orch: Orchestrator)
      requires orch.store == store && store.Valid() && orch.Valid()
      ensures Valid() && this.store == store && this.orch == orch && messages == []
    {
      this.store := store;
      this.orch := orch;
      messages := [];
    }

    /**
      `add_task`: builds the dictionary, then creates, starts and schedules
      a task from it. A failed parse logs an error and creates nothing; a
      failed insert logs that it failed. After 'Task N created.' is logged,
      `schedule_task` raises for a Monthly or Yearly task, whose row stays
      running with no job. `created` is the new row's id.
     */
    method AddTask(form: Form, storeError: bool) returns (outcome: Outcome, created: Option<int>)
      requires Valid()
      modifies this, store, orch
      ensures Valid()
      ensures BuildTaskData(form).None? ==>
        && outcome == Done && created.None? && messages == old(messages) + [InvalidFieldsText]
        && store.rows == old(store.rows) && orch.jobs == old(orch.jobs) && orch.queue == old(orch.queue)
      ensures BuildTaskData(form).Some? ==>
        (created.None? <==> storeError || (form.taskKind != "One-Time" && form.taskKind != "Recurring"))
      ensures BuildTaskData(form).Some? && created.None? ==>
        && outcome == Done && messages == old(messages) + [CreateFailedText]
        && store.rows == old(store.rows) && orch.jobs == old(orch.jobs) && orch.queue == old(orch.queue)
      ensures created.Some? ==>
        && messages == old(messages) + [CreatedText(created.value)]
        && Added(form, created.value, old(store.issued), old(store.rows))
        && ScheduledAs(store.rows[created.value].(status := Stopped), outcome, old(orch.jobs), old(orch.queue))
      ensures created.None? ==> store.nextId == old(store.nextId) && store.issued == old(store.issued)
      ensures created.Some? ==> store.nextId > old(store.nextId) && store.issued == old(store.issued) + {created.value}
      ensures outcome == Raised <==>
        created.Some? && form.taskKind == "Recurring" && (form.rule == "Monthly" || form.rule == "Yearly")
      ensures outcome == Raised ==> !InSync(store.rows, orch.jobs)
      ensures old(InSync(store.rows, orch.jobs)) && outcome == Done ==> InSync(store.rows, orch.jobs)
      ensures old(AllArmable(store.rows)) && outcome == Done ==> AllArmable(store.rows)
    {
      var data := BuildTaskData(form);
      if data.None? {
        messages := messages + [InvalidFieldsText];
        return Done, None;
      }
      ghost var filled;
      outcome, created, filled := CreateAndSchedule(data.value, storeError);
      FilledRowFollowsForm(form, filled, if created.Some? then created.value else 0);
      if created.Some? {
        ghost var row := RowOf(created.value, filled);
        FormRowArmable(form, row);
        assert store.rows[created.value].(status := Stopped) == row;
        assert created.value !in old(store.rows);
        assert store.rows - {created.value} == old(store.rows);
        messages := messages + [CreatedText(created.value)];
      } else {
        messages := messages + [CreateFailedText];
      }
    }

    /**
      The state after `add_task` created row `id` from `form`: the row is
      new, the only change to the table, running, and the row the form
      calls for.
     */
    ghost predicate Added(form: Form, id: int, issued: set<int>, rows: map<int, Row>)
      reads this, store
    {
      && id !in issued && id in store.rows && store.rows - {id} == rows
      && store.rows[id].status == Running && RowFromForm(form, store.rows[id])
    }

    /**
      The job table and the queue after `schedule_task` on `task`, from
      `jobs` and `queue`: it raises on exactly the rows it refuses, arms
      an armable row and reports it, and otherwise only drops the key.
     */
    ghost predicate ScheduledAs(task: Row, outcome: Outcome, jobs: map<string, Job>, queue: seq<Event>)
      reads this, orch
    {
      && (outcome == Raised <==> ScheduleRaises(task))
      && (Armable(task) ==> orch.jobs == jobs[JobKey(task.id) := JobFor(task)] && orch.queue == queue + ScheduledEvents(task.id))
      && (!Armable(task) ==> orch.jobs == jobs - {JobKey(task.id)} && orch.queue == queue)
    }

    /**
      The part of `add_task` after the dictionary is built: the insert,
      then, for the id it returns, the read-back, the status update and
      `schedule_task`. The ids the table hands out start at 1, so
      `if task_id:` holds whenever the insert succeeds. `filled` is the
      dictionary the insert wrote.
     */
    method CreateAndSchedule(data: TaskData, storeError: bool) returns (outcome: Outcome, created: Option<int>, ghost filled: TaskData)
      requires Valid()
      modifies store, orch
      ensures Valid()
      ensures FilledFrom(data, filled)
      ensures created.None? <==> storeError || !Typed(data)
      ensures created.None? ==> store.nextId == old(store.nextId) && store.issued == old(store.issued)
      ensures created.Some? ==> store.nextId > old(store.nextId) && store.issued == old(store.issued) + {created.value}
      ensures created.None? ==>
        outcome == Done && store.rows == old(store.rows) && orch.jobs == old(orch.jobs) && orch.queue == old(orch.queue)
      ensures created.Some? ==>
        && filled["task_type"].Some?
        && created.value !in old(store.issued)
        && store.rows == old(store.rows)[created.value := RowOf(created.value, filled).(status := Running)]
        && ScheduledAs(RowOf(created.value, filled), outcome, old(orch.jobs), old(orch.queue))
        && (old(InSync(store.rows, orch.jobs)) && Armable(RowOf(created.value, filled)) ==> InSync(store.rows, orch.jobs))
        && (old(AllArmable(store.rows)) && Armable(RowOf(created.value, filled)) ==> AllArmable(store.rows))
        && (!Armable(RowOf(created.value, filled)) ==> !InSync(store.rows, orch.jobs))
      ensures old(Synced()) && created.None? ==> Synced()
    {
      var id;
      id, filled := store.Create(data, storeError);
      outcome := Done;
      if id.Some? {
        outcome := Schedule(id.value, old(store.rows), old(InSync(store.rows, orch.jobs)));
      }
      created := id;
    }

    /**
      The second half of `add_task`: reads back the row just inserted, sets
      it running and schedules it as read (with its stopped status).
     */
    method Schedule(id: int, ghost before: map<int, Row>, ghost wasInSync: bool) returns (outcome: Outcome)
      requires Valid()
      requires id in store.rows && id !in before && store.rows == before[id := store.rows[id]]
      requires store.rows[id].status == Stopped
      requires wasInSync ==> InSync(before, orch.jobs)
      modifies store, orch
      ensures Valid() && store.nextId == old(store.nextId) && store.issued == old(store.issued)
      ensures store.rows == before[id := old(store.rows)[id].(status := Running)]
      ensures ScheduledAs(old(store.rows)[id], outcome, old(orch.jobs), old(orch.queue))
      ensures wasInSync && Armable(old(store.rows)[id]) ==> InSync(store.rows, orch.jobs)
      ensures AllArmable(before) && Armable(old(store.rows)[id]) ==> AllArmable(store.rows)
      ensures !Armable(old(store.rows)[id]) ==> !InSync(store.rows, orch.jobs)
    {
      var newTask := store.Get(id);
      store.UpdateStatus(id, Running);
      outcome := orch.ScheduleTask(newTask.value);
      if wasInSync && Armable(newTask.value) {
        InsertRunningKeepsSync(before, old(orch.jobs), newTask.value);
      }
      if !Armable(newTask.value) {
        RunningWithoutJobBreaksSync(store.rows, orch.jobs, id);
      }
    }

    /**
      `toggle_task`: a running row is stopped and its job dropped; any other
      row is set running and scheduled (from the row as read before the
      update), and when `schedule_task` raises the row stays running with
      no job. A missing row changes nothing.
     */
    method ToggleTask(id: int) returns (outcome: Outcome)
      requires Valid()
      modifies store, orch
      ensures Valid() && store.nextId == old(store.nextId) && store.issued == old(store.issued)
      ensures id !in old(store.rows) ==>
        outcome == Done && store.rows == old(store.rows) && orch.jobs == old(orch.jobs) && orch.queue == old(orch.queue)
      ensures id in old(store.rows) && old(store.rows)[id].status == Running ==>
        && outcome == Done
        && store.rows == WithStatus(old(store.rows), id, Stopped)
        && (JobKey(id) in old(orch.jobs) ==>
              orch.jobs == old(orch.jobs) - {JobKey(id)} && orch.queue == old(orch.queue) + UnscheduledEvents(id))
        && (JobKey(id) !in old(orch.jobs) ==> orch.jobs == old(orch.jobs) && orch.queue == old(orch.queue))
      ensures id in old(store.rows) && old(store.rows)[id].status != Running ==>
        && store.rows == WithStatus(old(store.rows), id, Running)
        && ScheduledAs(old(store.rows)[id], outcome, old(orch.jobs), old(orch.queue))
      ensures outcome == Raised ==> !InSync(store.rows, orch.jobs)
      ensures id in old(store.rows) && old(store.rows)[id].status != Running && !Armable(old(store.rows)[id]) ==>
        !InSync(store.rows, orch.jobs)
      ensures (old(InSync(store.rows, orch.jobs)) &&
               (id in old(store.rows) && old(store.rows)[id].status != Running ==> Armable(old(store.rows)[id]))) ==>
        InSync(store.rows, orch.jobs)
      ensures old(Synced()) ==> outcome == Done && Synced()
    {
      outcome := Done;
      var task := store.Get(id);
      if task.None? {
        return;
      }
      if task.value.status == Running {
        store.UpdateStatus(id, Stopped);
        orch.UnscheduleTask(id);
        if old(Synced()) {
          StatusKeepsArmable(old(store.rows), id, Stopped);
        }
        if old(InSync(store.rows, orch.jobs)) {
          StopKeepsSync(old(store.rows), old(orch.jobs), id);
        }
      } else {
        store.UpdateStatus(id, Running);
        outcome := orch.ScheduleTask(task.value);
        if old(Synced()) {
          StatusKeepsArmable(old(store.rows), id, Running);
        }
        if old(InSync(store.rows, orch.jobs)) && Armable(task.value) {
          RunKeepsSync(old(store.rows), old(orch.jobs), id, JobFor(task.value));
        }
        if !Armable(task.value) {
          RunningWithoutJobBreaksSync(store.rows, orch.jobs, id);
        }
      }
    }

    /** `delete_task`: drops the job first, then deletes the row, then logs. */
    method DeleteTask(id: int)
      requires Valid()
      modifies this, store, orch
      ensures Valid() && store.nextId == old(store.nextId) && store.issued == old(store.issued)
      ensures store.rows == old(store.rows) - {id}
      ensures JobKey(id) in old(orch.jobs) ==>
        orch.jobs == old(orch.jobs) - {JobKey(id)} && orch.queue == old(orch.queue) + UnscheduledEvents(id)
      ensures JobKey(id) !in old(orch.jobs) ==> orch.jobs == old(orch.jobs) && orch.queue == old(orch.queue)
      ensures messages == old(messages) + [DeletedText(id)]
      ensures old(InSync(store.rows, orch.jobs)) ==> InSync(store.rows, orch.jobs)
      ensures old(Synced()) ==> Synced()
    {
      orch.UnscheduleTask(id);
      store.Delete(id);
      messages := messages + [DeletedText(id)];
      if old(Synced()) {
        assert AllArmable(old(store.rows) - {id});
      }
      if old(InSync(store.rows, orch.jobs)) {
        DeleteKeepsSync(old(store.rows), old(orch.jobs), id);
      }
    }
  }
}
