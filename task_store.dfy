/**
  The task table of database.py, as an in-memory table keyed by the
  AUTOINCREMENT id. Every column is text or NULL: sqlite keeps the datetime
  that the form produces as its ISO text, which is what the scheduler reads back.
 */
module TaskStore {
  import opened Wrappers

  const Running := "running"
  const Stopped := "stopped"
  const OneTime := "one_time"
  const Recurring := "recurring"

  /** The nine keys that `create_task` defaults to NULL before inserting. */
  const Columns: seq<string> := [
    "description", "task_type", "run_datetime", "recurrence_rule",
    "recurrence_minute", "recurrence_hour", "recurrence_day_of_month",
    "recurrence_day_of_week", "recurrence_month"
  ]

  /** The dictionary handed to `create_task`: column name to value, `None` for NULL. */
  type TaskData = map<string, Option<string>>

  /** One row of the `tasks` table. `task_type` and `status` are NOT NULL. */
  datatype Row = Row(
    id: int,
    description: Option<string>,
    taskType: string,
    runDatetime: Option<string>,
    recurrenceRule: Option<string>,
    recurrenceMinute: Option<string>,
    recurrenceHour: Option<string>,
    recurrenceDayOfMonth: Option<string>,
    recurrenceDayOfWeek: Option<string>,
    recurrenceMonth: Option<string>,
    status: string)

  /** The dictionary names a task type; without one the NOT NULL constraint fails the insert. */
  predicate Typed(data: TaskData) {
    "task_type" in data && data["task_type"].Some?
  }

  predicate HasColumns(data: TaskData) {
    forall k :: k in Columns ==> k in data
  }

  /**
    The `setdefault(key, None)` loop of `create_task`: every listed key that is
    missing becomes NULL, every key already present keeps its value, and no
    other key is added.
   */
  method FillDefaults(data: TaskData) returns (filled: TaskData)
    ensures FilledFrom(data, filled)
  {
    filled := data;
    for i := 0 to |Columns|
      invariant forall j :: 0 <= j < i ==> Columns[j] in filled
      invariant forall k :: k in data ==> k in filled && filled[k] == data[k]
      invariant forall k :: k in filled && k !in data ==> k in Columns[..i] && filled[k] == None
    {
      var key := Columns[i];
      if key !in filled {
        filled := filled[key := None];
      }
    }
  }

  /**
    `filled` is `data` with every missing column set to NULL: it has every
    column, every key of `data` keeps its value, and each other key is a
    column holding NULL.
   */
  predicate FilledFrom(data: TaskData, filled: TaskData) {
    && HasColumns(filled)
    && (forall k :: k in data ==> k in filled && filled[k] == data[k])
    && (forall k :: k in filled && k !in data ==> k in Columns && filled[k] == None)
  }

  /** The row the INSERT writes: the nine columns from the data, status forced to 'stopped'. */
  function RowOf(id: int, filled: TaskData): Row
    requires HasColumns(filled) && filled["task_type"].Some?
  {
    Row(id, filled["description"], filled["task_type"].value, filled["run_datetime"],
        filled["recurrence_rule"], filled["recurrence_minute"], filled["recurrence_hour"],
        filled["recurrence_day_of_month"], filled["recurrence_day_of_week"],
        filled["recurrence_month"], Stopped)
  }

  /** Every row keyed by its own id. */
  predicate IdKeyed(rows: map<int, Row>) {
    forall id :: id in rows ==> rows[id].id == id
  }

  /**
    The rows with lo <= id < hi that `keep` accepts, in ascending id order:
    a table scan in rowid order with a WHERE clause.
   */
  function Scan(rows: map<int, Row>, lo: int, hi: int, keep: Row -> bool): (found: seq<Row>)
    requires IdKeyed(rows)
    ensures forall i, j :: 0 <= i < j < |found| ==> found[i].id < found[j].id
    ensures forall r :: r in found <==> lo <= r.id < hi && r.id in rows && rows[r.id] == r && keep(r)
    decreases hi - lo
  {
    if lo >= hi then []
    else
      var rest := Scan(rows, lo + 1, hi, keep);
      if lo in rows && keep(rows[lo]) then [rows[lo]] + rest else rest
  }

  class Store {
    var rows: map<int, Row>
    /** The AUTOINCREMENT counter: the id the next insert receives. */
    var nextId: int
    /** Every id the table has ever handed out, deleted rows included. */
    ghost var issued: set<int>

    ghost predicate Valid()
      reads this
    {
      1 <= nextId &&
      (forall id :: id in issued ==> 1 <= id < nextId) &&
      (forall id :: id in rows ==> id in issued) &&
      IdKeyed(rows)
    }

    /** An empty table, as `init_db` creates it. */
    constructor ()
      ensures Valid() && rows == map[] && nextId == 1 && issued == {}
    {
      rows := map[];
      nextId := 1;
      issued := {};
    }

    /**
      `create_task`: fills the missing keys with NULL and inserts a 'stopped'
      row under a fresh id. The insert fails (the method answers `None` and the
      table is unchanged) when `task_type` is NULL, which the NOT NULL
      constraint rejects, or when the database reports an error of its own
      (`storeError`).
     */
    method Create(data: TaskData, storeError: bool) returns (id: Option<int>, filled: TaskData)
      requires Valid()
      modifies this
      ensures Valid()
      ensures FilledFrom(data, filled)
      ensures id.None? <==> storeError || !Typed(data)
      ensures id.None? ==> rows == old(rows) && nextId == old(nextId) && issued == old(issued)
      ensures id.Some? ==>
        && id.value >= 1
        && id.value !in old(issued)
        && issued == old(issued) + {id.value}
        && nextId > old(nextId)
        && rows == old(rows)[id.value := RowOf(id.value, filled)]
        && rows[id.value].status == Stopped
    {
      filled := FillDefaults(data);
      assert filled["task_type"].Some? <==> Typed(data);
      if storeError || filled["task_type"].None? {
        id := None;
        return;
      }
      id := Some(nextId);
      var row := RowOf(nextId, filled);
      assert row.id == nextId;
      rows := rows[nextId := row];
      issued := issued + {nextId};
      nextId := nextId + 1;
    }

    /** `get_task`: the row with that id, or `None`. */
    function Get(id: int): (r: Option<Row>)
      reads this
      requires Valid()
      ensures r.Some? <==> id in rows
      ensures r.Some? ==> r.value == rows[id] && r.value.id == id
    {
      if id in rows then Some(rows[id]) else None
    }

    /** `get_all_tasks`: every row, ordered by ascending id. */
    function GetAll(): (all: seq<Row>)
      reads this
      requires Valid()
      ensures forall i, j :: 0 <= i < j < |all| ==> all[i].id < all[j].id
      ensures forall r :: r in all <==> r.id in rows && rows[r.id] == r
    {
      Scan(rows, 1, nextId, (r: Row) => true)
    }

    /**
      `get_tasks_by_status`: exactly the rows whose status is `status`
      ('running' unless told otherwise). The query has no ORDER BY; the rows
      come in rowid order, which is ascending id.
     */
    function GetByStatus(status: string := Running): (found: seq<Row>)
      reads this
      requires Valid()
      ensures forall i, j :: 0 <= i < j < |found| ==> found[i].id < found[j].id
      ensures forall r :: r in found <==> r.id in rows && rows[r.id] == r && r.status == status
    {
      Scan(rows, 1, nextId, (r: Row) => r.status == status)
    }

    /** `update_task_status`: sets the status of that row only; no row, no change. */
    method UpdateStatus(id: int, status: string)
      requires Valid()
      modifies this
      ensures Valid() && nextId == old(nextId) && issued == old(issued)
      ensures id in old(rows) ==> rows == old(rows)[id := old(rows)[id].(status := status)]
      ensures id !in old(rows) ==> rows == old(rows)
    {
      if id in rows {
        rows := rows[id := rows[id].(status := status)];
      }
    }

    /** `delete_task`: removes that row only; no row, no change. */
    method Delete(id: int)
      requires Valid()
      modifies this
      ensures Valid() && nextId == old(nextId) && issued == old(issued)
      ensures rows == old(rows) - {id}
    {
      rows := rows - {id};
    }
  }
}
