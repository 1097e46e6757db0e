/** The relational store the route handlers read and write: one table per
    model, held as a map from primary key to row (task history and the
    sales as append-only sequences), and Sequelize's findByPk over them. */
module Db {
  import opened Common
  import opened UserModel
  import opened TaskModel
  import opened TaskHistoryModel
  import opened InventoryModel
  import opened SaleModel
  import opened ReportModel
  import opened CallModel
  import opened CompanyModel

  /** The answer of `Model.findByPk(key)`: the row, null, or an exception
      when the database cannot read the key as an integer. */
  datatype Lookup<T> = Found(row: T) | Missing | Failed

  /** findByPk on a table: null and undefined keys find nothing, a key the
      database cannot convert makes the query fail, any other key finds the
      row stored under its integer value, if there is one. */
  function FindByPk<T>(table: map<int, T>, key: JsValue): (r: Lookup<T>)
    ensures r.Failed? <==> ToInteger(key).Unconvertible?
    ensures r.Found? <==> ToInteger(key).IntValue? && ToInteger(key).n in table
    ensures r.Found? ==> r.row == table[ToInteger(key).n]
  {
    match ToInteger(key)
    case Unconvertible => Failed
    case NoValue => Missing
    case IntValue(n) => if n in table then Found(table[n]) else Missing
  }

  /** Every key was handed out by the table's identity counter, which
      starts at 1 and only grows. */
  ghost predicate KeysBelow<T>(m: map<int, T>, next: int)
  {
    1 <= next && forall k :: k in m ==> 1 <= k < next
  }

  /** Every history entry's snapshots are snapshots of the row it references. */
  ghost predicate SnapshotsOfOwnTask(log: seq<HistoryEntry>)
  {
    forall i :: 0 <= i < |log| ==>
      && (log[i].previousValue.Some? ==> log[i].previousValue.value.id == log[i].taskId)
      && (log[i].newValue.Some? ==> log[i].newValue.value.id == log[i].taskId)
  }

  /** The whole content of the store at one moment. */
  datatype Tables = Tables(
    users: map<int, User>,
    companies: map<int, Company>,
    tasks: map<int, Task>,
    nextTaskId: int,
    history: seq<HistoryEntry>,
    inventory: map<int, Item>,
    nextItemId: int,
    sales: seq<Sale>,
    reports: map<int, Report>,
    nextReportId: int,
    calls: map<int, Call>,
    nextCallId: int)

  /** The integrity the schema declares and the handlers keep: every row
      stored under its own id,
      identity counters above every key, unique e-mail addresses, and
      history entries that reference a stored task. */
  ghost predicate WellFormed(t: Tables)
  {
    && (forall k :: k in t.users ==> t.users[k].id == k)
    && (forall k :: k in t.companies ==> t.companies[k].id == k)
    && (forall k :: k in t.tasks ==> t.tasks[k].id == k) && KeysBelow(t.tasks, t.nextTaskId)
    && (forall k :: k in t.inventory ==> t.inventory[k].id == k) && KeysBelow(t.inventory, t.nextItemId)
    && (forall k :: k in t.reports ==> t.reports[k].id == k) && KeysBelow(t.reports, t.nextReportId)
    && (forall k :: k in t.calls ==> t.calls[k].id == k) && KeysBelow(t.calls, t.nextCallId)
    && EmailsUnique(t.users)
    && ReferencesTasks(t.history, t.tasks)
    && SnapshotsOfOwnTask(t.history)
  }

  /** Overwriting a stored task with a row of the same id keeps the store well formed. */
  lemma WriteTaskWellFormed(t: Tables, task: Task)
    requires WellFormed(t) && task.id in t.tasks
    ensures WellFormed(t.(tasks := t.tasks[task.id := task]))
  {
    var t' := t.(tasks := t.tasks[task.id := task]);
    assert ReferencesTasks(t'.history, t'.tasks) by {
      forall i | 0 <= i < |t'.history| ensures t'.history[i].taskId in t'.tasks {
        assert t.history[i].taskId in t.tasks;
      }
    }
  }

  /** Storing a new task under the next id, and moving the counter past
      it, keeps the store well formed. */
  lemma AddTaskWellFormed(t: Tables, task: Task)
    requires WellFormed(t) && task.id == t.nextTaskId
    ensures WellFormed(t.(tasks := t.tasks[task.id := task], nextTaskId := t.nextTaskId + 1))
  {
    var t' := t.(tasks := t.tasks[task.id := task], nextTaskId := t.nextTaskId + 1);
    assert ReferencesTasks(t'.history, t'.tasks) by {
      forall i | 0 <= i < |t'.history| ensures t'.history[i].taskId in t'.tasks {
        assert t.history[i].taskId in t.tasks;
      }
    }
  }

  /** Logging an entry of a stored task whose snapshots are of that task
      keeps the store well formed. */
  lemma LogEntryWellFormed(t: Tables, e: HistoryEntry)
    requires WellFormed(t) && e.taskId in t.tasks
    requires e.previousValue.Some? ==> e.previousValue.value.id == e.taskId
    requires e.newValue.Some? ==> e.newValue.value.id == e.taskId
    ensures WellFormed(t.(history := t.history + [e]))
  {
    var log := t.history + [e];
    assert forall i :: 0 <= i < |t.history| ==> log[i] == t.history[i];
  }

  /** The database, one field per table. */
  class Store {
    var users: map<int, User>
    var companies: map<int, Company>
    var tasks: map<int, Task>
    var nextTaskId: int
    var history: seq<HistoryEntry>
    var inventory: map<int, Item>
    var nextItemId: int
    var sales: seq<Sale>
    var reports: map<int, Report>
    var nextReportId: int
    var calls: map<int, Call>
    var nextCallId: int

    function Snapshot(): (t: Tables)
      reads this
    {
      Tables(users, companies, tasks, nextTaskId, history, inventory, nextItemId,
             sales, reports, nextReportId, calls, nextCallId)
    }

    ghost predicate Valid()
      reads this
    {
      WellFormed(Snapshot())
    }

    constructor (t: Tables)
      requires WellFormed(t)
      ensures Snapshot() == t && Valid()
    {
      users, companies := t.users, t.companies;
      tasks, nextTaskId, history := t.tasks, t.nextTaskId, t.history;
      inventory, nextItemId, sales := t.inventory, t.nextItemId, t.sales;
      reports, nextReportId := t.reports, t.nextReportId;
      calls, nextCallId := t.calls, t.nextCallId;
    }
  }
}
