/** Task routes (routes/tasks.js): listing, creation, the two update
    branches (status change by the assigned user, field edit by the creator),
    soft delete, and the audit history every change appends to. */
module Tasks {
  import opened Common
  import opened UserModel
  import opened TaskModel
  import opened TaskHistoryModel
  import opened Db
  import Listing

  const SYSTEM_NAME: string := "Sistem"
  const ACTION_CREATED: string := "Yeni görev oluşturuldu"
  const ACTION_EDITED: string := "Görev bilgileri güncellendi"
  const ACTION_DELETED: string := "Görev silindi"

  /** getStatusText: the Turkish label of a status, or the string itself
      when it names no status. A label is never itself a status. */
  function StatusText(s: string): (r: string)
    ensures ParseTaskStatus(s).None? ==> r == s
    ensures ParseTaskStatus(s).Some? ==> r != s && ParseTaskStatus(r).None?
  {
    if s == "backlog" then "Beklemede"
    else if s == "inProgress" then "Devam Ediyor"
    else if s == "review" then "İncelemede"
    else if s == "done" then "Tamamlandı"
    else s
  }

  /** The action text of a status change, built from the label of the
      status the row has once it is updated, on both sides. */
  function StatusAction(shown: string): string
  {
    "Görev durumu \"" + shown + "\" durumundan \"" + shown + "\" durumuna güncellendi"
  }

  /** validTransitions: the statuses each status may move to. */
  function Successors(from: TaskStatus): seq<string>
  {
    match from
    case Backlog => ["inProgress"]
    case InProgress => ["review"]
    case Review => ["done", "inProgress"]
    case Done => ["review"]
  }

  /** `validTransitions[from]?.includes(to)`: exactly the five moves of the
      table; none stays put, none returns to backlog, every target is a status. */
  function CanTransition(from: TaskStatus, to: string): (ok: bool)
    ensures ok <==>
      || (from == Backlog && to == "inProgress")
      || (from == InProgress && to == "review")
      || (from == Review && (to == "done" || to == "inProgress"))
      || (from == Done && to == "review")
    ensures ok ==> ParseTaskStatus(to).Some? && to != from.Code() && to != Backlog.Code()
  {
    to in Successors(from)
  }

  /** The body of a create or update request, as it may arrive. Only the
      columns of table Tasks are listed. */
  datatype TaskBody = TaskBody(
    title: Option<string>,
    description: Option<string>,
    priority: Option<string>,
    assignee: Option<string>,
    dueDate: Option<string>,
    status: Option<string>,
    userId: JsValue,
    creatorId: JsValue,
    isDeleted: Option<bool>)

  /** `req.body.status && req.body.status !== task.status`: the status branch. */
  predicate IsStatusChange(task: Task, body: TaskBody)
  {
    Truthy(body.status) && body.status.value != task.status.Code()
  }

  /** `req.body.title || req.body.description || req.body.priority || req.body.dueDate`. */
  predicate IsFieldEdit(body: TaskBody)
  {
    Truthy(body.title) || Truthy(body.description) || Truthy(body.priority) || Truthy(body.dueDate)
  }

  /** A nullable INTEGER column after a write of v: undefined keeps it, null
      clears it, an integer sets it, and an empty, blank or bare-sign string
      stores 0. */
  function IntColumnWrite(current: Option<int>, v: JsValue): (c: Option<int>)
    requires !ToInteger(v).Unconvertible?
    ensures v.Undefined? ==> c == current
    ensures !v.Undefined? && !(v.Str? && ReadsAsZero(v.s)) ==> ParseInt(FromColumn(c)) == ParseInt(v) || v.Null?
    ensures v.Str? && ReadsAsZero(v.s) ==> c == Some(0)
    ensures v.Null? ==> c.None?
  {
    match ToInteger(v)
    case NoValue => if v.Undefined? then current else None
    case IntValue(n) => Some(n)
  }

  /** The name a history entry records for a user id: `${ad} ${soyad}` of
      the stored user, 'Sistem' when there is none. A full name holds a
      space, so it is never taken for 'Sistem'. */
  function NameOf(users: map<int, User>, id: Option<int>): (r: string)
    ensures r == SYSTEM_NAME <==> !(id.Some? && id.value in users)
    ensures id.Some? && id.value in users ==> r == FullName(users[id.value])
  {
    if id.Some? && id.value in users then
      var name := FullName(users[id.value]);
      assert name[|users[id.value].ad|] == ' ';
      assert forall i :: 0 <= i < |SYSTEM_NAME| ==> SYSTEM_NAME[i] != ' ';
      name
    else SYSTEM_NAME
  }

  /** The name for `User.findByPk(key)` of a request value; None when the
      lookup itself fails. */
  function ActorName(users: map<int, User>, key: JsValue): (r: Option<string>)
    ensures r.None? <==> ToInteger(key).Unconvertible?
    ensures r.Some? ==> r.value == NameOf(users, if ToInteger(key).IntValue? then Some(ToInteger(key).n) else None)
  {
    match ToInteger(key)
    case Unconvertible => None
    case NoValue => Some(NameOf(users, None))
    case IntValue(n) => Some(NameOf(users, Some(n)))
  }

  /** `task.update(req.body)`: every present column is written; refused
      (None) when an enum column gets a value outside its enum or an integer
      column a value the database cannot convert. */
  function ApplyEdit(task: Task, body: TaskBody): (r: Option<Task>)
    ensures r.Some? <==>
      && (body.priority.Some? ==> ParsePriority(body.priority.value).Some?)
      && (body.status.Some? ==> ParseTaskStatus(body.status.value).Some?)
      && !ToInteger(body.userId).Unconvertible? && !ToInteger(body.creatorId).Unconvertible?
    ensures r.Some? ==>
      && r.value.id == task.id && r.value.createdAt == task.createdAt
      && r.value.title == (if body.title.Some? then body.title.value else task.title)
      && r.value.description == (if body.description.Some? then body.description.value else task.description)
      && r.value.assignee == (if body.assignee.Some? then body.assignee.value else task.assignee)
      && r.value.dueDate == (if body.dueDate.Some? then body.dueDate.value else task.dueDate)
      && r.value.priority == (if body.priority.Some? then ParsePriority(body.priority.value).value else task.priority)
      && r.value.status == (if body.status.Some? then ParseTaskStatus(body.status.value).value else task.status)
      && r.value.userId == IntColumnWrite(task.userId, body.userId)
      && r.value.creatorId == IntColumnWrite(task.creatorId, body.creatorId)
      && r.value.isDeleted == (if body.isDeleted.Some? then body.isDeleted.value else task.isDeleted)
  {
    var priority := if body.priority.Some? then ParsePriority(body.priority.value) else Some(task.priority);
    var status := if body.status.Some? then ParseTaskStatus(body.status.value) else Some(task.status);
    if priority.None? || status.None? then None
    else if ToInteger(body.userId).Unconvertible? || ToInteger(body.creatorId).Unconvertible? then None
    else Some(task.(
      title := if body.title.Some? then body.title.value else task.title,
      description := if body.description.Some? then body.description.value else task.description,
      assignee := if body.assignee.Some? then body.assignee.value else task.assignee,
      dueDate := if body.dueDate.Some? then body.dueDate.value else task.dueDate,
      priority := priority.value,
      status := status.value,
      userId := IntColumnWrite(task.userId, body.userId),
      creatorId := IntColumnWrite(task.creatorId, body.creatorId),
      isDeleted := if body.isDeleted.Some? then body.isDeleted.value else task.isDeleted))
  }

  /** What an update or delete request does to one task: the row it writes
      back, the history entry it appends, and the response. */
  datatype TaskUpdate = TaskUpdate(written: Option<Task>, entry: Option<HistoryEntry>, response: Result<Option<Task>>)

  function Refuse(e: Error): TaskUpdate
  {
    TaskUpdate(None, None, Err(e))
  }

  /** The closing `Task.findByPk(task.id)`: the default scope hides a task
      the request itself soft-deleted, and the response is then null. */
  function Reread(t: Task): (r: Option<Task>)
    ensures r.Some? <==> InDefaultScope(t)
    ensures r.Some? ==> r.value == t
  {
    if InDefaultScope(t) then Some(t) else None
  }

  /** The history appended for an optional entry. */
  function EntryLog(e: Option<HistoryEntry>): (log: seq<HistoryEntry>)
    ensures e.None? ==> log == []
    ensures e.Some? ==> log == [e.value]
  {
    if e.Some? then [e.value] else []
  }

  /** PUT /tasks/:id on the row the lookup found. */
  function UpdateTaskSpec(task: Task, body: TaskBody, users: map<int, User>): (u: TaskUpdate)
    requires InDefaultScope(task)
    // the row stays the same task; nothing is logged without a write; every
    // snapshot is a snapshot of that task
    ensures u.written.Some? ==> u.written.value.id == task.id && u.written.value.createdAt == task.createdAt
    ensures u.entry.Some? ==>
      && u.written.Some? && u.entry.value.taskId == task.id
      && (u.entry.value.previousValue.Some? ==> u.entry.value.previousValue.value.id == task.id)
      && (u.entry.value.newValue.Some? ==> u.entry.value.newValue.value.id == task.id)
    ensures u.response.Err? && u.response.error != Crashed ==> u.written.None?
    // status branch: only the user of task.userId, only along the table,
    // only the status; both snapshots carry the new status
    ensures IsStatusChange(task, body) && !SameParsedInt(FromColumn(task.userId), body.userId) ==>
      u == Refuse(Forbidden)
    ensures (IsStatusChange(task, body) && SameParsedInt(FromColumn(task.userId), body.userId)
             && !CanTransition(task.status, body.status.value)) ==>
      u == Refuse(InvalidTransition(StatusText(task.status.Code()), StatusText(body.status.value)))
    ensures IsStatusChange(task, body) && u.written.Some? ==>
      && SameParsedInt(FromColumn(task.userId), body.userId) && CanTransition(task.status, body.status.value)
      && u.written.value == task.(status := u.written.value.status)
      && u.written.value.status.Code() == body.status.value
      && (u.entry.Some? <==> !ToInteger(body.userId).Unconvertible?)
      && (u.entry.None? ==> u.response == Err(Crashed))
      && (u.entry.Some? ==>
            && u.entry.value.previousValue == u.written && u.entry.value.newValue == u.written
            && u.entry.value.action == StatusAction(StatusText(body.status.value))
            && u.entry.value.creatorName == task.assignee
            && ActorName(users, body.userId).Some? && u.entry.value.user == ActorName(users, body.userId).value
            && u.response == Ok(u.written))
    ensures (IsStatusChange(task, body) && SameParsedInt(FromColumn(task.userId), body.userId)
             && CanTransition(task.status, body.status.value)) ==> u.written.Some?
    // field-edit branch: only the creator; the whole body is written; the
    // entry holds the snapshots before and after
    ensures (!IsStatusChange(task, body) && IsFieldEdit(body)
             && !SameParsedInt(FromColumn(task.creatorId), body.userId)) ==> u == Refuse(Forbidden)
    ensures (!IsStatusChange(task, body) && IsFieldEdit(body)
             && SameParsedInt(FromColumn(task.creatorId), body.userId)) ==>
      && u.written == ApplyEdit(task, body)
      && (u.written.None? ==> u == Refuse(Rejected))
      && (u.written.Some? ==>
            && u.entry.Some? && u.entry.value.action == ACTION_EDITED
            && u.entry.value.previousValue == Some(task) && u.entry.value.newValue == u.written
            && u.entry.value.creatorName == u.written.value.assignee
            && ActorName(users, body.userId).Some? && u.entry.value.user == ActorName(users, body.userId).value
            && u.response == Ok(Reread(u.written.value)))
    // neither branch: nothing changes
    ensures !IsStatusChange(task, body) && !IsFieldEdit(body) ==> u == TaskUpdate(None, None, Ok(Some(task)))
  {
    if IsStatusChange(task, body) then
      var target := body.status.value;
      if !SameParsedInt(FromColumn(task.userId), body.userId) then Refuse(Forbidden)
      else if !CanTransition(task.status, target) then
        Refuse(InvalidTransition(StatusText(task.status.Code()), StatusText(target)))
      else
        var next := task.(status := ParseTaskStatus(target).value);
        match ActorName(users, body.userId)
        case None => TaskUpdate(Some(next), None, Err(Crashed))
        case Some(name) =>
          var shown := StatusText(next.status.Code());
          TaskUpdate(Some(next), Some(HistoryEntry(task.id, StatusAction(shown), name, next.assignee, Some(next), Some(next))),
                     Ok(Reread(next)))
    else if IsFieldEdit(body) then
      if !SameParsedInt(FromColumn(task.creatorId), body.userId) then Refuse(Forbidden)
      else
        match ApplyEdit(task, body)
        case None => Refuse(Rejected)
        case Some(next) =>
          match ActorName(users, body.userId)
          case None => TaskUpdate(Some(next), None, Err(Crashed))
          case Some(name) =>
            TaskUpdate(Some(next), Some(HistoryEntry(task.id, ACTION_EDITED, name, next.assignee, Some(task), Some(next))),
                       Ok(Reread(next)))
    else TaskUpdate(None, None, Ok(Some(task)))
  }

  /** DELETE /tasks/:id on the row the lookup found: only when
      `task.creatorId === req.body.userId`, with no conversion, so a string
      id never matches and a null creator matches a null id. The entry keeps
      the row as it was and no new value; the row is kept, flagged deleted. */
  function DeleteTaskSpec(task: Task, userId: JsValue, users: map<int, User>): (u: TaskUpdate)
    requires InDefaultScope(task)
    ensures !StrictEquals(task.creatorId, userId) ==> u == Refuse(Forbidden)
    ensures StrictEquals(task.creatorId, userId) ==>
      && u.written == Some(task.(isDeleted := true))
      && u.entry == Some(HistoryEntry(task.id, ACTION_DELETED, NameOf(users, task.creatorId), task.assignee, Some(task), None))
      && u.response == Ok(None)
  {
    // userId equals the column value here, so the deleter's lookup is the creator's
    if !StrictEquals(task.creatorId, userId) then Refuse(Forbidden)
    else
      TaskUpdate(Some(task.(isDeleted := true)),
                 Some(HistoryEntry(task.id, ACTION_DELETED, NameOf(users, task.creatorId), task.assignee, Some(task), None)),
                 Ok(None))
  }

  /** `Task.findByPk(req.params.id)` under the default scope: a soft-deleted
      task is not found. */
  function FindTask(tasks: map<int, Task>, id: string): (r: Lookup<Task>)
    ensures r.Failed? <==> ToInteger(Str(id)).Unconvertible?
    ensures r.Found? <==>
      ToInteger(Str(id)).IntValue? && ToInteger(Str(id)).n in tasks && InDefaultScope(tasks[ToInteger(Str(id)).n])
    ensures r.Found? ==> r.row == tasks[ToInteger(Str(id)).n]
  {
    match FindByPk(tasks, Str(id))
    case Found(t) => if InDefaultScope(t) then Found(t) else Missing
    case Missing => Missing
    case Failed => Failed
  }

  /** The columns `Task.create(req.body)` receives; None when the database
      cannot read userId or creatorId as an integer. */
  function DraftOf(body: TaskBody): (d: Option<TaskDraft>)
    ensures d.Some? <==> !ToInteger(body.userId).Unconvertible? && !ToInteger(body.creatorId).Unconvertible?
    ensures d.Some? ==>
      && d.value.title == body.title && d.value.description == body.description
      && d.value.priority == body.priority && d.value.assignee == body.assignee
      && d.value.dueDate == body.dueDate && d.value.status == body.status
      && d.value.isDeleted == body.isDeleted
      && d.value.userId == IntColumnWrite(None, body.userId)
      && d.value.creatorId == IntColumnWrite(None, body.creatorId)
  {
    if ToInteger(body.userId).Unconvertible? || ToInteger(body.creatorId).Unconvertible? then None
    else Some(TaskDraft(body.title, body.description, body.priority, body.assignee,
                        IntColumnWrite(None, body.userId), body.dueDate, body.status,
                        IntColumnWrite(None, body.creatorId), body.isDeleted))
  }

  /** A created task and the history entry recording it. */
  datatype Creation = Creation(task: Task, entry: HistoryEntry)

  /** POST /tasks: the row Task.create builds under the next id, and an
      entry with no previous value, the new task as new value, and the
      creator's name (or 'Sistem') as both user and creatorName. */
  function CreateTaskSpec(id: int, body: TaskBody, users: map<int, User>, now: int): (r: Result<Creation>)
    ensures r.Err? ==> r.error == Rejected
    ensures r.Ok? <==> DraftOf(body).Some? && NewTask(id, DraftOf(body).value, now).Some?
    ensures r.Ok? ==>
      && r.value.task == NewTask(id, DraftOf(body).value, now).value
      && r.value.entry.taskId == id && r.value.entry.action == ACTION_CREATED
      && r.value.entry.previousValue.None? && r.value.entry.newValue == Some(r.value.task)
      && r.value.entry.user == r.value.entry.creatorName
      && r.value.entry.user == NameOf(users, r.value.task.creatorId)
  {
    match DraftOf(body)
    case None => Err(Rejected)
    case Some(d) =>
      match NewTask(id, d, now)
      case None => Err(Rejected)
      case Some(task) =>
        // the creator lookup uses body.creatorId, which the row now holds
        var name := NameOf(users, task.creatorId);
        Ok(Creation(task, HistoryEntry(id, ACTION_CREATED, name, name, None, Some(task))))
  }

  /** GET /tasks: each task of the default scope exactly once, newest first. */
  function ListTasks(tasks: map<int, Task>, nextTaskId: int): (r: seq<Task>)
    requires forall k :: k in tasks ==> 0 <= k < nextTaskId && tasks[k].id == k
    ensures Listing.SortedDesc(r, (t: Task) => t.createdAt)
    ensures forall t :: t in r <==> t in tasks.Values && !t.isDeleted
    ensures forall t :: multiset(r)[t] == if t.id in tasks && tasks[t.id] == t && !t.isDeleted then 1 else 0
  {
    var r := Listing.Query(tasks, nextTaskId, (t: Task) => InDefaultScope(t), (t: Task) => t.createdAt);
    assert forall t :: multiset(r)[t] == if t.id in tasks && tasks[t.id] == t && !t.isDeleted then 1 else 0 by {
      forall t ensures multiset(r)[t] == if t.id in tasks && tasks[t.id] == t && !t.isDeleted then 1 else 0 {
        Listing.KeyCountOfKeyedRow(tasks, nextTaskId, (t: Task) => t.id, t);
      }
    }
    r
  }

  /** The entries of one task, latest appended first. */
  function EntriesFor(log: seq<HistoryEntry>, taskId: int): (r: seq<HistoryEntry>)
    ensures |r| <= |log|
    ensures forall e :: e in r <==> e in log && e.taskId == taskId
  {
    if log == [] then []
    else
      var last := log[|log| - 1];
      (if last.taskId == taskId then [last] else []) + EntriesFor(log[..|log| - 1], taskId)
  }

  /** A newly appended entry comes first in its task's history and leaves
      the other tasks' histories as they were. */
  lemma {:induction false} EntriesForAppend(log: seq<HistoryEntry>, e: HistoryEntry, taskId: int)
    ensures EntriesFor(log + [e], taskId) == (if e.taskId == taskId then [e] else []) + EntriesFor(log, taskId)
  {
    assert (log + [e])[..|log|] == log;
  }

  /** GET /tasks/:id/history: that task's entries, newest first, whether the
      task is deleted or not; an id the database cannot convert fails. */
  function TaskHistoryOf(log: seq<HistoryEntry>, id: string): (r: Result<seq<HistoryEntry>>)
    ensures r.Err? <==> ToInteger(Str(id)).Unconvertible?
    ensures r.Err? ==> r.error == Crashed
    ensures r.Ok? ==> r.value == EntriesFor(log, ToInteger(Str(id)).n)
  {
    match ToInteger(Str(id))
    case IntValue(n) => Ok(EntriesFor(log, n))
    case _ => Err(Crashed)
  }

  /** Writes the outcome of an update or delete back to the store. */
  method Commit(db: Store, task: Task, u: TaskUpdate)
    requires db.Valid() && task.id in db.tasks
    requires u.written.Some? ==> u.written.value.id == task.id
    requires u.entry.Some? ==>
      && u.entry.value.taskId == task.id
      && (u.entry.value.previousValue.Some? ==> u.entry.value.previousValue.value.id == task.id)
      && (u.entry.value.newValue.Some? ==> u.entry.value.newValue.value.id == task.id)
    modifies db
    ensures db.Valid()
    ensures db.tasks.Keys == old(db.tasks.Keys)
    ensures db.Snapshot() == old(db.Snapshot()).(
      tasks := if u.written.Some? then old(db.tasks)[task.id := u.written.value] else old(db.tasks),
      history := old(db.history) + EntryLog(u.entry))
  {
    var t := db.Snapshot();
    if u.written.Some? {
      WriteTaskWellFormed(t, u.written.value);
      t := t.(tasks := t.tasks[task.id := u.written.value]);
    }
    if u.entry.Some? {
      LogEntryWellFormed(t, u.entry.value);
      t := t.(history := t.history + [u.entry.value]);
    }
    db.tasks, db.history := t.tasks, t.history;
    assert db.Snapshot() == t;
  }

  /** Stores a new task under the next id together with its creation entry. */
  method Insert(db: Store, task: Task, entry: HistoryEntry)
    requires db.Valid() && task.id == db.nextTaskId
    requires entry.taskId == task.id && entry.previousValue.None? && entry.newValue == Some(task)
    modifies db
    ensures db.Valid()
    ensures db.Snapshot() == old(db.Snapshot()).(
      tasks := old(db.tasks)[task.id := task],
      nextTaskId := old(db.nextTaskId) + 1,
      history := old(db.history) + [entry])
  {
    var t := db.Snapshot();
    AddTaskWellFormed(t, task);
    t := t.(tasks := t.tasks[task.id := task], nextTaskId := t.nextTaskId + 1);
    LogEntryWellFormed(t, entry);
    t := t.(history := t.history + [entry]);
    db.tasks, db.nextTaskId, db.history := t.tasks, t.nextTaskId, t.history;
    assert db.Snapshot() == t;
  }

  /** POST /tasks. */
  method CreateTask(db: Store, body: TaskBody, now: int) returns (res: Result<Option<Task>>)
    requires db.Valid()
    modifies db
    ensures db.Valid()
    ensures
      var c := CreateTaskSpec(old(db.nextTaskId), body, old(db.users), now);
      && (c.Err? ==> res == Err(c.error) && db.Snapshot() == old(db.Snapshot()))
      && (c.Ok? ==>
            && res == Ok(Reread(c.value.task))
            && db.Snapshot() == old(db.Snapshot()).(
                 tasks := old(db.tasks)[old(db.nextTaskId) := c.value.task],
                 nextTaskId := old(db.nextTaskId) + 1,
                 history := old(db.history) + [c.value.entry]))
  {
    var c := CreateTaskSpec(db.nextTaskId, body, db.users, now);
    if c.Err? {
      return Err(c.error);
    }
    Insert(db, c.value.task, c.value.entry);
    res := Ok(Reread(c.value.task));
  }

  /** PUT /tasks/:id. */
  method UpdateTask(db: Store, id: string, body: TaskBody) returns (res: Result<Option<Task>>)
    requires db.Valid()
    modifies db
    ensures db.Valid()
    ensures FindTask(old(db.tasks), id).Failed? ==> res == Err(Crashed) && db.Snapshot() == old(db.Snapshot())
    ensures FindTask(old(db.tasks), id).Missing? ==>
      res == Err(NotFound(TaskRow, None)) && db.Snapshot() == old(db.Snapshot())
    ensures FindTask(old(db.tasks), id).Found? ==>
      var task := FindTask(old(db.tasks), id).row;
      var u := UpdateTaskSpec(task, body, old(db.users));
      && res == u.response
      && db.Snapshot() == old(db.Snapshot()).(
           tasks := if u.written.Some? then old(db.tasks)[task.id := u.written.value] else old(db.tasks),
           history := old(db.history) + EntryLog(u.entry))
  {
    var found := FindTask(db.tasks, id);
    if found.Failed? {
      return Err(Crashed);
    }
    if found.Missing? {
      return Err(NotFound(TaskRow, None));
    }
    var u := UpdateTaskSpec(found.row, body, db.users);
    Commit(db, found.row, u);
    res := u.response;
  }

  /** DELETE /tasks/:id: a soft delete; the row and its key stay. */
  method DeleteTask(db: Store, id: string, userId: JsValue) returns (res: Result<Option<Task>>)
    requires db.Valid()
    modifies db
    ensures db.Valid()
    ensures db.tasks.Keys == old(db.tasks.Keys)
    ensures FindTask(old(db.tasks), id).Failed? ==> res == Err(Crashed) && db.Snapshot() == old(db.Snapshot())
    ensures FindTask(old(db.tasks), id).Missing? ==>
      res == Err(NotFound(TaskRow, None)) && db.Snapshot() == old(db.Snapshot())
    ensures FindTask(old(db.tasks), id).Found? ==>
      var task := FindTask(old(db.tasks), id).row;
      var u := DeleteTaskSpec(task, userId, old(db.users));
      && res == u.response
      && db.Snapshot() == old(db.Snapshot()).(
           tasks := if u.written.Some? then old(db.tasks)[task.id := u.written.value] else old(db.tasks),
           history := old(db.history) + EntryLog(u.entry))
  {
    var found := FindTask(db.tasks, id);
    if found.Failed? {
      return Err(Crashed);
    }
    if found.Missing? {
      return Err(NotFound(TaskRow, None));
    }
    var u := DeleteTaskSpec(found.row, userId, db.users);
    Commit(db, found.row, u);
    res := u.response;
  }
}
