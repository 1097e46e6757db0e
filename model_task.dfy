/** Task records (models/Task.js): status and priority enums, defaults,
    required columns, and the default scope that hides soft-deleted rows. */
module TaskModel {
  import opened Common

  datatype TaskStatus = Backlog | InProgress | Review | Done
  {
    function Code(): string
    {
      match this
      case Backlog => "backlog"
      case InProgress => "inProgress"
      case Review => "review"
      case Done => "done"
    }
  }

  const DEFAULT_STATUS: TaskStatus := Backlog

  /** The status a string names, if it is one of the enum's values. */
  function ParseTaskStatus(s: string): (r: Option<TaskStatus>)
    ensures r.Some? ==> r.value.Code() == s
    ensures forall st: TaskStatus :: st.Code() == s ==> r == Some(st)
  {
    if s == "backlog" then Some(Backlog)
    else if s == "inProgress" then Some(InProgress)
    else if s == "review" then Some(Review)
    else if s == "done" then Some(Done)
    else None
  }

  datatype Priority = Yuksek | Orta | Dusuk
  {
    function Code(): string
    {
      match this
      case Yuksek => "Yüksek"
      case Orta => "Orta"
      case Dusuk => "Düşük"
    }
  }

  const DEFAULT_PRIORITY: Priority := Orta

  function ParsePriority(s: string): (r: Option<Priority>)
    ensures r.Some? ==> r.value.Code() == s
    ensures forall p: Priority :: p.Code() == s ==> r == Some(p)
  {
    if s == "Yüksek" then Some(Yuksek)
    else if s == "Orta" then Some(Orta)
    else if s == "Düşük" then Some(Dusuk)
    else None
  }

  /** A stored task. title, description, assignee and dueDate are NOT NULL;
      userId (the user the status check compares with) and creatorId are
      nullable. createdAt is the store's clock at insertion. */
  datatype Task = Task(
    id: int,
    title: string,
    description: string,
    priority: Priority,
    assignee: string,
    userId: Option<int>,
    dueDate: string,
    status: TaskStatus,
    creatorId: Option<int>,
    isDeleted: bool,
    createdAt: int)

  /** The default scope `where: { isDeleted: false }`, applied by every
      Task.findByPk and Task.findAll of the routes. */
  predicate InDefaultScope(t: Task)
  {
    !t.isDeleted
  }

  /** The body of a task creation, field by field as it may arrive. */
  datatype TaskDraft = TaskDraft(
    title: Option<string>,
    description: Option<string>,
    priority: Option<string>,
    assignee: Option<string>,
    userId: Option<int>,
    dueDate: Option<string>,
    status: Option<string>,
    creatorId: Option<int>,
    isDeleted: Option<bool>)

  /** Task.create(draft): refused (None) when a NOT NULL column is missing or
      an enum column gets a value outside its enum; otherwise the defaults
      Orta, backlog and isDeleted = false fill the absent columns. */
  function NewTask(id: int, d: TaskDraft, now: int): (r: Option<Task>)
    ensures r.Some? <==>
      d.title.Some? && d.description.Some? && d.assignee.Some? && d.dueDate.Some?
      && (d.priority.Some? ==> ParsePriority(d.priority.value).Some?)
      && (d.status.Some? ==> ParseTaskStatus(d.status.value).Some?)
    ensures r.Some? ==>
      && r.value.id == id && r.value.createdAt == now
      && r.value.title == d.title.value && r.value.description == d.description.value
      && r.value.assignee == d.assignee.value && r.value.dueDate == d.dueDate.value
      && r.value.userId == d.userId && r.value.creatorId == d.creatorId
      && (d.priority.None? ==> r.value.priority == DEFAULT_PRIORITY)
      && (d.priority.Some? ==> r.value.priority.Code() == d.priority.value)
      && (d.status.None? ==> r.value.status == DEFAULT_STATUS)
      && (d.status.Some? ==> r.value.status.Code() == d.status.value)
      && r.value.isDeleted == (d.isDeleted.Some? && d.isDeleted.value)
  {
    if d.title.None? || d.description.None? || d.assignee.None? || d.dueDate.None? then None
    else
      var priority := if d.priority.Some? then ParsePriority(d.priority.value) else Some(DEFAULT_PRIORITY);
      var status := if d.status.Some? then ParseTaskStatus(d.status.value) else Some(DEFAULT_STATUS);
      if priority.None? || status.None? then None
      else Some(Task(id, d.title.value, d.description.value, priority.value, d.assignee.value,
                     d.userId, d.dueDate.value, status.value, d.creatorId,
                     if d.isDeleted.Some? then d.isDeleted.value else false, now))
  }
}
