/** The TaskHistory record (models/TaskHistory.js): one audit entry of a
    task. The snapshots are kept as structured task values instead of the
    JSON text the column holds. */
module TaskHistoryModel {
  import opened Common
  import opened TaskModel

  /** taskId, action, user and creatorName are NOT NULL; previousValue and
      newValue are nullable snapshots of that task. */
  datatype HistoryEntry = HistoryEntry(
    taskId: int,
    action: string,
    user: string,
    creatorName: string,
    previousValue: Option<Task>,
    newValue: Option<Task>)

  /** The foreign key: every entry references a stored task. */
  ghost predicate ReferencesTasks(log: seq<HistoryEntry>, tasks: map<int, Task>)
  {
    forall i :: 0 <= i < |log| ==> log[i].taskId in tasks
  }
}
