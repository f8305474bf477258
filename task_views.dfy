/** How the dashboards classify a listed task by its status. */
module TaskViews {
  import opened Statuses
  import opened TaskStore

  /** Still to be done: neither completed (on time or late) nor waived. */
  predicate PendingTask(v: TaskView) { !IsClosed(v.task.status) }
  /** Completed, on time or late. */
  predicate DoneTask(v: TaskView) { IsCompletion(v.task.status) }
  predicate CompletedTask(v: TaskView) { v.task.status == Completed }
  predicate LateTask(v: TaskView) { v.task.status == CompletedLate }
  predicate NotRequiredTask(v: TaskView) { v.task.status == NotRequired }
}
