/** Tasks of a job and their states. */
module JobTypes {
  import opened Options

  datatype TaskStatus = Queued | Sent | InProgress | Failed | Succeeded | Canceled | TimedOut | Rejected

  /** The operations the system runs itself; any other name is custom. */
  datatype Operation = DirectMethod | UpdateShadow | Custom

  datatype Task = Task(
    taskId: int, jobId: string, thingId: string, op: Operation,
    status: TaskStatus, startedAt: Option<int>, createdAt: int)

  datatype JobStatus = Waiting | JobInProgress | Canceling | JobCanceled | Completed | Removing

  predicate IsTaskTerminal(s: TaskStatus) {
    s == Failed || s == Succeeded || s == TimedOut || s == Rejected || s == Canceled
  }

  predicate IsTaskOngoing(s: TaskStatus) {
    s == Sent || s == InProgress
  }

  predicate IsJobToTerminal(s: JobStatus) {
    s == Canceling || s == JobCanceled || s == Removing || s == Completed
  }

  const MINUTE: int := 60_000_000_000  // in nanoseconds
  const MILLISECOND: int := 1_000_000

  /** The task has been in progress for the given minutes at time t. */
  predicate Overdue(task: Task, minutes: int, t: int) {
    task.status.InProgress? && task.startedAt.Some? && t - task.startedAt.value * MILLISECOND >= minutes * MINUTE
  }
}
