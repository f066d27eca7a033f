/** Jobs, their persisted snapshots and the option type the other modules share. */
module Jobs {

  datatype Option<+T> = None | Some(value: T)

  ghost function Bit(b: bool): nat { if b then 1 else 0 }

  datatype JobStatus = Pending | Running | Success | Failed | Cancelled | Paused
  {
    /** A finished job: never scheduled again and never restored. Paused is deliberately not terminal. */
    predicate IsTerminal() {
      this == Success || this == Failed || this == Cancelled
    }
  }

  /** The pool a job runs in, stamped on the job before it enters the heap. */
  datatype JobClass = DefaultPool | ExecPool

  /** A job in memory. `cron` stands for IsRepeat together with a non-empty cron expression. */
  datatype Job = Job(
    id: string, key: string, triggerAt: int, pool: JobClass, cron: bool,
    maxRetries: int, retryCount: int, retryDelay: int, status: JobStatus, updatedAt: int)
  {
    function ToSnapshot(): JobSnapshot {
      JobSnapshot(id, key, triggerAt, cron, maxRetries, retryCount, retryDelay, status, updatedAt)
    }
  }

  /** What is persisted of a job: everything but its class, which is stamped again from the registry. */
  datatype JobSnapshot = JobSnapshot(
    id: string, key: string, triggerAt: int, cron: bool,
    maxRetries: int, retryCount: int, retryDelay: int, status: JobStatus, updatedAt: int)
  {
    function ToJob(pool: JobClass): Job {
      Job(id, key, triggerAt, pool, cron, maxRetries, retryCount, retryDelay, status, updatedAt)
    }
  }
}
