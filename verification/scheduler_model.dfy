/** The life of a job between heap, queues, workers and store, as atomic steps (core/scheduler.go). */
module SchedulerModel {
  import opened Jobs
  import opened Stores
  import opened Retry
  import QuaternaryHeaps

  // ---------- State ----------

  /** The scheduling loop: looking for work, holding a popped job, or gone. */
  datatype Loop = Looking | InHand(job: Job) | Exited

  /** A registered execution: the cancel function of a running job, with whether it was called. */
  datatype Attempt = Attempt(job: Job, cancelled: bool)

  datatype Sched = Sched(
    up: bool,
    loop: Loop,
    heap: map<string, Job>,
    workQ: seq<Job>, workCap: nat,
    execQ: seq<Job>, execCap: nat, execOn: bool,
    taken: map<string, Job>,
    running: map<string, Attempt>,
    forced: set<string>,
    store: map<string, JobSnapshot>,
    retention: Retention)

  /** How a handler comes back. */
  datatype Return = Completed | CanceledError | OtherError(permanent: bool)

  datatype Event =
    | Schedule(job: Job, now: int, next: Option<int>)
    | Cancel(id: string)
    | Pause(id: string, now: int)
    | ForcePause(id: string, now: int)
    | Resume(id: string, now: int, next: Option<int>, pool: JobClass)
    | UpdatePending(job: Job, now: int)
    | Start(now: int, hold: JobSnapshot -> bool, poolOf: string -> JobClass, queues: Queues)
    | Stop
    | Pop(id: string, now: int)
    | Dispatch
    | LoopExit
    | Take(exec: bool)
    | Begin(id: string, hasHandler: bool, now: int)
    | Finish(id: string, ret: Return, now: int, next: Option<int>, retryAt: int, pool: JobClass)
    | Crash

  datatype Queues = Queues(workCap: nat, execCap: nat, execOn: bool)

  // ---------- Views ----------

  ghost predicate Unfinished(s: Sched, id: string) {
    id in s.store && (s.store[id].status == Pending || s.store[id].status == Running)
  }

  ghost predicate StoredPaused(s: Sched, id: string) {
    id in s.store && s.store[id].status == Paused
  }

  ghost function CountIn(q: seq<Job>, id: string): nat {
    if q == [] then 0 else CountIn(q[..|q| - 1], id) + Bit(q[|q| - 1].id == id)
  }

  ghost predicate InTheHand(s: Sched, id: string) {
    s.loop.InHand? && s.loop.job.id == id
  }

  /** In how many places a job that no worker has registered yet is held. */
  ghost function WaitingCopies(s: Sched, id: string): nat {
    Bit(id in s.heap) + Bit(InTheHand(s, id)) + CountIn(s.workQ, id) + CountIn(s.execQ, id) + Bit(id in s.taken)
  }

  ghost function Copies(s: Sched, id: string): nat {
    WaitingCopies(s, id) + Bit(id in s.running)
  }

  /** What the dispatch pre-check says of a job: only a full executor queue holds one back. */
  predicate Dispatchable(job: Job, execOn: bool, execLen: nat, execCap: nat) {
    job.pool != ExecPool || !execOn || execLen < execCap
  }

  ghost function AllowOf(s: Sched): Job -> bool {
    job => Dispatchable(job, s.execOn, |s.execQ|, s.execCap)
  }

  // ---------- Steps ----------

  ghost function Stored(s: Sched, job: Job, now: int): Sched {
    s.(store := Write(s.store, job.ToSnapshot(), now, s.retention))
  }

  /** A cron job takes its next instant. */
  function Placed(job: Job, next: Option<int>): Job {
    job.(triggerAt := if job.cron && next.Some? then next.value else job.triggerAt)
  }

  /** Persists, then pushes; a cron job without a next instant fails without a trace. */
  ghost function ScheduleStep(s: Sched, job: Job, now: int, next: Option<int>): Sched {
    if job.cron && next.None? then s
    else
      var placed := Placed(job, next);
      Stored(s, placed, now).(heap := s.heap[placed.id := placed])
  }

  ghost function CancelStep(s: Sched, id: string): Sched {
    if id in s.heap || id in s.running then
      s.(heap := s.heap - {id},
         running := if id in s.running then s.running[id := s.running[id].(cancelled := true)] else s.running,
         store := s.store - {id})
    else if StoredPaused(s, id) then s.(store := s.store - {id})
    else s
  }

  ghost function PauseStep(s: Sched, id: string, now: int): Sched {
    if id in s.heap then
      Stored(s, s.heap[id].(status := Paused, updatedAt := now), now).(heap := s.heap - {id})
    else s
  }

  /** A job still in the heap is simply paused; a running one is marked, stored as paused, then cancelled. */
  ghost function ForcePauseStep(s: Sched, id: string, now: int): Sched {
    if id in s.heap then PauseStep(s, id, now)
    else if id in s.running then
      s.(forced := s.forced + {id},
         running := s.running[id := s.running[id].(cancelled := true)],
         store := if id in s.store
                  then Write(s.store, s.store[id].(status := Paused, updatedAt := now), now, s.retention)
                  else s.store)
    else s
  }

  ghost function ResumeStep(s: Sched, id: string, now: int, next: Option<int>, pool: JobClass): Sched {
    if StoredPaused(s, id) && id !in s.running then
      ScheduleStep(s, s.store[id].ToJob(pool).(status := Pending, updatedAt := now), now, next)
    else s
  }

  ghost function UpdatePendingStep(s: Sched, job: Job, now: int): Sched {
    if job.id in s.heap then
      var updated := job.(status := Pending, updatedAt := now);
      Stored(s, updated, now).(heap := s.heap[job.id := updated])
    else s
  }

  ghost predicate Restorable(s: Sched, id: string) {
    Unfinished(s, id) && id !in s.heap
  }

  /** Fresh queues and loop, then Restore: every unfinished snapshot outside the heap is pushed as
      pending, unless the guard holds it, in which case it is stored as paused. */
  ghost function StartStep(s: Sched, now: int, hold: JobSnapshot -> bool, poolOf: string -> JobClass,
                           queues: Queues): Sched {
    if s.up then s
    else
      s.(up := true, loop := Looking,
         workQ := [], workCap := queues.workCap, execQ := [], execCap := queues.execCap, execOn := queues.execOn,
         heap := s.heap + Restored(s, hold, poolOf),
         store := map id | id in s.store ::
           if Restorable(s, id) && hold(s.store[id]) then s.store[id].(status := Paused, updatedAt := now)
           else s.store[id])
  }

  ghost function Restored(s: Sched, hold: JobSnapshot -> bool, poolOf: string -> JobClass): map<string, Job> {
    map id | id in s.store && Restorable(s, id) && !hold(s.store[id]) ::
      s.store[id].ToJob(poolOf(s.store[id].key)).(status := Pending)
  }

  ghost function StopStep(s: Sched): Sched {
    if !s.up then s
    else s.(up := false, running := map id | id in s.running :: s.running[id].(cancelled := true))
  }

  ghost function PopStep(s: Sched, id: string): Sched {
    if s.loop.Looking? && id in s.heap then s.(loop := InHand(s.heap[id]), heap := s.heap - {id}) else s
  }

  /** The default queue blocks when full; the executor queue puts the job back. */
  ghost function DispatchStep(s: Sched): Sched {
    if !s.loop.InHand? then s
    else if s.loop.job.pool == ExecPool && s.execOn then
      if |s.execQ| < s.execCap then s.(loop := Looking, execQ := s.execQ + [s.loop.job])
      else s.(loop := Looking, heap := s.heap[s.loop.job.id := s.loop.job])
    else if |s.workQ| < s.workCap then s.(loop := Looking, workQ := s.workQ + [s.loop.job])
    else s
  }

  ghost function LoopExitStep(s: Sched): Sched {
    if s.up then s else s.(loop := Exited)
  }

  ghost function TakeStep(s: Sched, exec: bool): Sched {
    if exec && s.execQ != [] then s.(execQ := s.execQ[1..], taken := s.taken[s.execQ[0].id := s.execQ[0]])
    else if !exec && s.workQ != [] then s.(workQ := s.workQ[1..], taken := s.taken[s.workQ[0].id := s.workQ[0]])
    else s
  }

  ghost function BeginStep(s: Sched, id: string, hasHandler: bool, now: int): Sched {
    if id !in s.taken then s
    else if !hasHandler then
      Stored(s, s.taken[id].(status := Failed, updatedAt := now), now).(taken := s.taken - {id})
    else
      var job := s.taken[id].(status := Running, updatedAt := now);
      Stored(s, job, now).(taken := s.taken - {id}, running := s.running[id := Attempt(job, !s.up)])
  }

  /** The next round of a cron job: the retry count and delay start over. */
  function NextRound(job: Job, pool: JobClass, now: int): Job {
    job.(pool := pool, retryCount := 0, retryDelay := 0, status := Pending, updatedAt := now)
  }

  /** How a finished execution ends: a snapshot is recorded, the job is scheduled again, or nothing. */
  datatype Ending = Record(job: Job) | Again(job: Job, next: Option<int>) | Nothing

  /** The handler has returned: a forced pause wins over everything, then success, interruption, failure. */
  ghost function EndingOf(s: Sched, id: string, ret: Return, now: int, next: Option<int>, retryAt: int,
                          pool: JobClass): Ending
    requires id in s.running
  {
    var job := s.running[id].job.(updatedAt := now);
    if id in s.forced then Record(job.(status := Paused))
    else if ret.Completed? then
      if job.cron && next.Some? then Again(NextRound(job, pool, now), next) else Record(job.(status := Success))
    else if ret.CanceledError? || s.running[id].cancelled then
      if s.up then Nothing else Record(job.(status := Pending))
    else if ret.permanent || job.retryCount >= job.maxRetries then Record(job.(status := Failed))
    else Again(CloneForRetry(job, retryAt, now).(pool := pool), None)
  }

  /** The worker has left and any forced-pause mark is consumed. */
  ghost function Left(s: Sched, id: string): Sched {
    s.(running := s.running - {id}, forced := s.forced - {id})
  }

  ghost function Conclude(s: Sched, id: string, ending: Ending, now: int): Sched {
    match ending
    case Record(job) => Stored(Left(s, id), job, now)
    case Again(job, next) => ScheduleStep(Left(s, id), job, now, next)
    case Nothing => Left(s, id)
  }

  ghost function FinishStep(s: Sched, id: string, ret: Return, now: int, next: Option<int>, retryAt: int,
                            pool: JobClass): Sched {
    if id in s.running then Conclude(s, id, EndingOf(s, id, ret, now, next, retryAt, pool), now) else s
  }

  /** The process dies: only the store survives. */
  ghost function CrashStep(s: Sched): Sched {
    s.(up := false, loop := Exited, heap := map[], workQ := [], execQ := [], taken := map[], running := map[],
       forced := {})
  }

  ghost function Step(s: Sched, e: Event): Sched {
    match e
    case Schedule(job, now, next) => ScheduleStep(s, job, now, next)
    case Cancel(id) => CancelStep(s, id)
    case Pause(id, now) => PauseStep(s, id, now)
    case ForcePause(id, now) => ForcePauseStep(s, id, now)
    case Resume(id, now, next, pool) => ResumeStep(s, id, now, next, pool)
    case UpdatePending(job, now) => UpdatePendingStep(s, job, now)
    case Start(now, hold, poolOf, queues) => StartStep(s, now, hold, poolOf, queues)
    case Stop => StopStep(s)
    case Pop(id, now) => PopStep(s, id)
    case Dispatch => DispatchStep(s)
    case LoopExit => LoopExitStep(s)
    case Take(exec) => TakeStep(s, exec)
    case Begin(id, hasHandler, now) => BeginStep(s, id, hasHandler, now)
    case Finish(id, ret, now, next, retryAt, pool) => FinishStep(s, id, ret, now, next, retryAt, pool)
    case Crash => CrashStep(s)
  }

  // ---------- What callers and the environment owe ----------

  /** Stop has returned: the loop and every worker are gone. */
  ghost predicate Quiet(s: Sched) {
    s.loop.Exited? && s.taken == map[] && s.running == map[]
  }

  /** No live job has this ID: it is held nowhere and any snapshot of it is finished. */
  ghost predicate FreshId(s: Sched, id: string) {
    Copies(s, id) == 0 && (id in s.store ==> s.store[id].status.IsTerminal())
  }

  ghost predicate Admissible(s: Sched, e: Event) {
    match e
    case Schedule(job, now, next) => FreshId(s, job.id) && job.status == Pending
    case Start(now, hold, poolOf, queues) => s.up || Quiet(s)
    case Pop(id, now) => id in s.heap && QuaternaryHeaps.Minimal(s.heap, s.heap[id], AllowOf(s), now)
    case Finish(id, ret, now, next, retryAt, pool) =>
      s.up && ret.CanceledError? && id in s.running ==> s.running[id].cancelled
    case _ => true
  }

  // ---------- Runs ----------

  ghost function Initial(store: map<string, JobSnapshot>, retention: Retention): Sched {
    Sched(false, Exited, map[], [], 0, [], 0, false, map[], map[], {}, store, retention)
  }

  ghost function Run(s: Sched, events: seq<Event>): Sched
    decreases |events|
  {
    if events == [] then s else Run(Step(s, events[0]), events[1..])
  }

  ghost predicate AdmissibleRun(s: Sched, events: seq<Event>)
    decreases |events|
  {
    events == [] || (Admissible(s, events[0]) && AdmissibleRun(Step(s, events[0]), events[1..]))
  }
}
