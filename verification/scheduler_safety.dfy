/** Safety of the scheduler over every run: no job is duplicated, orphaned or revived. */
module SchedulerSafety {
  import opened Jobs
  import opened Stores
  import opened SchedulerModel

  // ---------- The invariant ----------

  /** All there is to know about one ID: whether the scheduler is up, in how many places the job
      waits, whether it runs (and was cancelled), its forced-pause mark and its stored status. */
  datatype Local = Local(up: bool, waiting: nat, run: Option<bool>, forced: bool, stored: Option<JobStatus>)

  ghost function LocalOf(s: Sched, id: string): Local {
    Local(s.up, WaitingCopies(s, id), if id in s.running then Some(s.running[id].cancelled) else None,
          id in s.forced, if id in s.store then Some(s.store[id].status) else None)
  }

  ghost predicate UnfinishedStatus(status: Option<JobStatus>) {
    status == Some(Pending) || status == Some(Running)
  }

  ghost predicate Ok(l: Local) {
    // in at most one place, and what waits for a worker is stored as unfinished
    && l.waiting + Bit(l.run.Some?) <= 1
    && (l.waiting > 0 ==> UnfinishedStatus(l.stored))
    // a mark is only ever on a cancelled execution
    && (l.forced ==> l.run == Some(true))
    // a running job is stored as running; cancelled, its snapshot is gone or, under a mark, paused
    && (l.run.Some? && l.stored.Some? ==> l.stored.value == if l.forced then Paused else Running)
    && (l.run.Some? && l.stored.None? ==> l.run.value)
    && (l.run == Some(true) && l.up && !l.forced ==> l.stored.None?)
    // while up, every unfinished snapshot has its job somewhere
    && (l.up && UnfinishedStatus(l.stored) ==> l.waiting + Bit(l.run.Some?) == 1)
  }

  ghost predicate NamedById(s: Sched) {
    && Keyed(s.store)
    && (forall id :: id in s.heap ==> s.heap[id].id == id)
    && (forall id :: id in s.taken ==> s.taken[id].id == id)
    && (forall id :: id in s.running ==> s.running[id].job.id == id)
  }

  /** Queues within capacity; a popped executor job has room; the loop lives while the scheduler is up. */
  ghost predicate QueuesFit(s: Sched) {
    && |s.workQ| <= s.workCap && |s.execQ| <= s.execCap
    && (s.loop.InHand? && s.loop.job.pool == ExecPool && s.execOn ==> |s.execQ| < s.execCap)
    && (s.up ==> !s.loop.Exited?)
  }

  ghost predicate Shape(s: Sched) {
    NamedById(s) && QueuesFit(s)
  }

  ghost predicate Inv(s: Sched) {
    Shape(s) && forall id {:trigger LocalOf(s, id)} :: Ok(LocalOf(s, id))
  }

  // ---------- Counting in queues ----------

  lemma CountInAppend(q: seq<Job>, job: Job, id: string)
    ensures CountIn(q + [job], id) == CountIn(q, id) + Bit(job.id == id)
  {
    assert (q + [job])[..|q|] == q;
  }

  lemma {:induction false} CountInHead(q: seq<Job>, id: string)
    requires q != []
    ensures CountIn(q, id) == Bit(q[0].id == id) + CountIn(q[1..], id)
  {
    var n := |q| - 1;
    if n > 0 {
      CountInHead(q[..n], id);
      assert q[..n][1..] == q[1..][..n - 1];
    }
  }

  // ---------- What a write does to one ID ----------

  /** Retention may drop the finished snapshot of another ID, nothing else. */
  lemma WriteSeenFrom(s: Sched, job: Job, now: int, id: string)
    requires Keyed(s.store)
    ensures Keyed(Stored(s, job, now).store)
    ensures id != job.id ==>
      var t := Stored(s, job, now);
      (id in t.store ==> id in s.store && t.store[id] == s.store[id])
      && (id in s.store && id !in t.store ==> s.store[id].status.IsTerminal())
    ensures id == job.id ==>
      var t := Stored(s, job, now);
      (id in t.store ==> t.store[id] == job.ToSnapshot()) && (id !in t.store ==> job.status.IsTerminal())
  {
    WriteKeepsUnfinished(s.store, job.ToSnapshot(), now, s.retention);
  }

  lemma DroppedFinishedIsOk(l: Local, m: Local)
    requires Ok(l) && (m == l || (l.stored.Some? && l.stored.value.IsTerminal() && m == l.(stored := None)))
    ensures Ok(m)
  {}

  lemma OthersStayOk(s: Sched, t: Sched, job: Job, now: int, id: string)
    requires Keyed(s.store) && t.store == Stored(s, job, now).store && id != job.id && Ok(LocalOf(s, id))
    requires LocalOf(t, id).(stored := None) == LocalOf(s, id).(stored := None)
    ensures Ok(LocalOf(t, id))
  {
    WriteSeenFrom(s, job, now, id);
    DroppedFinishedIsOk(LocalOf(s, id), LocalOf(t, id));
  }

  // ---------- Each step keeps what holds of one job ----------

  /** Pushing a job that is nowhere, whatever its snapshot says. */
  lemma ScheduleKeepsOk(s: Sched, job: Job, now: int, next: Option<int>, x: string)
    requires Shape(s) && job.status == Pending && (job.cron ==> next.Some?)
    requires if x == job.id then Copies(s, x) == 0 && x !in s.forced else Ok(LocalOf(s, x))
    ensures Ok(LocalOf(ScheduleStep(s, job, now, next), x))
  {
    WriteSeenFrom(s, Placed(job, next), now, x);
    if x != job.id { OthersStayOk(s, ScheduleStep(s, job, now, next), Placed(job, next), now, x); }
  }

  lemma CancelSeenByOthers(s: Sched, id: string, x: string)
    requires x != id
    ensures LocalOf(CancelStep(s, id), x) == LocalOf(s, x)
  {}

  lemma CancelSeenFrom(s: Sched, id: string)
    requires Ok(LocalOf(s, id))
    ensures Ok(LocalOf(CancelStep(s, id), id))
  {
    var t := CancelStep(s, id);
    if id in s.heap {
      assert id !in s.running && WaitingCopies(t, id) == 0;
    } else {
      assert WaitingCopies(t, id) == WaitingCopies(s, id);
    }
  }

  lemma CancelKeepsOk(s: Sched, id: string, x: string)
    requires Ok(LocalOf(s, x))
    ensures Ok(LocalOf(CancelStep(s, id), x))
  {
    if x == id { CancelSeenFrom(s, id); } else { CancelSeenByOthers(s, id, x); }
  }

  lemma PauseKeepsOk(s: Sched, id: string, now: int, x: string)
    requires Shape(s) && Ok(LocalOf(s, x))
    ensures Ok(LocalOf(PauseStep(s, id, now), x))
  {
    if id in s.heap {
      var paused := s.heap[id].(status := Paused, updatedAt := now);
      WriteSeenFrom(s, paused, now, id);
      if x != id { OthersStayOk(s, PauseStep(s, id, now), paused, now, x); }
    }
  }

  lemma MarkedIsOk(s: Sched, id: string, now: int)
    requires Keyed(s.store) && Ok(LocalOf(s, id)) && id !in s.heap && id in s.running
    ensures Ok(LocalOf(ForcePauseStep(s, id, now), id))
  {
    assert WaitingCopies(ForcePauseStep(s, id, now), id) == WaitingCopies(s, id);
  }

  lemma MarkSeenByOthers(s: Sched, id: string, now: int, x: string)
    requires Keyed(s.store) && id !in s.heap && x != id
    ensures LocalOf(ForcePauseStep(s, id, now), x) == LocalOf(s, x)
  {}

  lemma ForcePauseKeepsOk(s: Sched, id: string, now: int, x: string)
    requires Shape(s) && Ok(LocalOf(s, x))
    ensures Ok(LocalOf(ForcePauseStep(s, id, now), x))
  {
    PauseKeepsOk(s, id, now, x);
    if id !in s.heap && id in s.running {
      if x == id { MarkedIsOk(s, id, now); } else { MarkSeenByOthers(s, id, now, x); }
    }
  }

  /** Resume's push is fresh: a stored paused job is nowhere unless it still runs under a mark. */
  lemma ResumeKeepsOk(s: Sched, id: string, now: int, next: Option<int>, pool: JobClass, x: string)
    requires Shape(s) && Ok(LocalOf(s, x))
    ensures Ok(LocalOf(ResumeStep(s, id, now, next, pool), x))
  {
    if StoredPaused(s, id) && id !in s.running {
      var job := s.store[id].ToJob(pool).(status := Pending, updatedAt := now);
      if !job.cron || next.Some? { ScheduleKeepsOk(s, job, now, next, x); }
    }
  }

  lemma UpdatePendingKeepsOk(s: Sched, job: Job, now: int, x: string)
    requires Ok(LocalOf(s, x))
    ensures Ok(LocalOf(UpdatePendingStep(s, job, now), x))
  {
    if x != job.id { assert LocalOf(UpdatePendingStep(s, job, now), x) == LocalOf(s, x); }
  }

  lemma StartKeepsOk(s: Sched, now: int, hold: JobSnapshot -> bool, poolOf: string -> JobClass, queues: Queues,
                     x: string)
    requires Ok(LocalOf(s, x)) && (s.up || Quiet(s))
    ensures Ok(LocalOf(StartStep(s, now, hold, poolOf, queues), x))
  {}

  lemma StopKeepsOk(s: Sched, x: string)
    requires Ok(LocalOf(s, x))
    ensures Ok(LocalOf(StopStep(s), x))
  {}

  lemma PopSeenFrom(s: Sched, id: string, x: string)
    requires NamedById(s)
    ensures LocalOf(PopStep(s, id), x) == LocalOf(s, x)
  {
    assert WaitingCopies(PopStep(s, id), x) == WaitingCopies(s, x);
  }

  lemma DispatchToExecQueue(s: Sched, x: string)
    requires s.loop.InHand? && s.loop.job.pool == ExecPool && s.execOn && |s.execQ| < s.execCap
    ensures WaitingCopies(DispatchStep(s), x) == WaitingCopies(s, x)
  {
    var t := DispatchStep(s);
    CountInAppend(s.execQ, s.loop.job, x);
    assert t == s.(loop := Looking, execQ := s.execQ + [s.loop.job]);
  }

  lemma DispatchToWorkQueue(s: Sched, x: string)
    requires s.loop.InHand? && !(s.loop.job.pool == ExecPool && s.execOn) && |s.workQ| < s.workCap
    ensures WaitingCopies(DispatchStep(s), x) == WaitingCopies(s, x)
  {
    var t := DispatchStep(s);
    CountInAppend(s.workQ, s.loop.job, x);
    assert t == s.(loop := Looking, workQ := s.workQ + [s.loop.job]);
  }

  /** With the invariant a popped executor job always finds room: the put-back branch is dead. */
  lemma NeverPutBack(s: Sched)
    requires Inv(s) && s.loop.InHand? && s.loop.job.pool == ExecPool && s.execOn
    ensures DispatchStep(s) == s.(loop := Looking, execQ := s.execQ + [s.loop.job])
  {}

  lemma DispatchSeenFrom(s: Sched, x: string)
    requires Shape(s)
    ensures LocalOf(DispatchStep(s), x) == LocalOf(s, x)
  {
    if s.loop.InHand? {
      if s.loop.job.pool == ExecPool && s.execOn {
        DispatchToExecQueue(s, x);
      } else if |s.workQ| < s.workCap {
        DispatchToWorkQueue(s, x);
      }
    }
  }

  lemma LoopExitKeepsOk(s: Sched, x: string)
    requires Ok(LocalOf(s, x))
    ensures Ok(LocalOf(LoopExitStep(s), x))
  {}

  lemma TakeKeepsOk(s: Sched, exec: bool, x: string)
    requires Ok(LocalOf(s, x))
    ensures Ok(LocalOf(TakeStep(s, exec), x))
  {
    var q := if exec then s.execQ else s.workQ;
    if q != [] {
      CountInHead(q, x);
      assert LocalOf(TakeStep(s, exec), x) == LocalOf(s, x);
    }
  }

  lemma BegunIsOk(s: Sched, id: string, hasHandler: bool, now: int)
    requires Shape(s) && id in s.taken && Ok(LocalOf(s, id))
    ensures Ok(LocalOf(BeginStep(s, id, hasHandler, now), id))
  {
    WriteSeenFrom(s, s.taken[id].(status := if hasHandler then Running else Failed, updatedAt := now), now, id);
  }

  lemma BegunSeenByOthers(s: Sched, id: string, hasHandler: bool, now: int, x: string)
    requires id in s.taken && x != id
    ensures LocalOf(BeginStep(s, id, hasHandler, now), x).(stored := None) == LocalOf(s, x).(stored := None)
  {
    var t := BeginStep(s, id, hasHandler, now);
    assert t.taken == s.taken - {id};
    assert WaitingCopies(t, x) == WaitingCopies(s, x);
  }

  lemma BeginKeepsOk(s: Sched, id: string, hasHandler: bool, now: int, x: string)
    requires Shape(s) && Ok(LocalOf(s, x))
    ensures Ok(LocalOf(BeginStep(s, id, hasHandler, now), x))
  {
    if id in s.taken {
      if x == id {
        BegunIsOk(s, id, hasHandler, now);
      } else {
        var job := s.taken[id].(status := if hasHandler then Running else Failed, updatedAt := now);
        BegunSeenByOthers(s, id, hasHandler, now, x);
        OthersStayOk(s, BeginStep(s, id, hasHandler, now), job, now, x);
      }
    }
  }

  lemma LeftSeenFrom(s: Sched, id: string, x: string)
    requires Ok(LocalOf(s, x)) && id in s.running
    ensures if x == id then Copies(Left(s, id), x) == 0 && x !in Left(s, id).forced
            else LocalOf(Left(s, id), x) == LocalOf(s, x)
  {}

  /** A finish that writes a snapshot which is no work to do (or, once stopped, work for later). */
  lemma RecordKeepsOk(s: Sched, job: Job, now: int, x: string)
    requires Shape(s) && if x == job.id then Copies(s, x) == 0 && x !in s.forced else Ok(LocalOf(s, x))
    requires job.status == Paused || job.status.IsTerminal() || (!s.up && job.status == Pending)
    ensures Ok(LocalOf(Stored(s, job, now), x))
  {
    WriteSeenFrom(s, job, now, x);
    if x != job.id { OthersStayOk(s, Stored(s, job, now), job, now, x); }
  }

  lemma LeftKeepsShape(s: Sched, id: string)
    requires Shape(s)
    ensures Shape(Left(s, id))
  {}

  /** What an ending must be for the job it ends. */
  ghost predicate Fitting(s: Sched, id: string, ending: Ending) {
    match ending
    case Record(job) =>
      job.id == id && (job.status == Paused || job.status.IsTerminal() || (!s.up && job.status == Pending))
    case Again(job, next) => job.id == id && job.status == Pending && (job.cron ==> next.Some?)
    case Nothing => Ok(LocalOf(Left(s, id), id))
  }

  lemma ConcludeKeepsOk(s: Sched, id: string, ending: Ending, now: int, x: string)
    requires Shape(s) && id in s.running && Ok(LocalOf(s, x))
    requires x == id || !ending.Nothing? ==> Fitting(s, id, ending)
    ensures Ok(LocalOf(Conclude(s, id, ending, now), x))
  {
    LeftSeenFrom(s, id, x);
    LeftKeepsShape(s, id);
    match ending
    case Record(job) => RecordKeepsOk(Left(s, id), job, now, x);
    case Again(job, next) => ScheduleKeepsOk(Left(s, id), job, now, next, x);
    case Nothing =>
  }

  lemma EndingFits(s: Sched, e: Event, x: string)
    requires Shape(s) && Ok(LocalOf(s, x)) && e.Finish? && Admissible(s, e) && e.id in s.running
    ensures var ending := EndingOf(s, e.id, e.ret, e.now, e.next, e.retryAt, e.pool);
      x == e.id || !ending.Nothing? ==> Fitting(s, e.id, ending)
  {}

  lemma FinishKeepsOk(s: Sched, e: Event, x: string)
    requires Shape(s) && Ok(LocalOf(s, x)) && e.Finish? && Admissible(s, e)
    ensures Ok(LocalOf(Step(s, e), x))
  {
    if e.id in s.running {
      EndingFits(s, e, x);
      ConcludeKeepsOk(s, e.id, EndingOf(s, e.id, e.ret, e.now, e.next, e.retryAt, e.pool), e.now, x);
    }
  }

  lemma CrashKeepsOk(s: Sched, x: string)
    requires Ok(LocalOf(s, x))
    ensures Ok(LocalOf(CrashStep(s), x))
  {}

  /** Every admissible step keeps what holds of one job, whatever holds of the others. */
  lemma StepKeepsOk(s: Sched, e: Event, x: string)
    requires Shape(s) && Ok(LocalOf(s, x)) && Admissible(s, e)
    ensures Ok(LocalOf(Step(s, e), x))
  {
    match e
    case Schedule(job, now, next) => if !job.cron || next.Some? { ScheduleKeepsOk(s, job, now, next, x); }
    case Cancel(id) => CancelKeepsOk(s, id, x);
    case Pause(id, now) => PauseKeepsOk(s, id, now, x);
    case ForcePause(id, now) => ForcePauseKeepsOk(s, id, now, x);
    case Resume(id, now, next, pool) => ResumeKeepsOk(s, id, now, next, pool, x);
    case UpdatePending(job, now) => UpdatePendingKeepsOk(s, job, now, x);
    case Start(now, hold, poolOf, queues) => StartKeepsOk(s, now, hold, poolOf, queues, x);
    case Stop => StopKeepsOk(s, x);
    case Pop(id, now) => PopSeenFrom(s, id, x);
    case Dispatch => DispatchSeenFrom(s, x);
    case LoopExit => LoopExitKeepsOk(s, x);
    case Take(exec) => TakeKeepsOk(s, exec, x);
    case Begin(id, hasHandler, now) => BeginKeepsOk(s, id, hasHandler, now, x);
    case Finish(id, ret, now, next, retryAt, pool) => FinishKeepsOk(s, e, x);
    case Crash => CrashKeepsOk(s, x);
  }

  // ---------- Each step keeps the shape ----------

  lemma StoredKeepsShape(s: Sched, job: Job, now: int)
    requires Shape(s)
    ensures Shape(Stored(s, job, now))
  {
    WriteSeenFrom(s, job, now, job.id);
  }

  lemma ScheduleKeepsShape(s: Sched, job: Job, now: int, next: Option<int>)
    requires Shape(s)
    ensures Shape(ScheduleStep(s, job, now, next))
  {
    StoredKeepsShape(s, Placed(job, next), now);
  }

  lemma CancelKeepsShape(s: Sched, id: string)
    requires Shape(s)
    ensures Shape(CancelStep(s, id))
  {}

  lemma PauseKeepsShape(s: Sched, id: string, now: int)
    requires Shape(s)
    ensures Shape(PauseStep(s, id, now))
  {
    if id in s.heap { StoredKeepsShape(s, s.heap[id].(status := Paused, updatedAt := now), now); }
  }

  lemma ForcePauseKeepsShape(s: Sched, id: string, now: int)
    requires Shape(s)
    ensures Shape(ForcePauseStep(s, id, now))
  {
    PauseKeepsShape(s, id, now);
  }

  lemma ResumeKeepsShape(s: Sched, id: string, now: int, next: Option<int>, pool: JobClass)
    requires Shape(s)
    ensures Shape(ResumeStep(s, id, now, next, pool))
  {
    if StoredPaused(s, id) && id !in s.running {
      ScheduleKeepsShape(s, s.store[id].ToJob(pool).(status := Pending, updatedAt := now), now, next);
    }
  }

  lemma UpdatePendingKeepsShape(s: Sched, job: Job, now: int)
    requires Shape(s)
    ensures Shape(UpdatePendingStep(s, job, now))
  {
    StoredKeepsShape(s, job.(status := Pending, updatedAt := now), now);
  }

  lemma StartKeepsShape(s: Sched, now: int, hold: JobSnapshot -> bool, poolOf: string -> JobClass, queues: Queues)
    requires Shape(s)
    ensures Shape(StartStep(s, now, hold, poolOf, queues))
  {}

  lemma DispatchKeepsShape(s: Sched)
    requires Shape(s)
    ensures Shape(DispatchStep(s))
  {
    DispatchKeepsNames(s);
    assert QueuesFit(DispatchStep(s));
  }

  lemma DispatchKeepsStore(s: Sched)
    ensures var t := DispatchStep(s); t.store == s.store && t.taken == s.taken && t.running == s.running
  {}

  lemma DispatchPutsBack(s: Sched)
    ensures var t := DispatchStep(s);
      t.heap == s.heap || (s.loop.InHand? && t.heap == s.heap[s.loop.job.id := s.loop.job])
  {}

  lemma DispatchKeepsNames(s: Sched)
    requires NamedById(s)
    ensures NamedById(DispatchStep(s))
  {
    DispatchKeepsStore(s);
    DispatchPutsBack(s);
  }

  lemma PopKeepsShape(s: Sched, id: string, now: int)
    requires Shape(s) && Admissible(s, Pop(id, now))
    ensures Shape(PopStep(s, id))
  {
    assert QuaternaryHeaps.Eligible(s.heap[id], AllowOf(s), now);
  }

  lemma TakeKeepsShape(s: Sched, exec: bool)
    requires Shape(s)
    ensures Shape(TakeStep(s, exec))
  {}

  lemma BeginKeepsShape(s: Sched, id: string, hasHandler: bool, now: int)
    requires Shape(s)
    ensures Shape(BeginStep(s, id, hasHandler, now))
  {
    if id in s.taken {
      StoredKeepsShape(s, s.taken[id].(status := if hasHandler then Running else Failed, updatedAt := now), now);
    }
  }

  lemma ConcludeKeepsShape(s: Sched, id: string, ending: Ending, now: int)
    requires Shape(s)
    ensures Shape(Conclude(s, id, ending, now))
  {
    LeftKeepsShape(s, id);
    match ending
    case Record(job) => StoredKeepsShape(Left(s, id), job, now);
    case Again(job, next) => ScheduleKeepsShape(Left(s, id), job, now, next);
    case Nothing =>
  }

  lemma StepKeepsShape(s: Sched, e: Event)
    requires Shape(s) && Admissible(s, e)
    ensures Shape(Step(s, e))
  {
    match e
    case Schedule(job, now, next) => ScheduleKeepsShape(s, job, now, next);
    case Cancel(id) => CancelKeepsShape(s, id);
    case Pause(id, now) => PauseKeepsShape(s, id, now);
    case ForcePause(id, now) => ForcePauseKeepsShape(s, id, now);
    case Resume(id, now, next, pool) => ResumeKeepsShape(s, id, now, next, pool);
    case UpdatePending(job, now) => UpdatePendingKeepsShape(s, job, now);
    case Start(now, hold, poolOf, queues) => StartKeepsShape(s, now, hold, poolOf, queues);
    case Stop =>
    case Pop(id, now) => PopKeepsShape(s, id, now);
    case Dispatch => DispatchKeepsShape(s);
    case LoopExit =>
    case Take(exec) => TakeKeepsShape(s, exec);
    case Begin(id, hasHandler, now) => BeginKeepsShape(s, id, hasHandler, now);
    case Finish(id, ret, now, next, retryAt, pool) =>
      if id in s.running { ConcludeKeepsShape(s, id, EndingOf(s, id, ret, now, next, retryAt, pool), now); }
    case Crash =>
  }

  // ---------- Each step keeps the invariant ----------

  /** Every admissible step keeps the invariant. */
  lemma StepKeepsInv(s: Sched, e: Event)
    requires Inv(s) && Admissible(s, e)
    ensures Inv(Step(s, e))
  {
    StepKeepsShape(s, e);
    forall x ensures Ok(LocalOf(Step(s, e), x)) { StepKeepsOk(s, e, x); }
  }

  /** The finish of a job keeps the invariant exactly when it does not claim, while the scheduler is up, an
      interruption nobody asked for: otherwise its `running` snapshot is left with no job anywhere. */
  lemma FinishKeepsInvIff(s: Sched, id: string, ret: Return, now: int, next: Option<int>, retryAt: int, pool: JobClass)
    requires Inv(s) && id in s.running
    ensures Inv(FinishStep(s, id, ret, now, next, retryAt, pool)) <==>
            (s.up && ret.CanceledError? ==> s.running[id].cancelled)
  {
    if s.up && ret.CanceledError? && !s.running[id].cancelled {
      var t := FinishStep(s, id, ret, now, next, retryAt, pool);
      assert Ok(LocalOf(s, id));
      assert !Ok(LocalOf(t, id));
    } else {
      StepKeepsInv(s, Finish(id, ret, now, next, retryAt, pool));
    }
  }
}
