/** What the invariant gives over whole runs: no job lost, doubled, revived or retried too often. */
module SchedulerTheorems {
  import opened Jobs
  import opened Stores
  import opened SchedulerModel
  import opened SchedulerSafety

  // ---------- Every reachable state ----------

  lemma {:induction false} RunKeepsInv(s: Sched, events: seq<Event>)
    requires Inv(s) && AdmissibleRun(s, events)
    ensures Inv(Run(s, events))
    decreases |events|
  {
    if events != [] {
      StepKeepsInv(s, events[0]);
      RunKeepsInv(Step(s, events[0]), events[1..]);
    }
  }

  /** In every state any run reaches from any store: a job is in at most one place; while the
      scheduler is up an unfinished snapshot has its job in exactly one; and a stored paused job
      waits nowhere and runs only under a forced-pause mark. */
  lemma ReachableStatesAreSafe(store: map<string, JobSnapshot>, retention: Retention, events: seq<Event>, id: string)
    requires Keyed(store) && AdmissibleRun(Initial(store, retention), events)
    ensures var s := Run(Initial(store, retention), events);
      && Copies(s, id) <= 1
      && (s.up && Unfinished(s, id) ==> Copies(s, id) == 1)
      && (StoredPaused(s, id) ==> WaitingCopies(s, id) == 0 && (id in s.running ==> id in s.forced))
  {
    var s0 := Initial(store, retention);
    forall x ensures Ok(LocalOf(s0, x)) {}
    RunKeepsInv(s0, events);
    assert Ok(LocalOf(Run(s0, events), id));
  }

  // ---------- Pushes are fresh ----------

  /** Where the scheduler itself pushes (resume, retry, next cron round, restore), the ID is not in
      the heap, so the index of the heap stays exact. */
  lemma PushSitesAreFresh(s: Sched, id: string, hold: JobSnapshot -> bool, poolOf: string -> JobClass)
    requires Inv(s)
    ensures StoredPaused(s, id) && id !in s.running ==> Copies(s, id) == 0
    ensures id in s.running ==> Copies(Left(s, id), id) == 0
    ensures Quiet(s) ==> Restored(s, hold, poolOf).Keys !! s.heap.Keys
    ensures s.loop.InHand? && s.loop.job.id == id ==> id !in s.heap
  {
    assert Ok(LocalOf(s, id));
    if id in s.running { LeftSeenFrom(s, id, id); }
  }

  // ---------- The dispatch pre-check ----------

  /** If something is due but the pre-check allows nothing, every due job is an executor job and the
      executor queue is exactly full. */
  lemma BlockedMeansExecutorQueueFull(s: Sched, now: int, id: string)
    requires Inv(s) && id in s.heap && s.heap[id].triggerAt <= now
    requires forall x :: x in s.heap ==> !QuaternaryHeaps.Eligible(s.heap[x], AllowOf(s), now)
    ensures s.execOn && |s.execQ| == s.execCap
    ensures forall x :: x in s.heap && s.heap[x].triggerAt <= now ==> s.heap[x].pool == ExecPool
  {
    forall x | x in s.heap && s.heap[x].triggerAt <= now
      ensures s.heap[x].pool == ExecPool && s.execOn && |s.execQ| >= s.execCap
    {
      assert !AllowOf(s)(s.heap[x]);
    }
  }

  // ---------- Crash, stop and restore ----------

  /** After any run that ended in a crash or a completed stop, starting makes the heap exactly the
      unfinished snapshots, less those the guard holds, which end up paused. */
  lemma RestoreIsExact(store: map<string, JobSnapshot>, retention: Retention, events: seq<Event>,
                       now: int, hold: JobSnapshot -> bool, poolOf: string -> JobClass, queues: Queues, id: string)
    requires Keyed(store) && AdmissibleRun(Initial(store, retention), events)
    requires var s := Run(Initial(store, retention), events); !s.up && Quiet(s)
    ensures var s := Run(Initial(store, retention), events);
      var t := StartStep(s, now, hold, poolOf, queues);
      && (id in t.heap <==> Unfinished(s, id) && (id in s.heap || !hold(s.store[id])))
      && Copies(t, id) == Bit(id in t.heap)
      && (id in t.store <==> id in s.store)
      && (StoredPaused(t, id) <==> StoredPaused(s, id) || (Unfinished(s, id) && id !in s.heap && hold(s.store[id])))
  {
    var s0 := Initial(store, retention);
    forall x ensures Ok(LocalOf(s0, x)) {}
    RunKeepsInv(s0, events);
    assert Ok(LocalOf(Run(s0, events), id));
  }

  /** Not settled: stored as unfinished or as paused. */
  ghost predicate Live(s: Sched, id: string) {
    Unfinished(s, id) || StoredPaused(s, id)
  }

  /** What settles a live job: a cancellation that finds it, a start without a handler, or a finish that
      is a success without a next round or a failure without a further retry. */
  ghost predicate Ends(s: Sched, e: Event, id: string) {
    match e
    case Cancel(x) => x == id && (id in s.heap || id in s.running || StoredPaused(s, id))
    case Begin(x, hasHandler, _) => x == id && !hasHandler && id in s.taken
    case Finish(x, ret, _, next, _, _) =>
      && x == id && id in s.running && id !in s.forced
      && var attempt := s.running[id];
         || (ret.Completed? && !(attempt.job.cron && next.Some?))
         || (ret.OtherError? && !attempt.cancelled
             && (ret.permanent || attempt.job.retryCount >= attempt.job.maxRetries))
    case _ => false
  }

  /** The job an event is about; start, stop, crash and the loop's own moves are about none. */
  function Subject(e: Event): Option<string> {
    match e
    case Schedule(job, _, _) => Some(job.id)
    case Cancel(id) => Some(id)
    case Pause(id, _) => Some(id)
    case ForcePause(id, _) => Some(id)
    case Resume(id, _, _, _) => Some(id)
    case UpdatePending(job, _) => Some(job.id)
    case Begin(id, _, _) => Some(id)
    case Finish(id, _, _, _, _, _) => Some(id)
    case _ => None
  }

  ghost predicate Spared(s: Sched, t: Sched, id: string) {
    id in s.store && !s.store[id].status.IsTerminal() ==> id in t.store && t.store[id] == s.store[id]
  }

  lemma StoredSpares(s: Sched, job: Job, now: int, id: string)
    requires Keyed(s.store) && id != job.id
    ensures Spared(s, Stored(s, job, now), id)
  {
    WriteKeepsUnfinished(s.store, job.ToSnapshot(), now, s.retention);
  }

  lemma ScheduleSpares(s: Sched, job: Job, now: int, next: Option<int>, id: string)
    requires Keyed(s.store) && id != job.id
    ensures Spared(s, ScheduleStep(s, job, now, next), id)
  {
    if !job.cron || next.Some? {
      StoredSpares(s, Placed(job, next), now, id);
    }
  }

  lemma ConcludeSpares(s: Sched, x: string, ending: Ending, now: int, id: string)
    requires Keyed(s.store) && x != id && (ending.Nothing? || ending.job.id == x)
    ensures Spared(s, Conclude(s, x, ending, now), id)
  {
    match ending
    case Record(job) => StoredSpares(Left(s, x), job, now, id);
    case Again(job, next) => ScheduleSpares(Left(s, x), job, now, next, id);
    case Nothing =>
  }

  lemma FinishSpares(s: Sched, x: string, ret: Return, now: int, next: Option<int>, retryAt: int, pool: JobClass,
                     id: string)
    requires NamedById(s) && x != id
    ensures Spared(s, FinishStep(s, x, ret, now, next, retryAt, pool), id)
  {
    if x in s.running {
      ConcludeSpares(s, x, EndingOf(s, x, ret, now, next, retryAt, pool), now, id);
    }
  }

  lemma ForcePauseSpares(s: Sched, x: string, now: int, id: string)
    requires NamedById(s) && x != id
    ensures Spared(s, ForcePauseStep(s, x, now), id) && Spared(s, PauseStep(s, x, now), id)
  {
    if x in s.heap { StoredSpares(s, s.heap[x].(status := Paused, updatedAt := now), now, id); }
  }

  lemma MoveKeepsStore(s: Sched, e: Event)
    requires Subject(e) == None && !e.Start?
    ensures Step(s, e).store == s.store
  {
    match e
    case Stop => assert StopStep(s).store == s.store;
    case Pop(x, _) => assert PopStep(s, x).store == s.store;
    case Dispatch => assert DispatchStep(s).store == s.store;
    case LoopExit => assert LoopExitStep(s).store == s.store;
    case Take(exec) => assert TakeStep(s, exec).store == s.store;
    case Crash => assert CrashStep(s).store == s.store;
  }

  lemma BeginSpares(s: Sched, x: string, hasHandler: bool, now: int, id: string)
    requires NamedById(s) && x != id
    ensures Spared(s, BeginStep(s, x, hasHandler, now), id)
  {
    if x in s.taken {
      StoredSpares(s, s.taken[x].(status := if hasHandler then Running else Failed, updatedAt := now), now, id);
    }
  }

  lemma ResumeSpares(s: Sched, x: string, now: int, next: Option<int>, pool: JobClass, id: string)
    requires NamedById(s) && x != id
    ensures Spared(s, ResumeStep(s, x, now, next, pool), id)
  {
    if StoredPaused(s, x) {
      ScheduleSpares(s, s.store[x].ToJob(pool).(status := Pending, updatedAt := now), now, next, id);
    }
  }

  lemma CancelSpares(s: Sched, x: string, id: string)
    requires x != id
    ensures Spared(s, CancelStep(s, x), id)
  {}

  /** What happens to one job never touches the unfinished or paused snapshot of another. */
  lemma OthersAreSpared(s: Sched, e: Event, id: string)
    requires NamedById(s) && Subject(e) != Some(id) && !e.Start?
    ensures Spared(s, Step(s, e), id)
  {
    if Subject(e).None? {
      MoveKeepsStore(s, e);
    } else {
      match e
      case Schedule(job, now, next) => ScheduleSpares(s, job, now, next, id);
      case Cancel(x) => CancelSpares(s, x, id);
      case Pause(x, now) => ForcePauseSpares(s, x, now, id);
      case ForcePause(x, now) => ForcePauseSpares(s, x, now, id);
      case Resume(x, now, next, pool) => ResumeSpares(s, x, now, next, pool, id);
      case UpdatePending(job, now) => UpdateSpares(s, job, now, id);
      case Begin(x, hasHandler, now) => BeginSpares(s, x, hasHandler, now, id);
      case Finish(x, ret, now, next, retryAt, pool) => FinishSpares(s, x, ret, now, next, retryAt, pool, id);
    }
  }

  lemma UpdateSpares(s: Sched, job: Job, now: int, id: string)
    requires Keyed(s.store) && id != job.id
    ensures Spared(s, UpdatePendingStep(s, job, now), id)
  {
    if job.id in s.heap { StoredSpares(s, job.(status := Pending, updatedAt := now), now, id); }
  }

  lemma StartKeepsLive(s: Sched, e: Event, id: string)
    requires e.Start? && Live(s, id)
    ensures Live(Step(s, e), id)
  {}

  lemma OwnCancelEndsIff(s: Sched, id: string)
    requires Live(s, id)
    ensures Live(CancelStep(s, id), id) <==> !Ends(s, Cancel(id), id)
  {}

  lemma OwnPauseKeepsLive(s: Sched, id: string, now: int)
    requires NamedById(s) && Live(s, id)
    ensures Live(PauseStep(s, id, now), id) && Live(ForcePauseStep(s, id, now), id)
  {
    if id in s.heap {
      WriteSeenFrom(s, s.heap[id].(status := Paused, updatedAt := now), now, id);
    } else if id in s.store {
      WriteKeepsUnfinished(s.store, s.store[id].(status := Paused, updatedAt := now), now, s.retention);
    }
  }

  lemma OwnUpdateKeepsLive(s: Sched, job: Job, now: int)
    requires NamedById(s) && Live(s, job.id)
    ensures Live(UpdatePendingStep(s, job, now), job.id)
  {
    if job.id in s.heap { WriteSeenFrom(s, job.(status := Pending, updatedAt := now), now, job.id); }
  }

  lemma OwnBeginEndsIff(s: Sched, id: string, hasHandler: bool, now: int)
    requires NamedById(s) && Live(s, id)
    ensures Live(BeginStep(s, id, hasHandler, now), id) <==> !Ends(s, Begin(id, hasHandler, now), id)
  {
    if id in s.taken {
      WriteSeenFrom(s, s.taken[id].(status := if hasHandler then Running else Failed, updatedAt := now), now, id);
    }
  }

  /** What an ending leaves of the job's snapshot. */
  lemma ConcludedLiveIff(s: Sched, id: string, ending: Ending, now: int)
    requires Keyed(s.store) && (!ending.Nothing? ==> ending.job.id == id)
    requires ending.Again? ==> ending.job.status == Pending && !(ending.job.cron && ending.next.None?)
    ensures Live(Conclude(s, id, ending, now), id) <==>
            if ending.Nothing? then Live(s, id) else ending.Again? || !ending.job.status.IsTerminal()
  {
    match ending
    case Record(job) => WriteSeenFrom(Left(s, id), job, now, id);
    case Again(job, next) =>
      WriteSeenFrom(Left(s, id), Placed(job, next), now, id);
    case Nothing =>
  }

  lemma OwnFinishEndsIff(s: Sched, e: Event, id: string)
    requires Inv(s) && Admissible(s, e) && Live(s, id) && e.Finish? && e.id == id
    ensures Live(Step(s, e), id) <==> !Ends(s, e, id)
  {
    if id in s.running {
      assert Ok(LocalOf(s, id));
      ConcludedLiveIff(s, id, EndingOf(s, id, e.ret, e.now, e.next, e.retryAt, e.pool), e.now);
    }
  }

  lemma OwnEventEndsIff(s: Sched, e: Event, id: string)
    requires Inv(s) && Admissible(s, e) && Live(s, id) && Subject(e) == Some(id)
    ensures Live(Step(s, e), id) <==> !Ends(s, e, id)
  {
    match e
    case Schedule(job, now, next) =>
    case Cancel(x) => OwnCancelEndsIff(s, id);
    case Pause(x, now) => OwnPauseKeepsLive(s, id, now);
    case ForcePause(x, now) => OwnPauseKeepsLive(s, id, now);
    case Resume(x, now, next, pool) => if StoredPaused(s, id) { ResumeOutcome(s, id, now, next, pool); }
    case UpdatePending(job, now) => OwnUpdateKeepsLive(s, job, now);
    case Begin(x, hasHandler, now) => OwnBeginEndsIff(s, id, hasHandler, now);
    case Finish(x, ret, now, next, retryAt, pool) => OwnFinishEndsIff(s, e, id);
  }

  /** A live job stays live under every step, of any kind and about any job, except exactly those that
      settle it: retention, retries, cron rounds, the interruption at shutdown, crashes and restarts all
      keep it. */
  lemma LivesOnIff(s: Sched, e: Event, id: string)
    requires Inv(s) && Admissible(s, e) && Live(s, id)
    ensures Live(Step(s, e), id) <==> !Ends(s, e, id)
  {
    if e.Start? {
      StartKeepsLive(s, e, id);
    } else if Subject(e) != Some(id) {
      OthersAreSpared(s, e, id);
    } else {
      OwnEventEndsIff(s, e, id);
    }
  }

  ghost predicate StaysLive(s: Sched, events: seq<Event>, id: string)
    decreases |events|
  {
    Live(s, id) && (events != [] ==> StaysLive(Step(s, events[0]), events[1..], id))
  }

  ghost predicate NothingEnds(s: Sched, events: seq<Event>, id: string)
    decreases |events|
  {
    events != [] ==> !Ends(s, events[0], id) && NothingEnds(Step(s, events[0]), events[1..], id)
  }

  /** Over any run a live job stays live throughout exactly when no event of the run settles it; in
      particular it is still stored, as unfinished or as paused, at the end. */
  lemma {:induction false} NeverLost(s: Sched, events: seq<Event>, id: string)
    requires Inv(s) && AdmissibleRun(s, events) && Live(s, id)
    ensures StaysLive(s, events, id) <==> NothingEnds(s, events, id)
    ensures NothingEnds(s, events, id) ==> Live(Run(s, events), id)
    decreases |events|
  {
    if events != [] {
      LivesOnIff(s, events[0], id);
      if !Ends(s, events[0], id) {
        StepKeepsInv(s, events[0]);
        NeverLost(Step(s, events[0]), events[1..], id);
      }
    }
  }

  lemma ResumeOutcome(s: Sched, id: string, now: int, next: Option<int>, pool: JobClass)
    requires Inv(s) && StoredPaused(s, id)
    ensures var t := ResumeStep(s, id, now, next, pool); Unfinished(t, id) || StoredPaused(t, id)
    ensures var t := ResumeStep(s, id, now, next, pool);
      Unfinished(t, id) <==> id !in s.running && (s.store[id].cron ==> next.Some?)
    ensures var t := ResumeStep(s, id, now, next, pool); Unfinished(t, id) ==> id in t.heap && Copies(t, id) == 1
  {
    assert Ok(LocalOf(s, id));
    if id !in s.running {
      PushOutcome(s, s.store[id].ToJob(pool).(status := Pending, updatedAt := now), now, next);
    }
  }

  lemma PushOutcome(s: Sched, job: Job, now: int, next: Option<int>)
    requires Keyed(s.store) && Copies(s, job.id) == 0 && job.status == Pending
    ensures var t := ScheduleStep(s, job, now, next);
      if job.cron && next.None? then t == s else Unfinished(t, job.id) && job.id in t.heap && Copies(t, job.id) == 1
  {
    if !(job.cron && next.None?) {
      WriteSeenFrom(s, Placed(job, next), now, job.id);
    }
  }

  lemma StartSeenFrom(s: Sched, now: int, hold: JobSnapshot -> bool, poolOf: string -> JobClass, queues: Queues,
                      id: string)
    requires Inv(s) && !s.up
    ensures Ok(LocalOf(StartStep(s, now, hold, poolOf, queues), id)) <==>
            id !in s.taken && !(id in s.running && Unfinished(s, id))
  {
    assert Ok(LocalOf(s, id));
  }

  /** A start keeps every job in one place exactly when no worker of the previous generation still holds
      a job it has taken but not started, or runs one that is stored as unfinished: such a job would be
      restored a second time. */
  lemma StartKeepsInvIff(s: Sched, now: int, hold: JobSnapshot -> bool, poolOf: string -> JobClass, queues: Queues)
    requires Inv(s) && !s.up
    ensures Inv(StartStep(s, now, hold, poolOf, queues)) <==>
            s.taken == map[] && forall id :: id in s.running ==> !Unfinished(s, id)
  {
    var t := StartStep(s, now, hold, poolOf, queues);
    StartKeepsShape(s, now, hold, poolOf, queues);
    if s.taken == map[] && forall id :: id in s.running ==> !Unfinished(s, id) {
      forall id ensures Ok(LocalOf(t, id)) { StartSeenFrom(s, now, hold, poolOf, queues, id); }
    } else {
      var id :| id in s.taken || (id in s.running && Unfinished(s, id));
      StartSeenFrom(s, now, hold, poolOf, queues, id);
      assert !Ok(LocalOf(t, id));
    }
  }

  /** The doubling itself: a restart while the handler of an unfinished job is still in flight. */
  lemma StartWhileDrainingDoubles(s: Sched, now: int, hold: JobSnapshot -> bool, poolOf: string -> JobClass,
                                  queues: Queues, id: string)
    requires Inv(s) && !s.up && id in s.running && Unfinished(s, id) && !hold(s.store[id])
    ensures Copies(StartStep(s, now, hold, poolOf, queues), id) == 2
  {
    assert Ok(LocalOf(s, id));
  }

  // ---------- Forced pause ----------

  /** Whatever the handler returns, and even during shutdown, a marked job ends up stored as paused,
      with its retry count and round unspent, nowhere queued, and its mark consumed. */
  lemma MarkedJobParks(s: Sched, id: string, ret: Return, now: int, next: Option<int>, retryAt: int, pool: JobClass)
    requires Inv(s) && id in s.running && id in s.forced
    ensures var t := FinishStep(s, id, ret, now, next, retryAt, pool);
      && t.store == s.store[id := s.running[id].job.(status := Paused, updatedAt := now).ToSnapshot()]
      && Copies(t, id) == 0 && id !in t.forced && t.heap == s.heap
  {
    LeftSeenFrom(s, id, id);
    assert Ok(LocalOf(s, id));
  }

  predicate Releases(e: Event, id: string) {
    match e
    case Cancel(x) => x == id
    case Resume(x, _, _, _) => x == id
    case _ => false
  }

  /** Only Resume or Cancel of that very job takes a stored paused job out of `paused`. */
  lemma PausedSurvivesStep(s: Sched, e: Event, id: string)
    requires Inv(s) && Admissible(s, e) && StoredPaused(s, id) && !Releases(e, id)
    ensures StoredPaused(Step(s, e), id)
  {
    if e.Start? {
    } else if Subject(e) != Some(id) {
      OthersAreSpared(s, e, id);
    } else {
      PausedSurvivesOwn(s, e, id);
    }
  }

  lemma PausedSurvivesOwn(s: Sched, e: Event, id: string)
    requires Inv(s) && Admissible(s, e) && StoredPaused(s, id) && !Releases(e, id) && Subject(e) == Some(id)
    ensures StoredPaused(Step(s, e), id)
  {
    assert Ok(LocalOf(s, id));
    match e
    case Schedule(job, now, next) =>
    case Pause(x, now) => assert id !in s.heap;
    case ForcePause(x, now) => if id in s.running { MarkStaysPaused(s, id, now); }
    case UpdatePending(job, now) => assert id !in s.heap;
    case Begin(x, hasHandler, now) => assert id !in s.taken;
    case Finish(x, ret, now, next, retryAt, pool) =>
      if id in s.running { MarkedJobParks(s, id, ret, now, next, retryAt, pool); }
  }

  lemma MarkStaysPaused(s: Sched, id: string, now: int)
    requires Keyed(s.store) && StoredPaused(s, id) && id !in s.heap && id in s.running
    ensures StoredPaused(ForcePauseStep(s, id, now), id)
  {}

  /** Over whole runs, restarts and crashes included. */
  lemma {:induction false} PausedUntilReleased(s: Sched, events: seq<Event>, id: string)
    requires Inv(s) && AdmissibleRun(s, events) && StoredPaused(s, id)
    requires forall e :: e in events ==> !Releases(e, id)
    ensures StoredPaused(Run(s, events), id)
    decreases |events|
  {
    if events != [] {
      PausedSurvivesStep(s, events[0], id);
      StepKeepsInv(s, events[0]);
      PausedUntilReleased(Step(s, events[0]), events[1..], id);
    }
  }

  /** A job cancelled while running (its snapshot gone) comes back as work or as paused exactly when
      it also carries a forced-pause mark, or its handler ignored the cancellation and a next cron
      round exists, or the handler was interrupted after the scheduler had been stopped. */
  lemma CancelledComesBackIff(s: Sched, id: string, ret: Return, now: int, next: Option<int>, retryAt: int,
                              pool: JobClass)
    requires Inv(s) && id in s.running && id !in s.store
    ensures var t := FinishStep(s, id, ret, now, next, retryAt, pool);
      Unfinished(t, id) || StoredPaused(t, id) <==>
        id in s.forced
        || (ret.Completed? && s.running[id].job.cron && next.Some?)
        || (!ret.Completed? && !s.up)
  {
    assert Ok(LocalOf(s, id));
    ConcludedLiveIff(s, id, EndingOf(s, id, ret, now, next, retryAt, pool), now);
  }
}
