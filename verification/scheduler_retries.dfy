/** How often a one-shot job runs: once, plus its retries, and never again after a permanent failure. */
module SchedulerRetries {
  import opened Jobs
  import opened Stores
  import opened SchedulerModel
  import opened SchedulerSafety

  /** Job `j` waits for a worker. */
  ghost predicate Waits(s: Sched, j: Job) {
    || (j.id in s.heap && s.heap[j.id] == j)
    || s.loop == InHand(j)
    || j in s.workQ || j in s.execQ
    || (j.id in s.taken && s.taken[j.id] == j)
  }

  /** A one-shot job after n handler runs: what waits has consumed n retries, what runs n - 1, and
      neither more than allowed. */
  ghost predicate Budgeted(s: Sched, id: string, max: int, n: int) {
    && (forall j :: Waits(s, j) && j.id == id ==>
        !j.cron && j.maxRetries == max && j.retryCount == n && (n == 0 || n <= max))
    && (id in s.running ==> var j := s.running[id].job;
        !j.cron && j.maxRetries == max && j.retryCount == n - 1 && (n == 1 || n - 1 <= max))
    && 0 <= n && (n <= 1 || n <= max + 1)
  }

  predicate StartsHandler(s: Sched, e: Event, id: string) {
    e.Begin? && e.id == id && e.hasHandler && id in s.taken
  }

  ghost function HandlerRuns(s: Sched, events: seq<Event>, id: string): nat
    decreases |events|
  {
    if events == [] then 0
    else Bit(StartsHandler(s, events[0], id)) + HandlerRuns(Step(s, events[0]), events[1..], id)
  }

  /** Neither scheduled again, resumed nor restored; an update keeps the retry settings. */
  predicate LeavesRetriesAlone(e: Event, id: string, s: Sched) {
    match e
    case Schedule(job, _, _) => job.id != id
    case Resume(x, _, _, _) => x != id
    case Start(_, _, _, _) => false
    case UpdatePending(job, _) =>
      job.id == id && id in s.heap ==>
        job.cron == s.heap[id].cron && job.maxRetries == s.heap[id].maxRetries
          && job.retryCount == s.heap[id].retryCount
    case _ => true
  }

  lemma WaitingIsCounted(s: Sched, j: Job)
    requires NamedById(s) && Waits(s, j)
    ensures WaitingCopies(s, j.id) > 0
  {
    if j in s.workQ { MemberIsCounted(s.workQ, j); }
    if j in s.execQ { MemberIsCounted(s.execQ, j); }
  }

  lemma {:induction false} MemberIsCounted(q: seq<Job>, j: Job)
    requires j in q
    ensures CountIn(q, j.id) > 0
  {
    if q[|q| - 1] != j {
      assert j in q[..|q| - 1];
      MemberIsCounted(q[..|q| - 1], j);
    }
  }

  lemma RunningDoesNotWait(s: Sched, id: string)
    requires Inv(s) && id in s.running
    ensures forall j :: Waits(s, j) ==> j.id != id
  {
    assert Ok(LocalOf(s, id));
    forall j | Waits(s, j) ensures j.id != id { WaitingIsCounted(s, j); }
  }

  lemma BeginKeepsBudget(s: Sched, id: string, x: string, hasHandler: bool, now: int, max: int, n: int)
    requires Inv(s) && Budgeted(s, id, max, n)
    ensures var t := BeginStep(s, x, hasHandler, now);
      Budgeted(t, id, max, n + Bit(x == id && hasHandler && id in s.taken))
  {
    var t := BeginStep(s, x, hasHandler, now);
    StepKeepsInv(s, Begin(x, hasHandler, now));
    forall j | Waits(t, j) ensures Waits(s, j) {}
    if x in s.taken {
      assert Waits(s, s.taken[x]);
      if hasHandler { RunningDoesNotWait(t, x); }
    }
  }

  /** Enough for the budget to carry over: job `id` gains no waiting copy and starts no run. */
  lemma BudgetCarriesOver(s: Sched, t: Sched, id: string, max: int, n: int)
    requires Budgeted(s, id, max, n)
    requires forall j :: Waits(t, j) && j.id == id ==> Waits(s, j)
    requires id in t.running ==> id in s.running && t.running[id].job == s.running[id].job
    ensures Budgeted(t, id, max, n)
  {}

  lemma ScheduleAddsOne(s: Sched, job: Job, now: int, next: Option<int>, j: Job)
    requires Waits(ScheduleStep(s, job, now, next), j)
    ensures Waits(s, j) || (j.id == job.id && j == job.(triggerAt := j.triggerAt))
  {}

  lemma ConcludeAddsAtMostOwn(s: Sched, id: string, ending: Ending, now: int, j: Job)
    requires Waits(Conclude(s, id, ending, now), j)
    ensures Waits(s, j) || (ending.Again? && j.id == ending.job.id && j == ending.job.(triggerAt := j.triggerAt))
  {
    match ending
    case Record(job) =>
    case Again(job, next) => ScheduleAddsOne(Left(s, id), job, now, next, j);
    case Nothing =>
  }

  /** A finish of the job itself leaves at most its retry copy, and only within the budget. */
  lemma OwnFinishKeepsBudget(s: Sched, id: string, e: Event, max: int, n: int)
    requires Inv(s) && Budgeted(s, id, max, n) && e.Finish? && e.id == id && id in s.running
    ensures Budgeted(Step(s, e), id, max, n)
  {
    RunningDoesNotWait(s, id);
    var ending := EndingOf(s, id, e.ret, e.now, e.next, e.retryAt, e.pool);
    OwnEnding(s, id, e, max, n);
    forall j | Waits(Conclude(s, id, ending, e.now), j) && j.id == id
      ensures !j.cron && j.maxRetries == max && j.retryCount == n && n <= max
    {
      ConcludeAddsAtMostOwn(s, id, ending, e.now, j);
    }
  }

  lemma OwnEnding(s: Sched, id: string, e: Event, max: int, n: int)
    requires Inv(s) && Budgeted(s, id, max, n) && e.Finish? && id in s.running
    ensures var ending := EndingOf(s, id, e.ret, e.now, e.next, e.retryAt, e.pool);
      && (ending.Again? ==> var j := ending.job; !j.cron && j.maxRetries == max && j.retryCount == n <= max)
      && id !in Conclude(s, id, ending, e.now).running
  {}

  lemma OtherEndingKeepsBudget(s: Sched, id: string, x: string, ending: Ending, now: int, max: int, n: int)
    requires Budgeted(s, id, max, n) && x != id && (ending.Nothing? || ending.job.id == x)
    ensures Budgeted(Conclude(s, x, ending, now), id, max, n)
  {
    var t := Conclude(s, x, ending, now);
    forall j | Waits(t, j) && j.id == id ensures Waits(s, j) { ConcludeAddsAtMostOwn(s, x, ending, now, j); }
    assert t.running == s.running - {x};
    BudgetCarriesOver(s, t, id, max, n);
  }

  lemma FinishKeepsBudget(s: Sched, id: string, e: Event, max: int, n: int)
    requires Inv(s) && Budgeted(s, id, max, n) && e.Finish?
    ensures Budgeted(Step(s, e), id, max, n)
  {
    if e.id in s.running {
      if e.id == id {
        OwnFinishKeepsBudget(s, id, e, max, n);
      } else {
        OtherEndingKeepsBudget(s, id, e.id, EndingOf(s, e.id, e.ret, e.now, e.next, e.retryAt, e.pool), e.now, max, n);
      }
    }
  }

  lemma DispatchOnlyMoves(s: Sched, j: Job)
    requires NamedById(s) && Waits(DispatchStep(s), j)
    ensures Waits(s, j)
  {}

  lemma PopOnlyMoves(s: Sched, id: string, j: Job)
    requires NamedById(s) && Waits(PopStep(s, id), j)
    ensures Waits(s, j)
  {}

  lemma TakeOnlyMoves(s: Sched, exec: bool, j: Job)
    requires Waits(TakeStep(s, exec), j)
    ensures Waits(s, j)
  {}

  lemma PopKeepsBudget(s: Sched, x: string, id: string, max: int, n: int)
    requires Inv(s) && Budgeted(s, id, max, n)
    ensures Budgeted(PopStep(s, x), id, max, n)
  {
    forall j | Waits(PopStep(s, x), j) ensures Waits(s, j) { PopOnlyMoves(s, x, j); }
    BudgetCarriesOver(s, PopStep(s, x), id, max, n);
  }

  lemma DispatchKeepsBudget(s: Sched, id: string, max: int, n: int)
    requires Inv(s) && Budgeted(s, id, max, n)
    ensures Budgeted(DispatchStep(s), id, max, n)
  {
    DispatchFrame(s);
    forall j | Waits(DispatchStep(s), j) ensures Waits(s, j) { DispatchOnlyMoves(s, j); }
    BudgetCarriesOver(s, DispatchStep(s), id, max, n);
  }

  lemma TakeKeepsBudget(s: Sched, exec: bool, id: string, max: int, n: int)
    requires Inv(s) && Budgeted(s, id, max, n)
    ensures Budgeted(TakeStep(s, exec), id, max, n)
  {
    forall j | Waits(TakeStep(s, exec), j) ensures Waits(s, j) { TakeOnlyMoves(s, exec, j); }
    BudgetCarriesOver(s, TakeStep(s, exec), id, max, n);
  }

  lemma QueueKeepsBudget(s: Sched, id: string, e: Event, max: int, n: int)
    requires Inv(s) && Budgeted(s, id, max, n) && (e.Pop? || e.Dispatch? || e.Take?)
    ensures Budgeted(Step(s, e), id, max, n)
  {
    match e
    case Pop(x, _) => PopKeepsBudget(s, x, id, max, n);
    case Dispatch => DispatchKeepsBudget(s, id, max, n);
    case Take(exec) => TakeKeepsBudget(s, exec, id, max, n);
  }

  lemma ResumeAddsAtMostOwn(s: Sched, e: Event, j: Job)
    requires NamedById(s) && e.Resume? && Waits(Step(s, e), j) && j.id != e.id
    ensures Waits(s, j)
  {
    if StoredPaused(s, e.id) {
      var job := s.store[e.id].ToJob(e.pool).(status := Pending, updatedAt := e.now);
      if Waits(ScheduleStep(s, job, e.now, e.next), j) { ScheduleAddsOne(s, job, e.now, e.next, j); }
    }
  }

  lemma CancelOnlyRemoves(s: Sched, id: string, j: Job)
    requires Waits(CancelStep(s, id), j)
    ensures Waits(s, j)
  {}

  lemma PauseOnlyRemoves(s: Sched, id: string, now: int, j: Job)
    requires Waits(PauseStep(s, id, now), j) || Waits(ForcePauseStep(s, id, now), j)
    ensures Waits(s, j)
  {}

  lemma EndOnlyRemoves(s: Sched, j: Job)
    requires Waits(StopStep(s), j) || Waits(LoopExitStep(s), j) || Waits(CrashStep(s), j)
    ensures Waits(s, j)
  {}

  lemma SameRuns(s: Sched, e: Event, id: string)
    requires e.Pause? || e.ForcePause? || e.Cancel? || e.LoopExit? || e.Stop? || e.Crash?
    requires id in Step(s, e).running
    ensures id in s.running && Step(s, e).running[id].job == s.running[id].job
  {}

  lemma RemovalKeepsBudget(s: Sched, id: string, e: Event, max: int, n: int)
    requires Inv(s) && Budgeted(s, id, max, n)
    requires e.Pause? || e.ForcePause? || e.Cancel? || e.LoopExit? || e.Stop? || e.Crash?
    ensures Budgeted(Step(s, e), id, max, n)
  {
    var t := Step(s, e);
    forall j | Waits(t, j) && j.id == id ensures Waits(s, j) {
      if e.Cancel? { CancelOnlyRemoves(s, e.id, j); }
      else if e.Pause? || e.ForcePause? { PauseOnlyRemoves(s, e.id, e.now, j); }
      else { EndOnlyRemoves(s, j); }
    }
    if id in t.running { SameRuns(s, e, id); }
    BudgetCarriesOver(s, t, id, max, n);
  }

  lemma UpdateReplaces(s: Sched, job: Job, now: int, j: Job)
    requires Waits(UpdatePendingStep(s, job, now), j)
    ensures Waits(s, j) || (j.id == job.id && job.id in s.heap && j == job.(status := Pending, updatedAt := now))
  {}

  lemma UpdateKeepsBudget(s: Sched, id: string, e: Event, max: int, n: int)
    requires Inv(s) && Budgeted(s, id, max, n) && LeavesRetriesAlone(e, id, s) && e.UpdatePending?
    ensures Budgeted(Step(s, e), id, max, n)
  {
    var t := Step(s, e);
    assert t.running == s.running;
    forall j | Waits(t, j) && j.id == id
      ensures !j.cron && j.maxRetries == max && j.retryCount == n && (n == 0 || n <= max)
    {
      UpdateReplaces(s, e.job, e.now, j);
      if !Waits(s, j) { assert Waits(s, s.heap[id]); }
    }
  }

  lemma ApiKeepsBudget(s: Sched, id: string, e: Event, max: int, n: int)
    requires Inv(s) && Budgeted(s, id, max, n) && LeavesRetriesAlone(e, id, s)
    requires !e.Pop? && !e.Dispatch? && !e.Take? && !e.Begin? && !e.Finish?
    ensures Budgeted(Step(s, e), id, max, n)
  {
    if e.UpdatePending? {
      UpdateKeepsBudget(s, id, e, max, n);
    } else if e.Schedule? {
      forall j | Waits(Step(s, e), j) && j.id == id ensures Waits(s, j) { ScheduleAddsOne(s, e.job, e.now, e.next, j); }
      BudgetCarriesOver(s, Step(s, e), id, max, n);
    } else if e.Resume? {
      forall j | Waits(Step(s, e), j) && j.id == id ensures Waits(s, j) { ResumeAddsAtMostOwn(s, e, j); }
      BudgetCarriesOver(s, Step(s, e), id, max, n);
    } else {
      RemovalKeepsBudget(s, id, e, max, n);
    }
  }

  lemma StepKeepsBudget(s: Sched, id: string, e: Event, max: int, n: int)
    requires Inv(s) && Budgeted(s, id, max, n) && LeavesRetriesAlone(e, id, s)
    ensures Budgeted(Step(s, e), id, max, n + Bit(StartsHandler(s, e, id)))
  {
    if e.Begin? {
      BeginKeepsBudget(s, id, e.id, e.hasHandler, e.now, max, n);
    } else if e.Finish? {
      FinishKeepsBudget(s, id, e, max, n);
    } else if e.Pop? || e.Dispatch? || e.Take? {
      QueueKeepsBudget(s, id, e, max, n);
    } else {
      ApiKeepsBudget(s, id, e, max, n);
    }
  }

  ghost predicate LeftAlone(s: Sched, events: seq<Event>, id: string)
    decreases |events|
  {
    events == [] || (LeavesRetriesAlone(events[0], id, s) && LeftAlone(Step(s, events[0]), events[1..], id))
  }

  lemma {:induction false} RunKeepsBudget(s: Sched, events: seq<Event>, id: string, max: int, n: int)
    requires Inv(s) && AdmissibleRun(s, events) && LeftAlone(s, events, id) && Budgeted(s, id, max, n)
    ensures Budgeted(Run(s, events), id, max, n + HandlerRuns(s, events, id))
    decreases |events|
  {
    if events != [] {
      StepKeepsBudget(s, id, events[0], max, n);
      StepKeepsInv(s, events[0]);
      RunKeepsBudget(Step(s, events[0]), events[1..], id, max, n + Bit(StartsHandler(s, events[0], id)));
    }
  }

  /** A freshly scheduled one-shot job that is not scheduled again, resumed or restarted runs its
      handler at most MaxRetries + 1 times (once when MaxRetries is negative), in any run. */
  lemma AtMostMaxRetriesPlusOne(s: Sched, job: Job, now: int, next: Option<int>, events: seq<Event>)
    requires Inv(s) && Admissible(s, Schedule(job, now, next)) && !job.cron && job.retryCount == 0
    requires var t := ScheduleStep(s, job, now, next);
      AdmissibleRun(t, events) && LeftAlone(t, events, job.id)
    ensures HandlerRuns(ScheduleStep(s, job, now, next), events, job.id) <=
            if job.maxRetries < 0 then 1 else job.maxRetries + 1
  {
    var t := ScheduleStep(s, job, now, next);
    StepKeepsInv(s, Schedule(job, now, next));
    forall j | Waits(s, j) ensures j.id != job.id { WaitingIsCounted(s, j); }
    forall j | Waits(t, j) && j.id == job.id ensures j == t.heap[job.id] {}
    RunKeepsBudget(t, events, job.id, job.maxRetries, 0);
  }

  lemma PermanentFailureEnds(s: Sched, id: string, now: int, next: Option<int>, retryAt: int, pool: JobClass)
    requires Inv(s) && id in s.running && id !in s.forced && !s.running[id].cancelled
    ensures FreshId(FinishStep(s, id, OtherError(true), now, next, retryAt, pool), id)
  {
    assert Ok(LocalOf(s, id));
    LeftSeenFrom(s, id, id);
    WriteSeenFrom(s, s.running[id].job.(updatedAt := now, status := Failed), now, id);
  }

  lemma StoreOnlyDrops(s: Sched, job: Job, now: int, id: string)
    requires Keyed(s.store) && id != job.id
    ensures id in Stored(s, job, now).store ==> id in s.store && Stored(s, job, now).store[id] == s.store[id]
  {
    WriteSeenFrom(s, job, now, id);
  }

  lemma ScheduleOfOther(s: Sched, job: Job, now: int, next: Option<int>, id: string)
    requires Keyed(s.store) && id != job.id && FreshId(s, id)
    ensures FreshId(ScheduleStep(s, job, now, next), id)
  {
    StoreOnlyDrops(s, job.(triggerAt := if job.cron && next.Some? then next.value else job.triggerAt), now, id);
  }

  lemma ConcludeOfOther(s: Sched, x: string, ending: Ending, now: int, id: string)
    requires Keyed(s.store) && id != x && FreshId(s, id) && (ending.Nothing? || ending.job.id == x)
    ensures FreshId(Conclude(s, x, ending, now), id)
  {
    assert FreshId(Left(s, x), id);
    match ending
    case Record(job) => StoreOnlyDrops(Left(s, x), job, now, id);
    case Again(job, next) => ScheduleOfOther(Left(s, x), job, now, next, id);
    case Nothing =>
  }

  lemma CancelOfOther(s: Sched, x: string, id: string)
    requires FreshId(s, id)
    ensures FreshId(CancelStep(s, x), id)
  {
    if x != id { CancelSeenByOthers(s, x, id); }
  }

  lemma PauseOfOther(s: Sched, x: string, now: int, id: string)
    requires NamedById(s) && FreshId(s, id)
    ensures FreshId(PauseStep(s, x, now), id)
  {
    if x in s.heap { StoreOnlyDrops(s, s.heap[x].(status := Paused, updatedAt := now), now, id); }
  }

  lemma ForcePauseOfOther(s: Sched, x: string, now: int, id: string)
    requires NamedById(s) && FreshId(s, id)
    ensures FreshId(ForcePauseStep(s, x, now), id)
  {
    PauseOfOther(s, x, now, id);
  }

  lemma ResumeOfOther(s: Sched, x: string, now: int, next: Option<int>, pool: JobClass, id: string)
    requires NamedById(s) && FreshId(s, id)
    ensures FreshId(ResumeStep(s, x, now, next, pool), id)
  {
    if StoredPaused(s, x) && x !in s.running {
      ScheduleOfOther(s, s.store[x].ToJob(pool).(status := Pending, updatedAt := now), now, next, id);
    }
  }

  lemma UpdateOfOther(s: Sched, job: Job, now: int, id: string)
    requires NamedById(s) && FreshId(s, id)
    ensures FreshId(UpdatePendingStep(s, job, now), id)
  {}

  lemma StartOfOthers(s: Sched, now: int, hold: JobSnapshot -> bool, poolOf: string -> JobClass, queues: Queues,
                      id: string)
    requires FreshId(s, id)
    ensures FreshId(StartStep(s, now, hold, poolOf, queues), id)
  {}

  lemma EndOfOthers(s: Sched, id: string)
    requires FreshId(s, id)
    ensures FreshId(StopStep(s), id) && FreshId(LoopExitStep(s), id) && FreshId(CrashStep(s), id)
  {}

  lemma PopOfOther(s: Sched, x: string, id: string)
    requires NamedById(s) && FreshId(s, id)
    ensures FreshId(PopStep(s, x), id)
  {
    PopSeenFrom(s, x, id);
  }

  lemma DispatchOfOther(s: Sched, id: string)
    requires Inv(s) && FreshId(s, id)
    ensures FreshId(DispatchStep(s), id)
  {
    DispatchFrame(s);
    if s.loop.InHand? { DispatchSeenFrom(s, id); }
  }

  lemma DispatchFrame(s: Sched)
    ensures DispatchStep(s).store == s.store && DispatchStep(s).running == s.running
  {}

  lemma TakeOfOther(s: Sched, exec: bool, id: string)
    requires FreshId(s, id)
    ensures FreshId(TakeStep(s, exec), id)
  {
    var q := if exec then s.execQ else s.workQ;
    if q != [] { CountInHead(q, id); }
  }

  lemma BeginOfOther(s: Sched, x: string, hasHandler: bool, now: int, id: string)
    requires NamedById(s) && FreshId(s, id)
    ensures FreshId(BeginStep(s, x, hasHandler, now), id)
  {
    if x in s.taken {
      StoreOnlyDrops(s, s.taken[x].(status := if hasHandler then Running else Failed, updatedAt := now), now, id);
    }
  }

  /** A job that is gone stays gone, through restarts and crashes, unless it is scheduled anew. */
  lemma GoneStaysGone(s: Sched, e: Event, id: string)
    requires Inv(s) && FreshId(s, id) && (e.Schedule? ==> e.job.id != id)
    ensures FreshId(Step(s, e), id)
  {
    match e
    case Schedule(job, now, next) => ScheduleOfOther(s, job, now, next, id);
    case Cancel(x) => CancelOfOther(s, x, id);
    case Pause(x, now) => PauseOfOther(s, x, now, id);
    case ForcePause(x, now) => ForcePauseOfOther(s, x, now, id);
    case Resume(x, now, next, pool) => ResumeOfOther(s, x, now, next, pool, id);
    case UpdatePending(job, now) => UpdateOfOther(s, job, now, id);
    case Start(now, hold, poolOf, queues) => StartOfOthers(s, now, hold, poolOf, queues, id);
    case Stop => EndOfOthers(s, id);
    case Pop(x, now) => PopOfOther(s, x, id);
    case Dispatch => DispatchOfOther(s, id);
    case LoopExit => EndOfOthers(s, id);
    case Take(exec) => TakeOfOther(s, exec, id);
    case Begin(x, hasHandler, now) => BeginOfOther(s, x, hasHandler, now, id);
    case Finish(x, ret, now, next, retryAt, pool) =>
      if x in s.running { ConcludeOfOther(s, x, EndingOf(s, x, ret, now, next, retryAt, pool), now, id); }
    case Crash => EndOfOthers(s, id);
  }

  lemma {:induction false} GoneNeverRuns(s: Sched, events: seq<Event>, id: string)
    requires Inv(s) && AdmissibleRun(s, events) && FreshId(s, id)
    requires forall e :: e in events && e.Schedule? ==> e.job.id != id
    ensures HandlerRuns(s, events, id) == 0
    decreases |events|
  {
    if events != [] {
      GoneStaysGone(s, events[0], id);
      StepKeepsInv(s, events[0]);
      GoneNeverRuns(Step(s, events[0]), events[1..], id);
    }
  }

  /** After a permanent failure the handler never runs again in any run, restarts and crashes
      included, unless the caller schedules the job anew. */
  lemma NeverAfterPermanentFailure(s: Sched, id: string, now: int, next: Option<int>, retryAt: int, pool: JobClass,
                                   events: seq<Event>)
    requires Inv(s) && id in s.running && id !in s.forced && !s.running[id].cancelled
    requires AdmissibleRun(FinishStep(s, id, OtherError(true), now, next, retryAt, pool), events)
    requires forall e :: e in events && e.Schedule? ==> e.job.id != id
    ensures HandlerRuns(FinishStep(s, id, OtherError(true), now, next, retryAt, pool), events, id) == 0
  {
    PermanentFailureEnds(s, id, now, next, retryAt, pool);
    StepKeepsInv(s, Finish(id, OtherError(true), now, next, retryAt, pool));
    GoneNeverRuns(FinishStep(s, id, OtherError(true), now, next, retryAt, pool), events, id);
  }
}
