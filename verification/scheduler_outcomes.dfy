/** What each step of the life cycle does to the one job it is about, field by field: when a retry or a cron
    round is due, what is stored, which end of a queue a job enters and leaves. */
module SchedulerOutcomes {
  import opened Jobs
  import opened Stores
  import opened Retry
  import opened SchedulerModel
  import opened SchedulerSafety

  // ---------- The end of an execution ----------

  lemma PushesOne(s: Sched, job: Job, now: int, next: Option<int>)
    requires Keyed(s.store) && job.status == Pending && (job.cron ==> next.Some?)
    ensures var t := ScheduleStep(s, job, now, next);
      && job.id in t.heap && t == s.(heap := s.heap[job.id := t.heap[job.id]], store := t.store)
      && t.heap[job.id].(triggerAt := job.triggerAt) == job
      && t.heap[job.id].triggerAt == (if job.cron then next.value else job.triggerAt)
      && t.store == s.store[job.id := t.heap[job.id].ToSnapshot()]
  {
    WriteKeepsUnfinished(s.store, Placed(job, next).ToSnapshot(), now, s.retention);
  }

  /** A failure with retries left: one copy, due when the retry policy says, with one retry more on its
      count, twice the delay and no cron schedule, waits in the heap and is stored. */
  lemma RetryOutcome(s: Sched, id: string, now: int, next: Option<int>, retryAt: int, pool: JobClass)
    requires Inv(s) && id in s.running && id !in s.forced && !s.running[id].cancelled
    requires s.running[id].job.retryCount < s.running[id].job.maxRetries
    ensures var t, job := FinishStep(s, id, OtherError(false), now, next, retryAt, pool), s.running[id].job;
      && id in t.heap && t.heap == s.heap[id := t.heap[id]] && id !in t.running && Copies(t, id) == 1
      && t.heap[id].triggerAt == retryAt && t.heap[id].retryCount == job.retryCount + 1 && !t.heap[id].cron
      && (0 <= 2 * job.retryDelay <= INT64_MAX ==> t.heap[id].retryDelay == 2 * job.retryDelay)
      && t.heap[id].id == id && t.heap[id].key == job.key && t.heap[id].maxRetries == job.maxRetries
      && t.heap[id].pool == pool && t.heap[id].status == Pending && t.heap[id].updatedAt == now
      && t.store == s.store[id := t.heap[id].ToSnapshot()]
  {
    assert Ok(LocalOf(s, id));
    LeftSeenFrom(s, id, id);
    var clone := CloneForRetry(s.running[id].job.(updatedAt := now), retryAt, now).(pool := pool);
    PushesOne(Left(s, id), clone, now, None);
  }

  /** The job has been retried k times from a base delay that has doubled each time. */
  ghost predicate OnCourse(job: Job, base: nat, k: nat) {
    job.retryCount == k && job.retryDelay == base * Pow2(k)
  }

  /** With the exponential policy the k-th retry is due after min(max, base * 4^k) and at most a fifth more,
      and its copy is on course for the next one. */
  lemma RetryIsBackedOff(s: Sched, id: string, now: int, maxDelay: int, overflow: int, draw: real, pool: JobClass,
                         base: nat, k: nat)
    requires Inv(s) && id in s.running && id !in s.forced && !s.running[id].cancelled
    requires k < s.running[id].job.maxRetries && OnCourse(s.running[id].job, base, k)
    requires base * Pow4(k) <= INT64_MAX && 2 * (base * Pow2(k)) <= INT64_MAX && 0.0 <= draw < 1.0
    ensures var retryAt := NextRetry(s.running[id].job, maxDelay, overflow, now, draw);
      var t := FinishStep(s, id, OtherError(false), now, None, retryAt, pool);
      var delay := if 0 < maxDelay < base * Pow4(k) then maxDelay else base * Pow4(k);
      && id in t.heap && OnCourse(t.heap[id], base, k + 1)
      && now + delay <= t.heap[id].triggerAt && 5 * (t.heap[id].triggerAt - now - delay) <= delay
  {
    var job := s.running[id].job;
    PowersMeet(base, k, overflow);
    DelayOf(job, maxDelay, overflow, base * Pow4(k));
    JitterWithinFifth(job, maxDelay, overflow, now, draw);
    RetryOutcome(s, id, now, None, NextRetry(job, maxDelay, overflow, now, draw), pool);
    DoubleStep(base, k + 1);
  }

  /** A completed cron job: its next round is due at the next instant, with its retries and its delay
      started over. */
  lemma RoundOutcome(s: Sched, id: string, now: int, next: int, retryAt: int, pool: JobClass)
    requires Inv(s) && id in s.running && id !in s.forced && s.running[id].job.cron
    ensures var t, job := FinishStep(s, id, Completed, now, Some(next), retryAt, pool), s.running[id].job;
      && id in t.heap && t.heap == s.heap[id := t.heap[id]] && id !in t.running && Copies(t, id) == 1
      && t.heap[id].triggerAt == next && t.heap[id].cron && t.heap[id].retryCount == 0 && t.heap[id].retryDelay == 0
      && t.heap[id].id == id && t.heap[id].key == job.key && t.heap[id].maxRetries == job.maxRetries
      && t.heap[id].pool == pool && t.heap[id].status == Pending && t.heap[id].updatedAt == now
      && t.store == s.store[id := t.heap[id].ToSnapshot()]
  {
    assert Ok(LocalOf(s, id));
    LeftSeenFrom(s, id, id);
    PushesOne(Left(s, id), NextRound(s.running[id].job.(updatedAt := now), pool, now), now, Some(next));
  }

  /** The snapshot an execution ends with, unless it goes on waiting or leaves none. */
  ghost function FinalStatus(s: Sched, id: string, ret: Return): Option<JobStatus>
    requires id in s.running
  {
    if id in s.forced then Some(Paused)
    else if ret.Completed? then Some(Success)
    else if ret.CanceledError? || s.running[id].cancelled then if s.up then None else Some(Pending)
    else Some(Failed)
  }

  /** Every other ending: nothing is pushed, and the job is stored with the status of its ending (retention may
      drop a finished one again) or, interrupted while the scheduler is up, not at all. */
  lemma EndOutcome(s: Sched, id: string, ret: Return, now: int, next: Option<int>, retryAt: int, pool: JobClass)
    requires Inv(s) && id in s.running
    requires !(ret.Completed? && id !in s.forced && s.running[id].job.cron && next.Some?)
    requires ret.OtherError? && id !in s.forced && !s.running[id].cancelled ==>
               ret.permanent || s.running[id].job.retryCount >= s.running[id].job.maxRetries
    ensures var t := FinishStep(s, id, ret, now, next, retryAt, pool);
      var job, status := s.running[id].job, FinalStatus(s, id, ret);
      && t.heap == s.heap && t.running == s.running - {id} && Copies(t, id) == 0
      && (status.None? ==> t.store == s.store)
      && (status.Some? && id in t.store ==> t.store[id] == job.(status := status.value, updatedAt := now).ToSnapshot())
      && (status.Some? && !status.value.IsTerminal() ==> id in t.store)
  {
    assert Ok(LocalOf(s, id));
    LeftSeenFrom(s, id, id);
    var job := s.running[id].job.(updatedAt := now);
    var status := FinalStatus(s, id, ret);
    if status.Some? { WriteSeenFrom(Left(s, id), job.(status := status.value), now, id); }
  }

  // ---------- Calls from outside ----------

  /** A new job waits in the heap, due at its own time or, a cron job, at the next instant; it is stored as it
      waits, and no other job is touched. */
  lemma ScheduledOutcome(s: Sched, job: Job, now: int, next: Option<int>)
    requires Inv(s) && Admissible(s, Schedule(job, now, next)) && (job.cron ==> next.Some?)
    ensures var t := Step(s, Schedule(job, now, next));
      && job.id in t.heap && t == s.(heap := s.heap[job.id := t.heap[job.id]], store := t.store)
      && t.heap[job.id].triggerAt == (if job.cron then next.value else job.triggerAt)
      && t.heap[job.id].(triggerAt := job.triggerAt) == job
      && t.store == s.store[job.id := t.heap[job.id].ToSnapshot()]
  {
    PushesOne(s, job, now, next);
  }

  /** Resume: the paused job as it was stored, pending again. */
  lemma ResumedOutcome(s: Sched, id: string, now: int, next: Option<int>, pool: JobClass)
    requires Inv(s) && StoredPaused(s, id) && id !in s.running && (s.store[id].cron ==> next.Some?)
    ensures var t, snap := ResumeStep(s, id, now, next, pool), s.store[id];
      && id in t.heap && t.heap == s.heap[id := t.heap[id]]
      && t.heap[id].triggerAt == (if snap.cron then next.value else snap.triggerAt)
      && t.heap[id].ToSnapshot().(triggerAt := snap.triggerAt) == snap.(status := Pending, updatedAt := now)
      && t.heap[id].pool == pool && t.store == s.store[id := t.heap[id].ToSnapshot()]
  {
    PushesOne(s, s.store[id].ToJob(pool).(status := Pending, updatedAt := now), now, next);
  }

  /** Pause: the job leaves the heap and is stored as it was, but paused. */
  lemma PausedOutcome(s: Sched, id: string, now: int)
    requires Inv(s) && id in s.heap
    ensures var t := PauseStep(s, id, now);
      t == s.(heap := s.heap - {id},
              store := s.store[id := s.heap[id].ToSnapshot().(status := Paused, updatedAt := now)])
      && ForcePauseStep(s, id, now) == t
  {
    WriteKeepsUnfinished(s.store, s.heap[id].(status := Paused, updatedAt := now).ToSnapshot(), now, s.retention);
  }

  /** ForcePause of a running job: marked and cancelled, and stored as it is, but paused. */
  lemma ForcePausedOutcome(s: Sched, id: string, now: int)
    requires Inv(s) && id !in s.heap && id in s.running
    ensures var t := ForcePauseStep(s, id, now);
      && id in t.forced && t.forced == s.forced + {id} && t.heap == s.heap && t.running.Keys == s.running.Keys
      && t.running[id] == s.running[id].(cancelled := true)
      && (forall x :: x in s.running && x != id ==> t.running[x] == s.running[x])
      && t.store == if id in s.store then s.store[id := s.store[id].(status := Paused, updatedAt := now)] else s.store
  {
    if id in s.store {
      WriteKeepsUnfinished(s.store, s.store[id].(status := Paused, updatedAt := now), now, s.retention);
    }
  }

  /** Cancel: whatever waits is gone and whatever runs is cancelled, the snapshot with it; nothing else moves. */
  lemma CancelledOutcome(s: Sched, id: string)
    requires Inv(s) && (id in s.heap || id in s.running || StoredPaused(s, id))
    ensures var t := CancelStep(s, id);
      && t.store == s.store - {id} && t.heap == s.heap - {id} && t.running.Keys == s.running.Keys
      && (id in s.running ==> t.running[id] == s.running[id].(cancelled := true))
      && (forall x :: x in s.running && x != id ==> t.running[x] == s.running[x])
      && t.forced == s.forced && t.workQ == s.workQ && t.execQ == s.execQ && t.taken == s.taken && t.loop == s.loop
  {
    if id !in s.heap && id !in s.running { assert s.heap - {id} == s.heap; }
  }

  /** UpdatePending: the edited job waits and is stored, pending. */
  lemma UpdatedOutcome(s: Sched, job: Job, now: int)
    requires Inv(s) && job.id in s.heap
    ensures var t := UpdatePendingStep(s, job, now);
      && job.id in t.heap && t.heap == s.heap[job.id := t.heap[job.id]]
      && t.heap[job.id] == job.(status := Pending, updatedAt := now)
      && t.store == s.store[job.id := t.heap[job.id].ToSnapshot()]
  {
    WriteKeepsUnfinished(s.store, job.(status := Pending, updatedAt := now).ToSnapshot(), now, s.retention);
  }

  // ---------- Start and stop ----------

  /** A restored job waits as it was stored, pending and stamped with its class; a held one is stored as it
      was, but paused; every other snapshot and every job that waited already stays. */
  lemma StartedOutcome(s: Sched, now: int, hold: JobSnapshot -> bool, poolOf: string -> JobClass, queues: Queues,
                       id: string)
    requires Inv(s) && !s.up && Quiet(s)
    ensures var t := StartStep(s, now, hold, poolOf, queues);
      && t.up && t.loop.Looking? && t.workQ == [] && t.execQ == [] && t.workCap == queues.workCap
      && t.execCap == queues.execCap && t.execOn == queues.execOn
      && (id in s.heap ==> id in t.heap && t.heap[id] == s.heap[id])
      && (Unfinished(s, id) && id !in s.heap && !hold(s.store[id]) ==>
            && id in t.heap && t.heap[id].ToSnapshot() == s.store[id].(status := Pending)
            && t.heap[id].pool == poolOf(s.store[id].key) && t.store[id] == s.store[id])
      && (Unfinished(s, id) && id !in s.heap && hold(s.store[id]) ==>
            id !in t.heap && t.store[id] == s.store[id].(status := Paused, updatedAt := now))
      && (id in s.store && !(Unfinished(s, id) && id !in s.heap) ==> id in t.store && t.store[id] == s.store[id])
  {}

  /** Stop: every execution is cancelled, and nothing leaves its place. */
  lemma StoppedOutcome(s: Sched, id: string)
    ensures var t := StopStep(s);
      && !t.up && t.heap == s.heap && t.store == s.store && t.workQ == s.workQ && t.execQ == s.execQ
      && t.taken == s.taken && t.forced == s.forced && t.loop == s.loop && t.running.Keys == s.running.Keys
      && (id in s.running ==> t.running[id].job == s.running[id].job && (s.up ==> t.running[id].cancelled))
  {}

  // ---------- From the heap to the handler ----------

  /** A popped job comes as it waited, and due. */
  lemma PoppedOutcome(s: Sched, id: string, now: int)
    requires Inv(s) && s.loop.Looking? && Admissible(s, Pop(id, now))
    ensures var t := PopStep(s, id);
      t == s.(loop := InHand(s.heap[id]), heap := s.heap - {id}) && s.heap[id].triggerAt <= now
  {
    assert QuaternaryHeaps.Eligible(s.heap[id], AllowOf(s), now);
  }

  ghost function QueueOf(s: Sched, exec: bool): seq<Job> {
    if exec then s.execQ else s.workQ
  }

  predicate ForExec(s: Sched, job: Job) {
    s.execOn && job.pool == ExecPool
  }

  /** A job goes to the end of the queue of its pool: an executor job always, any other while there is room. */
  lemma DispatchedOutcome(s: Sched, exec: bool)
    requires Inv(s) && s.loop.InHand?
    ensures var t, job := DispatchStep(s), s.loop.job;
      if ForExec(s, job) || |s.workQ| < s.workCap then
        && t.loop.Looking? && t.heap == s.heap
        && QueueOf(t, exec) == if exec == ForExec(s, job) then QueueOf(s, exec) + [job] else QueueOf(s, exec)
      else t == s
  {}

  /** A worker takes the job at the front. */
  lemma TakenOutcome(s: Sched, exec: bool)
    requires Inv(s) && QueueOf(s, exec) != []
    ensures var t, job := TakeStep(s, exec), QueueOf(s, exec)[0];
      QueueOf(t, exec) == QueueOf(s, exec)[1..] && QueueOf(t, !exec) == QueueOf(s, !exec)
      && t.taken == s.taken[job.id := job] && t.heap == s.heap && t.running == s.running
  {}

  /** The taken job runs as it came; a registration after the stop is cancelled at once. Without a handler it
      has failed. */
  lemma BegunOutcome(s: Sched, id: string, hasHandler: bool, now: int)
    requires Inv(s) && id in s.taken
    ensures var t := BeginStep(s, id, hasHandler, now);
      && t.taken == s.taken - {id} && t.heap == s.heap
      && (hasHandler ==>
            var job := s.taken[id].(status := Running, updatedAt := now);
            t.running == s.running[id := Attempt(job, !s.up)] && t.store == s.store[id := job.ToSnapshot()])
      && (!hasHandler ==>
            && t.running == s.running
            && (id in t.store ==> t.store[id] == s.taken[id].(status := Failed, updatedAt := now).ToSnapshot()))
  {
    WriteSeenFrom(s, s.taken[id].(status := if hasHandler then Running else Failed, updatedAt := now), now, id);
    if hasHandler {
      WriteKeepsUnfinished(s.store, s.taken[id].(status := Running, updatedAt := now).ToSnapshot(), now, s.retention);
    }
  }

  /** A crash leaves the store and nothing else. */
  lemma CrashOutcome(s: Sched, id: string)
    ensures var t := CrashStep(s); !t.up && t.store == s.store && Copies(t, id) == 0 && t.forced == {}
  {}

  // ---------- Queues are first in, first out ----------

  /** What the loop sends to a pool at one event, and what a worker of the pool receives. */
  ghost function SentAt(s: Sched, e: Event, exec: bool): seq<Job> {
    if e.Dispatch? && s.loop.InHand? && DispatchStep(s).loop.Looking? && ForExec(s, s.loop.job) == exec then
      [s.loop.job]
    else []
  }

  ghost function ReceivedAt(s: Sched, e: Event, exec: bool): seq<Job> {
    if e == Take(exec) && QueueOf(s, exec) != [] then [QueueOf(s, exec)[0]] else []
  }

  ghost function Sent(s: Sched, events: seq<Event>, exec: bool): seq<Job>
    decreases |events|
  {
    if events == [] then [] else SentAt(s, events[0], exec) + Sent(Step(s, events[0]), events[1..], exec)
  }

  ghost function Received(s: Sched, events: seq<Event>, exec: bool): seq<Job>
    decreases |events|
  {
    if events == [] then [] else ReceivedAt(s, events[0], exec) + Received(Step(s, events[0]), events[1..], exec)
  }

  /** Nothing beyond the heap and the store has moved. */
  ghost predicate SameBeyond(s: Sched, t: Sched) {
    t.loop == s.loop && t.workQ == s.workQ && t.execQ == s.execQ && t.taken == s.taken && t.running == s.running
  }

  lemma ScheduleKeepsBeyond(s: Sched, job: Job, now: int, next: Option<int>)
    ensures SameBeyond(s, ScheduleStep(s, job, now, next))
  {}

  lemma PauseKeepsBeyond(s: Sched, id: string, now: int)
    ensures SameBeyond(s, PauseStep(s, id, now))
  {}

  lemma ResumeKeepsBeyond(s: Sched, id: string, now: int, next: Option<int>, pool: JobClass)
    ensures SameBeyond(s, ResumeStep(s, id, now, next, pool))
  {
    if StoredPaused(s, id) {
      ScheduleKeepsBeyond(s, s.store[id].ToJob(pool).(status := Pending, updatedAt := now), now, next);
    }
  }

  lemma UpdateKeepsBeyond(s: Sched, job: Job, now: int)
    ensures SameBeyond(s, UpdatePendingStep(s, job, now))
  {}

  lemma ConcludeKeepsBeyond(s: Sched, id: string, ending: Ending, now: int)
    ensures SameBeyond(Left(s, id), Conclude(s, id, ending, now))
  {
    match ending
    case Record(job) =>
    case Again(job, next) => ScheduleKeepsBeyond(Left(s, id), job, now, next);
    case Nothing =>
  }

  lemma QueueNext(s: Sched, e: Event, exec: bool)
    requires Inv(s) && Admissible(s, e) && !e.Start? && !e.Crash?
    ensures ReceivedAt(s, e, exec) + QueueOf(Step(s, e), exec) == QueueOf(s, exec) + SentAt(s, e, exec)
  {
    var q := QueueOf(Step(s, e), exec);
    assert [] + q == q && QueueOf(s, exec) + [] == QueueOf(s, exec);
    if e.Dispatch? {
      DispatchNext(s, exec);
    } else if e.Take? {
      TakeNext(s, e.exec, exec);
    } else {
      OtherStepsKeepQueues(s, e);
    }
  }

  lemma DispatchNext(s: Sched, exec: bool)
    requires Inv(s)
    ensures QueueOf(DispatchStep(s), exec) == QueueOf(s, exec) + SentAt(s, Event.Dispatch, exec)
  {
    if s.loop.InHand? { DispatchedOutcome(s, exec); }
  }

  lemma TakeNext(s: Sched, from: bool, exec: bool)
    requires Inv(s)
    ensures ReceivedAt(s, Take(from), exec) + QueueOf(TakeStep(s, from), exec) == QueueOf(s, exec)
  {
    if QueueOf(s, from) != [] { TakenOutcome(s, from); }
  }

  lemma OtherStepsKeepQueues(s: Sched, e: Event)
    requires !e.Start? && !e.Crash? && !e.Dispatch? && !e.Take?
    ensures Step(s, e).workQ == s.workQ && Step(s, e).execQ == s.execQ
  {
    match e
    case Schedule(job, now, next) => ScheduleKeepsBeyond(s, job, now, next);
    case Cancel(id) => assert CancelStep(s, id).workQ == s.workQ;
    case Pause(id, now) => PauseKeepsBeyond(s, id, now);
    case ForcePause(id, now) => PauseKeepsBeyond(s, id, now);
    case Resume(id, now, next, pool) => ResumeKeepsBeyond(s, id, now, next, pool);
    case UpdatePending(job, now) => UpdateKeepsBeyond(s, job, now);
    case Stop => assert StopStep(s).workQ == s.workQ;
    case Pop(id, now) => assert PopStep(s, id).workQ == s.workQ;
    case LoopExit => assert LoopExitStep(s).workQ == s.workQ;
    case Begin(id, hasHandler, now) => assert BeginStep(s, id, hasHandler, now).workQ == s.workQ;
    case Finish(id, ret, now, next, retryAt, pool) =>
      if id in s.running { ConcludeKeepsBeyond(s, id, EndingOf(s, id, ret, now, next, retryAt, pool), now); }
  }

  /** Within one generation the workers of a pool receive the jobs in the order in which the loop sent them. */
  lemma {:induction false} FirstInFirstOut(s: Sched, events: seq<Event>, exec: bool)
    requires Inv(s) && AdmissibleRun(s, events) && forall e :: e in events ==> !e.Start? && !e.Crash?
    ensures Received(s, events, exec) + QueueOf(Run(s, events), exec) == QueueOf(s, exec) + Sent(s, events, exec)
    decreases |events|
  {
    if events != [] {
      var e, t := events[0], Step(s, events[0]);
      StepKeepsInv(s, e);
      QueueNext(s, e, exec);
      FirstInFirstOut(t, events[1..], exec);
      Regroup(ReceivedAt(s, e, exec), Received(t, events[1..], exec), QueueOf(Run(s, events), exec));
      Regroup(ReceivedAt(s, e, exec), QueueOf(t, exec), Sent(t, events[1..], exec));
      Regroup(QueueOf(s, exec), SentAt(s, e, exec), Sent(t, events[1..], exec));
    }
  }

  lemma Regroup(a: seq<Job>, b: seq<Job>, c: seq<Job>)
    ensures (a + b) + c == a + (b + c)
  {}

  // ---------- Nothing starts early ----------

  /** Every job beyond the heap was due at some instant up to `clock`. */
  ghost predicate DueBy(s: Sched, clock: int) {
    && (s.loop.InHand? ==> s.loop.job.triggerAt <= clock)
    && (forall job :: job in s.workQ || job in s.execQ ==> job.triggerAt <= clock)
    && (forall id :: id in s.taken ==> s.taken[id].triggerAt <= clock)
    && (forall id :: id in s.running ==> s.running[id].job.triggerAt <= clock)
  }

  lemma PopKeepsDueBy(s: Sched, id: string, now: int, clock: int)
    requires DueBy(s, clock) && Admissible(s, Pop(id, now)) && now <= clock
    ensures DueBy(PopStep(s, id), clock)
  {
    assert QuaternaryHeaps.Eligible(s.heap[id], AllowOf(s), now);
  }

  lemma DispatchKeepsDueBy(s: Sched, clock: int)
    requires DueBy(s, clock)
    ensures DueBy(DispatchStep(s), clock)
  {
    DispatchKeepsStore(s);
    var t := DispatchStep(s);
    if s.loop.InHand? {
      assert t.loop == s.loop || t.loop.Looking?;
      assert t.workQ == s.workQ || t.workQ == s.workQ + [s.loop.job];
      assert t.execQ == s.execQ || t.execQ == s.execQ + [s.loop.job];
    }
  }

  lemma TakeKeepsDueBy(s: Sched, exec: bool, clock: int)
    requires DueBy(s, clock)
    ensures DueBy(TakeStep(s, exec), clock)
  {
    var q := QueueOf(s, exec);
    if q != [] { assert q[0] in q && forall job :: job in q[1..] ==> job in q; }
  }

  lemma CancelKeepsDueBy(s: Sched, e: Event, clock: int)
    requires DueBy(s, clock) && (e.Cancel? || e.ForcePause? || e.Stop?)
    ensures DueBy(Step(s, e), clock)
  {
    match e
    case Cancel(id) =>
    case ForcePause(id, now) => if id in s.heap { PauseKeepsBeyond(s, id, now); }
    case Stop =>
  }

  lemma BeginKeepsDueBy(s: Sched, e: Event, clock: int)
    requires DueBy(s, clock) && (e.Begin? || e.Start? || e.Crash?)
    ensures DueBy(Step(s, e), clock)
  {
    match e
    case Begin(id, hasHandler, now) =>
    case Start(now, hold, poolOf, queues) =>
    case Crash =>
  }

  lemma StepKeepsDueBy(s: Sched, e: Event, clock: int)
    requires DueBy(s, clock) && Admissible(s, e) && (e.Pop? ==> e.now <= clock)
    ensures DueBy(Step(s, e), clock)
  {
    match e
    case Schedule(job, now, next) => ScheduleKeepsBeyond(s, job, now, next);
    case Pause(id, now) => PauseKeepsBeyond(s, id, now);
    case Resume(id, now, next, pool) => ResumeKeepsBeyond(s, id, now, next, pool);
    case UpdatePending(job, now) => UpdateKeepsBeyond(s, job, now);
    case Pop(id, now) => PopKeepsDueBy(s, id, now, clock);
    case Dispatch => DispatchKeepsDueBy(s, clock);
    case Take(exec) => TakeKeepsDueBy(s, exec, clock);
    case LoopExit => assert LoopExitStep(s).running == s.running;
    case Finish(id, ret, now, next, retryAt, pool) =>
      if id in s.running {
        ConcludeKeepsBeyond(s, id, EndingOf(s, id, ret, now, next, retryAt, pool), now);
        assert forall x :: x in Left(s, id).running ==> x in s.running && Left(s, id).running[x] == s.running[x];
      }
    case Begin(_, _, _) => BeginKeepsDueBy(s, e, clock);
    case Start(_, _, _, _) => BeginKeepsDueBy(s, e, clock);
    case Crash => BeginKeepsDueBy(s, e, clock);
    case _ => CancelKeepsDueBy(s, e, clock);
  }

  /** A job is handed to a worker and its handler runs only when the loop's clock has reached its time:
      retries, cron rounds, resumed and restored jobs included. */
  lemma {:induction false} NeverEarly(s: Sched, events: seq<Event>, clock: int)
    requires DueBy(s, clock) && AdmissibleRun(s, events) && forall e :: e in events && e.Pop? ==> e.now <= clock
    ensures DueBy(Run(s, events), clock)
    decreases |events|
  {
    if events != [] {
      StepKeepsDueBy(s, events[0], clock);
      NeverEarly(Step(s, events[0]), events[1..], clock);
    }
  }
}
