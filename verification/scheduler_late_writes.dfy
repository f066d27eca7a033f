/** The calls that work in two halves, changing the heap or the running executions first and the store
    afterwards, or the other way round, with other steps free to happen in between (core/scheduler.go):
    what the second half does to the invariant, whenever it lands. */
module SchedulerLateWrites {
  import opened Jobs
  import opened Stores
  import opened SchedulerModel
  import opened SchedulerSafety

  // ---------- The two halves ----------

  /** A call that has found its job: UpdatePending and Schedule carry the job they store. */
  datatype Call =
    | Cancelling(id: string)
    | Pausing(id: string, now: int)
    | ForcePausing(id: string, now: int)
    | Updating(job: Job, now: int)
    | Scheduling(job: Job, now: int, next: Option<int>)
    | Beginning(id: string, now: int)
  {
    function Target(): string {
      if Updating? || Scheduling? then job.id else id
    }

    /** The same call in one step. */
    function AsEvent(): Event {
      match this
      case Cancelling(id) => Cancel(id)
      case Pausing(id, now) => Pause(id, now)
      case ForcePausing(id, now) => ForcePause(id, now)
      case Updating(job, now) => UpdatePending(job, now)
      case Scheduling(job, now, next) => Schedule(job, now, next)
      case Beginning(id, now) => Begin(id, true, now)
    }
  }

  ghost predicate Applies(s: Sched, c: Call) {
    match c
    case Cancelling(id) => id in s.heap || id in s.running
    case Pausing(id, _) => id in s.heap
    case ForcePausing(id, _) => id !in s.heap && id in s.running && id in s.store
    case Updating(job, _) => job.id in s.heap
    case Scheduling(job, _, next) => FreshId(s, job.id) && job.status == Pending && (job.cron ==> next.Some?)
    case Beginning(id, _) => id in s.taken
  }

  function Updated(job: Job, now: int): Job {
    job.(status := Pending, updatedAt := now)
  }

  ghost function Started(s: Sched, id: string, now: int): Job
    requires id in s.taken
  {
    s.taken[id].(status := Running, updatedAt := now)
  }

  /** The first half. */
  ghost function Opened(s: Sched, c: Call): Sched
    requires Applies(s, c)
  {
    match c
    case Cancelling(id) =>
      s.(heap := s.heap - {id},
         running := if id in s.running then s.running[id := s.running[id].(cancelled := true)] else s.running)
    case Pausing(id, _) => s.(heap := s.heap - {id})
    case ForcePausing(id, _) => s.(forced := s.forced + {id})
    case Updating(job, now) => s.(heap := s.heap[job.id := Updated(job, now)])
    case Scheduling(job, now, next) => Stored(s, Placed(job, next), now)
    case Beginning(id, now) =>
      s.(taken := s.taken - {id}, running := s.running[id := Attempt(Started(s, id, now), !s.up)])
  }

  ghost function Written(s: Sched, snap: JobSnapshot, now: int): Sched {
    s.(store := Write(s.store, snap, now, s.retention))
  }

  /** ForcePause cancels the execution it has marked: a mark goes with its execution. */
  ghost function Interrupted(s: Sched, id: string): Sched {
    if id in s.running && id in s.forced then s.(running := s.running[id := s.running[id].(cancelled := true)]) else s
  }

  /** The second half, in state t, of a call that found its job in state s. */
  ghost function Closed(t: Sched, s: Sched, c: Call): Sched
    requires Applies(s, c)
  {
    match c
    case Cancelling(id) => t.(store := t.store - {id})
    case Pausing(id, now) => Written(t, s.heap[id].(status := Paused, updatedAt := now).ToSnapshot(), now)
    case ForcePausing(id, now) => Interrupted(Written(t, s.store[id].(status := Paused, updatedAt := now), now), id)
    case Updating(job, now) => Written(t, Updated(job, now).ToSnapshot(), now)
    case Scheduling(job, _, next) => t.(heap := t.heap[job.id := Placed(job, next)])
    case Beginning(id, now) => Written(t, Started(s, id, now).ToSnapshot(), now)
  }

  /** With nothing in between the halves make up the call. */
  lemma HalvesCompose(s: Sched, c: Call)
    requires Inv(s) && Applies(s, c)
    ensures Closed(Opened(s, c), s, c) == Step(s, c.AsEvent())
  {
    match c
    case Cancelling(id) =>
    case Pausing(id, now) => assert Ok(LocalOf(s, id));
    case ForcePausing(id, now) =>
    case Updating(job, now) =>
    case Scheduling(job, now, next) =>
    case Beginning(id, now) =>
  }

  // ---------- While a call is under way ----------

  /** The invariant for every job but one, as while a call about that one is under way. */
  ghost predicate InvBut(s: Sched, id: string) {
    Shape(s) && forall x {:trigger LocalOf(s, x)} :: x != id ==> Ok(LocalOf(s, x))
  }

  lemma OpenedSeenByOthers(s: Sched, c: Call, x: string)
    requires Shape(s) && Applies(s, c) && x != c.Target() && Ok(LocalOf(s, x))
    ensures Ok(LocalOf(Opened(s, c), x))
  {
    var t := Opened(s, c);
    if c.Scheduling? {
      OthersStayOk(s, t, Placed(c.job, c.next), c.now, x);
    } else {
      assert LocalOf(t, x) == LocalOf(s, x);
    }
  }

  lemma OpenedKeepsShape(s: Sched, c: Call)
    requires Shape(s) && Applies(s, c)
    ensures Shape(Opened(s, c))
  {
    if c.Scheduling? { StoredKeepsShape(s, Placed(c.job, c.next), c.now); }
  }

  lemma OpenedKeepsOthers(s: Sched, c: Call)
    requires Inv(s) && Applies(s, c)
    ensures InvBut(Opened(s, c), c.Target())
  {
    OpenedKeepsShape(s, c);
    forall x | x != c.Target() ensures Ok(LocalOf(Opened(s, c), x)) { OpenedSeenByOthers(s, c, x); }
  }

  lemma {:induction false} RunKeepsInvBut(s: Sched, events: seq<Event>, id: string)
    requires InvBut(s, id) && AdmissibleRun(s, events)
    ensures InvBut(Run(s, events), id)
    decreases |events|
  {
    if events != [] {
      StepKeepsShape(s, events[0]);
      forall x | x != id ensures Ok(LocalOf(Step(s, events[0]), x)) { StepKeepsOk(s, events[0], x); }
      RunKeepsInvBut(Step(s, events[0]), events[1..], id);
    }
  }

  // ---------- What the second half does ----------

  ghost function WithSnapshot(s: Sched, snap: JobSnapshot): Sched {
    s.(store := s.store[snap.id := snap])
  }

  /** Storing a snapshot repairs or keeps the invariant exactly when its status fits where the job is. */
  lemma PutKeepsInvIff(s: Sched, snap: JobSnapshot)
    requires InvBut(s, snap.id)
    ensures Inv(WithSnapshot(s, snap)) <==> Ok(LocalOf(s, snap.id).(stored := Some(snap.status)))
  {
    var t := WithSnapshot(s, snap);
    assert LocalOf(t, snap.id) == LocalOf(s, snap.id).(stored := Some(snap.status));
    forall x | x != snap.id ensures Ok(LocalOf(t, x)) { assert LocalOf(t, x) == LocalOf(s, x); }
  }

  lemma WriteIsPut(s: Sched, snap: JobSnapshot, now: int)
    requires Keyed(s.store) && !snap.status.IsTerminal()
    ensures Written(s, snap, now) == WithSnapshot(s, snap)
  {
    WriteKeepsUnfinished(s.store, snap, now, s.retention);
  }

  /** The write of UpdatePending fits exactly when the job has not been started meanwhile: after that it
      leaves a pending snapshot beside a running job, or one with no job at all, which a restart would
      run again. */
  lemma LateUpdateKeepsInvIff(s: Sched, snap: JobSnapshot, now: int)
    requires InvBut(s, snap.id) && snap.status == Pending
    ensures Inv(Written(s, snap, now)) <==>
            && snap.id !in s.running && snap.id !in s.forced && WaitingCopies(s, snap.id) <= 1
            && (s.up ==> WaitingCopies(s, snap.id) == 1)
  {
    WriteIsPut(s, snap, now);
    PutKeepsInvIff(s, snap);
  }

  /** The write of Pause, which has taken the job out of the heap, fits exactly when the job does not wait
      by then and runs only cancelled under a forced-pause mark: a restart in between would have
      restored it. */
  lemma LatePauseRepairsInvIff(s: Sched, snap: JobSnapshot, now: int)
    requires InvBut(s, snap.id) && snap.status == Paused
    ensures Inv(Written(s, snap, now)) <==>
            && WaitingCopies(s, snap.id) == 0 && (snap.id in s.running <==> snap.id in s.forced)
            && (snap.id in s.running ==> s.running[snap.id].cancelled)
  {
    WriteIsPut(s, snap, now);
    PutKeepsInvIff(s, snap);
  }

  lemma InterruptedSeenFrom(s: Sched, id: string, x: string)
    ensures var l := LocalOf(s, x);
      LocalOf(Interrupted(s, id), x) ==
      l.(run := if x == id && id in s.running && id in s.forced then Some(true) else l.run)
  {
    assert WaitingCopies(Interrupted(s, id), x) == WaitingCopies(s, x);
  }

  /** The write of ForcePause and the cancellation after it fit exactly when the job does not wait by then,
      resumed after its handler came back, and runs under its mark if it runs at all. */
  lemma LateForcePauseKeepsInvIff(s: Sched, snap: JobSnapshot, now: int)
    requires InvBut(s, snap.id) && snap.status == Paused
    ensures Inv(Interrupted(Written(s, snap, now), snap.id)) <==>
            WaitingCopies(s, snap.id) == 0 && (snap.id in s.running <==> snap.id in s.forced)
  {
    var id, t := snap.id, Interrupted(s, snap.id);
    InterruptedSeenFrom(s, id, id);
    forall x | x != id ensures Ok(LocalOf(t, x)) { InterruptedSeenFrom(s, id, x); }
    WriteIsPut(s, snap, now);
    PutKeepsInvIff(t, snap);
    assert Interrupted(WithSnapshot(s, snap), id) == WithSnapshot(t, snap);
  }

  /** The running snapshot a worker writes after it has registered its execution fits exactly when the job
      is in one place by then (while down, in at most one), unmarked and, while up, not cancelled: a Cancel
      in between deletes the snapshot, and this write brings it back for good. */
  lemma LateRunningRepairsInvIff(s: Sched, snap: JobSnapshot, now: int)
    requires InvBut(s, snap.id) && snap.status == Running
    ensures Inv(Written(s, snap, now)) <==>
            && Copies(s, snap.id) <= 1 && snap.id !in s.forced && (s.up ==> Copies(s, snap.id) == 1)
            && (s.up && snap.id in s.running ==> !s.running[snap.id].cancelled)
  {
    WriteIsPut(s, snap, now);
    PutKeepsInvIff(s, snap);
  }

  /** The deletion of Cancel, which has taken the job out of the heap or cancelled its execution, fits
      exactly when the job does not wait by then, as the next round of a cron job whose handler came back
      in time would, and any execution of it has been cancelled. */
  lemma LateDeleteKeepsInvIff(s: Sched, id: string)
    requires InvBut(s, id)
    ensures Inv(s.(store := s.store - {id})) <==>
            && WaitingCopies(s, id) == 0 && (id in s.running ==> s.running[id].cancelled)
            && (id in s.forced ==> id in s.running)
  {
    var t := s.(store := s.store - {id});
    DeletedSeenFrom(s, id, id);
    forall x | x != id ensures Ok(LocalOf(t, x)) { DeletedSeenFrom(s, id, x); }
  }

  lemma DeletedSeenFrom(s: Sched, id: string, x: string)
    ensures LocalOf(s.(store := s.store - {id}), x) ==
            if x == id then LocalOf(s, x).(stored := None) else LocalOf(s, x)
  {
    assert WaitingCopies(s.(store := s.store - {id}), x) == WaitingCopies(s, x);
  }

  /** The push of Schedule, which has stored the job: the ID is free in the heap and all is well exactly
      when the job is still held nowhere and still stored as unfinished. A start in between would have
      restored the snapshot. */
  lemma LatePushKeepsInvIff(s: Sched, job: Job)
    requires InvBut(s, job.id)
    ensures job.id !in s.heap && Inv(s.(heap := s.heap[job.id := job])) <==>
            Copies(s, job.id) == 0 && Unfinished(s, job.id) && job.id !in s.forced
  {
    var t := s.(heap := s.heap[job.id := job]);
    forall x | x != job.id ensures Ok(LocalOf(t, x)) { PushedSeenFrom(s, job, x); }
    if job.id !in s.heap {
      PushedSeenFrom(s, job, job.id);
      assert Shape(t);
    }
  }

  lemma PushedSeenFrom(s: Sched, job: Job, x: string)
    requires job.id !in s.heap || x != job.id
    ensures LocalOf(s.(heap := s.heap[job.id := job]), x) ==
            if x == job.id then LocalOf(s, x).(waiting := WaitingCopies(s, x) + 1) else LocalOf(s, x)
  {}

  // ---------- Calls whose halves are apart ----------

  /** What the second half needs of the state it lands in. */
  ghost predicate Fits(t: Sched, c: Call) {
    var id, waiting := c.Target(), WaitingCopies(t, c.Target());
    match c
    case Cancelling(_) =>
      waiting == 0 && (id in t.running ==> t.running[id].cancelled) && (id in t.forced ==> id in t.running)
    case Pausing(_, _) =>
      waiting == 0 && (id in t.running <==> id in t.forced) && (id in t.running ==> t.running[id].cancelled)
    case ForcePausing(_, _) => waiting == 0 && (id in t.running <==> id in t.forced)
    case Updating(_, _) => id !in t.running && id !in t.forced && waiting <= 1 && (t.up ==> waiting == 1)
    case Scheduling(_, _, _) => Copies(t, id) == 0 && Unfinished(t, id) && id !in t.forced
    case Beginning(_, _) =>
      && Copies(t, id) <= 1 && id !in t.forced && (t.up ==> Copies(t, id) == 1)
      && (t.up && id in t.running ==> !t.running[id].cancelled)
  }

  lemma ClosedKeepsInvIff(t: Sched, s: Sched, c: Call)
    requires NamedById(s) && Applies(s, c) && InvBut(t, c.Target())
    ensures (c.Scheduling? ==> c.Target() !in t.heap) && Inv(Closed(t, s, c)) <==> Fits(t, c)
  {
    match c
    case Cancelling(id) => LateDeleteKeepsInvIff(t, id);
    case Pausing(id, now) =>
      LatePauseRepairsInvIff(t, s.heap[id].(status := Paused, updatedAt := now).ToSnapshot(), now);
    case ForcePausing(id, now) => LateForcePauseKeepsInvIff(t, s.store[id].(status := Paused, updatedAt := now), now);
    case Updating(job, now) => LateUpdateKeepsInvIff(t, Updated(job, now).ToSnapshot(), now);
    case Scheduling(job, _, next) => LatePushKeepsInvIff(t, Placed(job, next));
    case Beginning(id, now) => LateRunningRepairsInvIff(t, Started(s, id, now).ToSnapshot(), now);
  }

  /** A call is opened in a sound state, then any admissible events happen, then it is closed: all is well
      (and the push of Schedule finds its ID free) exactly when the second half fits where it lands. */
  lemma SplitCallKeepsInvIff(s: Sched, c: Call, events: seq<Event>)
    requires Inv(s) && Applies(s, c) && AdmissibleRun(Opened(s, c), events)
    ensures var t := Run(Opened(s, c), events);
      (c.Scheduling? ==> c.Target() !in t.heap) && Inv(Closed(t, s, c)) <==> Fits(t, c)
  {
    OpenedKeepsOthers(s, c);
    RunKeepsInvBut(Opened(s, c), events, c.Target());
    ClosedKeepsInvIff(Run(Opened(s, c), events), s, c);
  }

  // ---------- Resume: a check, and a push later ----------

  /** The push is fresh for the heap and keeps the invariant exactly when the job is still nowhere, so a
      second Resume of the same job must not come between. */
  lemma LateResumeFreshIff(s: Sched, job: Job, now: int, next: Option<int>)
    requires Inv(s) && job.status == Pending && (job.cron ==> next.Some?)
    ensures job.id !in s.heap && Inv(ScheduleStep(s, job, now, next)) <==> Copies(s, job.id) == 0
  {
    var t := ScheduleStep(s, job, now, next);
    assert Ok(LocalOf(s, job.id));
    if Copies(s, job.id) == 0 {
      ScheduleKeepsShape(s, job, now, next);
      forall x ensures Ok(LocalOf(t, x)) { ScheduleKeepsOk(s, job, now, next, x); }
    } else if job.id !in s.heap {
      assert Copies(t, job.id) == Copies(s, job.id) + 1;
      assert !Ok(LocalOf(t, job.id));
    }
  }

  /** What Resume would push if it checked now. */
  ghost function Resumable(s: Sched, id: string, now: int, pool: JobClass): Job
    requires id in s.store
  {
    s.store[id].ToJob(pool).(status := Pending, updatedAt := now)
  }

  /** The late push is what a Resume at that moment would do exactly when the job is still stored as paused,
      with the same content, and does not run: after a Cancel it brings back a job that is gone. */
  lemma LateResumeIsResumeIff(s: Sched, job: Job, now: int, next: Option<int>)
    requires Inv(s) && job.status == Pending && (job.cron ==> next.Some?)
    ensures var at, pool := job.updatedAt, job.pool;
      job.id !in s.heap && ScheduleStep(s, job, now, next) == ResumeStep(s, job.id, at, next, pool) <==>
      && StoredPaused(s, job.id) && job.id !in s.running
      && Placed(Resumable(s, job.id, at, pool), next) == Placed(job, next)
  {
    var id, at, t := job.id, job.updatedAt, ScheduleStep(s, job, now, next);
    assert Ok(LocalOf(s, id));
    assert t.heap[id] == Placed(job, next);
    if StoredPaused(s, id) && id !in s.running {
      var other := Resumable(s, id, at, job.pool);
      if !(other.cron && next.None?) {
        assert ResumeStep(s, id, at, next, job.pool).heap[id] == Placed(other, next);
      }
    }
  }
}
