/** Runs from an empty store in which a job is lost, doubled or revived: the failing inputs behind the
    conditions of the other scheduler modules. */
module SchedulerInstances {
  import opened Jobs
  import opened Stores
  import opened SchedulerModel
  import opened SchedulerSafety
  import opened SchedulerTheorems
  import opened SchedulerLateWrites
  import opened QuaternaryHeaps

  // ---------- Reachable states ----------

  /** Reached from an empty store by admissible events. */
  ghost predicate Reachable(s: Sched) {
    exists events :: AdmissibleRun(Blank(), events) && Run(Blank(), events) == s
  }

  ghost function Blank(): Sched {
    Initial(map[], Retention(0, 0))
  }

  lemma {:induction false} RunNext(s: Sched, events: seq<Event>, e: Event)
    requires AdmissibleRun(s, events) && Admissible(Run(s, events), e)
    ensures AdmissibleRun(s, events + [e]) && Run(s, events + [e]) == Step(Run(s, events), e)
    decreases |events|
  {
    var longer := events + [e];
    if events == [] {
      assert longer[0] == e && longer[1..] == [];
    } else {
      assert longer[0] == events[0] && longer[1..] == events[1..] + [e];
      RunNext(Step(s, events[0]), events[1..], e);
    }
  }

  lemma ReachNext(s: Sched, e: Event)
    requires Reachable(s) && Admissible(s, e)
    ensures Reachable(Step(s, e))
  {
    var events :| AdmissibleRun(Blank(), events) && Run(Blank(), events) == s;
    RunNext(Blank(), events, e);
  }

  lemma ReachableIsSound(s: Sched)
    requires Reachable(s)
    ensures Inv(s)
  {
    var events :| AdmissibleRun(Blank(), events) && Run(Blank(), events) == s;
    forall x ensures Ok(LocalOf(Blank(), x)) {}
    RunKeepsInv(Blank(), events);
  }

  // ---------- One job, from submission to its handler ----------

  const ID := "j"

  function TheJob(cron: bool): Job {
    Job(ID, "key", 0, DefaultPool, cron, 3, 0, 1, Pending, 0)
  }

  /** Up, with one queue place and an empty heap, and the job under way somewhere. */
  ghost function With(loop: Loop, queue: seq<Job>, taken: map<string, Job>, running: map<string, Attempt>,
                      stored: Job): Sched {
    Sched(true, loop, map[], queue, 1, [], 0, false, taken, running, {}, map[ID := stored.ToSnapshot()],
          Retention(0, 0))
  }

  ghost function Queued(cron: bool): Sched {
    With(Looking, [], map[], map[], TheJob(cron)).(heap := map[ID := TheJob(cron)])
  }

  ghost function Popped(cron: bool): Sched {
    With(InHand(TheJob(cron)), [], map[], map[], TheJob(cron))
  }

  ghost function Taken(cron: bool): Sched {
    With(Looking, [], map[ID := TheJob(cron)], map[], TheJob(cron))
  }

  ghost function InHandler(cron: bool): Sched {
    var job := TheJob(cron).(status := Running);
    With(Looking, [], map[], map[ID := Attempt(job, false)], job)
  }

  lemma QueuedIsReachable(cron: bool)
    ensures Reachable(Queued(cron))
  {
    var start, schedule := Start(0, snap => false, key => DefaultPool, Queues(1, 0, false)),
      Schedule(TheJob(cron), 0, Some(0));
    assert AdmissibleRun(Blank(), []) && Run(Blank(), []) == Blank();
    ReachNext(Blank(), start);
    var s := Step(Blank(), start);
    assert s.heap == map[] && s.store == map[];
    ReachNext(s, schedule);
    assert Step(s, schedule) == Queued(cron);
  }

  lemma PoppedIsReachable(cron: bool)
    ensures Reachable(Popped(cron))
  {
    QueuedIsReachable(cron);
    assert QuaternaryHeaps.Minimal(Queued(cron).heap, TheJob(cron), AllowOf(Queued(cron)), 0);
    ReachNext(Queued(cron), Pop(ID, 0));
    assert Step(Queued(cron), Pop(ID, 0)) == Popped(cron);
  }

  lemma TakenIsReachable(cron: bool)
    ensures Reachable(Taken(cron))
  {
    PoppedIsReachable(cron);
    ReachNext(Popped(cron), Dispatch);
    var s := Step(Popped(cron), Dispatch);
    assert s == With(Looking, [TheJob(cron)], map[], map[], TheJob(cron));
    ReachNext(s, Take(false));
    assert Step(s, Take(false)) == Taken(cron);
  }

  lemma InHandlerIsReachable(cron: bool)
    ensures Reachable(InHandler(cron))
  {
    TakenIsReachable(cron);
    ReachNext(Taken(cron), Begin(ID, true, 0));
    assert Step(Taken(cron), Begin(ID, true, 0)) == InHandler(cron);
  }

  // ---------- Cancelled and back ----------

  /** A running cron job is cancelled; its handler takes no notice and the next round is queued. */
  lemma CancelledRoundComesBack()
    ensures var s := CancelStep(InHandler(true), ID);
      var t := FinishStep(s, ID, Completed, 1, Some(60), 0, DefaultPool);
      Reachable(t) && ID !in s.store && Unfinished(t, ID) && ID in t.heap
  {
    InHandlerIsReachable(true);
    ReachNext(InHandler(true), Cancel(ID));
    var s := CancelStep(InHandler(true), ID);
    ReachNext(s, Finish(ID, Completed, 1, Some(60), 0, DefaultPool));
    ReachableIsSound(s);
    CancelledComesBackIff(s, ID, Completed, 1, Some(60), 0, DefaultPool);
  }

  /** A running job is cancelled, the scheduler stops, and the interrupted handler is saved for later. */
  lemma CancelledIsSavedAtStop()
    ensures var s := StopStep(CancelStep(InHandler(false), ID));
      var t := FinishStep(s, ID, CanceledError, 1, None, 0, DefaultPool);
      Reachable(t) && ID !in s.store && Unfinished(t, ID)
  {
    InHandlerIsReachable(false);
    ReachNext(InHandler(false), Cancel(ID));
    ReachNext(CancelStep(InHandler(false), ID), Event.Stop);
    var s := StopStep(CancelStep(InHandler(false), ID));
    ReachNext(s, Finish(ID, CanceledError, 1, None, 0, DefaultPool));
    ReachableIsSound(s);
    CancelledComesBackIff(s, ID, CanceledError, 1, None, 0, DefaultPool);
  }

  // ---------- Outside the admissible events ----------

  /** A handler that reports an interruption nobody asked for leaves a running snapshot without a job. */
  lemma UnaskedInterruptionLosesJob()
    ensures var s := InHandler(false);
      var t := FinishStep(s, ID, CanceledError, 1, None, 0, DefaultPool);
      Reachable(s) && !Inv(t) && Unfinished(t, ID) && Copies(t, ID) == 0
  {
    InHandlerIsReachable(false);
    ReachableIsSound(InHandler(false));
    FinishKeepsInvIff(InHandler(false), ID, CanceledError, 1, None, 0, DefaultPool);
  }

  /** A stop that is not waited for: the next start restores the job its handler still runs. */
  lemma EarlyStartDoubles(hold: JobSnapshot -> bool, poolOf: string -> JobClass, queues: Queues)
    requires forall snap :: !hold(snap)
    ensures var s := StopStep(InHandler(false));
      var t := StartStep(s, 1, hold, poolOf, queues);
      Reachable(s) && !Inv(t) && Copies(t, ID) == 2
  {
    InHandlerIsReachable(false);
    ReachNext(InHandler(false), Event.Stop);
    var s := StopStep(InHandler(false));
    ReachableIsSound(s);
    assert ID in s.running && Unfinished(s, ID);
    StartKeepsInvIff(s, 1, hold, poolOf, queues);
    StartWhileDrainingDoubles(s, 1, hold, poolOf, queues, ID);
  }

  // ---------- Calls whose halves are apart ----------

  /** Between the heap update and the write of UpdatePending the job reaches its handler. */
  lemma LateUpdateBreaks()
    ensures var s, call := Queued(false), Updating(TheJob(false), 0);
      && Reachable(s) && Applies(s, call) && Opened(s, call) == s && Reachable(InHandler(false))
      && !Inv(Closed(InHandler(false), s, call))
  {
    QueuedIsReachable(false);
    InHandlerIsReachable(false);
    ReachableIsSound(InHandler(false));
    ClosedKeepsInvIff(InHandler(false), Queued(false), Updating(TheJob(false), 0));
  }

  /** Pause has taken the job out of the heap; a restart pushes it again, and then it is stored as paused. */
  lemma LatePauseBreaks(hold: JobSnapshot -> bool, poolOf: string -> JobClass, queues: Queues)
    requires forall snap :: !hold(snap)
    ensures var s, call := Queued(false), Pausing(ID, 2);
      && Reachable(s) && Applies(s, call)
      && var t := StartStep(LoopExitStep(StopStep(Opened(s, call))), 1, hold, poolOf, queues);
         ID in t.heap && !Inv(Closed(t, s, call))
  {
    QueuedIsReachable(false);
    var s, call := Queued(false), Pausing(ID, 2);
    var t := StartStep(LoopExitStep(StopStep(Opened(s, call))), 1, hold, poolOf, queues);
    PausedMustNotWait(t, TheJob(false).(status := Paused, updatedAt := 2).ToSnapshot(), 2);
  }

  lemma PausedMustNotWait(t: Sched, snap: JobSnapshot, now: int)
    requires snap.id in t.heap && snap.status == Paused
    ensures !Inv(Written(t, snap, now))
  {
    assert !Ok(LocalOf(Written(t, snap, now), snap.id));
  }

  /** ForcePause has marked the running job; its handler comes back and parks it. */
  ghost function Parked(): Sched {
    FinishStep(Opened(InHandler(false), ForcePausing(ID, 1)), ID, Completed, 1, None, 0, DefaultPool)
  }

  lemma ParkedIsReachable()
    ensures Reachable(Parked()) && StoredPaused(Parked(), ID) && Copies(Parked(), ID) == 0
  {
    var finish := Finish(ID, Completed, 1, None, 0, DefaultPool);
    InHandlerIsReachable(false);
    ReachNext(InHandler(false), ForcePause(ID, 1));
    var s := ForcePauseStep(InHandler(false), ID, 1);
    ReachNext(s, finish);
    ReachableIsSound(s);
    MarkedJobParks(s, ID, Completed, 1, None, 0, DefaultPool);
    assert Step(s, finish) == Parked();
  }

  /** It is resumed before the write of ForcePause, which then pauses a job that waits in the heap. */
  lemma LateForcePauseBreaks()
    ensures var s, call := InHandler(false), ForcePausing(ID, 1);
      var t := ResumeStep(Parked(), ID, 2, None, DefaultPool);
      Reachable(s) && Applies(s, call) && Reachable(t) && !Inv(Closed(t, s, call))
  {
    InHandlerIsReachable(false);
    ParkedIsReachable();
    ReachNext(Parked(), Resume(ID, 2, None, DefaultPool));
    ResumedOnce();
    var t := ResumeStep(Parked(), ID, 2, None, DefaultPool);
    ReachableIsSound(t);
    ClosedKeepsInvIff(t, InHandler(false), ForcePausing(ID, 1));
  }

  /** Cancel has called the cancel function of a cron job, whose handler completes and queues the next
      round; the deletion then leaves that round without a snapshot. */
  lemma LateDeleteBreaks()
    ensures var s, call := InHandler(true), Cancelling(ID);
      && Reachable(s) && Applies(s, call)
      && var t := FinishStep(Opened(s, call), ID, Completed, 1, Some(60), 0, DefaultPool);
         Reachable(t) && !Inv(Closed(t, s, call))
  {
    var s, call, finish := InHandler(true), Cancelling(ID), Finish(ID, Completed, 1, Some(60), 0, DefaultPool);
    InHandlerIsReachable(true);
    ReachNext(s, finish);
    var t := FinishStep(Opened(s, call), ID, Completed, 1, Some(60), 0, DefaultPool);
    NextRoundQueued();
    ReachableIsSound(t);
    ClosedKeepsInvIff(t, s, call);
  }

  lemma NextRoundQueued()
    ensures var s, finish := InHandler(true), Finish(ID, Completed, 1, Some(60), 0, DefaultPool);
      Step(Opened(s, Cancelling(ID)), finish) == Step(s, finish) && ID in Step(s, finish).heap
  {
    assert Left(Opened(InHandler(true), Cancelling(ID)), ID) == Left(InHandler(true), ID);
  }

  /** A worker has registered the job, Cancel finds the registration and deletes the snapshot, and the
      worker's write brings it back; once the handler has returned no job belongs to it. */
  lemma LateRunningOrphans()
    ensures var s, call := Taken(false), Beginning(ID, 0);
      && Reachable(s) && Applies(s, call)
      && var late := Closed(CancelStep(Opened(s, call), ID), s, call);
         var t := FinishStep(late, ID, CanceledError, 1, None, 0, DefaultPool);
         t.up && Unfinished(t, ID) && Copies(t, ID) == 0
  {
    TakenIsReachable(false);
  }

  // ---------- A second push ----------

  /** The heap with one job, as an array and its index; a second push of the ID breaks the index. */
  lemma SecondPushBreaksIndex(job: Job, again: Job)
    requires job.id == again.id
    ensures IndexExact([job], map[job.id := 0]) && ById([job], map[job.id := 0]) == map[job.id := job]
    ensures !IndexExact([job] + [again], map[job.id := 0][again.id := 1])
  {
    PushKeepsIndexExactIff([job], map[job.id := 0], again);
  }

  /** Schedule has stored the job; a start restores it, and then it is pushed a second time. */
  lemma LatePushDoubles(hold: JobSnapshot -> bool, queues: Queues)
    requires forall snap :: !hold(snap)
    ensures var call := Scheduling(TheJob(false), 0, None);
      && Applies(Blank(), call)
      && var t := StartStep(Opened(Blank(), call), 0, hold, key => DefaultPool, queues);
         && t.heap == map[ID := TheJob(false)] && !Fits(t, call)
         && !IndexExact([t.heap[ID]] + [TheJob(false)], map[ID := 0][ID := 1])
  {
    var call := Scheduling(TheJob(false), 0, None);
    var t := StartStep(Opened(Blank(), call), 0, hold, key => DefaultPool, queues);
    assert Opened(Blank(), call).store == map[ID := TheJob(false).ToSnapshot()];
    assert t.heap == map[ID := TheJob(false)];
    SecondPushBreaksIndex(TheJob(false), TheJob(false));
  }

  lemma ResumedOnce()
    ensures ResumeStep(Parked(), ID, 2, None, DefaultPool).heap == map[ID := Resumable(Parked(), ID, 2, DefaultPool)]
  {
    ParkedIsReachable();
    ReachableIsSound(Parked());
    ResumeOutcome(Parked(), ID, 2, None, DefaultPool);
    assert Parked().heap == map[];
  }

  /** Two Resume calls both see the paused job; the second one pushes it beside the first, after which the
      index of the heap is wrong. */
  lemma TwoResumesPushTwice()
    ensures StoredPaused(Parked(), ID) && ID !in Parked().running
    ensures var first, second := Resumable(Parked(), ID, 2, DefaultPool), Resumable(Parked(), ID, 3, DefaultPool);
      && ResumeStep(Parked(), ID, 2, None, DefaultPool).heap == map[ID := first] == ById([first], map[ID := 0])
      && IndexExact([first], map[ID := 0]) && !IndexExact([first] + [second], map[ID := 0][ID := 1])
  {
    ParkedIsReachable();
    ResumedOnce();
    SecondPushBreaksIndex(Resumable(Parked(), ID, 2, DefaultPool), Resumable(Parked(), ID, 3, DefaultPool));
  }

  lemma CancelledParked()
    ensures var s := CancelStep(Parked(), ID);
      Reachable(s) && s == Parked().(store := Parked().store - {ID}) && Copies(s, ID) == 0 && Keyed(s.store)
  {
    ParkedIsReachable();
    ReachableIsSound(Parked());
    ReachNext(Parked(), Cancel(ID));
    assert Copies(Parked().(store := Parked().store - {ID}), ID) == Copies(Parked(), ID);
  }

  /** Resume has seen the paused job, which is then cancelled for good; the push brings it back. */
  lemma CancelledPausedComesBack()
    ensures var s, job := CancelStep(Parked(), ID), Resumable(Parked(), ID, 2, DefaultPool);
      var t := ScheduleStep(s, job, 2, None);
      && Reachable(s) && ID !in s.store && Copies(s, ID) == 0
      && Unfinished(t, ID) && ID in t.heap && Step(s, Resume(ID, 2, None, DefaultPool)) == s
  {
    CancelledParked();
    var job := Resumable(Parked(), ID, 2, DefaultPool);
    assert job.id == ID && !job.cron;
    PushOutcome(CancelStep(Parked(), ID), job, 2, None);
  }
}
