/** The scheduler as an object updated in place; every method is one step of the model. */
module Schedulers {
  import opened Jobs
  import opened Stores
  import opened Retry
  import opened SchedulerModel
  import opened SchedulerSafety
  import opened SchedulerTheorems

  datatype ApiResult = Done(job: Job) | NotFound | NotPending | NotPaused | BadCron | Rejected

  /** What Restore has pushed once only `todo` is left to look at. */
  ghost function PushedBut(s: Sched, todo: set<JobSnapshot>, hold: JobSnapshot -> bool,
                           poolOf: string -> JobClass): map<string, Job> {
    map id | id in s.store && s.store[id] !in todo && Restorable(s, id) && !hold(s.store[id]) ::
      s.store[id].ToJob(poolOf(s.store[id].key)).(status := Pending)
  }

  /** The store once only `todo` is left to look at. */
  ghost function HeldBut(s: Sched, todo: set<JobSnapshot>, hold: JobSnapshot -> bool,
                         now: int): map<string, JobSnapshot> {
    map id | id in s.store ::
      if s.store[id] !in todo && Restorable(s, id) && hold(s.store[id])
        then s.store[id].(status := Paused, updatedAt := now) else s.store[id]
  }

  predicate Revived(heap: map<string, Job>, snap: JobSnapshot) {
    !snap.status.IsTerminal() && snap.status != Paused && snap.id !in heap
  }

  lemma PushOne(s: Sched, todo: set<JobSnapshot>, snap: JobSnapshot, hold: JobSnapshot -> bool,
                poolOf: string -> JobClass)
    requires Keyed(s.store) && snap in todo && snap.id in s.store && s.store[snap.id] == snap
    ensures snap.id !in PushedBut(s, todo, hold, poolOf)
    ensures PushedBut(s, todo - {snap}, hold, poolOf) ==
      if Restorable(s, snap.id) && !hold(snap)
        then PushedBut(s, todo, hold, poolOf)[snap.id := snap.ToJob(poolOf(snap.key)).(status := Pending)]
        else PushedBut(s, todo, hold, poolOf)
  {}

  lemma HoldOne(s: Sched, todo: set<JobSnapshot>, snap: JobSnapshot, hold: JobSnapshot -> bool, now: int)
    requires Keyed(s.store) && snap in todo && snap.id in s.store && s.store[snap.id] == snap
    ensures HeldBut(s, todo - {snap}, hold, now) ==
      if Restorable(s, snap.id) && hold(snap)
        then HeldBut(s, todo, hold, now)[snap.id := snap.(status := Paused, updatedAt := now)]
        else HeldBut(s, todo, hold, now)
  {}

  lemma RestoreOne(s: Sched, todo: set<JobSnapshot>, snap: JobSnapshot, hold: JobSnapshot -> bool,
                   poolOf: string -> JobClass, now: int)
    requires Keyed(s.store) && snap in todo && snap.id in s.store && s.store[snap.id] == snap
    ensures var heap, rest := s.heap + PushedBut(s, todo, hold, poolOf), todo - {snap};
      && s.heap + PushedBut(s, rest, hold, poolOf) ==
           (if Revived(heap, snap) && !hold(snap) then heap[snap.id := snap.ToJob(poolOf(snap.key)).(status := Pending)]
            else heap)
      && HeldBut(s, rest, hold, now) ==
           (if Revived(heap, snap) && hold(snap)
            then HeldBut(s, todo, hold, now)[snap.id := snap.(status := Paused, updatedAt := now)]
            else HeldBut(s, todo, hold, now))
  {
    PushOne(s, todo, snap, hold, poolOf);
    HoldOne(s, todo, snap, hold, now);
    assert Revived(s.heap + PushedBut(s, todo, hold, poolOf), snap) <==> Restorable(s, snap.id);
  }

  /** A state with fresh queues, followed by the whole of Restore, is the model's start. */
  lemma RestoreCompletesStart(s: Sched, reset: Sched, now: int, hold: JobSnapshot -> bool, poolOf: string -> JobClass,
                              queues: Queues)
    requires !s.up
    requires reset == s.(up := true, loop := Looking, workQ := [], workCap := queues.workCap,
                         execQ := [], execCap := queues.execCap, execOn := queues.execOn)
    ensures reset.(heap := reset.heap + PushedBut(reset, {}, hold, poolOf), store := HeldBut(reset, {}, hold, now))
              == StartStep(s, now, hold, poolOf, queues)
  {
    assert PushedBut(reset, {}, hold, poolOf) == Restored(s, hold, poolOf);
    assert HeldBut(reset, {}, hold, now) == StartStep(s, now, hold, poolOf, queues).store;
  }

  /** The ending applied while the worker is still registered; it leaves right after. */
  ghost function Ended(s: Sched, id: string, ending: Ending, now: int): Sched {
    var unmarked := s.(forced := s.forced - {id});
    match ending
    case Record(job) => Stored(unmarked, job, now)
    case Again(job, next) => ScheduleStep(unmarked, job, now, next)
    case Nothing => unmarked
  }

  lemma EndedThenLeft(s: Sched, id: string, ending: Ending, now: int)
    ensures Ended(s, id, ending, now).(running := s.running - {id}) == Conclude(s, id, ending, now)
    ensures Ended(s, id, ending, now).running == s.running
  {
    var unmarked, rest := s.(forced := s.forced - {id}), s.running - {id};
    match ending
    case Record(job) => StoreIgnoresWorkers(unmarked, rest, job, now);
    case Again(job, next) => ScheduleIgnoresWorkers(unmarked, rest, job, now, next);
    case Nothing =>
  }

  lemma StoreIgnoresWorkers(s: Sched, running: map<string, Attempt>, job: Job, now: int)
    ensures Stored(s.(running := running), job, now) == Stored(s, job, now).(running := running)
  {}

  lemma ScheduleIgnoresWorkers(s: Sched, running: map<string, Attempt>, job: Job, now: int, next: Option<int>)
    ensures ScheduleStep(s.(running := running), job, now, next) == ScheduleStep(s, job, now, next).(running := running)
    ensures ScheduleStep(s, job, now, next).running == s.running
  {}

  /** The class a job with this key is stamped with. */
  function StampOf(classes: map<string, JobClass>, key: string): JobClass {
    if key in classes then classes[key] else DefaultPool
  }

  class Scheduler {
    const heap: QuaternaryHeaps.QuaternaryHeap
    const store: JSONFileStore
    var running: bool
    var loop: Loop
    var workCh: seq<Job>
    var workCap: nat
    var execCh: seq<Job>
    var execCap: nat
    var execOn: bool
    var taken: map<string, Job>
    var cancelMap: map<string, Attempt>
    var forcedPause: set<string>
    var handlerClasses: map<string, JobClass>
    // Settings applied by the next Start.
    var concurrency: nat
    var queueCapacity: nat
    var execConcurrency: nat
    var execQueueCapacity: nat

    ghost function View(): Sched
      requires heap.Exact()
      reads this, heap, store
    {
      Sched(running, loop, heap.Contents(), workCh, workCap, execCh, execCap, execOn, taken, cancelMap,
            forcedPause, store.data, store.Policy())
    }

    /** The parts are sound and the scheduler is in a state that keeps every job in one place. */
    ghost predicate Valid()
      reads this, heap, store
    {
      heap.Valid() && store.Valid() && Inv(View())
    }

    /** Declares the class of the jobs with this key; the default class is that of every other key. */
    method RegisterHandlerClass(key: string, class_: JobClass)
      requires Valid()
      modifies this`handlerClasses
      ensures Valid() && View() == old(View()) && StampOf(handlerClasses, key) == class_
      ensures forall k :: k != key ==> StampOf(handlerClasses, k) == StampOf(old(handlerClasses), k)
    {
      handlerClasses := handlerClasses[key := class_];
    }

    method UnregisterHandler(key: string)
      requires Valid()
      modifies this`handlerClasses
      ensures Valid() && View() == old(View()) && StampOf(handlerClasses, key) == DefaultPool
      ensures forall k :: k != key ==> StampOf(handlerClasses, k) == StampOf(old(handlerClasses), k)
    {
      handlerClasses := handlerClasses - {key};
    }

    function ClassOfKey(key: string): JobClass
      reads this`handlerClasses
    {
      StampOf(handlerClasses, key)
    }

    /** The class a stored job is stamped with when it is resumed. */
    function StoredPool(jobID: string): JobClass
      reads this`handlerClasses, store
    {
      if jobID in store.data then ClassOfKey(store.data[jobID].key) else DefaultPool
    }

    /** The registry of classes as Restore reads it. */
    function Classes(): string -> JobClass
      reads this`handlerClasses
    {
      var classes := handlerClasses;
      key => StampOf(classes, key)
    }

    function QueueSettings(): Queues
      reads this`concurrency, this`queueCapacity, this`execConcurrency, this`execQueueCapacity
    {
      Queues(if queueCapacity == 0 then concurrency else queueCapacity,
             if execConcurrency == 0 then 0 else if execQueueCapacity == 0 then execConcurrency else execQueueCapacity,
             execConcurrency > 0)
    }

    constructor (store: JSONFileStore)
      requires store.Valid()
      ensures Valid() && fresh(heap) && this.store == store && View() == Initial(store.data, store.Policy())
    {
      this.store := store;
      heap := new QuaternaryHeaps.QuaternaryHeap();
      running, loop := false, Exited;
      workCh, workCap, execCh, execCap, execOn := [], 0, [], 0, false;
      taken, cancelMap, forcedPause, handlerClasses := map[], map[], {}, map[];
      concurrency, queueCapacity, execConcurrency, execQueueCapacity := 100, 0, 0, 0;
      new;
      forall x ensures Ok(LocalOf(View(), x)) {}
    }

    // ---------- Calls from outside ----------

    /** Stamps the class, persists, then pushes; fails without a trace when a cron job has no next instant. */
    method Schedule(job: Job, now: int, next: Option<int>) returns (ok: bool)
      requires Valid() && FreshId(View(), job.id) && job.status == Pending
      modifies this, heap, store
      ensures Valid() && View() == Step(old(View()), Event.Schedule(job.(pool := old(ClassOfKey(job.key))), now, next))
      ensures ok <==> (job.cron ==> next.Some?)
      ensures ok ==> Copies(View(), job.id) == 1
      ensures ok ==>
                && job.id in heap.Contents() && heap.Contents()[job.id].pool == StampOf(old(handlerClasses), job.key)
                && heap.Contents()[job.id].triggerAt == (if job.cron then next.value else job.triggerAt)
    {
      ghost var s := View();
      StepKeepsInv(s, Event.Schedule(job.(pool := ClassOfKey(job.key)), now, next));
      assert Ok(LocalOf(s, job.id));
      var placed: Job;
      ok, placed := Enqueue(job, now, next);
    }

    /** The body Schedule shares with resume, retry and the next cron round; all it needs is an ID
        that is not in the heap. */
    method Enqueue(job: Job, now: int, next: Option<int>) returns (ok: bool, placed: Job)
      requires heap.Valid() && store.Valid() && job.id !in heap.Contents()
      modifies heap, store
      ensures heap.Valid() && store.Valid()
      ensures ok <==> (job.cron ==> next.Some?)
      ensures View() == ScheduleStep(old(View()), job.(pool := ClassOfKey(job.key)), now, next)
      ensures ok ==> job.id in heap.Contents() && heap.Contents()[job.id] == placed
    {
      placed := job;
      if job.cron {
        if next.None? {
          return false, job;
        }
        placed := placed.(triggerAt := next.value);
      }
      placed := placed.(pool := ClassOfKey(job.key));
      store.Save(placed, now);
      heap.PushItem(placed);
      ok := true;
    }

    method IsRunning(jobID: string) returns (r: bool)
      ensures r <==> jobID in cancelMap
    {
      r := jobID in cancelMap;
    }

    /** Calls the cancel function of a running job. */
    method CancelRunning(jobID: string) returns (found: bool)
      modifies this`cancelMap
      ensures found <==> jobID in old(cancelMap)
      ensures cancelMap ==
              if found then old(cancelMap)[jobID := old(cancelMap)[jobID].(cancelled := true)] else old(cancelMap)
    {
      found := jobID in cancelMap;
      if found {
        cancelMap := cancelMap[jobID := cancelMap[jobID].(cancelled := true)];
      }
    }

    /** Found if and only if the job waits in the heap, runs, or is stored as paused. */
    method Cancel(jobID: string) returns (found: bool)
      requires Valid()
      modifies this, heap, store
      ensures Valid() && View() == Step(old(View()), Event.Cancel(jobID))
      ensures found <==> jobID in old(View()).heap || jobID in old(View()).running || StoredPaused(old(View()), jobID)
      ensures found ==> jobID !in View().store
    {
      StepKeepsInv(View(), Event.Cancel(jobID));
      found := Withdraw(jobID);
    }

    method Withdraw(jobID: string) returns (found: bool)
      requires heap.Valid() && store.Valid()
      modifies this`cancelMap, heap, store
      ensures heap.Valid() && store.Valid() && View() == CancelStep(old(View()), jobID)
      ensures found <==> jobID in old(View()).heap || jobID in old(View()).running || StoredPaused(old(View()), jobID)
      ensures found ==> jobID !in View().store
    {
      ghost var s := View();
      var removed := heap.Remove(jobID);
      found := removed.Some?;
      var wasRunning := CancelRunning(jobID);
      found := found || wasRunning;
      if !found {
        if jobID in store.data && store.data[jobID].status == Paused {
          store.Delete(jobID);
          found := true;
        }
        assert heap.Contents() == s.heap;
        return;
      }
      store.Delete(jobID);
      assert s.running == if jobID in s.running then s.running else cancelMap;
    }

    /** Removes a waiting job from the heap and stores it as paused. */
    method Pause(jobID: string, now: int) returns (r: ApiResult)
      requires Valid()
      modifies this, heap, store
      ensures Valid() && View() == Step(old(View()), Event.Pause(jobID, now))
      ensures r.Done? <==>
              jobID in old(View()).heap || (jobID !in old(View()).running && StoredPaused(old(View()), jobID))
      ensures r.Done? ==> StoredPaused(View(), jobID) && r.job.ToSnapshot() == View().store[jobID]
      ensures r.NotPending? <==> jobID in old(View()).running
    {
      StepKeepsInv(View(), Event.Pause(jobID, now));
      assert Ok(LocalOf(View(), jobID));
      r := PutAside(jobID, now);
    }

    method PutAside(jobID: string, now: int) returns (r: ApiResult)
      requires heap.Valid() && store.Valid()
      modifies heap, store
      ensures heap.Valid() && store.Valid() && View() == PauseStep(old(View()), jobID, now)
      ensures r.Done? <==>
              jobID in old(View()).heap || (jobID !in old(View()).running && StoredPaused(old(View()), jobID))
      ensures r.Done? ==> StoredPaused(View(), jobID) && r.job.ToSnapshot() == View().store[jobID]
      ensures r.NotPending? <==> jobID !in old(View()).heap && jobID in old(View()).running
      ensures r.NotFound? <==> !r.Done? && !r.NotPending?
    {
      ghost var s := View();
      var item := heap.Remove(jobID);
      if item.None? {
        assert heap.Contents() == s.heap;
        var busy := IsRunning(jobID);
        if busy {
          return NotPending;
        }
        if jobID in store.data && store.data[jobID].status == Paused {
          return Done(store.data[jobID].ToJob(DefaultPool));
        }
        return NotFound;
      }
      var job := item.value.(status := Paused, updatedAt := now);
      store.Update(job.ToSnapshot(), now);
      r := Done(job);
    }

    method ForcePause(jobID: string, now: int) returns (r: ApiResult)
      requires Valid()
      modifies this, heap, store
      ensures Valid() && View() == Step(old(View()), Event.ForcePause(jobID, now))
      ensures r.Done? <==> jobID in old(View()).heap || jobID in old(View()).running || StoredPaused(old(View()), jobID)
      ensures r.NotFound? <==> jobID !in old(View()).running && jobID !in old(View()).store
    {
      StepKeepsInv(View(), Event.ForcePause(jobID, now));
      assert Ok(LocalOf(View(), jobID));
      r := Halt(jobID, now);
    }

    method Halt(jobID: string, now: int) returns (r: ApiResult)
      requires heap.Valid() && store.Valid()
      modifies this`forcedPause, this`cancelMap, heap, store
      ensures heap.Valid() && store.Valid() && View() == ForcePauseStep(old(View()), jobID, now)
      ensures r.Done? <==> jobID in old(View()).heap || jobID in old(View()).running || StoredPaused(old(View()), jobID)
      ensures r.NotFound? <==>
              jobID !in old(View()).heap && jobID !in old(View()).running && jobID !in old(View()).store
    {
      ghost var s := View();
      var item := heap.Remove(jobID);
      if item.Some? {
        var job := item.value.(status := Paused, updatedAt := now);
        store.Update(job.ToSnapshot(), now);
        return Done(job);
      }
      assert heap.Contents() == s.heap;
      if jobID in cancelMap {
        var job := MarkAndCancel(jobID, now);
        return Done(job);
      }
      if jobID !in store.data {
        return NotFound;
      }
      assert View() == s && PauseStep(s, jobID, now) == s;
      var paused := PutAside(jobID, now);
      r := if paused.Done? then paused else NotPending;
    }

    /** Marks a running job, stores it as paused if its snapshot is still there, then cancels it. */
    method MarkAndCancel(jobID: string, now: int) returns (job: Job)
      requires heap.Valid() && store.Valid() && jobID in cancelMap && jobID !in heap.Contents()
      modifies this`forcedPause, this`cancelMap, store
      ensures store.Valid() && View() == ForcePauseStep(old(View()), jobID, now)
    {
      forcedPause := forcedPause + {jobID};
      job := cancelMap[jobID].job.(status := Paused, updatedAt := now);
      if jobID in store.data {
        var snap := store.data[jobID].(status := Paused, updatedAt := now);
        store.Update(snap, now);
        job := snap.ToJob(DefaultPool);
      }
      var _ := CancelRunning(jobID);
    }

    /** Refused while the paused job's handler is still winding down. */
    method Resume(jobID: string, now: int, next: Option<int>) returns (r: ApiResult)
      requires Valid()
      modifies this, heap, store
      ensures Valid()
      ensures View() == Step(old(View()), Event.Resume(jobID, now, next, old(StoredPool(jobID))))
      ensures r.NotFound? <==> jobID !in old(View()).store
      ensures r.NotPaused? <==> jobID in old(View()).store && !StoredPaused(old(View()), jobID)
      ensures r.NotPending? <==> StoredPaused(old(View()), jobID) && jobID in old(View()).running
      ensures r.Done? ==> Unfinished(View(), jobID) && Copies(View(), jobID) == 1
      ensures r.Done? ==> jobID in heap.Contents() && heap.Contents()[jobID] == r.job
    {
      ghost var s := View();
      assert Ok(LocalOf(s, jobID));
      StepKeepsInv(s, Event.Resume(jobID, now, next, StoredPool(jobID)));
      if StoredPaused(s, jobID) { ResumeOutcome(s, jobID, now, next, StoredPool(jobID)); }
      r := Revive(jobID, now, next);
    }

    method Revive(jobID: string, now: int, next: Option<int>) returns (r: ApiResult)
      requires heap.Valid() && store.Valid() && (StoredPaused(View(), jobID) ==> jobID !in heap.Contents())
      modifies heap, store
      ensures heap.Valid() && store.Valid()
      ensures View() == ResumeStep(old(View()), jobID, now, next, old(StoredPool(jobID)))
      ensures r.NotFound? <==> jobID !in old(View()).store
      ensures r.NotPaused? <==> jobID in old(View()).store && !StoredPaused(old(View()), jobID)
      ensures r.NotPending? <==> StoredPaused(old(View()), jobID) && jobID in old(View()).running
      ensures r.Done? ==>
                && StoredPaused(old(View()), jobID) && jobID !in old(View()).running
                && (old(View()).store[jobID].cron ==> next.Some?)
                && jobID in heap.Contents() && heap.Contents()[jobID] == r.job
    {
      if jobID !in store.data {
        return NotFound;
      }
      var snap := store.data[jobID];
      if snap.status != Paused {
        return NotPaused;
      }
      var busy := IsRunning(jobID);
      if busy {
        return NotPending;
      }
      var job := snap.ToJob(DefaultPool).(status := Pending, updatedAt := now);
      var ok, placed := Enqueue(job, now, next);
      r := if ok then Done(placed) else BadCron;
    }

    /** Edits a waiting job in place; `apply` may refuse. Should it change the ID, whatever waits under
        the new one is replaced, and nothing happens when nothing does. */
    method UpdatePending(jobID: string, apply: Job -> Option<Job>, now: int) returns (r: ApiResult)
      requires Valid()
      modifies this, heap, store
      ensures Valid()
      ensures r.Done? <==>
                && jobID in old(View()).heap && apply(old(View()).heap[jobID]).Some?
                && apply(old(View()).heap[jobID]).value.id in old(View()).heap
      ensures View() ==
              if r.Done? then Step(old(View()), Event.UpdatePending(apply(old(View()).heap[jobID]).value, now))
              else old(View())
      ensures r.Done? ==> r.job.id in heap.Contents() && heap.Contents()[r.job.id] == r.job
      ensures r.NotPending? ==> jobID in View().store
    {
      ghost var s := View();
      assert Ok(LocalOf(s, jobID));
      var item := heap.Get(jobID);
      if item.None? {
        return if jobID in store.data then NotPending else NotFound;
      }
      var edited := apply(item.value);
      if edited.None? {
        return Rejected;
      }
      StepKeepsInv(s, Event.UpdatePending(edited.value, now));
      var updated := edited.value.(status := Pending, updatedAt := now);
      var ok := heap.Update(updated);
      if !ok {
        return NotPending;
      }
      store.Update(updated.ToSnapshot(), now);
      r := Done(updated);
    }

    // ---------- Start, restore, stop ----------

    method Start(now: int, hold: JobSnapshot -> bool)
      requires Valid() && (running || Quiet(View()))
      modifies this, heap, store
      ensures Valid()
      ensures View() == Step(old(View()), Event.Start(now, hold, old(Classes()), old(QueueSettings())))
      ensures !old(running) ==>
                && workCap == (if old(queueCapacity) == 0 then old(concurrency) else old(queueCapacity))
                && execOn == (old(execConcurrency) > 0)
                && (execOn ==>
                      execCap == if old(execQueueCapacity) == 0 then old(execConcurrency) else old(execQueueCapacity))
    {
      StepKeepsInv(View(), Event.Start(now, hold, Classes(), QueueSettings()));
      if !running {
        ResetAndRestore(now, hold);
      }
    }

    /** Fresh stop signal and queues, then Restore. */
    method ResetAndRestore(now: int, hold: JobSnapshot -> bool)
      requires heap.Valid() && store.Valid() && !running
      modifies this, heap, store
      ensures heap.Valid() && store.Valid()
      ensures View() == StartStep(old(View()), now, hold, old(Classes()), old(QueueSettings()))
    {
      ghost var s, poolOf := View(), Classes();
      var queues := QueueSettings();
      running, loop := true, Looking;
      workCh, workCap := [], queues.workCap;
      execCh, execCap, execOn := [], queues.execCap, queues.execOn;
      ghost var reset := View();
      RestoreCompletesStart(s, reset, now, hold, poolOf, queues);
      assert Classes() == poolOf;
      Restore(now, hold);
      ghost var restored :=
        reset.(heap := reset.heap + PushedBut(reset, {}, hold, poolOf), store := HeldBut(reset, {}, hold, now));
      assert restored == StartStep(s, now, hold, poolOf, queues);
      assert View() == restored;
    }

    /** Walks the snapshots in any order: finished and paused ones stay, the guard may hold a job as
        paused, everything else not already in the heap is pushed. */
    method Restore(now: int, hold: JobSnapshot -> bool)
      requires heap.Valid() && store.Valid()
      modifies heap, store
      ensures heap.Valid() && store.Valid() && store.Policy() == old(store.Policy())
      ensures heap.Contents() == old(heap.Contents()) + PushedBut(old(View()), {}, hold, Classes())
      ensures store.data == HeldBut(old(View()), {}, hold, now)
    {
      ghost var s := View();
      var snapshots := store.LoadAll();
      while snapshots != {}
        invariant heap.Valid() && store.Valid() && store.Policy() == s.retention
        invariant forall snap :: snap in snapshots ==> snap.id in s.store && s.store[snap.id] == snap
        invariant heap.Contents() == s.heap + PushedBut(s, snapshots, hold, Classes())
        invariant store.data == HeldBut(s, snapshots, hold, now)
        decreases |snapshots|
      {
        var snap :| snap in snapshots;
        RestoreOne(s, snapshots, snap, hold, Classes(), now);
        snapshots := snapshots - {snap};
        RestoreSnapshot(snap, now, hold);
      }
    }

    method RestoreSnapshot(snap: JobSnapshot, now: int, hold: JobSnapshot -> bool)
      requires heap.Valid() && store.Valid()
      modifies heap, store
      ensures heap.Valid() && store.Valid() && store.Policy() == old(store.Policy())
      ensures heap.Contents() ==
        if Revived(old(heap.Contents()), snap) && !hold(snap)
          then old(heap.Contents())[snap.id := snap.ToJob(Classes()(snap.key)).(status := Pending)]
          else old(heap.Contents())
      ensures store.data ==
        if Revived(old(heap.Contents()), snap) && hold(snap)
          then old(store.data)[snap.id := snap.(status := Paused, updatedAt := now)] else old(store.data)
    {
      if snap.status.IsTerminal() || snap.status == Paused {
        return;
      }
      var present := heap.Get(snap.id);
      if present.Some? {
        return;
      }
      var job := snap.ToJob(ClassOfKey(snap.key)).(status := Pending);
      if hold(snap) {
        job := job.(status := Paused, updatedAt := now);
        store.Update(job.ToSnapshot(), now);
      } else {
        heap.PushItem(job);
      }
    }

    /** No more dispatching, and every running job's context is cancelled. */
    method Stop()
      requires Valid()
      modifies this
      ensures Valid() && View() == Step(old(View()), Event.Stop)
    {
      StepKeepsInv(View(), Event.Stop);
      if !running {
        return;
      }
      running := false;
      cancelMap := map id | id in cancelMap :: cancelMap[id].(cancelled := true);
    }

    // ---------- The scheduling loop ----------

    /** One look at the heap: pops the earliest due job its queue has room for. */
    method PopDue(now: int) returns (popped: bool)
      requires Valid() && loop.Looking?
      modifies this, heap
      ensures Valid()
      ensures popped ==>
                && loop.InHand? && loop.job.triggerAt <= now
                && forall id :: id in old(heap.Contents()) ==>
                     var other := old(heap.Contents())[id];
                     other.triggerAt <= now && (other.pool != ExecPool || !execOn || |execCh| < execCap) ==>
                       loop.job.triggerAt <= other.triggerAt
      ensures popped ==>
                && loop.InHand? && Admissible(old(View()), Pop(loop.job.id, now))
                && View() == Step(old(View()), Pop(loop.job.id, now))
      ensures !popped ==> View() == old(View())
      ensures !popped ==> forall id :: id in View().heap && View().heap[id].triggerAt <= now ==>
             View().heap[id].pool == ExecPool && execOn && |execCh| == execCap
    {
      ghost var s := View();
      var on, length, capacity := execOn, |execCh|, execCap;
      var allow := (job: Job) => Dispatchable(job, on, length, capacity);
      assert forall job :: AllowOf(s)(job) == allow(job);
      var item := heap.PopIfDueWhere(now, allow);
      popped := item.Some?;
      if popped {
        assert QuaternaryHeaps.Minimal(s.heap, item.value, AllowOf(s), now);
        StepKeepsInv(s, Pop(item.value.id, now));
        loop := InHand(item.value);
      } else {
        forall id | id in s.heap && s.heap[id].triggerAt <= now
          ensures s.heap[id].pool == ExecPool && s.execOn && |s.execQ| == s.execCap
        {
          assert !QuaternaryHeaps.Eligible(s.heap[id], allow, now);
        }
      }
    }

    /** Hands the popped job to its queue. The default queue blocks when full; the executor queue
        never is, so its put-back branch is dead. */
    method Dispatch() returns (sent: bool)
      requires Valid() && loop.InHand?
      modifies this
      ensures Valid() && View() == Step(old(View()), Event.Dispatch)
      ensures sent <==> old(loop.job.pool == ExecPool && execOn) || |old(workCh)| < workCap
    {
      StepKeepsInv(View(), Event.Dispatch);
      var job := loop.job;
      if job.pool == ExecPool && execOn {
        NeverPutBack(View());
        execCh := execCh + [job];
        loop := Looking;
        return true;
      }
      sent := |workCh| < workCap;
      if sent {
        workCh := workCh + [job];
        loop := Looking;
      }
    }

    method LeaveLoop()
      requires Valid()
      modifies this
      ensures Valid() && View() == Step(old(View()), LoopExit)
    {
      StepKeepsInv(View(), LoopExit);
      if !running {
        loop := Exited;
      }
    }

    // ---------- Workers ----------

    method TakeJob(exec: bool) returns (job: Job)
      requires Valid() && (if exec then execCh else workCh) != []
      modifies this
      ensures Valid() && View() == Step(old(View()), Take(exec))
      ensures job == old(if exec then execCh[0] else workCh[0])
    {
      StepKeepsInv(View(), Take(exec));
      if exec {
        job := execCh[0];
        execCh := execCh[1..];
      } else {
        job := workCh[0];
        workCh := workCh[1..];
      }
      taken := taken[job.id := job];
    }

    /** Registers the execution and stores it as running, or fails the job for want of a handler. */
    method BeginJob(jobID: string, hasHandler: bool, now: int)
      requires Valid() && jobID in taken
      modifies this, store
      ensures Valid() && View() == Step(old(View()), Begin(jobID, hasHandler, now))
    {
      StepKeepsInv(View(), Begin(jobID, hasHandler, now));
      var job := taken[jobID].(updatedAt := now);
      taken := taken - {jobID};
      if !hasHandler {
        store.Update(job.(status := Failed).ToSnapshot(), now);
        return;
      }
      job := job.(status := Running);
      cancelMap := cancelMap[jobID := Attempt(job, !running)];
      store.Update(job.ToSnapshot(), now);
    }

    /** The handler has returned: success, interruption or failure, then the worker lets go. */
    method FinishJob(jobID: string, ret: Return, now: int, next: Option<int>, retryAt: int)
      requires Valid() && jobID in cancelMap && (running && ret.CanceledError? ==> cancelMap[jobID].cancelled)
      modifies this, heap, store
      ensures Valid()
      ensures View() == Step(old(View()),
                             Finish(jobID, ret, now, next, retryAt, old(ClassOfKey(cancelMap[jobID].job.key))))
    {
      StepKeepsInv(View(), Finish(jobID, ret, now, next, retryAt, ClassOfKey(cancelMap[jobID].job.key)));
      assert Ok(LocalOf(View(), jobID));
      Conclusion(jobID, ret, now, next, retryAt);
    }

    method Conclusion(jobID: string, ret: Return, now: int, next: Option<int>, retryAt: int)
      requires heap.Valid() && store.Valid() && jobID in cancelMap && cancelMap[jobID].job.id == jobID
               && jobID !in heap.Contents()
      modifies this, heap, store
      ensures heap.Valid() && store.Valid()
      ensures View() == FinishStep(old(View()), jobID, ret, now, next, retryAt,
                                   old(ClassOfKey(cancelMap[jobID].job.key)))
    {
      ghost var s := View();
      var job := cancelMap[jobID].job.(updatedAt := now);
      ghost var ending := EndingOf(s, jobID, ret, now, next, retryAt, ClassOfKey(job.key));
      EndedThenLeft(s, jobID, ending, now);
      if ret.Completed? {
        HandleSuccess(job, now, next);
      } else if ret.CanceledError? || cancelMap[jobID].cancelled {
        HandleInterrupted(job, now);
      } else {
        HandleFailure(job, ret.permanent, now, retryAt);
      }
      assert View() == Ended(s, jobID, ending, now);
      cancelMap := cancelMap - {jobID};
    }

    /** Consumes a forced-pause mark, if there is one, and stores the job as paused. */
    method ParkForcedPause(job: Job, now: int) returns (parked: bool)
      requires store.Valid()
      modifies this`forcedPause, store
      ensures store.Valid() && store.Policy() == old(store.Policy())
      ensures parked == (job.id in old(forcedPause)) && forcedPause == old(forcedPause) - {job.id}
      ensures store.data ==
              if parked then Write(old(store.data), job.(status := Paused).ToSnapshot(), now, store.Policy())
              else old(store.data)
    {
      parked := job.id in forcedPause;
      if parked {
        forcedPause := forcedPause - {job.id};
        store.Update(job.(status := Paused).ToSnapshot(), now);
      }
    }

    method HandleInterrupted(job: Job, now: int)
      requires heap.Valid() && store.Valid()
      modifies this`forcedPause, store
      ensures store.Valid()
      ensures View() == Ended(old(View()), job.id,
        if job.id in old(forcedPause) then Record(job.(status := Paused))
        else if running then Nothing
        else Record(job.(status := Pending)), now)
    {
      var parked := ParkForcedPause(job, now);
      if parked || running {
        return;
      }
      store.Update(job.(status := Pending).ToSnapshot(), now);
    }

    method HandleSuccess(job: Job, now: int, next: Option<int>)
      requires heap.Valid() && store.Valid() && job.id !in heap.Contents()
      modifies this`forcedPause, heap, store
      ensures heap.Valid() && store.Valid()
      ensures View() == Ended(old(View()), job.id,
        if job.id in old(forcedPause) then Record(job.(status := Paused))
        else if job.cron && next.Some? then Again(NextRound(job, ClassOfKey(job.key), now), next)
        else Record(job.(status := Success)), now)
    {
      var parked := ParkForcedPause(job, now);
      if parked {
        return;
      }
      if job.cron && next.Some? {
        var _, _ := Enqueue(NextRound(job, DefaultPool, now), now, next);
        return;
      }
      store.Update(job.(status := Success).ToSnapshot(), now);
    }

    method HandleFailure(job: Job, permanent: bool, now: int, retryAt: int)
      requires heap.Valid() && store.Valid() && job.id !in heap.Contents()
      modifies this`forcedPause, heap, store
      ensures heap.Valid() && store.Valid()
      ensures View() == Ended(old(View()), job.id,
        if job.id in old(forcedPause) then Record(job.(status := Paused))
        else if permanent || job.retryCount >= job.maxRetries then Record(job.(status := Failed))
        else Again(CloneForRetry(job, retryAt, now).(pool := ClassOfKey(job.key)), None), now)
    {
      var parked := ParkForcedPause(job, now);
      if parked {
        return;
      }
      if permanent {
        store.Update(job.(status := Failed).ToSnapshot(), now);
        return;
      }
      if job.retryCount < job.maxRetries {
        var _, _ := Enqueue(CloneForRetry(job, retryAt, now), now, None);
      } else {
        store.Update(job.(status := Failed).ToSnapshot(), now);
      }
    }
  }
}
