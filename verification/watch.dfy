/** The generation-numbered debounce of the configuration watcher (core/watch.go). */
module Watches {
  import opened Jobs

  /** One line of the debounce table: the generation of its timer and whether that timer still counts. */
  datatype Slot = Slot(gen: nat, armed: bool)

  datatype ReloadState = ReloadState(result: string, watchedPath: string, watcherError: string)

  /** `flying` are the timer callbacks that have fired and not yet tried to claim, `triggers` those
      that have claimed and not yet looked at `closed`, `passed` those that found it unset and are
      about to call the reload function. The observer's log follows: paths with an event nobody has
      claimed, generations claimed and superseded, and calls of the reload function. */
  datatype Watcher = Watcher(
    path: string, timers: map<string, Slot>, generation: nat, closed: bool, cleared: bool, state: ReloadState,
    flying: multiset<(string, nat)>, triggers: nat, passed: nat,
    pending: set<string>, claimed: multiset<nat>, superseded: set<nat>, reloads: nat, lastMark: string)

  datatype Event =
    | Schedule(path: string, late: bool)   // late: an expired timer fires once more before it is stopped
    | Fire(path: string)
    | Claim(path: string, gen: nat)
    | Trigger
    | CallReload
    | StoreState(state: ReloadState)
    | MarkError(msg: string)
    | MarkClosed
    | StopTimers

  function Step(w: Watcher, e: Event): Watcher {
    match e
    case Schedule(path, late) => ScheduleStep(w, path, late)
    case Fire(path) =>
      if path in w.timers && w.timers[path].armed then
        w.(timers := w.timers[path := w.timers[path].(armed := false)],
           flying := w.flying + multiset{(path, w.timers[path].gen)})
      else w
    case Claim(path, gen) =>
      if (path, gen) !in w.flying then w
      else
        var landed := w.(flying := w.flying - multiset{(path, gen)});
        if path in w.timers && w.timers[path].gen == gen then
          landed.(timers := w.timers - {path}, triggers := w.triggers + 1, pending := w.pending - {path},
                  claimed := w.claimed + multiset{gen})
        else landed
    case Trigger =>
      if w.triggers == 0 then w
      else if w.closed then w.(triggers := w.triggers - 1)
      else w.(triggers := w.triggers - 1, passed := w.passed + 1)
    case CallReload => if w.passed == 0 then w else w.(passed := w.passed - 1, reloads := w.reloads + 1)
    case StoreState(state) => w.(state := state.(watcherError := w.state.watcherError, watchedPath := w.path))
    case MarkError(msg) => w.(state := w.state.(watcherError := msg), lastMark := msg)
    case MarkClosed => w.(closed := true)
    case StopTimers => if w.closed then w.(timers := map[], cleared := true) else w
  }

  /** An armed timer is pushed back; an expired one is replaced by a new generation. */
  function ScheduleStep(w: Watcher, path: string, late: bool): Watcher {
    if w.closed then w
    else if path in w.timers && w.timers[path].armed then w.(pending := w.pending + {path})
    else
      var gen := w.generation + 1;
      var previous := if path in w.timers then Some(w.timers[path].gen) else None;
      w.(timers := w.timers[path := Slot(gen, true)], generation := gen, pending := w.pending + {path},
         superseded := if previous.Some? then w.superseded + {previous.value} else w.superseded,
         flying := if previous.Some? && late then w.flying + multiset{(path, previous.value)} else w.flying)
  }

  ghost function Run(w: Watcher, events: seq<Event>): Watcher
    decreases |events|
  {
    if events == [] then w else Run(Step(w, events[0]), events[1..])
  }

  function Fresh(path: string): Watcher {
    Watcher(path, map[], 0, false, false, ReloadState("", path, ""), multiset{}, 0, 0, {}, multiset{}, {}, 0, "")
  }

  // ---------- The invariant ----------

  ghost predicate Used(w: Watcher, gen: nat) {
    gen in w.claimed || gen in w.superseded
  }

  /** A slot's timer is armed, or its callback of that very generation is on its way. */
  ghost predicate SlotOk(w: Watcher, p: string)
    requires p in w.timers
  {
    var slot := w.timers[p];
    slot.gen <= w.generation && !Used(w, slot.gen) && w.flying[(p, slot.gen)] == if slot.armed then 0 else 1
  }

  ghost predicate TableOk(w: Watcher) {
    && (forall p {:trigger w.timers[p]} :: p in w.timers ==> SlotOk(w, p))
    && (forall p, q :: p in w.timers && q in w.timers && w.timers[p].gen == w.timers[q].gen ==> p == q)
    && (forall p, g :: (p, g) in w.flying ==> g <= w.generation)
  }

  ghost predicate ClaimsOk(w: Watcher) {
    && (forall g: nat {:trigger w.claimed[g]} ::
          w.claimed[g] <= 1 && (g in w.claimed ==> g <= w.generation && g !in w.superseded))
    && (forall g :: g in w.superseded ==> g <= w.generation)
  }

  ghost predicate LogOk(w: Watcher) {
    && (!w.cleared ==> w.pending == w.timers.Keys)
    && (w.cleared ==> w.closed && w.timers == map[])
    && w.state.watcherError == w.lastMark && w.state.watchedPath == w.path
  }

  ghost predicate Inv(w: Watcher) {
    TableOk(w) && ClaimsOk(w) && LogOk(w)
  }

  lemma RearmKeepsTable(w: Watcher, path: string, late: bool)
    requires TableOk(w) && ClaimsOk(w) && !w.closed && !(path in w.timers && w.timers[path].armed)
    ensures TableOk(ScheduleStep(w, path, late))
  {
    var v := ScheduleStep(w, path, late);
    assert (path, w.generation + 1) !in w.flying;
    forall p | p in v.timers ensures SlotOk(v, p) {
      if p != path { assert v.timers[p] == w.timers[p] && SlotOk(w, p); }
    }
  }

  lemma RearmKeepsClaims(w: Watcher, path: string, late: bool)
    requires TableOk(w) && ClaimsOk(w)
    ensures ClaimsOk(ScheduleStep(w, path, late))
  {
    if path in w.timers { assert SlotOk(w, path); }
  }

  lemma ScheduleKeepsInv(w: Watcher, path: string, late: bool)
    requires Inv(w)
    ensures Inv(ScheduleStep(w, path, late))
  {
    RearmKeepsClaims(w, path, late);
    if !w.closed && !(path in w.timers && w.timers[path].armed) {
      RearmKeepsTable(w, path, late);
    } else {
      assert forall p :: p in w.timers ==> SlotOk(w, p);
      assert TableOk(ScheduleStep(w, path, late));
    }
  }

  lemma LandingKeepsSlot(w: Watcher, path: string, gen: nat, p: string)
    requires Inv(w) && (path, gen) in w.flying && p in Step(w, Claim(path, gen)).timers
    ensures var v := Step(w, Claim(path, gen)); p in w.timers && v.timers[p] == w.timers[p] && SlotOk(v, p)
  {
    var g := w.timers[p].gen;
    assert SlotOk(w, p) && (p, g) != (path, gen);
  }

  lemma ClaimKeepsTable(w: Watcher, path: string, gen: nat)
    requires Inv(w)
    ensures TableOk(Step(w, Claim(path, gen)))
  {
    if (path, gen) in w.flying {
      var v := Step(w, Claim(path, gen));
      forall p | p in v.timers ensures p in w.timers && v.timers[p] == w.timers[p] && SlotOk(v, p) {
        LandingKeepsSlot(w, path, gen, p);
      }
      assert forall p, g :: (p, g) in v.flying ==> (p, g) in w.flying;
    }
  }

  lemma ClaimKeepsInv(w: Watcher, path: string, gen: nat)
    requires Inv(w)
    ensures Inv(Step(w, Claim(path, gen)))
  {
    ClaimKeepsTable(w, path, gen);
    if path in w.timers { assert SlotOk(w, path); }
  }

  lemma FireKeepsInv(w: Watcher, path: string)
    requires Inv(w)
    ensures Inv(Step(w, Fire(path)))
  {
    var v := Step(w, Fire(path));
    forall p | p in v.timers ensures SlotOk(v, p) { assert SlotOk(w, p); }
  }

  /** A step that leaves the table, the callbacks and the claims alone. */
  lemma QuietStepKeepsInv(w: Watcher, e: Event)
    requires Inv(w) && (e.Trigger? || e.CallReload? || e.StoreState? || e.MarkError? || e.MarkClosed?)
    ensures Inv(Step(w, e))
  {
    var v := Step(w, e);
    assert v.timers == w.timers && v.flying == w.flying && v.generation == w.generation;
    assert v.claimed == w.claimed && v.superseded == w.superseded && v.pending == w.pending;
    forall p | p in v.timers ensures SlotOk(v, p) { assert SlotOk(w, p); }
  }

  lemma StopTimersKeepsInv(w: Watcher)
    requires Inv(w)
    ensures Inv(Step(w, StopTimers))
  {
    var v := Step(w, StopTimers);
    forall p | p in v.timers ensures SlotOk(v, p) { assert SlotOk(w, p); }
  }

  lemma StepKeepsInv(w: Watcher, e: Event)
    requires Inv(w)
    ensures Inv(Step(w, e))
  {
    match e
    case Schedule(path, late) => ScheduleKeepsInv(w, path, late);
    case Claim(path, gen) => ClaimKeepsInv(w, path, gen);
    case Fire(path) => FireKeepsInv(w, path);
    case StopTimers => StopTimersKeepsInv(w);
    case _ => QuietStepKeepsInv(w, e);
  }

  lemma {:induction false} RunKeepsInv(w: Watcher, events: seq<Event>)
    requires Inv(w)
    ensures Inv(Run(w, events))
    decreases |events|
  {
    if events != [] {
      StepKeepsInv(w, events[0]);
      RunKeepsInv(Step(w, events[0]), events[1..]);
    }
  }

  // ---------- What it gives ----------

  /** After any interleaving: until the table is cleared, every path with an unclaimed event has a slot
      whose timer is armed or whose callback of the same generation is in flight; every generation is
      claimed at most once and never when superseded; WatcherError is the latest marked text. */
  lemma DebounceIsSound(path: string, events: seq<Event>, p: string, gen: nat)
    ensures var w := Run(Fresh(path), events);
      && (!w.cleared && p in w.pending ==> p in w.timers && (w.timers[p].armed || (p, w.timers[p].gen) in w.flying))
      && w.claimed[gen] <= 1 && (gen in w.superseded ==> gen !in w.claimed)
      && w.state.watcherError == w.lastMark
  {
    RunKeepsInv(Fresh(path), events);
    var w := Run(Fresh(path), events);
    if p in w.timers { assert SlotOk(w, p); }
  }

  /** The moves that take a pending event to the reload function: its timer fires if it is still
      armed, its callback claims, and the trigger goes through. */
  ghost function Delivery(w: Watcher, p: string): seq<Event>
    requires p in w.timers
  {
    (if w.timers[p].armed then [Fire(p)] else []) + [Claim(p, w.timers[p].gen), Trigger, CallReload]
  }

  /** No event is lost: from any reachable open state, letting the pending callback run reaches the
      reload function and settles the event. */
  lemma PendingEventIsDelivered(path: string, events: seq<Event>, p: string)
    requires var w := Run(Fresh(path), events); !w.closed && p in w.pending
    ensures var w := Run(Fresh(path), events);
      && p in w.timers
      && var v := Run(w, Delivery(w, p)); v.reloads == w.reloads + 1 && p !in v.pending && p !in v.timers
  {
    RunKeepsInv(Fresh(path), events);
    var w := Run(Fresh(path), events);
    var gen := w.timers[p].gen;
    assert SlotOk(w, p);
    if w.timers[p].armed {
      var v := Step(w, Fire(p));
      assert Delivery(w, p)[1..] == [Claim(p, gen), Trigger, CallReload];
      assert Run(w, Delivery(w, p)) == Run(v, [Claim(p, gen), Trigger, CallReload]);
      assert v.timers[p] == Slot(gen, false) && (p, gen) in v.flying;
      ClaimedTriggers(v, p);
    } else {
      assert Delivery(w, p) == [Claim(p, gen), Trigger, CallReload];
      ClaimedTriggers(w, p);
    }
  }

  /** A change event on an open watcher arms the path, whatever came before: an armed timer is kept, so a
      burst shares one generation; an expired or missing one gives way to a new generation. The slots of
      other paths stay. */
  lemma ScheduledIsArmed(path: string, events: seq<Event>, p: string, late: bool, q: string)
    requires !Run(Fresh(path), events).closed
    ensures var w := Run(Fresh(path), events);
      var v := Step(w, Schedule(p, late));
      && !v.closed && p in v.timers && v.timers[p].armed && p in v.pending && v.reloads == w.reloads
      && (p in w.timers && w.timers[p].armed ==> v.timers == w.timers)
      && (!(p in w.timers && w.timers[p].armed) ==> v.timers[p].gen == w.generation + 1)
      && (p in w.timers && !w.timers[p].armed ==> w.timers[p].gen in v.superseded)
      && (q != p ==> (q in v.timers <==> q in w.timers) && (q in v.timers ==> v.timers[q] == w.timers[q]))
  {}

  lemma {:induction false} RunNext(w: Watcher, events: seq<Event>, e: Event)
    ensures Run(w, events + [e]) == Step(Run(w, events), e)
    decreases |events|
  {
    var longer := events + [e];
    if events == [] {
      assert longer[0] == e && longer[1..] == [];
    } else {
      assert longer[0] == events[0] && longer[1..] == events[1..] + [e];
      RunNext(Step(w, events[0]), events[1..], e);
    }
  }

  /** Every change event seen while the watcher is open is followed by a reload, once its timer has run. */
  lemma EveryEventIsDelivered(path: string, events: seq<Event>, p: string, late: bool)
    requires !Run(Fresh(path), events).closed
    ensures var w := Run(Fresh(path), events + [Schedule(p, late)]);
      && p in w.timers && w.timers[p].armed
      && var v := Run(w, Delivery(w, p)); v.reloads == w.reloads + 1 && p !in v.pending && p !in v.timers
  {
    RunNext(Fresh(path), events, Schedule(p, late));
    ScheduledIsArmed(path, events, p, late, p);
    PendingEventIsDelivered(path, events + [Schedule(p, late)], p);
  }

  /** Once closed, an event arms nothing. */
  lemma ClosedSchedulesNothing(w: Watcher, p: string, late: bool)
    ensures Step(Step(w, MarkClosed), Schedule(p, late)) == w.(closed := true)
  {}

  lemma ClaimedTriggers(w: Watcher, p: string)
    requires !w.closed && p in w.timers && (p, w.timers[p].gen) in w.flying
    ensures var v := Run(w, [Claim(p, w.timers[p].gen), Trigger, CallReload]);
            v.reloads == w.reloads + 1 && p !in v.pending && p !in v.timers
  {
    var gen := w.timers[p].gen;
    var v := Step(w, Claim(p, gen));
    var u := Step(v, Trigger);
    assert [Claim(p, gen), Trigger, CallReload][1..] == [Trigger, CallReload];
    assert [Trigger, CallReload][1..] == [CallReload] && [CallReload][1..] == [];
    assert Run(w, [Claim(p, gen), Trigger, CallReload]) == Run(v, [Trigger, CallReload]) == Run(u, [CallReload]);
    assert Run(u, [CallReload]) == Run(Step(u, CallReload), []) == Step(u, CallReload);
  }

  /** A superseded callback claims nothing: its table line stays and no reload follows. */
  lemma SupersededClaimsNothing(w: Watcher, p: string, gen: nat)
    requires Inv(w) && gen in w.superseded
    ensures var v := Step(w, Claim(p, gen)); v.timers == w.timers && v.triggers == w.triggers && v.pending == w.pending
  {}

  lemma StepAfterClose(w: Watcher, e: Event)
    requires Inv(w) && w.closed
    ensures var v := Step(w, e);
      && v.closed && v.reloads + v.passed == w.reloads + w.passed && (w.cleared ==> v.cleared)
      && (w.cleared ==> v.claimed == w.claimed && v.triggers <= w.triggers && v.timers == map[])
  {}

  /** From the moment `closed` is set only the callbacks that had already passed the check can call
      the reload function, whatever still runs; once the table is cleared no callback even gets to
      claim, so one that fires afterwards reaches nothing. */
  lemma {:induction false} NothingAfterClose(w: Watcher, events: seq<Event>)
    requires Inv(w) && w.closed
    ensures var v := Run(w, events);
      && v.reloads + v.passed == w.reloads + w.passed
      && (w.cleared ==> v.claimed == w.claimed && v.triggers <= w.triggers && v.timers == map[])
    decreases |events|
  {
    if events != [] {
      var v := Step(w, events[0]);
      StepKeepsInv(w, events[0]);
      StepAfterClose(w, events[0]);
      NothingAfterClose(v, events[1..]);
    }
  }

  // ---------- The watcher itself ----------

  /** `view` is the model's state: it also carries the flying callbacks and the observer's log, and
      every method moves it by the event it implements. */
  class ConfigWatcher {
    const path: string
    var timers: map<string, Slot>
    var generation: nat
    var closed: bool
    var state: ReloadState
    ghost var view: Watcher

    ghost predicate Valid()
      reads this
    {
      && view.path == path && view.timers == timers && view.generation == generation
      && view.closed == closed && view.state == state
      && Inv(view)
    }

    constructor (path: string)
      ensures Valid() && view == Fresh(path)
    {
      this.path := path;
      timers, generation, closed := map[], 0, false;
      state := ReloadState("", path, "");
      view := Fresh(path);
    }

    method Schedule(target: string, ghost late: bool)
      requires Valid()
      modifies this
      ensures Valid() && view == Step(old(view), Event.Schedule(target, late))
      ensures !closed ==> target in timers && timers[target].armed && target in view.pending
      ensures closed ==> timers == old(timers)
    {
      Rearm(target, late);
      Advance(Event.Schedule(target, late));
    }

    ghost method Advance(e: Event)
      requires Inv(view)
      modifies this`view
      ensures view == Step(old(view), e) && Inv(view)
    {
      StepKeepsInv(view, e);
      view := Step(view, e);
    }

    method Rearm(target: string, ghost late: bool)
      requires view.timers == timers && view.generation == generation && view.closed == closed
      modifies this`generation, this`timers
      ensures var next := ScheduleStep(view, target, late); timers == next.timers && generation == next.generation
    {
      if closed {
        return;
      }
      if target in timers {
        // Reset reports whether the timer was still counting.
        if timers[target].armed {
          return;
        }
      }
      Arm(target);
    }

    method Arm(target: string)
      modifies this`generation, this`timers
      ensures generation == old(generation) + 1 && timers == old(timers)[target := Slot(generation, true)]
    {
      generation := generation + 1;
      timers := timers[target := Slot(generation, true)];
    }

    /** Only the callback of the generation in the table takes its line out and may go on. */
    method Claim(target: string, gen: nat) returns (mine: bool)
      requires Valid() && (target, gen) in view.flying
      modifies this`timers, this`view
      ensures Valid() && view == Step(old(view), Event.Claim(target, gen))
      ensures mine <==> view.triggers == old(view.triggers) + 1
      ensures mine <==> target in old(timers) && old(timers)[target].gen == gen
      ensures timers == if mine then old(timers) - {target} else old(timers)
      ensures mine ==> gen !in old(view.claimed) && gen !in view.superseded && target !in timers
      ensures old(view.cleared) ==> !mine
    {
      assert target in timers ==> SlotOk(view, target);
      Advance(Event.Claim(target, gen));
      mine := target in timers && timers[target].gen == gen;
      if mine {
        timers := timers - {target};
      }
    }

    /** True when the reload function is to be called. */
    method CheckTrigger() returns (go: bool)
      requires Valid() && view.triggers > 0
      modifies this`view
      ensures Valid() && view == Step(old(view), Event.Trigger)
      ensures go <==> view.passed == old(view.passed) + 1
      ensures go <==> !closed
    {
      Advance(Event.Trigger);
      go := !closed;
    }

    /** Keeps the result of a reload but never its idea of the watcher's own health. */
    method StoreState(reported: ReloadState)
      requires Valid()
      modifies this`state, this`view
      ensures Valid() && view == Step(old(view), Event.StoreState(reported))
      ensures state.result == reported.result && state.watcherError == old(state).watcherError
      ensures state.watchedPath == path && state.watcherError == view.lastMark
    {
      Advance(Event.StoreState(reported));
      state := reported.(watcherError := state.watcherError, watchedPath := path);
    }

    method MarkWatcherError(msg: string)
      requires Valid()
      modifies this`state, this`view
      ensures Valid() && view == Step(old(view), Event.MarkError(msg))
      ensures state == old(state).(watcherError := msg)
    {
      Advance(Event.MarkError(msg));
      state := state.(watcherError := msg);
    }

    method StopTimers()
      requires Valid() && closed
      modifies this`timers, this`view
      ensures Valid() && view == Step(old(view), Event.StopTimers) && timers == map[]
    {
      Advance(Event.StopTimers);
      var targets := timers.Keys;
      while targets != {}
        invariant timers.Keys == targets && view == Step(old(view), Event.StopTimers)
        decreases |targets|
      {
        var target :| target in targets;
        timers := timers - {target};
        targets := targets - {target};
      }
    }

    /** Closed first, so that a schedule after the table is cleared cannot refill it. */
    method Close()
      requires Valid()
      modifies this`closed, this`timers, this`view
      ensures Valid() && closed && timers == map[]
      ensures view == Step(Step(old(view), MarkClosed), Event.StopTimers)
    {
      Advance(MarkClosed);
      closed := true;
      StopTimers();
    }
  }
}
