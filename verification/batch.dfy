/** The bounded batch writer: appends never block, a flush runs outside the lock, a failed item gets
    one retry (store/sqlite/batch.go). */
module Batches {
  import opened Jobs

  datatype Slot<T> = Slot(item: T, retried: bool)

  /** `flight` is the batch a flush is writing outside the lock. The last three fields are the
      observer's log: append calls, committed items, and every item handed to the flush function. */
  datatype Writer<T> = Writer(
    capacity: nat, queue: seq<Slot<T>>, dropped: nat, closing: bool, closed: bool,
    flight: Option<seq<T>>, calls: nat, committed: seq<T>, handed: seq<T>)

  datatype Event<T> = Append(item: T) | FlushBegin | FlushEnd(ok: bool) | CloseBegin | Seal

  function Items<T>(queue: seq<Slot<T>>): seq<T> {
    seq(|queue|, i requires 0 <= i < |queue| => queue[i].item)
  }

  /** The first n slots have just failed: retried ones are given up, the others marked. */
  function AfterFailure<T>(queue: seq<Slot<T>>, n: nat): seq<Slot<T>> {
    if queue == [] then []
    else
      var last := |queue| - 1;
      var kept := AfterFailure(queue[..last], n);
      if last >= n then kept + [queue[last]]
      else if queue[last].retried then kept
      else kept + [queue[last].(retried := true)]
  }

  function Step<T>(w: Writer<T>, e: Event<T>): Writer<T> {
    match e
    case Append(item) =>
      if w.closed || w.closing || |w.queue| >= w.capacity then w.(calls := w.calls + 1, dropped := w.dropped + 1)
      else w.(calls := w.calls + 1, queue := w.queue + [Slot(item, false)])
    case FlushBegin =>
      if w.flight.Some? || w.closed || w.queue == [] then w
      else w.(flight := Some(Items(w.queue)), handed := w.handed + Items(w.queue))
    case FlushEnd(ok) =>
      if w.flight.None? then w
      else
        var n := |w.flight.value|;
        if ok then
          w.(flight := None, committed := w.committed + w.flight.value,
             queue := if n <= |w.queue| then w.queue[n..] else [])
        else
          var kept := AfterFailure(w.queue, n);
          w.(flight := None, queue := kept,
             dropped := w.dropped + (if |kept| <= |w.queue| then |w.queue| - |kept| else 0))
    case CloseBegin => w.(closing := true)
    case Seal => if w.closing then w.(closed := true, dropped := w.dropped + |w.queue|, queue := []) else w
  }

  ghost function Run<T>(w: Writer<T>, events: seq<Event<T>>): Writer<T>
    decreases |events|
  {
    if events == [] then w else Run(Step(w, events[0]), events[1..])
  }

  function Fresh<T>(capacity: nat): Writer<T> {
    Writer(capacity, [], 0, false, false, None, 0, [], [])
  }

  // ---------- Conservation ----------

  /** The queue is within bounds and empty once sealed; an unsealed flight is the head of the queue. */
  ghost predicate Bounded<T>(w: Writer<T>) {
    && |w.queue| <= w.capacity && (w.closed ==> w.queue == [] && w.closing)
    && (w.flight.Some? && !w.closed ==> w.flight.value <= Items(w.queue))
  }

  /** Items committed by a flush that straddles the seal, which had already counted them as dropped. */
  ghost function Straddled<T>(w: Writer<T>, events: seq<Event<T>>): nat
    decreases |events|
  {
    if events == [] then 0
    else (if events[0] == FlushEnd(true) && w.closed && w.flight.Some? then |w.flight.value| else 0)
         + Straddled(Step(w, events[0]), events[1..])
  }

  lemma {:induction false} AfterFailureShrinks<T>(queue: seq<Slot<T>>, n: nat)
    ensures |AfterFailure(queue, n)| <= |queue|
  {
    if queue != [] { AfterFailureShrinks(queue[..|queue| - 1], n); }
  }

  lemma StepConserves<T>(w: Writer<T>, e: Event<T>)
    requires Bounded(w)
    ensures var v := Step(w, e);
      && Bounded(v)
      && |v.committed| + |v.queue| + v.dropped - v.calls
           == |w.committed| + |w.queue| + w.dropped - w.calls + Straddled(w, [e])
  {
    if e.FlushEnd? && w.flight.Some? { AfterFailureShrinks(w.queue, |w.flight.value|); }
    if e.Append? && !w.closed { assert Items(w.queue + [Slot(e.item, false)]) == Items(w.queue) + [e.item]; }
    assert Straddled(Step(w, e), []) == 0;
    assert [e][1..] == [];
  }

  /** Under every interleaving of appends, flushes and closing, with any outcomes:
      committed + queued + dropped = append calls + items a straddling flush committed. So nothing is
      lost uncounted, and without a flush in flight across the seal the books balance exactly. */
  lemma {:induction false} Conservation<T>(w: Writer<T>, events: seq<Event<T>>)
    requires Bounded(w)
    ensures var v := Run(w, events);
      && Bounded(v)
      && |v.committed| + |v.queue| + v.dropped - v.calls
           == |w.committed| + |w.queue| + w.dropped - w.calls + Straddled(w, events)
    decreases |events|
  {
    if events != [] {
      StepConserves(w, events[0]);
      Conservation(Step(w, events[0]), events[1..]);
      assert [events[0]][1..] == [];
      assert Straddled(w, [events[0]]) + Straddled(Step(w, events[0]), events[1..]) == Straddled(w, events);
    }
  }

  // ---------- Order and attempts ----------

  /** An item that carries the number of the append call that brought it. */
  datatype Numbered<U> = Numbered(value: U, n: nat)

  ghost predicate NumberedRun<U>(w: Writer<Numbered<U>>, events: seq<Event<Numbered<U>>>)
    decreases |events|
  {
    events == []
      || ((events[0].Append? ==> events[0].item.n == w.calls) && NumberedRun(Step(w, events[0]), events[1..]))
  }

  ghost predicate Ascending<U>(s: seq<Numbered<U>>) {
    forall i, j :: 0 <= i < j < |s| ==> s[i].n < s[j].n
  }

  ghost predicate AllBelow<U>(s: seq<Numbered<U>>, bound: nat) {
    forall i :: 0 <= i < |s| ==> s[i].n < bound
  }

  ghost function Times<U>(s: seq<Numbered<U>>, n: nat): nat {
    if s == [] then 0 else Times(s[..|s| - 1], n) + (if s[|s| - 1].n == n then 1 else 0)
  }

  /** The retried slots are exactly the first k. */
  ghost predicate RetriedPrefix<T>(queue: seq<Slot<T>>, k: nat) {
    k <= |queue| && forall i :: 0 <= i < |queue| ==> (queue[i].retried <==> i < k)
  }

  ghost function Flying<T>(w: Writer<T>): nat {
    if w.flight.Some? then |w.flight.value| else 0
  }

  /** Order of the queue, of the flight and of the log. */
  ghost predicate InOrder<U>(w: Writer<Numbered<U>>, k: nat) {
    && Bounded(w) && RetriedPrefix(w.queue, k)
    && Ascending(Items(w.queue)) && AllBelow(Items(w.queue), w.calls)
    && Ascending(w.committed)
    && (forall c, i :: 0 <= c < |w.committed| && 0 <= i < |w.queue| ==> w.committed[c].n < w.queue[i].item.n)
    && (w.flight.Some? ==>
          && Ascending(w.flight.value) && AllBelow(w.flight.value, w.calls)
          && (!w.closed ==> k <= |w.flight.value|)
          && forall c, i :: 0 <= c < |w.committed| && 0 <= i < |w.flight.value| ==>
             w.committed[c].n < w.flight.value[i].n)
    && AllBelow(w.committed, w.calls)
  }

  /** The number of attempts each item has had. */
  ghost predicate Attempted<U>(w: Writer<Numbered<U>>, k: nat) {
    && (forall n: nat {:trigger Times(w.handed, n)} ::
          Times(w.handed, n) <= 2 && (n >= w.calls ==> Times(w.handed, n) == 0))
    && (forall i {:trigger w.queue[i]} :: 0 <= i < |w.queue| ==>
          Times(w.handed, w.queue[i].item.n) == (if i < k then 1 else 0) + (if i < Flying(w) then 1 else 0))
  }

  ghost predicate Orderly<U>(w: Writer<Numbered<U>>, k: nat) {
    InOrder(w, k) && Attempted(w, k)
  }

  lemma {:induction false} TimesConcat<U>(a: seq<Numbered<U>>, b: seq<Numbered<U>>, n: nat)
    ensures Times(a + b, n) == Times(a, n) + Times(b, n)
  {
    if b == [] {
      assert a + b == a;
    } else {
      var m := |b| - 1;
      assert (a + b)[..|a + b| - 1] == a + b[..m];
      TimesConcat(a, b[..m], n);
    }
  }

  lemma {:induction false} TimesAscending<U>(s: seq<Numbered<U>>, n: nat)
    requires Ascending(s)
    ensures Times(s, n) <= 1
    ensures forall i :: 0 <= i < |s| && s[i].n == n ==> Times(s, n) == 1
    ensures (forall i :: 0 <= i < |s| ==> s[i].n != n) ==> Times(s, n) == 0
  {
    if s != [] {
      var m := |s| - 1;
      TimesAscending(s[..m], n);
      if s[m].n == n { assert forall i :: 0 <= i < m ==> s[..m][i].n != n; }
    }
  }

  /** With the retried slots in front, a failure drops exactly them and marks the rest of the batch. */
  lemma {:induction false} FailureDropsPrefix<T>(queue: seq<Slot<T>>, n: nat, k: nat)
    requires RetriedPrefix(queue, k) && k <= n <= |queue|
    ensures var kept := AfterFailure(queue, n);
      |kept| == |queue| - k && forall i :: 0 <= i < |kept| ==> kept[i] == Slot(queue[k + i].item, k + i < n)
  {
    if queue != [] {
      var m := |queue| - 1;
      var init := queue[..m];
      if k == |queue| {
        AllRetriedDropped(queue, n);
      } else {
        assert queue == init + [queue[m]] && RetriedPrefix(init, k);
        var bound := if n <= m then n else m;
        FailureDropsPrefix(init, bound, k);
        if n > m { SameFailure(init, m, n); }
        assert AfterFailure(queue, n) == AfterFailure(init, bound) + [Slot(queue[m].item, m < n)];
      }
    }
  }

  lemma {:induction false} AllRetriedDropped<T>(queue: seq<Slot<T>>, n: nat)
    requires RetriedPrefix(queue, |queue|) && |queue| <= n
    ensures AfterFailure(queue, n) == []
  {
    if queue != [] {
      assert RetriedPrefix(queue[..|queue| - 1], |queue| - 1);
      AllRetriedDropped(queue[..|queue| - 1], n);
    }
  }

  lemma {:induction false} SameFailure<T>(queue: seq<Slot<T>>, m: nat, n: nat)
    requires |queue| <= m <= n
    ensures AfterFailure(queue, m) == AfterFailure(queue, n)
  {
    if queue != [] { SameFailure(queue[..|queue| - 1], m, n); }
  }

  lemma AppendStaysOrderly<U>(w: Writer<Numbered<U>>, e: Event<Numbered<U>>, k: nat)
    requires Orderly(w, k) && e.Append? && e.item.n == w.calls
    ensures Orderly(Step(w, e), k)
  {
    StepConserves(w, e);
    var v := Step(w, e);
    if v.queue != w.queue {
      assert Items(v.queue) == Items(w.queue) + [e.item];
      assert Times(w.handed, w.calls) == 0;
    }
  }

  lemma FlushBeginStaysOrderly<U>(w: Writer<Numbered<U>>, k: nat)
    requires Orderly(w, k) && w.flight.None? && !w.closed && w.queue != []
    ensures Orderly(Step(w, FlushBegin), k)
  {
    StepConserves(w, FlushBegin);
    var items := Items(w.queue);
    var v := Step(w, FlushBegin);
    forall n: nat ensures Times(v.handed, n) <= 2 && (n >= w.calls ==> Times(v.handed, n) == 0) {
      TimesConcat(w.handed, items, n);
      TimesAscending(items, n);
      if i :| 0 <= i < |items| && items[i].n == n {
        assert w.queue[i].item.n == n;
      } else {
        assert Times(w.handed, n) <= 2;
      }
    }
    forall i | 0 <= i < |v.queue| ensures Times(v.handed, v.queue[i].item.n) == (if i < k then 1 else 0) + 1 {
      TimesConcat(w.handed, items, v.queue[i].item.n);
      TimesAscending(items, v.queue[i].item.n);
      assert items[i].n == v.queue[i].item.n;
    }
  }

  lemma CommitStaysOrderly<U>(w: Writer<Numbered<U>>, k: nat)
    requires Orderly(w, k) && w.flight.Some?
    ensures Orderly(Step(w, FlushEnd(true)), 0)
  {
    var v := Step(w, FlushEnd(true));
    CommitKeepsOrder(w, k);
    if !w.closed {
      var n := |w.flight.value|;
      forall i | 0 <= i < |v.queue| ensures Times(v.handed, v.queue[i].item.n) == 0 {
        assert v.queue[i] == w.queue[n + i];
      }
    }
  }

  lemma CommitKeepsOrder<U>(w: Writer<Numbered<U>>, k: nat)
    requires InOrder(w, k) && w.flight.Some?
    ensures InOrder(Step(w, FlushEnd(true)), 0) && (w.closed ==> Step(w, FlushEnd(true)).queue == [])
  {
    StepConserves(w, FlushEnd(true));
    var v := Step(w, FlushEnd(true));
    var n := |w.flight.value|;
    if w.closed {
      assert |v.queue| == |Items(v.queue)| == 0;
    } else {
      assert Items(v.queue) == Items(w.queue)[n..];
      assert forall i :: 0 <= i < |v.queue| ==> v.queue[i] == w.queue[n + i];
      CommittedStaysBelow(w, k);
    }
  }

  lemma CommittedStaysBelow<U>(w: Writer<Numbered<U>>, k: nat)
    requires InOrder(w, k) && w.flight.Some? && !w.closed
    ensures var v := Step(w, FlushEnd(true));
      forall c, i :: 0 <= c < |v.committed| && 0 <= i < |v.queue| ==> v.committed[c].n < v.queue[i].item.n
  {
    var v, n := Step(w, FlushEnd(true)), |w.flight.value|;
    assert forall i :: 0 <= i < n ==> w.flight.value[i] == Items(w.queue)[i];
    forall c, i | 0 <= c < |v.committed| && 0 <= i < |v.queue| ensures v.committed[c].n < v.queue[i].item.n {
      assert v.queue[i].item == Items(w.queue)[n + i];
      if c >= |w.committed| {
        var f := c - |w.committed|;
        assert v.committed[c] == w.flight.value[f] == Items(w.queue)[f];
      }
    }
  }

  lemma FailureStaysOrderly<U>(w: Writer<Numbered<U>>, k: nat)
    requires Orderly(w, k) && w.flight.Some?
    ensures var m := if w.closed then 0 else |w.flight.value| - k;
      m >= 0 && Orderly(Step(w, FlushEnd(false)), m)
  {
    StepConserves(w, FlushEnd(false));
    var v := Step(w, FlushEnd(false));
    var n := |w.flight.value|;
    if w.closed {
      assert |v.queue| == |Items(v.queue)| == 0;
    } else {
      FailureDropsPrefix(w.queue, n, k);
      SurvivorsOrderly(w, v, n, k);
    }
  }

  lemma SurvivorsOrderly<U>(w: Writer<Numbered<U>>, v: Writer<Numbered<U>>, n: nat, k: nat)
    requires Orderly(w, k) && w.flight.Some? && !w.closed && n == |w.flight.value| && Bounded(v)
    requires v == w.(flight := None, queue := v.queue, dropped := v.dropped)
    requires |v.queue| == |w.queue| - k && forall i :: 0 <= i < |v.queue| ==>
             v.queue[i] == Slot(w.queue[k + i].item, k + i < n)
    ensures Orderly(v, n - k)
  {
    assert forall i :: 0 <= i < |v.queue| ==> Items(v.queue)[i] == Items(w.queue)[k + i];
    assert RetriedPrefix(v.queue, n - k);
    forall c, i | 0 <= c < |v.committed| && 0 <= i < |v.queue| ensures v.committed[c].n < v.queue[i].item.n {
      assert w.committed[c].n < w.queue[k + i].item.n;
    }
    forall i | 0 <= i < |v.queue| ensures Times(v.handed, v.queue[i].item.n) == if i < n - k then 1 else 0 {
      assert v.queue[i].item == w.queue[k + i].item;
    }
  }

  lemma StepStaysOrderly<U>(w: Writer<Numbered<U>>, e: Event<Numbered<U>>, k: nat)
    requires Orderly(w, k) && (e.Append? ==> e.item.n == w.calls)
    ensures exists m :: Orderly(Step(w, e), m)
  {
    StepConserves(w, e);
    match e
    case Append(_) => AppendStaysOrderly(w, e, k);
    case FlushBegin =>
      if w.flight.None? && !w.closed && w.queue != [] { FlushBeginStaysOrderly(w, k); }
    case FlushEnd(ok) =>
      if w.flight.None? {
        assert Orderly(Step(w, e), k);
      } else if ok {
        CommitStaysOrderly(w, k);
      } else {
        FailureStaysOrderly(w, k);
      }
    case CloseBegin => assert Orderly(Step(w, e), k);
    case Seal =>
      if w.closing { assert Orderly(Step(w, e), 0); }
  }

  /** When a failed flush commits nothing: over every run the committed items are in acceptance order,
      none twice; each item is handed to the flush function at most twice; and the retried marks form
      a prefix of the queue. */
  lemma {:induction false} CommittedInOrder<U>(w: Writer<Numbered<U>>, events: seq<Event<Numbered<U>>>, k: nat)
    requires Orderly(w, k) && NumberedRun(w, events)
    ensures var v := Run(w, events);
      && Ascending(v.committed)
      && (forall n: nat :: Times(v.handed, n) <= 2)
      && exists m :: RetriedPrefix(v.queue, m)
    decreases |events|
  {
    if events != [] {
      StepStaysOrderly(w, events[0], k);
      var m :| Orderly(Step(w, events[0]), m);
      CommittedInOrder(Step(w, events[0]), events[1..], m);
    }
  }

  lemma FreshIsOrderly<U>(capacity: nat)
    ensures Orderly(Fresh<Numbered<U>>(capacity), 0)
  {}

  // ---------- What is accepted is committed ----------

  function Appends<T>(items: seq<T>): (r: seq<Event<T>>)
    ensures |r| == |items| && forall i :: 0 <= i < |r| ==> r[i] == Append(items[i])
  {
    seq(|items|, i requires 0 <= i < |items| => Append(items[i]))
  }

  lemma {:induction false} RunConcat<T>(w: Writer<T>, a: seq<Event<T>>, b: seq<Event<T>>)
    ensures Run(w, a + b) == Run(Run(w, a), b)
    decreases |a|
  {
    if a == [] {
      assert a + b == b;
    } else {
      assert (a + b)[0] == a[0] && (a + b)[1..] == a[1..] + b;
      RunConcat(Step(w, a[0]), a[1..], b);
    }
  }

  /** Appends to an open writer with room for them are queued in order, and none is dropped. */
  lemma {:induction false} AppendsQueue<T>(w: Writer<T>, items: seq<T>)
    requires !w.closed && !w.closing && |w.queue| + |items| <= w.capacity
    ensures var v := Run(w, Appends(items));
      && v == w.(calls := w.calls + |items|, queue := v.queue)
      && |v.queue| == |w.queue| + |items| && v.queue[..|w.queue|] == w.queue
      && forall i :: 0 <= i < |items| ==> v.queue[|w.queue| + i] == Slot(items[i], false)
    decreases |items|
  {
    if items != [] {
      assert Appends(items)[1..] == Appends(items[1..]);
      var u := Step(w, Append(items[0]));
      AppendsQueue(u, items[1..]);
      assert u.queue[|w.queue|] == Slot(items[0], false) && u.queue[..|w.queue|] == w.queue;
      var v := Run(u, Appends(items[1..]));
      assert v.queue[..|w.queue|] == v.queue[..|u.queue|][..|w.queue|];
      forall i | 0 <= i < |items| ensures v.queue[|w.queue| + i] == Slot(items[i], false) {
        if i == 0 { assert v.queue[|w.queue|] == v.queue[..|u.queue|][|w.queue|]; }
      }
    }
  }

  /** One flush with the given outcome. */
  function Flush<T>(ok: bool): seq<Event<T>> {
    [FlushBegin, FlushEnd(ok)]
  }

  /** A flush nobody interferes with. */
  lemma FlushIs<T>(w: Writer<T>, ok: bool)
    requires !w.closed && w.flight.None? && w.queue != []
    ensures var items := Items(w.queue);
      var v := Run(w, Flush(ok));
      v.flight.None? && (ok ==> v.queue == [] && v.committed == w.committed + items && v.dropped == w.dropped)
      && (!ok ==> v.committed == w.committed && v.queue == AfterFailure(w.queue, |w.queue|)
                  && v.dropped - w.dropped == |w.queue| - |v.queue|)
      && v.closed == w.closed && v.closing == w.closing && v.capacity == w.capacity
  {
    var u := Step(w, FlushBegin);
    assert Flush<T>(ok)[1..] == [FlushEnd(ok)] && Flush<T>(ok)[1..][1..] == [];
    assert Run(w, Flush(ok)) == Run(u, [FlushEnd(ok)]) == Run(Step(u, FlushEnd(ok)), []) == Step(u, FlushEnd(ok));
    AfterFailureShrinks(w.queue, |w.queue|);
  }

  ghost predicate Idle<T>(w: Writer<T>) {
    !w.closed && w.flight.None? && w.queue != []
  }

  /** The first failed flush drops nothing and marks everything. */
  lemma FirstFailure<T>(w: Writer<T>)
    requires Idle(w) && RetriedPrefix(w.queue, 0)
    ensures var v := Run(w, Flush(false));
      && Idle(v) && RetriedPrefix(v.queue, |v.queue|) && Items(v.queue) == Items(w.queue)
      && v.committed == w.committed && v.dropped == w.dropped
  {
    FlushIs(w, false);
    AllMarked(w.queue);
  }

  lemma AllMarked<T>(queue: seq<Slot<T>>)
    requires RetriedPrefix(queue, 0)
    ensures var kept := AfterFailure(queue, |queue|);
      |kept| == |queue| && RetriedPrefix(kept, |kept|) && Items(kept) == Items(queue)
  {
    FailureDropsPrefix(queue, |queue|, 0);
    var kept := AfterFailure(queue, |queue|);
    forall i | 0 <= i < |kept| ensures kept[i] == Slot(queue[i].item, true) {
      assert kept[i] == Slot(queue[0 + i].item, 0 + i < |queue|);
    }
  }

  /** The second one drops everything and counts it. */
  lemma SecondFailure<T>(w: Writer<T>)
    requires Idle(w) && RetriedPrefix(w.queue, |w.queue|)
    ensures var v := Run(w, Flush(false));
      v.queue == [] && v.committed == w.committed && v.dropped == w.dropped + |w.queue|
  {
    FlushIs(w, false);
    FailureDropsPrefix(w.queue, |w.queue|, |w.queue|);
  }

  lemma BurstIsQueued<T>(w: Writer<T>, items: seq<T>)
    requires !w.closed && !w.closing && w.flight.None? && w.queue == [] && 0 < |items| <= w.capacity
    ensures var v := Run(w, Appends(items));
      Idle(v) && RetriedPrefix(v.queue, 0) && Items(v.queue) == items
      && v.committed == w.committed && v.dropped == w.dropped
  {
    AppendsQueue(w, items);
    var v := Run(w, Appends(items));
    assert forall i :: 0 <= i < |items| ==> v.queue[i] == Slot(items[i], false);
  }

  /** A burst of appends within capacity to an idle open writer, then a flush: exactly these items are
      committed, in this order. When the flush fails nothing is lost yet and the next one commits them;
      when that fails too, all of them are dropped and counted. */
  lemma BurstIsCommitted<T>(w: Writer<T>, items: seq<T>)
    requires !w.closed && !w.closing && w.flight.None? && w.queue == [] && 0 < |items| <= w.capacity
    ensures var v := Run(w, Appends(items) + Flush(true));
      v.committed == w.committed + items && v.queue == [] && v.dropped == w.dropped
    ensures var v := Run(Run(w, Appends(items) + Flush(false)), Flush(true));
      v.committed == w.committed + items && v.queue == [] && v.dropped == w.dropped
    ensures var v := Run(Run(w, Appends(items) + Flush(false)), Flush(false));
      v.committed == w.committed && v.queue == [] && v.dropped == w.dropped + |items|
  {
    BurstIsQueued(w, items);
    RunConcat(w, Appends(items), Flush(true));
    RunConcat(w, Appends(items), Flush(false));
    var q := Run(w, Appends(items));
    FlushIs(q, true);
    FirstFailure(q);
    var v := Run(q, Flush(false));
    FlushIs(v, true);
    SecondFailure(v);
    assert |Items(v.queue)| == |v.queue|;
  }

  /** Once closing, nothing is accepted any more; sealing empties the queue and counts what was in it. */
  lemma ClosingRefuses<T>(w: Writer<T>, item: T)
    ensures var v := Step(Step(w, CloseBegin), Append(item)); v.queue == w.queue && v.dropped == w.dropped + 1
    ensures var v := Step(Step(w, CloseBegin), Event.Seal);
      v.closed && v.queue == [] && v.dropped == w.dropped + |w.queue| && v.committed == w.committed
  {}

  // ---------- The writer itself ----------

  class Batcher<T> {
    const capacity: nat
    var queue: seq<Slot<T>>
    var dropped: nat
    var closed: bool
    var closing: bool
    ghost var flight: Option<seq<T>>
    ghost var calls: nat
    ghost var committed: seq<T>
    ghost var handed: seq<T>

    ghost function View(): Writer<T>
      reads this
    {
      Writer(capacity, queue, dropped, closing, closed, flight, calls, committed, handed)
    }

    constructor (capacity: nat)
      ensures View() == Fresh(capacity)
    {
      this.capacity := capacity;
      queue, dropped, closed, closing := [], 0, false, false;
      flight, calls, committed, handed := None, 0, [], [];
    }

    method Append(item: T) returns (accepted: bool)
      modifies this
      ensures View() == Step(old(View()), Event.Append(item))
      ensures accepted <==> !old(closed) && !old(closing) && |old(queue)| < capacity
      ensures queue == (if accepted then old(queue) + [Slot(item, false)] else old(queue))
      ensures dropped == if accepted then old(dropped) else old(dropped) + 1
    {
      calls := calls + 1;
      if closed || closing || |queue| >= capacity {
        dropped := dropped + 1;
        return false;
      }
      queue := queue + [Slot(item, false)];
      accepted := true;
    }

    /** The locked part before the flush function runs; no batch when closed or empty. */
    method BeginFlush() returns (batch: Option<seq<T>>)
      requires flight.None?
      modifies this
      ensures View() == Step(old(View()), FlushBegin) && batch == flight
      ensures batch.Some? <==> !closed && queue != []
      ensures batch.Some? ==> |batch.value| == |queue| && forall i :: 0 <= i < |queue| ==>
              batch.value[i] == queue[i].item
    {
      if closed || |queue| == 0 {
        return None;
      }
      batch := Some(seq(|queue|, i requires 0 <= i < |queue| reads this => queue[i].item));
      assert batch.value == Items(queue);
      flight := batch;
      handed := handed + batch.value;
    }

    /** The locked part after the flush function returned for a batch of n items. */
    method EndFlush(n: nat, ok: bool) returns (givenUp: nat)
      requires Bounded(View()) && flight.Some? && n == |flight.value|
      modifies this
      ensures View() == Step(old(View()), FlushEnd(ok)) && Bounded(View())
      ensures dropped == old(dropped) + givenUp && (ok ==> givenUp == 0)
      ensures committed == if ok then old(committed) + old(flight).value else old(committed)
    {
      StepConserves(View(), FlushEnd(ok));
      givenUp := 0;
      if ok {
        committed := committed + flight.value;
        queue := if n <= |queue| then queue[n..] else [];
      } else {
        givenUp := RecordFailure(n);
      }
      flight := None;
    }

    method RecordFailure(n: nat) returns (givenUp: nat)
      modifies this`queue, this`dropped
      ensures queue == AfterFailure(old(queue), n) && givenUp == |old(queue)| - |queue|
      ensures dropped == old(dropped) + givenUp
    {
      var kept: seq<Slot<T>> := [];
      givenUp := 0;
      for i := 0 to |queue|
        invariant queue == old(queue) && kept == AfterFailure(queue[..i], n)
        invariant givenUp == i - |kept| && dropped == old(dropped) + givenUp
      {
        assert queue[..i + 1][..i] == queue[..i];
        var slot := queue[i];
        if i < n {
          if slot.retried {
            dropped := dropped + 1;
            givenUp := givenUp + 1;
            continue;
          }
          slot := slot.(retried := true);
        }
        kept := kept + [slot];
      }
      assert queue[..|queue|] == queue;
      queue := kept;
    }

    method BeginClose()
      modifies this
      ensures View() == Step(old(View()), CloseBegin) && closing
    {
      closing := true;
    }

    /** Anything still queued is counted as dropped. */
    method Seal()
      requires closing
      modifies this
      ensures View() == Step(old(View()), Event.Seal)
      ensures closed && queue == [] && dropped == old(dropped) + |old(queue)|
    {
      closed := true;
      dropped := dropped + |queue|;
      queue := [];
    }
  }
}
