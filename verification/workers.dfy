/** Resizing the default worker pool while it runs (ResizeWorkers and shouldRetire in core/scheduler.go). */
module Workers {
  const INT32_MAX := 0x7FFF_FFFF
  const DEFAULT_CONCURRENCY := 100

  /** Conversion of an int to int32. */
  function Wrap32(x: int): (w: int)
    ensures -INT32_MAX - 1 <= w <= INT32_MAX
    ensures w == x <==> -INT32_MAX - 1 <= x <= INT32_MAX
  {
    (x + INT32_MAX + 1) % 0x1_0000_0000 - INT32_MAX - 1
  }

  /** `alive` is what the default pool contributes to the wait group; `channel` is the capacity the
      work channel was really built with. */
  datatype Pool = Pool(up: bool, concurrency: int, queueCapacity: int, target: int, retire: int, alive: int,
                       channel: int)
  {
    /** The queue capacity shown in the runtime statistics. */
    function Reported(): int {
      if queueCapacity <= 0 then concurrency else queueCapacity
    }

    /** The accounting of one generation: everyone alive is wanted or owed to retirement. */
    predicate Balanced() {
      alive == target + retire && retire >= 0 && Reported() == channel
    }
  }

  datatype Event =
    | SetConcurrency(n: int)
    | SetQueueCapacity(n: int)
    | Resize(n: int)
    | Start
    | Stop
    | LoopTop        // a worker reaches the top of its loop
    | SeeStop        // a worker sees the stop signal and leaves

  function Step(p: Pool, e: Event): Pool {
    match e
    case SetConcurrency(n) =>
      var m := if n <= 0 then DEFAULT_CONCURRENCY else n;
      if p.up then p else p.(concurrency := m, target := Wrap32(m))
    case SetQueueCapacity(n) => if p.up then p else p.(queueCapacity := if n < 0 then 0 else n)
    case Resize(n) =>
      if n <= 0 then p
      else if !p.up then p.(concurrency := n, target := Wrap32(n))
      else if n == p.target then p
      else if n > p.target then p.(target := Wrap32(n), alive := p.alive + (n - p.target))
      else p.(target := Wrap32(n), retire := Wrap32(p.retire + Wrap32(p.target - n)))
    case Start =>
      if p.up then p
      else p.(up := true, retire := 0, target := Wrap32(p.concurrency), alive := p.alive + p.concurrency,
              channel := p.Reported())
    case Stop => p.(up := false)
    case LoopTop => if p.alive > 0 && p.retire > 0 then p.(retire := p.retire - 1, alive := p.alive - 1) else p
    case SeeStop => if !p.up && p.alive > 0 then p.(alive := p.alive - 1) else p
  }

  /** The sizes fit in the 32-bit counters, and a start waits for the previous generation's workers:
      checks a caller can make beforehand. */
  predicate Fits(p: Pool, e: Event) {
    match e
    case Resize(n) => p.up && n > 0 ==> n <= INT32_MAX && (n < p.target ==> p.retire + p.target - n <= INT32_MAX)
    case Start => !p.up ==> p.concurrency <= INT32_MAX && p.alive == 0
    case _ => true
  }

  ghost predicate Sane(p: Pool) {
    p.concurrency >= 1 && p.alive >= 0 && p.target <= INT32_MAX && (p.up ==> 1 <= p.target && p.Balanced())
  }

  /** A resize of a running pool keeps the accounting if and only if the sizes fit. */
  lemma ResizeKeepsBalanceIff(p: Pool, n: int)
    requires Sane(p) && p.up
    ensures Step(p, Resize(n)).Balanced() <==> Fits(p, Resize(n))
  {}

  /** A start is accounted for if and only if the worker count fits and nobody is left from before. */
  lemma StartIsBalancedIff(p: Pool)
    requires Sane(p) && !p.up
    ensures Step(p, Start).Balanced() <==> Fits(p, Start)
  {}

  ghost function Run(p: Pool, events: seq<Event>): Pool
    decreases |events|
  {
    if events == [] then p else Run(Step(p, events[0]), events[1..])
  }

  ghost predicate AllFit(p: Pool, events: seq<Event>)
    decreases |events|
  {
    events == [] || (Fits(p, events[0]) && AllFit(Step(p, events[0]), events[1..]))
  }

  /** Over every interleaving of resizes, retirements, stops and starts: while up, the workers alive
      are the target plus the owed retirements, never fewer than the target, and at zero balance
      exactly the target; the reported capacity is that of the channel in use. */
  lemma {:induction false} AccountingHolds(p: Pool, events: seq<Event>)
    requires Sane(p) && AllFit(p, events)
    ensures var q := Run(p, events);
      Sane(q) && (q.up ==> q.alive == q.target + q.retire && q.retire >= 0
                           && (q.retire == 0 ==> q.alive == q.target) && q.Reported() == q.channel)
    decreases |events|
  {
    if events != [] {
      StepStaysSane(p, events[0]);
      AccountingHolds(Step(p, events[0]), events[1..]);
    }
  }

  lemma StepStaysSane(p: Pool, e: Event)
    requires Sane(p) && Fits(p, e)
    ensures Sane(Step(p, e))
  {}

  /** However many retirements are owed, they converge: as many loop tops leave exactly the target. */
  lemma {:induction false} RetirementsConverge(p: Pool, tops: nat)
    requires Sane(p) && p.up && tops >= p.retire
    ensures var q := Run(p, seq(tops, _ => LoopTop)); q.up && q.retire == 0 && q.alive == q.target == p.target
    decreases tops
  {
    if tops > 0 {
      var events := seq(tops, _ => LoopTop);
      assert events[1..] == seq(tops - 1, _ => LoopTop);
      RetirementsConverge(Step(p, LoopTop), tops - 1);
    }
  }

  /** A resize of a running pool: the new target is n, more workers are there at once, fewer are owed; once as
      many workers as are owed have passed the top of their loop, exactly n are alive. */
  lemma ResizeReaches(p: Pool, n: int, tops: nat)
    requires Sane(p) && p.up && n > 0 && Fits(p, Resize(n)) && tops >= Step(p, Resize(n)).retire
    ensures var q := Step(p, Resize(n));
      && q.target == n && q.up && q.concurrency == p.concurrency && q.channel == p.channel
      && q.alive == (if n > p.target then p.alive + (n - p.target) else p.alive)
      && q.retire == (if n < p.target then p.retire + (p.target - n) else p.retire)
      && Run(q, seq(tops, _ => LoopTop)).alive == n
  {
    StepStaysSane(p, Resize(n));
    RetirementsConverge(Step(p, Resize(n)), tops);
  }

  /** Settings made while stopped take effect at the next start, and none while running: n workers (by default
      100) and a queue of the given capacity, or, when that is not positive, as many places as workers. */
  lemma SettingsTakeEffect(p: Pool, n: int, capacity: int)
    ensures p.up ==> Step(p, SetConcurrency(n)) == p && Step(p, SetQueueCapacity(capacity)) == p && Step(p, Start) == p
    ensures !p.up ==>
      var workers := if n <= 0 then 100 else n;
      var q := Step(Step(Step(p, SetConcurrency(n)), SetQueueCapacity(capacity)), Start);
      && q.up && q.retire == 0 && q.alive == p.alive + workers && (workers <= INT32_MAX ==> q.target == workers)
      && q.channel == if capacity <= 0 then workers else capacity
    ensures !p.up && n > 0 ==>
      var q := Step(Step(p, Resize(n)), Start); q.alive == p.alive + n && (n <= INT32_MAX ==> q.target == n)
    ensures Step(p, Stop) == p.(up := false)
  {}

  class WorkerPool {
    var running: bool
    var concurrency: int
    var queueCapacity: int
    var targetWorkers: int
    var retireRequests: int
    var wg: int
    var channelCapacity: int

    ghost function View(): Pool
      reads this
    {
      Pool(running, concurrency, queueCapacity, targetWorkers, retireRequests, wg, channelCapacity)
    }

    constructor ()
      ensures Sane(View()) && !running && wg == 0
    {
      running, concurrency, queueCapacity := false, DEFAULT_CONCURRENCY, 0;
      targetWorkers, retireRequests, wg, channelCapacity := DEFAULT_CONCURRENCY, 0, 0, 0;
    }

    /** Grows at once, shrinks by owing retirements; never touches concurrency while running, so the
        reported queue capacity stays true. */
    method ResizeWorkers(n: int) returns (ok: bool)
      modifies this
      ensures ok <==> n > 0
      ensures View() == Step(old(View()), Resize(n))
    {
      if n <= 0 {
        return false;
      }
      ok := true;
      if !running {
        concurrency := n;
        targetWorkers := Wrap32(n);
        return;
      }
      var current := targetWorkers;
      if n == current {
        return;
      }
      targetWorkers := Wrap32(n);
      if n > current {
        wg := wg + (n - current);
      } else {
        retireRequests := Wrap32(retireRequests + Wrap32(current - n));
      }
    }

    /** Consumes one owed retirement; true tells the calling worker to leave, which it does. */
    method ShouldRetire() returns (leave: bool)
      requires wg > 0
      modifies this
      ensures View() == Step(old(View()), LoopTop) && (leave <==> old(retireRequests) > 0)
    {
      leave := retireRequests > 0;
      if leave {
        retireRequests := retireRequests - 1;
        wg := wg - 1;
      }
    }

    method SetConcurrency(n: int)
      modifies this
      ensures View() == Step(old(View()), Event.SetConcurrency(n))
    {
      var m := if n <= 0 then DEFAULT_CONCURRENCY else n;
      if running {
        return;
      }
      concurrency := m;
      targetWorkers := Wrap32(m);
    }

    method SetQueueCapacity(n: int)
      modifies this
      ensures View() == Step(old(View()), Event.SetQueueCapacity(n))
    {
      if running {
        return;
      }
      queueCapacity := if n < 0 then 0 else n;
    }

    method Start()
      modifies this
      ensures View() == Step(old(View()), Event.Start)
    {
      if running {
        return;
      }
      running, retireRequests := true, 0;
      targetWorkers := Wrap32(concurrency);
      channelCapacity := if queueCapacity <= 0 then concurrency else queueCapacity;
      wg := wg + concurrency;
    }

    method Stop()
      modifies this
      ensures View() == Step(old(View()), Event.Stop)
    {
      running := false;
    }

    method RuntimeQueueCapacity() returns (capacity: int)
      ensures capacity == View().Reported()
      ensures Sane(View()) && running ==> capacity == channelCapacity
    {
      capacity := if queueCapacity <= 0 then concurrency else queueCapacity;
    }
  }
}
