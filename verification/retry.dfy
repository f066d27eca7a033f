/** Retry copies and the exponential backoff between them (core/retry.go, CloneForRetry in core/job.go). */
module Retry {
  import opened Jobs

  const INT64_MAX := 0x7FFF_FFFF_FFFF_FFFF
  const INT64_SPAN := 0x1_0000_0000_0000_0000

  /** Two's complement wrap-around of a 64-bit signed result. */
  function Wrap64(x: int): (w: int)
    ensures -INT64_MAX - 1 <= w <= INT64_MAX
    ensures -INT64_MAX - 1 <= x <= INT64_MAX ==> w == x
  {
    (x + INT64_MAX + 1) % INT64_SPAN - INT64_MAX - 1
  }

  function Pow2(k: nat): (p: nat)
    ensures p >= 1
  {
    if k == 0 then 1 else 2 * Pow2(k - 1)
  }

  function Pow4(k: nat): (p: nat)
    ensures p >= 1
  {
    if k == 0 then 1 else 4 * Pow4(k - 1)
  }

  /** math.Pow(2, retryCount) converted to a 64-bit integer; beyond 2^62 the conversion is
      platform-defined and `overflow` stands for whatever it yields. */
  function PowerToInt64(retryCount: int, overflow: int): int {
    if retryCount < 0 then 0 else if retryCount <= 62 then Pow2(retryCount) else overflow
  }

  /** The delay before jitter. */
  function BackoffDelay(job: Job, maxDelay: int, overflow: int): (delay: int)
    ensures delay <= INT64_MAX || delay == maxDelay
  {
    var delay := Wrap64(job.retryDelay * PowerToInt64(job.retryCount, overflow));
    if maxDelay > 0 && delay > maxDelay then maxDelay else delay
  }

  function Jitter(draw: real, delay: int): int {
    (0.2 * (draw * (delay as real))).Floor
  }

  /** The retry instant: `draw` is the random number in [0, 1), the jitter whole nanoseconds. */
  function NextRetry(job: Job, maxDelay: int, overflow: int, now: int, draw: real): int {
    var delay := BackoffDelay(job, maxDelay, overflow);
    now + delay + Jitter(draw, delay)
  }

  function CloneForRetry(job: Job, nextTime: int, now: int): Job {
    job.(triggerAt := nextTime, cron := false, retryCount := job.retryCount + 1,
         retryDelay := Wrap64(job.retryDelay * 2), status := Pending, updatedAt := now, pool := DefaultPool)
  }

  /** The successive retry copies of a job, one for each pair (retry instant, clock reading). */
  function Retried(job: Job, instants: seq<(int, int)>): Job {
    if instants == [] then job
    else
      var last := |instants| - 1;
      CloneForRetry(Retried(job, instants[..last]), instants[last].0, instants[last].1)
  }

  lemma {:induction false} Pow4IsSquare(k: nat)
    ensures Pow4(k) == Pow2(k) * Pow2(k)
  {
    if k > 0 { Pow4IsSquare(k - 1); }
  }

  lemma {:induction false} Pow2Grows(k: nat, n: nat)
    requires k <= n
    ensures Pow2(k) <= Pow2(n)
  {
    if k < n { Pow2Grows(k, n - 1); }
  }

  lemma Pow2Of32()
    ensures Pow2(32) == 0x1_0000_0000
  {
    assert Pow2(8) == 256;
    assert Pow2(16) == 65536;
    assert Pow2(24) == 0x100_0000;
  }

  lemma ProductBounds(base: nat, a: nat, b: nat)
    requires a >= 1 && b >= 1
    ensures base * a <= base * (a * b) && (base >= 1 ==> a * b <= base * (a * b))
  {}

  /** After k retries the count is k and, while base * 2^k fits, the base delay has doubled k times. */
  lemma {:induction false} RetriesDouble(job: Job, instants: seq<(int, int)>)
    requires job.retryCount == 0 && job.retryDelay >= 0
    requires job.retryDelay * Pow2(|instants|) <= INT64_MAX
    ensures var last := Retried(job, instants);
            last.retryCount == |instants| && last.retryDelay == job.retryDelay * Pow2(|instants|)
            && last.id == job.id && last.maxRetries == job.maxRetries
  {
    if instants != [] {
      var k := |instants|;
      DoubleStep(job.retryDelay, k);
      RetriesDouble(job, instants[..k - 1]);
    }
  }

  lemma DoubleStep(base: nat, k: nat)
    requires k > 0
    ensures base * Pow2(k) == 2 * (base * Pow2(k - 1)) && base * Pow2(k - 1) <= base * Pow2(k)
  {}

  /** If base * 4^k fits in 64 bits then so does base * 2^k. */
  lemma FittingSquare(base: nat, k: nat)
    requires base * Pow4(k) <= INT64_MAX
    ensures base * Pow2(k) <= INT64_MAX && (base * Pow2(k)) * Pow2(k) == base * Pow4(k)
  {
    var p := Pow2(k);
    Pow4IsSquare(k);
    ProductBounds(base, p, p);
    assert (base * p) * p == base * (p * p);
  }

  /** And 2^k is then small enough for the conversion to be exact. */
  lemma FittingExponent(base: nat, k: nat)
    requires base >= 1 && base * Pow4(k) <= INT64_MAX
    ensures k <= 62
  {
    var p := Pow2(k);
    Pow4IsSquare(k);
    ProductBounds(base, p, p);
    assert p * p <= INT64_MAX;
    if k > 62 {
      Pow2Grows(32, k);
      Pow2Of32();
      SquareIsLarge(p);
    }
  }

  lemma SquareIsLarge(p: nat)
    requires p >= 0x1_0000_0000
    ensures p * p > INT64_MAX
  {
    assert p * p >= p * 0x1_0000_0000;
  }

  lemma PowersMeet(base: nat, k: nat, overflow: int)
    requires base * Pow4(k) <= INT64_MAX
    ensures (base * Pow2(k)) * PowerToInt64(k, overflow) == base * Pow4(k)
  {
    FittingSquare(base, k);
    if base == 0 {
      assert base * Pow2(k) == 0;
    } else {
      FittingExponent(base, k);
    }
  }

  lemma CompoundedProduct(job: Job, instants: seq<(int, int)>, overflow: int)
    requires job.retryCount == 0 && job.retryDelay >= 0
    requires job.retryDelay * Pow4(|instants|) <= INT64_MAX
    ensures var last := Retried(job, instants);
            last.retryDelay * PowerToInt64(last.retryCount, overflow) == job.retryDelay * Pow4(|instants|)
  {
    FittingSquare(job.retryDelay, |instants|);
    RetriesDouble(job, instants);
    PowersMeet(job.retryDelay, |instants|, overflow);
  }

  /** The k-th retry waits base * 4^k, clamped by a positive maximum: the 2^k of the policy
      compounds with the doubling of the copies. */
  lemma CompoundedBackoff(job: Job, instants: seq<(int, int)>, maxDelay: int, overflow: int)
    requires job.retryCount == 0 && job.retryDelay >= 0
    requires job.retryDelay * Pow4(|instants|) <= INT64_MAX
    ensures var delay := job.retryDelay * Pow4(|instants|);
            BackoffDelay(Retried(job, instants), maxDelay, overflow)
              == if maxDelay > 0 && delay > maxDelay then maxDelay else delay
  {
    CompoundedProduct(job, instants, overflow);
    DelayOf(Retried(job, instants), maxDelay, overflow, job.retryDelay * Pow4(|instants|));
  }

  lemma DelayOf(job: Job, maxDelay: int, overflow: int, product: nat)
    requires job.retryDelay * PowerToInt64(job.retryCount, overflow) == product <= INT64_MAX
    ensures BackoffDelay(job, maxDelay, overflow) == if maxDelay > 0 && product > maxDelay then maxDelay else product
  {}

  /** Without a maximum, the delay is base * 4^k exactly when that product fits in 64 bits. */
  lemma UnclampedBackoffIff(job: Job, instants: seq<(int, int)>, overflow: int)
    requires job.retryCount == 0 && job.retryDelay >= 0
    ensures var delay := job.retryDelay * Pow4(|instants|);
            BackoffDelay(Retried(job, instants), 0, overflow) == delay <==> delay <= INT64_MAX
  {
    if job.retryDelay * Pow4(|instants|) <= INT64_MAX {
      CompoundedBackoff(job, instants, 0, overflow);
    }
  }

  /** A base delay of one minute, in nanoseconds: after 14 retries the product no longer fits. */
  lemma MinuteOverflowsAt14(job: Job, instants: seq<(int, int)>, overflow: int)
    requires job.retryCount == 0 && job.retryDelay == 60_000_000_000 && |instants| == 14
    ensures BackoffDelay(Retried(job, instants), 0, overflow) != job.retryDelay * Pow4(14)
  {
    assert Pow4(7) == 16384;
    assert Pow4(14) == 268435456;
    UnclampedBackoffIff(job, instants, overflow);
  }

  /** Jitter only delays, by at most a fifth of the delay. */
  lemma JitterWithinFifth(job: Job, maxDelay: int, overflow: int, now: int, draw: real)
    requires 0.0 <= draw < 1.0 && BackoffDelay(job, maxDelay, overflow) >= 0
    ensures var delay := BackoffDelay(job, maxDelay, overflow);
            var at := NextRetry(job, maxDelay, overflow, now, draw);
            now + delay <= at && 5 * (at - now - delay) <= delay
  {
    var delay := BackoffDelay(job, maxDelay, overflow);
    FloorOfFifth(draw, delay);
  }

  /** The jitter is that fraction of a fifth of the delay which the draw says, in whole nanoseconds. */
  lemma JitterIsShare(job: Job, maxDelay: int, overflow: int, now: int, draw: real)
    ensures var delay := BackoffDelay(job, maxDelay, overflow);
      var jitter := (NextRetry(job, maxDelay, overflow, now, draw) - now - delay) as real;
      jitter <= 0.2 * (draw * (delay as real)) < jitter + 1.0
  {}

  lemma FloorOfFifth(draw: real, delay: nat)
    requires 0.0 <= draw < 1.0
    ensures 0 <= 5 * Jitter(draw, delay) <= delay
  {
    var x := FractionOf(draw, delay);
    FifthRoundsDown(x, delay);
  }

  lemma {:induction false} FractionOf(draw: real, n: nat) returns (x: real)
    requires 0.0 <= draw < 1.0
    ensures x == draw * (n as real) && 0.0 <= x <= n as real
  {
    if n == 0 {
      x := 0.0;
    } else {
      var rest := FractionOf(draw, n - 1);
      x := rest + draw;
      assert n as real == (n - 1) as real + 1.0;
    }
  }

  lemma FifthRoundsDown(x: real, delay: nat)
    requires 0.0 <= x <= delay as real
    ensures 0 <= 5 * (0.2 * x).Floor <= delay
  {}
}
