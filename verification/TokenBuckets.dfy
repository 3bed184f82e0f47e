/**
 The lazily refilled token bucket.

 First the bucket as a value with the sequential operations, then the step system of any number of
 threads whose refills take two separate compare-and-swaps, and last the class itself.
 */
module TokenBuckets {
  import opened Common

  const NANOS_PER_SEC: nat := 1_000_000_000
  const U64_MAX: nat := 0xFFFF_FFFF_FFFF_FFFF
  const BATCH: nat := 64 * 1024

  datatype Bucket = Bucket(tokens: nat, maxTokens: nat, refillRateNanos: nat, lastRefill: nat)

  /** Nanoseconds per token; a rate of 0, or one above a token per nanosecond, gives 0. */
  function RateNanos(refillPerSec: nat): nat {
    if refillPerSec == 0 then 0 else NANOS_PER_SEC / refillPerSec
  }

  function NewBucket(maxTokens: nat, refillPerSec: nat, now: nat): Bucket {
    Bucket(maxTokens, maxTokens, RateNanos(refillPerSec), now)
  }

  predicate IsUnlimited(b: Bucket) {
    b.maxTokens == U64_MAX && b.refillRateNanos == 0
  }

  /** Tokens credited when the first half of a refill moves `lastRefill` to `now`. */
  function Credit(b: Bucket, now: nat): nat
    requires b.refillRateNanos > 0 && now > b.lastRefill
  {
    Min((now - b.lastRefill) / b.refillRateNanos, b.maxTokens)
  }

  function Refilled(b: Bucket, now: nat): Bucket {
    if b.refillRateNanos == 0 || now <= b.lastRefill then b
    else b.(tokens := Min(b.tokens + Credit(b, now), b.maxTokens), lastRefill := now)
  }

  function TryConsume(b: Bucket, now: nat, amount: nat): (Bucket, bool) {
    if IsUnlimited(b) then (b, true)
    else
      var b1 := Refilled(b, now);
      if b1.tokens < amount then (b1, false) else (b1.(tokens := b1.tokens - amount), true)
  }

  // ---- arithmetic -------------------------------------------------------------------------------

  lemma DivIsFloor(a: nat, r: nat, q: nat)
    requires r > 0 && r * q <= a
    ensures q <= a / r
  {
    var d: int := q - a / r;
    assert a == r * (a / r) + a % r;
    assert r * d == r * q - r * (a / r);
    SmallFactor(r, d);
  }

  lemma SmallFactor(r: nat, d: int)
    requires r * d < r
    ensures d < 1
  {
  }

  /** Rounding every interval down loses time, never gains it. */
  lemma FloorsAddUp(a: nat, b: nat, r: nat)
    requires r > 0
    ensures a / r + b / r <= (a + b) / r
  {
    assert a == r * (a / r) + a % r;
    assert b == r * (b / r) + b % r;
    assert r * (a / r + b / r) == r * (a / r) + r * (b / r);
    DivIsFloor(a + b, r, a / r + b / r);
  }

  lemma DivMonotone(a: nat, b: nat, r: nat)
    requires r > 0 && a <= b
    ensures a / r <= b / r
  {
    FloorsAddUp(a, b - a, r);
  }

  // ---- all interleavings ------------------------------------------------------------------------

  /** `inFlight[t]` is what thread t has credited but not yet deposited. The rest is history. */
  datatype Shared = Shared(
    bucket: Bucket,
    inFlight: seq<nat>,
    start: nat,
    consumed: nat,
    credited: nat,
    discarded: nat)

  datatype Access =
    | MoveClock(t: nat, now: nat)
    | Deposit(t: nat)
    | Take(amount: nat)

  predicate CanAccess(s: Shared, a: Access) {
    match a
    case MoveClock(t, now) =>
      && t < |s.inFlight| && s.inFlight[t] == 0
      && s.bucket.refillRateNanos > 0 && now > s.bucket.lastRefill
    case Deposit(t) => t < |s.inFlight| && s.inFlight[t] > 0
    case Take(amount) => !IsUnlimited(s.bucket) && amount <= s.bucket.tokens
  }

  function AccessTo(s: Shared, a: Access): Shared
    requires CanAccess(s, a)
  {
    match a
    case MoveClock(t, now) =>
      var refill := Credit(s.bucket, now);
      s.(bucket := s.bucket.(lastRefill := now), inFlight := s.inFlight[t := refill], credited := s.credited + refill)
    case Deposit(t) =>
      var sum := s.bucket.tokens + s.inFlight[t];
      var tokens := Min(sum, s.bucket.maxTokens);
      s.(bucket := s.bucket.(tokens := tokens), inFlight := s.inFlight[t := 0], discarded := s.discarded + sum - tokens)
    case Take(amount) =>
      s.(bucket := s.bucket.(tokens := s.bucket.tokens - amount), consumed := s.consumed + amount)
  }

  predicate CanRunAll(s: Shared, run: seq<Access>)
    decreases |run|
  {
    run == [] || (CanAccess(s, run[0]) && CanRunAll(AccessTo(s, run[0]), run[1..]))
  }

  function RunAll(s: Shared, run: seq<Access>): Shared
    requires CanRunAll(s, run)
    decreases |run|
  {
    if run == [] then s else RunAll(AccessTo(s, run[0]), run[1..])
  }

  function Sum(xs: seq<nat>): nat {
    if xs == [] then 0 else xs[0] + Sum(xs[1..])
  }

  lemma {:induction false} SumOfUpdate(xs: seq<nat>, i: nat, x: nat)
    requires i < |xs|
    ensures Sum(xs[i := x]) == Sum(xs) - xs[i] + x
  {
    if i == 0 {
      assert xs[i := x][1..] == xs[1..];
    } else {
      SumOfUpdate(xs[1..], i - 1, x);
      assert xs[i := x][1..] == xs[1..][i - 1 := x];
    }
  }

  ghost predicate Fresh(s: Shared, maxTokens: nat, refillPerSec: nat) {
    && s.bucket == NewBucket(maxTokens, refillPerSec, s.start)
    && (forall t :: 0 <= t < |s.inFlight| ==> s.inFlight[t] == 0)
    && s.consumed == 0 && s.credited == 0 && s.discarded == 0
  }

  /** No token appears or vanishes, and credit never outruns the clock. */
  ghost predicate Conserved(s: Shared) {
    && s.bucket.tokens <= s.bucket.maxTokens
    && (forall t :: 0 <= t < |s.inFlight| ==> s.inFlight[t] <= s.bucket.maxTokens)
    && s.bucket.tokens + s.consumed + Sum(s.inFlight) + s.discarded == s.bucket.maxTokens + s.credited
    && s.start <= s.bucket.lastRefill
    && s.credited <= (if s.bucket.refillRateNanos == 0 then 0
                      else (s.bucket.lastRefill - s.start) / s.bucket.refillRateNanos)
  }

  lemma ConservedStep(s: Shared, a: Access)
    requires Conserved(s) && CanAccess(s, a)
    ensures Conserved(AccessTo(s, a))
    ensures AccessTo(s, a).bucket.lastRefill >= s.bucket.lastRefill
    ensures AccessTo(s, a).bucket.maxTokens == s.bucket.maxTokens
    ensures AccessTo(s, a).bucket.refillRateNanos == s.bucket.refillRateNanos
    ensures AccessTo(s, a).start == s.start
  {
    match a
    case MoveClock(t, now) =>
      SumOfUpdate(s.inFlight, t, Credit(s.bucket, now));
      FloorsAddUp(s.bucket.lastRefill - s.start, now - s.bucket.lastRefill, s.bucket.refillRateNanos);
    case Deposit(t) => SumOfUpdate(s.inFlight, t, 0);
    case Take(_) =>
  }

  lemma {:induction false} ConservedRun(s: Shared, run: seq<Access>)
    requires Conserved(s) && CanRunAll(s, run)
    ensures var s' := RunAll(s, run);
      && Conserved(s') && s'.bucket.maxTokens == s.bucket.maxTokens
      && s'.bucket.refillRateNanos == s.bucket.refillRateNanos && s'.start == s.start
    decreases |run|
  {
    if run != [] {
      ConservedStep(s, run[0]);
      ConservedRun(AccessTo(s, run[0]), run[1..]);
    }
  }

  lemma {:induction false} SumOfZeros(xs: seq<nat>)
    requires forall t :: 0 <= t < |xs| ==> xs[t] == 0
    ensures Sum(xs) == 0
  {
    if xs != [] {
      SumOfZeros(xs[1..]);
    }
  }

  /** Conservation over every interleaving, whatever the clock does, and the bound it gives. */
  lemma TokensAreConserved(s: Shared, maxTokens: nat, refillPerSec: nat, run: seq<Access>)
    requires Fresh(s, maxTokens, refillPerSec) && CanRunAll(s, run)
    ensures var s' := RunAll(s, run);
      && s'.bucket.tokens <= maxTokens
      && (forall t :: 0 <= t < |s'.inFlight| ==> s'.inFlight[t] <= maxTokens)
      && s'.bucket.tokens + s'.consumed + Sum(s'.inFlight) + s'.discarded == maxTokens + s'.credited
      && s'.bucket.lastRefill >= s.start
      && s'.consumed <= maxTokens + (if RateNanos(refillPerSec) == 0 then 0
                                     else (s'.bucket.lastRefill - s.start) / RateNanos(refillPerSec))
  {
    SumOfZeros(s.inFlight);
    ConservedRun(s, run);
  }

  /** With 2 * maxTokens in range, the sum formed by a deposit never exceeds 64 bits. */
  lemma DepositFits(s: Shared, maxTokens: nat, refillPerSec: nat, run: seq<Access>, t: nat)
    requires Fresh(s, maxTokens, refillPerSec) && CanRunAll(s, run)
    requires 2 * maxTokens <= U64_MAX && t < |RunAll(s, run).inFlight|
    ensures var s' := RunAll(s, run); s'.bucket.tokens + s'.inFlight[t] <= U64_MAX
  {
    TokensAreConserved(s, maxTokens, refillPerSec, run);
  }

  /** A `try_consume` nobody interrupts is one of these runs: clock, deposit, take. */
  lemma TryConsumeIsARun(s: Shared, t: nat, now: nat, amount: nat) returns (run: seq<Access>)
    requires t < |s.inFlight| && s.inFlight[t] == 0 && !IsUnlimited(s.bucket)
    requires s.bucket.tokens <= s.bucket.maxTokens
    ensures CanRunAll(s, run)
    ensures var (b, ok) := TryConsume(s.bucket, now, amount);
      && RunAll(s, run).bucket == b && RunAll(s, run).inFlight == s.inFlight
      && RunAll(s, run).consumed == s.consumed + (if ok then amount else 0)
  {
    if s.bucket.refillRateNanos == 0 || now <= s.bucket.lastRefill {
      run := TakeRun(s, amount);
    } else {
      var s1 := AccessTo(s, MoveClock(t, now));
      if s1.inFlight[t] == 0 {
        assert s1.inFlight == s.inFlight && s1.bucket == Refilled(s.bucket, now);
        var take := TakeRun(s1, amount);
        RunPrepend(s, MoveClock(t, now), take);
        run := [MoveClock(t, now)] + take;
      } else {
        var s2 := AccessTo(s1, Deposit(t));
        assert s2.inFlight == s.inFlight && s2.bucket == Refilled(s.bucket, now);
        var take := TakeRun(s2, amount);
        RunPrepend(s1, Deposit(t), take);
        RunPrepend(s, MoveClock(t, now), [Deposit(t)] + take);
        run := [MoveClock(t, now)] + ([Deposit(t)] + take);
      }
    }
  }

  lemma RunPrepend(s: Shared, a: Access, rest: seq<Access>)
    requires CanAccess(s, a) && CanRunAll(AccessTo(s, a), rest)
    ensures CanRunAll(s, [a] + rest) && RunAll(s, [a] + rest) == RunAll(AccessTo(s, a), rest)
  {
  }

  lemma TakeRun(s: Shared, amount: nat) returns (run: seq<Access>)
    requires !IsUnlimited(s.bucket)
    ensures CanRunAll(s, run)
    ensures RunAll(s, run) ==
      if s.bucket.tokens < amount then s
      else s.(bucket := s.bucket.(tokens := s.bucket.tokens - amount), consumed := s.consumed + amount)
  {
    if s.bucket.tokens < amount {
      run := [];
    } else {
      run := [Take(amount)];
      assert run[1..] == [];
    }
  }

  // ---- one caller at a time ---------------------------------------------------------------------

  datatype Call = Call(now: nat, amount: nat)

  /** The clock readings of `calls` do not go back, and lie in [from, to]. */
  predicate InWindow(calls: seq<Call>, from: nat, to: nat)
    decreases |calls|
  {
    calls == [] || (from <= calls[0].now <= to && InWindow(calls[1..], calls[0].now, to))
  }

  function AfterCalls(b: Bucket, calls: seq<Call>): Bucket
    decreases |calls|
  {
    if calls == [] then b else AfterCalls(TryConsume(b, calls[0].now, calls[0].amount).0, calls[1..])
  }

  /** What `calls` get through. */
  function AmountGranted(b: Bucket, calls: seq<Call>): nat
    decreases |calls|
  {
    if calls == [] then 0
    else
      var (b1, ok) := TryConsume(b, calls[0].now, calls[0].amount);
      (if ok then calls[0].amount else 0) + AmountGranted(b1, calls[1..])
  }

  lemma {:induction false} GrantedByElapsed(b: Bucket, calls: seq<Call>, to: nat)
    requires b.refillRateNanos > 0 && b.tokens <= b.maxTokens
    requires InWindow(calls, b.lastRefill, to) && b.lastRefill <= to
    ensures AmountGranted(b, calls) <= b.tokens + (to - b.lastRefill) / b.refillRateNanos
    decreases |calls|
  {
    if calls != [] {
      var (b1, ok) := TryConsume(b, calls[0].now, calls[0].amount);
      assert b1.lastRefill == calls[0].now;
      GrantedByElapsed(b1, calls[1..], to);
      FloorsAddUp(calls[0].now - b.lastRefill, to - calls[0].now, b.refillRateNanos);
    }
  }

  /** In any window, however long the bucket was idle before, at most a burst plus the refill of the window. */
  lemma WindowBound(b: Bucket, calls: seq<Call>, from: nat, length: nat)
    requires b.refillRateNanos > 0 && b.tokens <= b.maxTokens && b.lastRefill <= from
    requires InWindow(calls, from, from + length)
    ensures AmountGranted(b, calls) <= b.maxTokens + length / b.refillRateNanos
  {
    if calls != [] {
      var first := calls[0].now;
      var b1 := Refilled(b, first);
      assert AmountGranted(b1, calls) == AmountGranted(b, calls) by {
        assert Refilled(b1, first) == b1;
      }
      GrantedByElapsed(b1, calls, from + length);
      DivMonotone(from + length - first, length, b.refillRateNanos);
    }
  }

  /** The integer division in the constructor at most doubles the configured rate. */
  lemma RateWithinTwice(refillPerSec: nat, length: nat)
    requires 1 <= refillPerSec <= NANOS_PER_SEC && length > 0
    ensures RateNanos(refillPerSec) >= 1
    ensures (length / RateNanos(refillPerSec)) * NANOS_PER_SEC < 2 * refillPerSec * length
  {
  }

  /** At a rate of 1 to 10^9 per second, a bucket left alone for `idle` nanoseconds grants exactly the amounts
      that fit its burst and do not exceed what it held plus one token for every whole interval; that is at
      least the configured rate. */
  lemma GrantIffSaved(maxTokens: nat, refillPerSec: nat, created: nat, held: nat, now: nat, idle: nat, amount: nat)
    requires 1 <= refillPerSec <= 1_000_000_000 && held <= maxTokens
    ensures var b := NewBucket(maxTokens, refillPerSec, created).(tokens := held, lastRefill := now);
      && (TryConsume(b, now + idle, amount).1 <==>
            amount <= maxTokens && amount <= held + idle / (1_000_000_000 / refillPerSec))
      && (amount <= maxTokens && (amount - held) * 1_000_000_000 <= idle * refillPerSec ==>
            TryConsume(b, now + idle, amount).1)
  {
    var rate := 1_000_000_000 / refillPerSec;
    RateWithinTwice(refillPerSec, 1);
    assert idle == 0 ==> idle / rate == 0;
    if amount > held && (amount - held) * 1_000_000_000 <= idle * refillPerSec {
      SavedAtRate(refillPerSec, rate, idle, amount - held);
    }
  }

  lemma SavedAtRate(refillPerSec: nat, rate: nat, idle: nat, k: nat)
    requires 1 <= refillPerSec && rate == 1_000_000_000 / refillPerSec && rate > 0
    requires k * 1_000_000_000 <= idle * refillPerSec
    ensures k <= idle / rate
  {
    assert rate * refillPerSec <= 1_000_000_000;
    MulMonotone(k, rate * refillPerSec, 1_000_000_000);
    assert k * (rate * refillPerSec) == (rate * k) * refillPerSec;
    CancelFactor(rate * k, idle, refillPerSec);
    DivIsFloor(idle, rate, k);
  }

  lemma MulMonotone(k: nat, a: nat, b: nat)
    requires a <= b
    ensures k * a <= k * b
  {
  }

  lemma CancelFactor(a: nat, b: nat, r: nat)
    requires r > 0 && a * r <= b * r
    ensures a <= b
  {
  }

  /** No two clock readings are as much as `rate` apart, the first counted from `from`. */
  predicate CloserThan(calls: seq<Call>, rate: nat, from: nat)
    decreases |calls|
  {
    calls == [] || (calls[0].now < from + rate && CloserThan(calls[1..], rate, Max(calls[0].now, from)))
  }

  /** What a refill rounds down is lost: a bucket asked again each time before a whole interval is over never
      refills, however long that goes on. */
  lemma {:induction false} ImpatienceStarves(b: Bucket, calls: seq<Call>)
    requires b.refillRateNanos > 0 && b.tokens <= b.maxTokens
    requires CloserThan(calls, b.refillRateNanos, b.lastRefill)
    ensures AmountGranted(b, calls) + AfterCalls(b, calls).tokens == b.tokens
    decreases |calls|
  {
    if calls != [] {
      var now := calls[0].now;
      if now > b.lastRefill {
        NoWholeInterval(now - b.lastRefill, b.refillRateNanos);
      }
      ImpatienceStarves(TryConsume(b, now, calls[0].amount).0, calls[1..]);
    }
  }

  lemma NoWholeInterval(a: nat, r: nat)
    requires a < r
    ensures a / r == 0
  {
  }

  /** A bucket without a refill rate never grants more than it was created with. */
  lemma {:induction false} GrantedWithoutRefill(b: Bucket, calls: seq<Call>)
    requires b.refillRateNanos == 0 && !IsUnlimited(b)
    ensures AmountGranted(b, calls) <= b.tokens
    decreases |calls|
  {
    if calls != [] {
      GrantedWithoutRefill(TryConsume(b, calls[0].now, calls[0].amount).0, calls[1..]);
    }
  }

  lemma {:induction false} GrantedWithoutRoom(b: Bucket, calls: seq<Call>)
    requires b.maxTokens == 0 && b.tokens == 0
    ensures AmountGranted(b, calls) == 0
    decreases |calls|
  {
    if calls != [] {
      GrantedWithoutRoom(TryConsume(b, calls[0].now, calls[0].amount).0, calls[1..]);
    }
  }

  lemma MoreThanTheBurst(b: Bucket, now: nat, later: nat)
    requires b.tokens == b.maxTokens > 0 && b.lastRefill == now <= later
    requires IsUnlimited(b) || (b.refillRateNanos > 0 && later == now + b.refillRateNanos)
    ensures AmountGranted(b, [Call(now, b.maxTokens), Call(later, 1)]) > b.maxTokens
  {
    var calls := [Call(now, b.maxTokens), Call(later, 1)];
    var b1 := TryConsume(b, now, b.maxTokens).0;
    assert calls[1..] == [calls[1]] && calls[1..][1..] == [];
    assert b.refillRateNanos > 0 ==> b.refillRateNanos / b.refillRateNanos == 1;
    assert TryConsume(b, now, b.maxTokens).1 && TryConsume(b1, later, 1).1;
    assert AmountGranted(b1, calls[1..]) == 1;
  }

  /** A bucket never lets more than its burst through, however long it is used, exactly if it has no room at
      all, or its rate is 0 or above 10^9 per second and it does not thereby count as unlimited. */
  lemma RefillsExactlyInRange(maxTokens: nat, refillPerSec: nat, now: nat)
    requires maxTokens <= 0xFFFF_FFFF_FFFF_FFFF
    ensures (forall calls: seq<Call> :: AmountGranted(NewBucket(maxTokens, refillPerSec, now), calls) <= maxTokens)
      <==> maxTokens == 0 || (!(1 <= refillPerSec <= 1_000_000_000) && maxTokens != 0xFFFF_FFFF_FFFF_FFFF)
  {
    var b := NewBucket(maxTokens, refillPerSec, now);
    if 1 <= refillPerSec <= NANOS_PER_SEC {
      RateWithinTwice(refillPerSec, 1);
    }
    if maxTokens == 0 {
      forall calls: seq<Call>
        ensures AmountGranted(b, calls) <= maxTokens
      {
        GrantedWithoutRoom(b, calls);
      }
    } else if b.refillRateNanos > 0 || maxTokens == U64_MAX {
      MoreThanTheBurst(b, now, now + b.refillRateNanos);
    } else {
      forall calls: seq<Call>
        ensures AmountGranted(b, calls) <= maxTokens
      {
        GrantedWithoutRefill(b, calls);
      }
    }
  }

  // ---- waiting ----------------------------------------------------------------------------------

  /** What one turn of the waiting loop finds: the cancellation flag, and the clock after the sleep. */
  datatype Tick = Tick(cancelled: bool, now: nat)

  datatype Wait = Granted | Cancelled | StillWaiting

  /** The bucket, the outcome, and what is left to take, after the turns in `ticks`. */
  function WaitLoop(b: Bucket, remaining: nat, ticks: seq<Tick>): (Bucket, Wait, nat)
    decreases |ticks|
  {
    if remaining == 0 then (b, Wait.Granted, 0)
    else if ticks == [] then (b, StillWaiting, remaining)
    else if ticks[0].cancelled then (b, Cancelled, remaining)
    else
      var batch := Min(remaining, BATCH);
      var (b1, ok) := TryConsume(b, ticks[0].now, batch);
      WaitLoop(b1, if ok then remaining - batch else remaining, ticks[1..])
  }

  function WaitFor(b: Bucket, now: nat, bytes: nat, ticks: seq<Tick>): (Bucket, Wait, nat) {
    var (b1, ok) := TryConsume(b, now, bytes);
    if ok then (b1, Wait.Granted, 0) else WaitLoop(b1, bytes, ticks)
  }

  /** A wait ends at the first turn that finds the cancellation, unless it was granted before. */
  lemma {:induction false} CancelledAt(b: Bucket, remaining: nat, before: seq<Tick>, tick: Tick, after: seq<Tick>)
    requires tick.cancelled && forall t :: t in before ==> !t.cancelled
    ensures var (b1, outcome, left) := WaitLoop(b, remaining, before);
      && !outcome.Cancelled? && (outcome.Granted? <==> left == 0)
      && WaitLoop(b, remaining, before + [tick] + after) ==
           (b1, if left == 0 then Wait.Granted else Cancelled, left)
    decreases |before|
  {
    var ticks := before + [tick] + after;
    if before != [] && remaining > 0 {
      var batch := Min(remaining, BATCH);
      var (b1, ok) := TryConsume(b, before[0].now, batch);
      assert ticks[1..] == before[1..] + [tick] + after;
      assert before[0] in before;
      CancelledAt(b1, if ok then remaining - batch else remaining, before[1..], tick, after);
    }
  }

  /** The same from the call on: the first attempt does not look at the cancellation. */
  lemma WaitIsCancelledAt(b: Bucket, now: nat, bytes: nat, before: seq<Tick>, tick: Tick, after: seq<Tick>)
    requires tick.cancelled && forall t :: t in before ==> !t.cancelled
    ensures var (b1, outcome, left) := WaitFor(b, now, bytes, before);
      && !outcome.Cancelled?
      && WaitFor(b, now, bytes, before + [tick] + after) ==
           (b1, if outcome.Granted? then Wait.Granted else Cancelled, left)
  {
    CancelledAt(TryConsume(b, now, bytes).0, bytes, before, tick, after);
  }

  /** The first attempt asks for everything and ignores the cancellation; each later turn asks for 64 KiB or for
      what is left, all or nothing. */
  lemma TurnsOfAWait(b: Bucket, now: nat, bytes: nat, tick: Tick)
    requires bytes > 0
    ensures WaitFor(b, now, bytes, []).2 == (if IsUnlimited(b) || bytes <= Refilled(b, now).tokens then 0 else bytes)
    ensures tick.cancelled ==>
      (WaitFor(b, now, bytes, [tick]).1.Granted? <==> IsUnlimited(b) || bytes <= Refilled(b, now).tokens)
    ensures !tick.cancelled ==>
      var batch := Min(bytes, 65536);
      WaitLoop(b, bytes, [tick]).2 ==
        if IsUnlimited(b) || batch <= Refilled(b, tick.now).tokens then bytes - batch else bytes
  {
    assert [tick][1..] == [];
  }

  lemma {:induction false} LargeBatchNeverTaken(b: Bucket, remaining: nat, ticks: seq<Tick>)
    requires b.tokens <= b.maxTokens < Min(remaining, BATCH)
    ensures !WaitLoop(b, remaining, ticks).1.Granted?
    decreases |ticks|
  {
    if ticks != [] && !ticks[0].cancelled {
      LargeBatchNeverTaken(TryConsume(b, ticks[0].now, Min(remaining, BATCH)).0, remaining, ticks[1..]);
    }
  }

  /** Turns long enough apart refill the bucket each time. */
  lemma {:induction false} SmallBatchesTaken(b: Bucket, remaining: nat) returns (ticks: seq<Tick>)
    requires b.refillRateNanos > 0 && b.tokens <= b.maxTokens && Min(remaining, BATCH) <= b.maxTokens
    ensures WaitLoop(b, remaining, ticks).1.Granted?
    decreases remaining
  {
    if remaining == 0 {
      ticks := [];
    } else {
      var batch := Min(remaining, BATCH);
      var now := b.lastRefill + b.maxTokens * b.refillRateNanos;
      DivIsFloor(now - b.lastRefill, b.refillRateNanos, b.maxTokens);
      assert now > b.lastRefill;
      var (b1, ok) := TryConsume(b, now, batch);
      assert ok;
      var rest := SmallBatchesTaken(b1, remaining - batch);
      ticks := [Tick(false, now)] + rest;
      assert ticks[1..] == rest;
    }
  }

  lemma {:induction false} NeverEnoughWithoutRefill(b: Bucket, remaining: nat, ticks: seq<Tick>)
    requires b.refillRateNanos == 0 && !IsUnlimited(b) && b.tokens < remaining
    ensures !WaitLoop(b, remaining, ticks).1.Granted?
    decreases |ticks|
  {
    if ticks != [] && !ticks[0].cancelled {
      var batch := Min(remaining, BATCH);
      var (b1, ok) := TryConsume(b, ticks[0].now, batch);
      NeverEnoughWithoutRefill(b1, if ok then remaining - batch else remaining, ticks[1..]);
    }
  }

  /** When a wait for `bytes` can end well: one batch fits the burst, or, for a bucket that never refills,
      everything is already there. */
  predicate CanBeGranted(b: Bucket, bytes: nat) {
    IsUnlimited(b) || if b.refillRateNanos > 0 then Min(bytes, 65536) <= b.maxTokens else bytes <= b.tokens
  }

  /** A wait can be granted exactly under that condition; otherwise it goes on until it is cancelled. */
  lemma GrantableIffBatchFits(b: Bucket, now: nat, bytes: nat)
    requires b.tokens <= b.maxTokens
    ensures (exists ticks: seq<Tick> :: WaitFor(b, now, bytes, ticks).1.Granted?) <==> CanBeGranted(b, bytes)
  {
    var (b1, ok) := TryConsume(b, now, bytes);
    if CanBeGranted(b, bytes) {
      var ticks := [];
      if !ok {
        ticks := SmallBatchesTaken(b1, bytes);
      }
      assert WaitFor(b, now, bytes, ticks).1.Granted?;
    } else {
      forall ticks: seq<Tick>
        ensures !WaitFor(b, now, bytes, ticks).1.Granted?
      {
        if b.refillRateNanos > 0 {
          LargeBatchNeverTaken(b1, bytes, ticks);
        } else {
          NeverEnoughWithoutRefill(b1, bytes, ticks);
        }
      }
    }
  }

  /** The wrapped product waits long enough exactly if it did not wrap. */
  lemma ExactWait(rate: nat, deficit: nat)
    requires rate > 0 && deficit > 0
    ensures var nanos := deficit * rate % (U64_MAX + 1);
      && nanos >= 0 && deficit * rate > 0
      && (nanos / rate >= deficit <==> deficit * rate <= U64_MAX)
      && (deficit * rate <= U64_MAX ==> nanos > 0)
  {
    var nanos := deficit * rate % (U64_MAX + 1);
    if deficit * rate <= U64_MAX {
      DivIsFloor(nanos, rate, deficit);
    } else {
      assert nanos < deficit * rate;
      SmallQuotient(nanos, rate, deficit);
    }
  }

  lemma SmallQuotient(a: nat, r: nat, q: nat)
    requires r > 0 && a < q * r
    ensures a / r < q
  {
    assert a == r * (a / r) + a % r;
  }

  // ---- the class --------------------------------------------------------------------------------

  class TokenBucket {
    var tokens: nat
    const maxTokens: nat
    const refillRateNanos: nat
    var lastRefillNanos: nat
    ghost var taken: nat

    ghost function View(): Bucket
      reads this
    {
      Bucket(tokens, maxTokens, refillRateNanos, lastRefillNanos)
    }

    ghost predicate Valid()
      reads this
    {
      tokens <= maxTokens
    }

    constructor (maxTokens: nat, refillPerSec: nat, now: nat)
      ensures Valid() && View() == NewBucket(maxTokens, refillPerSec, now) && taken == 0
    {
      this.tokens, this.maxTokens := maxTokens, maxTokens;
      this.refillRateNanos := if refillPerSec == 0 then 0 else NANOS_PER_SEC / refillPerSec;
      this.lastRefillNanos := now;
      this.taken := 0;
    }

    method Refill(now: nat)
      requires Valid() && refillRateNanos > 0
      modifies this`tokens, this`lastRefillNanos
      ensures Valid() && View() == Refilled(old(View()), now)
    {
      var last := lastRefillNanos;
      var elapsed := if now >= last then now - last else 0;
      if elapsed == 0 {
        return;
      }
      lastRefillNanos := now;
      var refill := Min(elapsed / refillRateNanos, maxTokens);
      if refill == 0 {
        return;
      }
      tokens := Min(tokens + refill, maxTokens);
    }

    method Take(now: nat, amount: nat) returns (ok: bool)
      requires Valid()
      modifies this
      ensures Valid() && (View(), ok) == TryConsume(old(View()), now, amount)
      ensures taken == old(taken) + (if ok then amount else 0)
    {
      if maxTokens == U64_MAX && refillRateNanos == 0 {
        taken := taken + amount;
        return true;
      }
      if refillRateNanos > 0 {
        Refill(now);
      }
      if tokens < amount {
        return false;
      }
      tokens := tokens - amount;
      taken := taken + amount;
      return true;
    }

    method Available(now: nat) returns (n: nat)
      requires Valid()
      modifies this`tokens, this`lastRefillNanos
      ensures Valid() && View() == Refilled(old(View()), now)
      ensures n == (if IsUnlimited(View()) then U64_MAX else tokens)
    {
      if maxTokens == U64_MAX && refillRateNanos == 0 {
        return U64_MAX;
      }
      if refillRateNanos > 0 {
        Refill(now);
      }
      n := tokens;
    }

    /** The wait that makes `amount` tokens available if nobody else takes any, exactly as long as its product
        fits 64 bits; a release build wraps. */
    method WaitTimeNanos(now: nat, amount: nat) returns (nanos: nat)
      requires Valid()
      modifies this`tokens, this`lastRefillNanos
      ensures Valid() && View() == Refilled(old(View()), now) && nanos <= U64_MAX
      ensures nanos == 0 && !IsUnlimited(View()) && refillRateNanos > 0 ==>
        tokens >= amount || (amount - tokens) * refillRateNanos > U64_MAX
      ensures !IsUnlimited(View()) && amount <= maxTokens && now >= old(lastRefillNanos) && refillRateNanos > 0 ==>
        (Refilled(View(), lastRefillNanos + nanos).tokens >= amount
         <==> tokens >= amount || (amount - tokens) * refillRateNanos <= U64_MAX)
    {
      if maxTokens == U64_MAX && refillRateNanos == 0 {
        return 0;
      }
      var avail := Available(now);
      if avail >= amount {
        return 0;
      }
      var deficit := amount - avail;
      nanos := deficit * refillRateNanos % (U64_MAX + 1);
      if refillRateNanos > 0 {
        ExactWait(refillRateNanos, deficit);
      }
    }

    /** Granted means exactly `bytes` tokens were taken; Cancelled and StillWaiting mean fewer. */
    method WaitConsume(now: nat, bytes: nat, ticks: seq<Tick>) returns (outcome: Wait, ghost left: nat)
      requires Valid()
      modifies this
      ensures Valid() && (View(), outcome, left) == WaitFor(old(View()), now, bytes, ticks)
      ensures left <= bytes && taken == old(taken) + bytes - left
      ensures outcome.Granted? <==> left == 0
    {
      var ok := Take(now, bytes);
      if ok {
        return Wait.Granted, 0;
      }
      var remaining: nat, i: nat := bytes, 0;
      var delayMs := 1;
      ghost var start := View();
      while remaining > 0
        invariant i <= |ticks| && remaining <= bytes && Valid() && 1 <= delayMs <= 100
        invariant taken == old(taken) + bytes - remaining
        invariant WaitLoop(start, bytes, ticks) == WaitLoop(View(), remaining, ticks[i..])
        decreases |ticks| - i
      {
        if i == |ticks| {
          return StillWaiting, remaining;
        }
        if ticks[i].cancelled {
          return Cancelled, remaining;
        }
        var batch := Min(remaining, BATCH);
        ok := Take(ticks[i].now, batch);
        if ok {
          remaining := remaining - batch;
          delayMs := 1;
        } else {
          delayMs := Min(delayMs * 2, 100);
        }
        assert ticks[i..][1..] == ticks[i + 1..];
        i := i + 1;
      }
      return Wait.Granted, 0;
    }
  }
}
