/** The token bucket of src/pacer.cpp, over the reals; time is an integer number of nanoseconds. */
module Pacing {

  const BURST_CAPACITY := 9015.0
  const NS_PER_SECOND := 1_000_000_000

  function MinReal(a: real, b: real): real { if a < b then a else b }

  function MaxReal(a: real, b: real): real { if a < b then b else a }

  function Ceil(x: real): (n: int)
    ensures n as real - 1.0 < x <= n as real
  {
    -((-x).Floor)
  }

  function Capacity(packet: nat): real { MaxReal(BURST_CAPACITY, packet as real) }

  /** A monotone clock that is read at times nobody controls. */
  class Clock {
    var time: int
    // The time that has passed beyond what was waited for: between readings, and past deadlines.
    ghost var drift: int

    constructor () { time, drift := *, 0; }

    method Now() returns (now: int)
      modifies this
      ensures now == time >= old(time)
      ensures drift == old(drift) + (time - old(time))
    {
      now := *;
      if now < time {
        now := time;
      }
      drift := drift + (now - time);
      time := now;
    }

    /** Sleeping and spinning both come back at or after the deadline. */
    method WaitUntil(deadline: int) returns (now: int)
      modifies this
      ensures now == time >= deadline && time >= old(time)
      ensures old(time) <= deadline ==> drift == old(drift) + (time - deadline)
    {
      now := *;
      now := if now < time then time else now;
      now := if now < deadline then deadline else now;
      drift := drift + (now - if deadline < time then time else deadline);
      time := now;
    }
  }

  class Pacer {
    const rate: real  // bytes per nanosecond
    var tokens: real
    var lastRefill: int
    const clock: Clock

    /** Between calls the bucket holds no more than the burst, whatever the packets were. */
    ghost predicate Valid()
      reads this, clock
    {
      rate > 0.0 && 0.0 <= tokens <= 9015.0 && lastRefill <= clock.time
    }

    function State(): Bucket
      reads this
    {
      Bucket(tokens, lastRefill)
    }

    constructor (rateBitsPerSecond: nat, clock: Clock)
      requires rateBitsPerSecond > 0
      modifies clock
      ensures Valid() && this.clock == clock
      ensures tokens == 9015.0 && lastRefill == clock.time
      ensures rate * 8_000_000_000.0 == rateBitsPerSecond as real
    {
      this.clock := clock;
      rate := rateBitsPerSecond as real / (8.0 * NS_PER_SECOND as real);
      tokens := BURST_CAPACITY;
      var now := clock.Now();
      lastRefill := now;
    }

    method Refill(now: int, capacity: real)
      modifies this`tokens, this`lastRefill
      ensures now <= old(lastRefill) ==> tokens == old(tokens) && lastRefill == old(lastRefill)
      ensures now > old(lastRefill) ==>
                lastRefill == now && tokens == Refilled(rate, old(tokens), now - old(lastRefill), capacity)
    {
      if now <= lastRefill {
        return;
      }
      var elapsed := (now - lastRefill) as real;
      tokens := MinReal(capacity, tokens + elapsed * rate);
      lastRefill := now;
    }

    /** Admits one packet: what is taken is what the elapsed time and the bucket allow; each wait
        but the last brings in a whole second of rate, which bounds their number; the time
        spent, clock drift aside, is less than it takes to earn the missing part of the target,
        rounded up to a nanosecond; and there is no wait exactly when the bucket, refilled at the
        first reading of the clock, holds the packet. */
    method WaitForSlot(packet: nat) returns (ghost waits: nat, ghost first: int)
      requires Valid()
      modifies this`tokens, this`lastRefill, clock
      ensures Valid()
      ensures lastRefill == clock.time >= old(clock.time)
      ensures Follows(rate, old(State()), State(), packet)
      ensures tokens + packet as real
              == MinReal(MaxReal(9015.0, packet as real), old(tokens) + Gain(lastRefill - old(lastRefill), rate))
      ensures old(clock.time) <= first <= clock.time && (waits == 0 ==> first == clock.time)
      ensures waits == 0 <==> Refilled(rate, old(tokens), first - old(lastRefill), Capacity(packet)) >= packet as real
      ensures waits > 0 ==> Earned(waits - 1, rate) < packet as real - old(tokens)
      ensures clock.drift >= old(clock.drift)
      ensures var asked := clock.time - old(clock.time) - (clock.drift - old(clock.drift));
              if waits == 0 then asked == 0
              else Gain(asked - 1, rate) < Target(packet as real, Capacity(packet)) - old(tokens)
    {
      hide Earned, Refilled, ToWait, LongEnough, OneSecond, Gain, Target;
      var bytes := packet as real;
      var capacity := Capacity(packet);
      var now := clock.Now();
      NoRefill(rate, tokens, capacity);
      Refill(now, capacity);
      FirstRefill(rate, old(tokens), now - old(lastRefill), capacity);
      waits, first := 0, now;
      ghost var enough := tokens >= bytes;
      ghost var asked := 0;
      while tokens < bytes
        invariant clock.time == lastRefill == now >= first >= old(clock.time)
        invariant if waits == 0 then now == first && enough == (tokens >= bytes) else !enough
        invariant tokens == Refilled(rate, old(tokens), now - old(lastRefill), capacity)
        invariant 0.0 <= tokens <= capacity
        invariant tokens < bytes ==> tokens >= old(tokens) + Earned(waits, rate)
        invariant waits > 0 ==> Earned(waits - 1, rate) < bytes - old(tokens)
        invariant asked == clock.time - old(clock.time) - (clock.drift - old(clock.drift))
        invariant clock.drift >= old(clock.drift) && asked >= 0
        invariant if waits == 0 then asked == 0 else Gain(asked - 1, rate) < Target(bytes, capacity) - old(tokens)
        decreases ToWait(rate, tokens, bytes)
      {
        var wait := NextWait(bytes, capacity);
        var later := clock.WaitUntil(now + wait);
        WaitStep(rate, old(tokens), now - old(lastRefill), later - now, bytes, capacity, waits);
        ShortWait(rate, old(tokens), now - old(lastRefill), asked, wait, bytes, capacity);
        asked := asked + wait;
        Refill(later, capacity);
        now := later;
        waits := waits + 1;
      }
      AdmittedWithin(rate, old(tokens), now - old(lastRefill), packet);
      RefilledIs(rate, old(tokens), now - old(lastRefill), packet);
      tokens := tokens - bytes;
    }

    /** How long to sleep: until the target is reached, but at most a second. */
    method NextWait(bytes: real, capacity: real) returns (wait: int)
      requires rate > 0.0
      ensures wait >= 1
      ensures NotTooLong(rate, tokens, bytes, capacity, wait)
      ensures forall e: int | e >= wait :: LongEnough(rate, tokens, bytes, capacity, e)
    {
      var missing := Target(bytes, capacity) - tokens;
      var bounded := MinReal(missing / rate, NS_PER_SECOND as real);
      wait := Ceil(bounded);
      if wait < 1 {
        wait := 1;
      }
    }
  }

  ghost predicate LongEnough(rate: real, tokens: real, bytes: real, capacity: real, elapsed: int)
    requires rate > 0.0
  {
    elapsed as real >= MinReal((Target(bytes, capacity) - tokens) / rate, 1_000_000_000.0)
  }

  /** A wait that is rounded up to the next nanosecond, and at least one. */
  ghost predicate NotTooLong(rate: real, tokens: real, bytes: real, capacity: real, wait: int)
    requires rate > 0.0
  {
    wait == 1 || wait as real < MinReal((Target(bytes, capacity) - tokens) / rate, 1_000_000_000.0) + 1.0
  }

  /** What `seconds` full seconds of waiting bring in. */
  function Earned(seconds: nat, rate: real): real { seconds as real * OneSecond(rate) }

  /** The missing bytes, counted in seconds of rate: what is left to wait for. */
  function ToWait(rate: real, tokens: real, bytes: real): real
    requires rate > 0.0
  {
    if tokens < bytes then 1.0 + (bytes - tokens) / OneSecond(rate) else 0.0
  }

  /** A useful batch, never less than the packet. */
  function Target(bytes: real, capacity: real): (t: real)
    ensures t >= bytes
  {
    MaxReal(bytes, capacity * 2.0 / 3.0)
  }

  lemma RefilledIs(rate: real, tokens: real, elapsed: int, packet: nat)
    ensures Refilled(rate, tokens, elapsed, Capacity(packet))
            == MinReal(MaxReal(9015.0, packet as real), tokens + Gain(elapsed, rate))
  {
  }

  lemma AdmittedWithin(rate: real, tokens: real, elapsed: int, packet: nat)
    ensures Refilled(rate, tokens, elapsed, Capacity(packet)) - packet as real <= BURST_CAPACITY
  {
  }

  function OneSecond(rate: real): real { NS_PER_SECOND as real * rate }

  function Refilled(rate: real, tokens: real, elapsed: int, capacity: real): real {
    MinReal(capacity, tokens + Gain(elapsed, rate))
  }

  /** What `elapsed` nanoseconds bring in. */
  function Gain(elapsed: int, rate: real): real { elapsed as real * rate }

  /** The bucket after `elapsed` nanoseconds and one packet: refilled up to the capacity in force
      for that packet, then charged. */
  function Admitted(rate: real, tokens: real, elapsed: int, packet: nat): real {
    Refilled(rate, tokens, elapsed, Capacity(packet)) - packet as real
  }

  // ----- conformance over any number of calls

  datatype Bucket = Bucket(tokens: real, lastRefill: int)

  /** What one call of wait_for_slot does to the bucket. */
  ghost predicate Follows(rate: real, before: Bucket, after: Bucket, packet: nat) {
    && after.lastRefill >= before.lastRefill
    && after.tokens >= 0.0
    && after.tokens == Admitted(rate, before.tokens, after.lastRefill - before.lastRefill, packet)
  }

  /** `buckets[0]` is any bucket and the k-th packet takes it from `buckets[k]` to `buckets[k + 1]`. */
  ghost predicate Calls(rate: real, buckets: seq<Bucket>, packets: seq<nat>) {
    && |buckets| == |packets| + 1
    && forall k | 0 <= k < |packets| :: Follows(rate, buckets[k], buckets[k + 1], packets[k])
  }

  /** The bytes of packets i..j-1. */
  function Total(packets: seq<nat>, i: nat, j: nat): nat
    requires j <= |packets|
    decreases j
  {
    if j <= i then 0 else Total(packets, i, j - 1) + packets[j - 1]
  }

  lemma CallStep(rate: real, before: Bucket, after: Bucket, packet: nat)
    requires Follows(rate, before, after, packet)
    ensures after.tokens + packet as real <= Capacity(packet)
    ensures after.tokens + packet as real <= before.tokens + Gain(after.lastRefill - before.lastRefill, rate)
  {
  }

  lemma GainAdds(d: int, e: int, rate: real)
    ensures Gain(d + e, rate) == Gain(d, rate) + Gain(e, rate)
  {
  }

  /** The bytes admitted by consecutive calls i..j, together with what is left in the bucket, are
      at most one bucket plus the rate times the time between the end of call i and the end of
      call j, whatever the packet sizes. */
  lemma {:induction false} Conformance(rate: real, buckets: seq<Bucket>, packets: seq<nat>, i: nat, j: nat)
    requires rate > 0.0 && Calls(rate, buckets, packets) && i <= j < |packets|
    ensures buckets[j + 1].tokens >= 0.0
    ensures Total(packets, i, j + 1) as real + buckets[j + 1].tokens
            <= MaxReal(9015.0, packets[i] as real)
               + Gain(buckets[j + 1].lastRefill - buckets[i + 1].lastRefill, rate)
    decreases j - i
  {
    assert Follows(rate, buckets[j], buckets[j + 1], packets[j]);
    CallStep(rate, buckets[j], buckets[j + 1], packets[j]);
    hide Gain, Follows, Calls;
    if i == j {
      assert Total(packets, i, j + 1) == Total(packets, i, j) + packets[j] == packets[j];
      GainAdds(0, 0, rate);
    } else {
      Conformance(rate, buckets, packets, i, j - 1);
      GainAdds(buckets[j].lastRefill - buckets[i + 1].lastRefill, buckets[j + 1].lastRefill - buckets[j].lastRefill, rate);
    }
  }

  // ----- arithmetic of waiting

  lemma Monotone(a: real, b: real, rate: real)
    requires rate >= 0.0 && a <= b
    ensures a * rate <= b * rate
  {
    assert (b - a) * rate >= 0.0;
  }

  lemma NoRefill(rate: real, tokens: real, capacity: real)
    requires tokens <= capacity
    ensures Refilled(rate, tokens, 0, capacity) == tokens
  {
  }

  lemma RefillTwice(rate: real, tokens: real, d: int, e: int, capacity: real)
    requires rate >= 0.0 && e >= 0
    ensures Refilled(rate, Refilled(rate, tokens, d, capacity), e, capacity) == Refilled(rate, tokens, d + e, capacity)
  {
    Monotone(0.0, e as real, rate);
    assert (d + e) as real * rate == d as real * rate + e as real * rate;
  }

  /** A wait that is not cut short reaches the target and ends the loop; one that is brings in a
      second of rate. */
  lemma WaitSuffices(rate: real, tokens: real, bytes: real, capacity: real, elapsed: int)
    requires rate > 0.0 && 0.0 <= tokens < bytes <= capacity
    requires elapsed as real >= MinReal((Target(bytes, capacity) - tokens) / rate, NS_PER_SECOND as real)
    ensures var after := Refilled(rate, tokens, elapsed, capacity);
            && 0.0 <= after <= capacity
            && (after >= bytes || after >= tokens + OneSecond(rate))
            && ((Target(bytes, capacity) - tokens) / rate <= NS_PER_SECOND as real ==> after >= bytes)
  {
    var target := Target(bytes, capacity);
    Monotone(MinReal((target - tokens) / rate, NS_PER_SECOND as real), elapsed as real, rate);
    assert (target - tokens) / rate * rate == target - tokens;
  }

  lemma FirstRefill(rate: real, tokens: real, elapsed: int, capacity: real)
    requires rate > 0.0 && 0.0 <= tokens <= capacity && elapsed >= 0
    ensures 0.0 <= Refilled(rate, tokens, elapsed, capacity) <= capacity
    ensures Refilled(rate, tokens, elapsed, capacity) >= tokens + Earned(0, rate)
  {
    Monotone(0.0, elapsed as real, rate);
  }

  /** One pass of the waiting loop. */
  lemma WaitStep(rate: real, start: real, d: int, e: int, bytes: real, capacity: real, waits: nat)
    requires rate > 0.0 && e >= 0
    requires var had := Refilled(rate, start, d, capacity);
             0.0 <= had < bytes <= capacity && LongEnough(rate, had, bytes, capacity, e) && had >= start + Earned(waits, rate)
    ensures var had := Refilled(rate, start, d, capacity); var after := Refilled(rate, had, e, capacity);
            && after == Refilled(rate, start, d + e, capacity)
            && 0.0 <= after <= capacity
            && Earned(waits, rate) < bytes - start
            && (after < bytes ==> after >= start + Earned(waits + 1, rate))
            && 0.0 <= ToWait(rate, after, bytes) <= ToWait(rate, had, bytes) - 1.0
  {
    var had := Refilled(rate, start, d, capacity);
    var after := Refilled(rate, had, e, capacity);
    RefillTwice(rate, start, d, e, capacity);
    WaitSuffices(rate, had, bytes, capacity, e);
    assert Earned(waits + 1, rate) == Earned(waits, rate) + OneSecond(rate);
    if after < bytes {
      LessToWait(bytes, had, after, OneSecond(rate));
    } else {
      MonotoneQuotient(0.0, bytes - had, OneSecond(rate));
    }
  }

  /** Together with what was waited before, one more wait stays short of the target. */
  lemma ShortWait(rate: real, start: real, d: int, asked: int, wait: int, bytes: real, capacity: real)
    requires rate > 0.0 && asked <= d
    requires var had := Refilled(rate, start, d, capacity);
             had < bytes <= capacity && NotTooLong(rate, had, bytes, capacity, wait)
    ensures Gain(asked + wait - 1, rate) < Target(bytes, capacity) - start
  {
    var had := Refilled(rate, start, d, capacity);
    var missing := Target(bytes, capacity) - had;
    hide Gain, Target;
    QuotientPositive(missing, rate);
    GainBelow(wait - 1, missing, rate);
    GainMonotone(asked, d, rate);
    GainAdds(asked, wait - 1, rate);
    assert asked + (wait - 1) == asked + wait - 1;
  }

  lemma GainBelow(e: int, x: real, rate: real)
    requires rate > 0.0 && e as real < x / rate
    ensures Gain(e, rate) < x
  {
    var q := x / rate;
    assert q * rate == x;
    MonotoneStrict(e as real, q, rate);
  }

  lemma GainMonotone(d: int, e: int, rate: real)
    requires rate > 0.0 && d <= e
    ensures Gain(d, rate) <= Gain(e, rate)
  {
    Monotone(d as real, e as real, rate);
  }

  /** What one wait brings when the clock comes back at its deadline.  A wait that is not cut short at a
      second fills the bucket to the packet or two thirds of the capacity, whichever is more, and
      overshoots that by less than a nanosecond of rate; one that is cut short brings a second of rate,
      or fills the bucket. */
  lemma WaitFillsTwoThirds(rate: real, tokens: real, bytes: real, capacity: real, wait: int)
    requires rate > 0.0 && 0.0 <= tokens < bytes <= capacity && wait >= 1
    requires LongEnough(rate, tokens, bytes, capacity, wait) && NotTooLong(rate, tokens, bytes, capacity, wait)
    ensures var after := Refilled(rate, tokens, wait, capacity); var most := MaxReal(bytes, capacity * 2.0 / 3.0);
            if most - tokens <= 1_000_000_000.0 * rate then most <= after < most + rate
            else after == MinReal(capacity, tokens + 1_000_000_000.0 * rate)
  {
    var missing := Target(bytes, capacity) - tokens;
    var q := missing / rate;
    QuotientPositive(missing, rate);
    TargetWithin(bytes, capacity);
    SecondIs(rate);
    if missing <= 1_000_000_000.0 * rate {
      AtMostSecond(missing, rate);
      GainBetween(wait, missing, rate);
    } else {
      MoreThanSecond(missing, rate);
      assert wait == 1_000_000_000;
    }
    hide Gain, Target;
  }

  lemma TargetWithin(bytes: real, capacity: real)
    requires 0.0 <= bytes <= capacity
    ensures Target(bytes, capacity) == MaxReal(bytes, capacity * 2.0 / 3.0) <= capacity
  {
  }

  lemma SecondIs(rate: real)
    ensures Gain(1_000_000_000, rate) == 1_000_000_000.0 * rate
  {
  }

  lemma AtMostSecond(x: real, rate: real)
    requires rate > 0.0 && x <= 1_000_000_000.0 * rate
    ensures x / rate <= 1_000_000_000.0
  {
    MonotoneQuotient(x, 1_000_000_000.0 * rate, rate);
    QuotientIs(1_000_000_000.0 * rate, 1_000_000_000.0, rate);
  }

  lemma MoreThanSecond(x: real, rate: real)
    requires rate > 0.0 && x > 1_000_000_000.0 * rate
    ensures x / rate > 1_000_000_000.0
  {
    var q := x / rate;
    assert q * rate == x;
    if q <= 1_000_000_000.0 {
      Monotone(q, 1_000_000_000.0, rate);
    }
  }

  lemma GainBetween(e: int, x: real, rate: real)
    requires rate > 0.0 && x / rate <= e as real < x / rate + 1.0
    ensures x <= Gain(e, rate) < x + rate
  {
    var q := x / rate;
    assert q * rate == x;
    Monotone(q, e as real, rate);
    GainBelow(e - 1, x, rate);
    GainAdds(e - 1, 1, rate);
    assert Gain(1, rate) == rate;
    assert e - 1 + 1 == e;
  }

  lemma QuotientPositive(x: real, s: real)
    requires x > 0.0 && s > 0.0
    ensures x / s > 0.0
  {
    assert x / s * s == x;
    if x / s <= 0.0 {
      Monotone(x / s, 0.0, s);
    }
  }

  lemma MonotoneStrict(a: real, b: real, rate: real)
    requires rate > 0.0 && a < b
    ensures a * rate < b * rate
  {
    assert (b - a) * rate > 0.0;
  }

  lemma QuotientIs(x: real, q: real, s: real)
    requires s > 0.0 && q * s == x
    ensures x / s == q
  {
  }

  lemma MonotoneQuotient(a: real, b: real, s: real)
    requires a <= b && s > 0.0
    ensures a / s <= b / s
  {
    assert (b / s - a / s) * s == b - a;
  }

  lemma LessToWait(bytes: real, before: real, after: real, second: real)
    requires second > 0.0 && after >= before + second && after < bytes
    ensures 0.0 <= (bytes - after) / second <= (bytes - before) / second - 1.0
  {
    MonotoneQuotient(0.0, bytes - after, second);
    MonotoneQuotient(bytes - after, bytes - before - second, second);
    var p := (bytes - before) / second;
    assert (p - 1.0) * second == p * second - second == bytes - before - second;
    QuotientIs(bytes - before - second, p - 1.0, second);
  }
}
