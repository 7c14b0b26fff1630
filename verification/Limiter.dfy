/** The token-bucket rate limiter, with real arithmetic, and what its bucket garbage collection does. */
module Limiter {
  import opened Basics

  const GC_INTERVAL: nat := 256
  const BUCKET_EXPIRY := 300.0  // five minutes, in seconds

  datatype Bucket = Bucket(tokens: real, last: real)

  datatype Limits = Limits(rate: real, burst: real, buckets: map<string, Bucket>, gcCounter: nat)

  function NewLimits(rate: real, burst: real): Limits {
    Limits(rate, burst, map[], 0)
  }

  function Min(a: real, b: real): real {
    if a <= b then a else b
  }

  function Collected(buckets: map<string, Bucket>, now: real): map<string, Bucket> {
    map k | k in buckets && now - buckets[k].last <= BUCKET_EXPIRY :: buckets[k]
  }

  /** The buckets a call works on: collected on every 256th call, unless gc is off. */
  function Swept(l: Limits, gc: bool, now: real): map<string, Bucket> {
    if gc && l.gcCounter + 1 >= GC_INTERVAL then Collected(l.buckets, now) else l.buckets
  }

  function Refilled(l: Limits, b: Bucket, now: real): Bucket {
    if now - b.last > 0.0 then Bucket(Min(l.burst, b.tokens + (now - b.last) * l.rate), now) else b
  }

  function Answer(l: Limits, gc: bool, key: string, now: real): bool {
    var buckets := Swept(l, gc, now);
    key in buckets ==> Refilled(l, buckets[key], now).tokens >= 1.0
  }

  function AfterCall(l: Limits, gc: bool, key: string, now: real): Limits {
    var buckets := Swept(l, gc, now);
    var bucket :=
      if key !in buckets then Bucket(l.burst - 1.0, now)
      else
        var b := Refilled(l, buckets[key], now);
        if b.tokens < 1.0 then b else b.(tokens := b.tokens - 1.0);
    l.(buckets := buckets[key := bucket], gcCounter := if l.gcCounter + 1 >= GC_INTERVAL then 0 else l.gcCounter + 1)
  }

  class RateLimiter {
    const rate: real
    const burst: real
    var buckets: map<string, Bucket>
    var gcCounter: nat

    constructor (rate: real, burst: real)
      ensures View() == NewLimits(rate, burst)
    {
      this.rate, this.burst := rate, burst;
      buckets, gcCounter := map[], 0;
    }

    function View(): Limits
      reads this
    {
      Limits(rate, burst, buckets, gcCounter)
    }

    /** The collection loop of Allow. */
    method Sweep(now: real)
      modifies this`buckets
      ensures buckets == Collected(old(buckets), now)
      ensures buckets.Keys == set k | k in old(buckets) && now - old(buckets)[k].last <= 300.0
    {
      var todo := buckets.Keys;
      while todo != {}
        invariant todo <= old(buckets).Keys
        invariant buckets == map k | k in old(buckets) && (k in todo || now - old(buckets)[k].last <= BUCKET_EXPIRY) :: old(buckets)[k]
        decreases |todo|
      {
        var id := Take(todo);
        if now - buckets[id].last > BUCKET_EXPIRY {
          buckets := buckets - {id};
        }
        todo := todo - {id};
      }
    }

    method Allow(key: string, now: real) returns (ok: bool)
      modifies this
      ensures ok == Answer(old(View()), true, key, now)
      ensures View() == AfterCall(old(View()), true, key, now)
      ensures gcCounter == if old(gcCounter) >= 255 then 0 else old(gcCounter) + 1
      ensures forall k :: k != key ==>
                (k in buckets <==> k in old(buckets) && (old(gcCounter) >= 255 ==> now - old(buckets)[k].last <= 300.0))
      ensures forall k :: k != key && k in buckets ==> k in old(buckets) && buckets[k] == old(buckets)[k]
    {
      gcCounter := gcCounter + 1;
      if gcCounter >= GC_INTERVAL {
        gcCounter := 0;
        Sweep(now);
      }
      ghost var l := old(View());
      assert buckets == Swept(l, true, now);
      if key !in buckets {
        buckets := buckets[key := Bucket(burst - 1.0, now)];
        return true;
      }
      var entry := buckets[key];
      var elapsed := now - entry.last;
      if elapsed > 0.0 {
        entry := Bucket(Min(burst, entry.tokens + elapsed * rate), now);
      }
      assert entry == Refilled(l, buckets[key], now);
      if entry.tokens < 1.0 {
        buckets := buckets[key := entry];
        return false;
      }
      buckets := buckets[key := entry.(tokens := entry.tokens - 1.0)];
      ok := true;
    }
  }

  // ----- Runs of calls -------------------------------------------------------------------------------

  datatype Call = Call(key: string, at: real)

  /** The clock does not go back. */
  predicate Monotone(calls: seq<Call>, from: real) {
    calls != [] ==> from <= calls[0].at && Monotone(calls[1..], calls[0].at)
  }

  function Answers(l: Limits, gc: bool, calls: seq<Call>): (r: seq<bool>)
    ensures |r| == |calls|
    decreases |calls|
  {
    if calls == [] then []
    else [Answer(l, gc, calls[0].key, calls[0].at)] + Answers(AfterCall(l, gc, calls[0].key, calls[0].at), gc, calls[1..])
  }

  /** How many calls for key are allowed. */
  function Allowed(l: Limits, gc: bool, calls: seq<Call>, key: string): nat
    decreases |calls|
  {
    if calls == [] then 0
    else (if calls[0].key == key && Answer(l, gc, key, calls[0].at) then 1 else 0)
         + Allowed(AfterCall(l, gc, calls[0].key, calls[0].at), gc, calls[1..], key)
  }

  function Final(l: Limits, gc: bool, calls: seq<Call>): Limits
    decreases |calls|
  {
    if calls == [] then l else Final(AfterCall(l, gc, calls[0].key, calls[0].at), gc, calls[1..])
  }

  /** What time dt adds. */
  function Gain(dt: real, rate: real): real {
    dt * rate
  }

  /** A rate is what one second adds, and longer times add up. */
  lemma GainIsSteady(a: real, b: real, rate: real)
    requires rate >= 0.0
    ensures Gain(1.0, rate) == rate && Gain(0.0, rate) == 0.0
    ensures Gain(a + b, rate) == Gain(a, rate) + Gain(b, rate)
    ensures a <= b ==> Gain(a, rate) <= Gain(b, rate)
  {
    GainAdds(a, b, rate);
    GainAdds(b, a, rate);
  }

  lemma GainAdds(a: real, b: real, rate: real)
    requires rate >= 0.0
    ensures Gain(a + b, rate) == Gain(a, rate) + Gain(b, rate)
    ensures a >= 0.0 ==> Gain(a, rate) >= 0.0
    ensures b >= 0.0 ==> Gain(b, rate) >= 0.0
    ensures a >= b ==> Gain(a, rate) >= Gain(b, rate)
  {
    if a >= b {
      assert Gain(a, rate) == Gain(b, rate) + Gain(a - b, rate);
      assert Gain(a - b, rate) >= 0.0;
    }
  }

  /** The tokens of a bucket at time t, and of a key; a missing bucket counts as a full one. */
  function Tokens(b: Bucket, rate: real, burst: real, t: real): real {
    Min(burst, b.tokens + Gain(t - b.last, rate))
  }

  function Level(l: Limits, key: string, t: real): real {
    if key in l.buckets then Tokens(l.buckets[key], l.rate, l.burst, t) else l.burst
  }

  predicate Sound(b: Bucket, burst: real, now: real) {
    0.0 <= b.tokens <= burst && b.last <= now
  }

  ghost predicate Valid(l: Limits, now: real) {
    && l.burst >= 1.0 && l.rate >= 0.0 && l.gcCounter < GC_INTERVAL
    && forall k :: k in l.buckets ==> Sound(l.buckets[k], l.burst, now)
  }

  /** Collecting cannot be seen in the levels: whatever is collected had refilled. */
  predicate RefillsBeforeExpiry(rate: real, burst: real) {
    burst <= 300.0 * rate
  }

  lemma CollectedWasFull(b: Bucket, rate: real, burst: real, now: real, t: real)
    requires Sound(b, burst, now) && now <= t && rate >= 0.0 && RefillsBeforeExpiry(rate, burst)
    requires now - b.last > BUCKET_EXPIRY
    ensures Tokens(b, rate, burst, t) == burst
  {
    GainAdds(t - b.last, BUCKET_EXPIRY, rate);
    assert Gain(BUCKET_EXPIRY, rate) == BUCKET_EXPIRY * rate;
  }

  /** Tokens over time: never fewer, at most the rate more, between none and the burst. */
  lemma TokensGrow(b: Bucket, rate: real, burst: real, now: real, t: real)
    requires Sound(b, burst, now) && now <= t && rate >= 0.0
    ensures Tokens(b, rate, burst, now) <= Tokens(b, rate, burst, t) <= Tokens(b, rate, burst, now) + Gain(t - now, rate)
    ensures 0.0 <= Tokens(b, rate, burst, t) <= burst
  {
    GainAdds(now - b.last, t - now, rate);
    assert (now - b.last) + (t - now) == t - b.last;
  }

  /** Refilling at time now brings a bucket to its tokens at now, stamped now. */
  lemma RefilledIsCurrent(l: Limits, b: Bucket, now: real)
    requires Sound(b, l.burst, now) && l.rate >= 0.0
    ensures Refilled(l, b, now) == Bucket(Tokens(b, l.rate, l.burst, now), now)
    ensures 0.0 <= Tokens(b, l.rate, l.burst, now) <= l.burst
  {
    TokensGrow(b, l.rate, l.burst, now, now);
    assert b.last == now ==> Gain(now - b.last, l.rate) == 0.0;
  }

  /** A call is allowed exactly when its key's level is at least one, and takes that one away. */
  lemma CallTakesOneToken(l: Limits, gc: bool, key: string, now: real)
    requires Valid(l, now) && (gc ==> RefillsBeforeExpiry(l.rate, l.burst))
    ensures var after := AfterCall(l, gc, key, now);
            && Valid(after, now) && after.rate == l.rate && after.burst == l.burst
            && (Answer(l, gc, key, now) <==> Level(l, key, now) >= 1.0)
            && after.buckets[key] == Bucket(Level(l, key, now) - (if Answer(l, gc, key, now) then 1.0 else 0.0), now)
  {
    if key in l.buckets {
      RefilledIsCurrent(l, l.buckets[key], now);
      if gc && now - l.buckets[key].last > BUCKET_EXPIRY {
        CollectedWasFull(l.buckets[key], l.rate, l.burst, now, now);
      }
    }
  }

  /** From a call on a key's tokens grow by the rate up to the burst, from one less than before if it was
      allowed and from as many if it was not. */
  lemma RefillsAtRate(l: Limits, gc: bool, key: string, now: real, t: real)
    requires Valid(l, now) && (gc ==> RefillsBeforeExpiry(l.rate, l.burst)) && now <= t
    ensures var after := AfterCall(l, gc, key, now);
            var left := Level(l, key, now) - if Answer(l, gc, key, now) then 1.0 else 0.0;
            var grown := left + Gain(t - now, l.rate);
            && Level(after, key, t) == (if grown <= l.burst then grown else l.burst)
            && (Answer(after, gc, key, t) <==> grown >= 1.0)
  {
    CallTakesOneToken(l, gc, key, now);
    var after := AfterCall(l, gc, key, now);
    assert Valid(after, t);
    CallTakesOneToken(after, gc, key, t);
  }

  /** Collecting, or a call for another key, leaves a key's level alone. */
  lemma OtherLevelsUntouched(l: Limits, gc: bool, key: string, now: real, other: string, t: real)
    requires Valid(l, now) && now <= t && other != key && (gc ==> RefillsBeforeExpiry(l.rate, l.burst))
    ensures Level(AfterCall(l, gc, key, now), other, t) == Level(l, other, t)
  {
    if gc && other in l.buckets && now - l.buckets[other].last > BUCKET_EXPIRY {
      CollectedWasFull(l.buckets[other], l.rate, l.burst, now, t);
    }
  }

  lemma LevelGrows(l: Limits, key: string, now: real, t: real)
    requires Valid(l, now) && now <= t
    ensures Level(l, key, now) <= Level(l, key, t) <= Level(l, key, now) + Gain(t - now, l.rate)
    ensures 0.0 <= Level(l, key, t) <= l.burst
  {
    if key in l.buckets {
      TokensGrow(l.buckets[key], l.rate, l.burst, now, t);
    } else {
      GainAdds(t - now, 0.0, l.rate);
    }
  }

  // ----- The collection is not observable ------------------------------------------------------------

  /** Two limiters with the same levels from now on. */
  ghost predicate SameLevels(a: Limits, b: Limits, now: real) {
    a.rate == b.rate && a.burst == b.burst && forall k, t :: now <= t ==> Level(a, k, t) == Level(b, k, t)
  }

  lemma CallKeepsLevelEqual(a: Limits, b: Limits, key: string, now: real, k: string, t: real)
    requires Valid(a, now) && Valid(b, now) && RefillsBeforeExpiry(a.rate, a.burst) && SameLevels(a, b, now) && now <= t
    ensures Answer(a, true, key, now) == Answer(b, false, key, now)
    ensures Level(AfterCall(a, true, key, now), k, t) == Level(AfterCall(b, false, key, now), k, t)
  {
    CallTakesOneToken(a, true, key, now);
    CallTakesOneToken(b, false, key, now);
    assert Level(a, key, now) == Level(b, key, now);
    if k == key {
      assert AfterCall(a, true, key, now).buckets[key] == AfterCall(b, false, key, now).buckets[key];
    } else {
      OtherLevelsUntouched(a, true, key, now, k, t);
      OtherLevelsUntouched(b, false, key, now, k, t);
    }
  }

  lemma CallKeepsSameLevels(a: Limits, b: Limits, key: string, now: real)
    requires Valid(a, now) && Valid(b, now) && RefillsBeforeExpiry(a.rate, a.burst) && SameLevels(a, b, now)
    ensures Answer(a, true, key, now) == Answer(b, false, key, now)
    ensures SameLevels(AfterCall(a, true, key, now), AfterCall(b, false, key, now), now)
  {
    CallKeepsLevelEqual(a, b, key, now, key, now);
    forall k, t | now <= t ensures Level(AfterCall(a, true, key, now), k, t) == Level(AfterCall(b, false, key, now), k, t) {
      CallKeepsLevelEqual(a, b, key, now, k, t);
    }
  }

  lemma {:induction false} SameLevelsSameAnswers(a: Limits, b: Limits, calls: seq<Call>, now: real)
    requires Valid(a, now) && Valid(b, now) && RefillsBeforeExpiry(a.rate, a.burst) && SameLevels(a, b, now) && Monotone(calls, now)
    ensures Answers(a, true, calls) == Answers(b, false, calls)
    decreases |calls|
  {
    if calls != [] {
      var c := calls[0];
      assert Valid(a, c.at) && Valid(b, c.at) && SameLevels(a, b, c.at);
      CallKeepsSameLevels(a, b, c.key, c.at);
      CallTakesOneToken(a, true, c.key, c.at);
      CallTakesOneToken(b, false, c.key, c.at);
      SameLevelsSameAnswers(AfterCall(a, true, c.key, c.at), AfterCall(b, false, c.key, c.at), calls[1..], c.at);
    }
  }

  // ----- The bound on a window -----------------------------------------------------------------------

  lemma {:induction false} AllowedWithinLevel(l: Limits, gc: bool, calls: seq<Call>, key: string, from: real, to: real)
    requires Valid(l, from) && (gc ==> RefillsBeforeExpiry(l.rate, l.burst)) && Monotone(calls, from)
    requires from <= to && forall i :: 0 <= i < |calls| ==> calls[i].at <= to
    ensures Allowed(l, gc, calls, key) as real <= Level(l, key, from) + Gain(to - from, l.rate)
    decreases |calls|
  {
    if calls == [] {
      LevelGrows(l, key, from, to);
    } else {
      var c := calls[0];
      var after := AfterCall(l, gc, c.key, c.at);
      CallCost(l, gc, c, key, from);
      AllowedWithinLevel(after, gc, calls[1..], key, c.at, to);
      GainAdds(c.at - from, to - c.at, l.rate);
      assert (c.at - from) + (to - c.at) == to - from;
    }
  }

  /** One call: what the key's level loses by it, against what it may have gained since from. */
  lemma CallCost(l: Limits, gc: bool, c: Call, key: string, from: real)
    requires Valid(l, from) && (gc ==> RefillsBeforeExpiry(l.rate, l.burst)) && from <= c.at
    ensures var after := AfterCall(l, gc, c.key, c.at);
            && Valid(after, c.at) && after.rate == l.rate && after.burst == l.burst
            && Level(after, key, c.at) + (if c.key == key && Answer(l, gc, key, c.at) then 1.0 else 0.0)
                 <= Level(l, key, from) + Gain(c.at - from, l.rate)
  {
    assert Valid(l, c.at);
    CallTakesOneToken(l, gc, c.key, c.at);
    LevelGrows(l, key, from, c.at);
    if c.key != key {
      OtherLevelsUntouched(l, gc, c.key, c.at, key, c.at);
    } else {
      assert Gain(0.0, l.rate) == 0.0;
    }
  }

  lemma {:induction false} FinalValid(l: Limits, gc: bool, calls: seq<Call>, from: real, to: real)
    requires Valid(l, from) && (gc ==> RefillsBeforeExpiry(l.rate, l.burst)) && Monotone(calls, from) && from <= to
    requires forall i :: 0 <= i < |calls| ==> calls[i].at <= to
    ensures Valid(Final(l, gc, calls), to)
    ensures Final(l, gc, calls).rate == l.rate && Final(l, gc, calls).burst == l.burst
    decreases |calls|
  {
    if calls != [] {
      assert Valid(l, calls[0].at);
      CallTakesOneToken(l, gc, calls[0].key, calls[0].at);
      FinalValid(AfterCall(l, gc, calls[0].key, calls[0].at), gc, calls[1..], calls[0].at, to);
    }
  }

  /** In any window, after any history, a key is allowed at most burst + rate * window times. */
  lemma WindowBound(rate: real, burst: real, gc: bool, before: seq<Call>, window: seq<Call>, key: string,
                    from: real, t0: real, t1: real)
    requires burst >= 1.0 && rate >= 0.0 && (gc ==> RefillsBeforeExpiry(rate, burst))
    requires Monotone(before, from) && from <= t0 && (forall i :: 0 <= i < |before| ==> before[i].at <= t0)
    requires Monotone(window, t0) && t0 <= t1 && forall i :: 0 <= i < |window| ==> window[i].at <= t1
    ensures Allowed(Final(NewLimits(rate, burst), gc, before), gc, window, key) as real <= burst + Gain(t1 - t0, rate)
  {
    FinalValid(NewLimits(rate, burst), gc, before, from, t0);
    var l := Final(NewLimits(rate, burst), gc, before);
    LevelGrows(l, key, t0, t0);
    AllowedWithinLevel(l, gc, window, key, t0, t1);
  }
}
