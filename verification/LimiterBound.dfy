/** When the limiter keeps its promise of burst + rate * window: exactly when every bucket refills before
    it may be collected. */
module LimiterBound {
  import opened Limiter
  import opened LimiterGc

  lemma {:induction false} AllowedOfConcat(l: Limits, gc: bool, x: seq<Call>, y: seq<Call>, key: string)
    ensures Allowed(l, gc, x + y, key) == Allowed(l, gc, x, key) + Allowed(Final(l, gc, x), gc, y, key)
    decreases |x|
  {
    if x == [] {
      assert x + y == y;
    } else {
      assert (x + y)[0] == x[0] && (x + y)[1..] == x[1..] + y;
      AllowedOfConcat(AfterCall(l, gc, x[0].key, x[0].at), gc, x[1..], y, key);
    }
  }

  /** While the level lasts, every call at one moment is allowed. */
  lemma {:induction false} LevelIsSpent(l: Limits, key: string, now: real, n: nat)
    requires Valid(l, now) && Level(l, key, now) >= n as real
    ensures var after := Final(l, true, Pads(key, n, now));
            && Allowed(l, true, Pads(key, n, now), key) == n
            && Valid(after, now) && after.rate == l.rate && after.burst == l.burst
            && Level(after, key, now) >= Level(l, key, now) - n as real
    decreases n
  {
    if n > 0 {
      CollectingCall(l, key, now);
      var after := AfterCall(l, true, key, now);
      LevelNow(after, key, now);
      assert Pads(key, n, now)[1..] == Pads(key, n - 1, now);
      LevelIsSpent(after, key, now, n - 1);
    }
  }

  /** From a full bucket: everything at once, then, when tokens flow, one more as soon as it is there. */
  lemma FullBucketIsSpent(l: Limits, key: string, now: real) returns (calls: seq<Call>, end: real)
    requires Valid(l, now) && Level(l, key, now) == l.burst
    ensures Monotone(calls, now) && now <= end && forall i :: 0 <= i < |calls| ==> calls[i].at <= end
    ensures var after := Final(l, true, calls);
            && Valid(after, end) && after.rate == l.rate && after.burst == l.burst
            && key in after.buckets && after.buckets[key].last == end
    ensures l.rate > 0.0 ==> Allowed(l, true, calls, key) as real >= l.burst + Gain(end - now, l.rate)
    ensures l.rate == 0.0 ==> end == now && Allowed(l, true, calls, key) >= l.burst.Floor
  {
    var n := l.burst.Floor as nat;
    var spend := Pads(key, n, now);
    PadsAreMonotone(key, n, now, now);
    LevelIsSpent(l, key, now, n);
    var mid := Final(l, true, spend);
    if l.rate == 0.0 {
      calls, end := spend, now;
      LastCallStamps(l, key, now, n);
    } else {
      var missing := 1.0 - (l.burst - n as real);
      end := now + missing / l.rate;
      assert (missing / l.rate) * l.rate == missing;
      assert missing / l.rate > 0.0;
      assert Gain(end - now, l.rate) == missing;
      calls := spend + [Call(key, end)];
      LevelAfterWait(mid, key, now, end);
      CollectingCall(mid, key, end);
      FinalOfConcat(l, true, spend, [Call(key, end)]);
      AllowedOfConcat(l, true, spend, [Call(key, end)], key);
      MonotoneConcat(spend, [Call(key, end)], now, now);
    }
  }

  lemma {:induction false} LastCallStamps(l: Limits, key: string, now: real, n: nat)
    requires Valid(l, now) && n > 0
    ensures var after := Final(l, true, Pads(key, n, now)); key in after.buckets && after.buckets[key].last == now
    decreases n
  {
    CollectingCall(l, key, now);
    assert Pads(key, n, now)[1..] == Pads(key, n - 1, now);
    if n > 1 {
      LastCallStamps(AfterCall(l, true, key, now), key, now, n - 1);
    }
  }

  /** A level grows by the gain until it is full. */
  lemma LevelAfterWait(l: Limits, key: string, now: real, t: real)
    requires Valid(l, now) && now <= t
    ensures Level(l, key, t) >= Min(l.burst, Level(l, key, now) + Gain(t - now, l.rate))
  {
    if key in l.buckets {
      var b := l.buckets[key];
      GainAdds(now - b.last, t - now, l.rate);
      assert (now - b.last) + (t - now) == t - b.last;
    }
  }

  /** When a bucket may expire before it has refilled, a key gets more than burst + rate * window. */
  lemma SlowRefillExceedsBound(rate: real, burst: real) returns (calls: seq<Call>, end: real)
    requires burst >= 1.0 && rate >= 0.0 && !RefillsBeforeExpiry(rate, burst)
    ensures Monotone(calls, 0.0) && 0.0 <= end && forall i :: 0 <= i < |calls| ==> calls[i].at <= end
    ensures Allowed(NewLimits(rate, burst), true, calls, "a") as real > burst + Gain(end - 0.0, rate)
  {
    var l := NewLimits(rate, burst);
    var first, mid := FullBucketIsSpent(l, "a", 0.0);
    var a := Final(l, true, first);
    var wait := PastExpiry(rate, burst);
    var t := mid + wait;
    var pads := Pads("b", GC_INTERVAL, t);
    PadsAreMonotone("b", GC_INTERVAL, t, mid);
    assert Valid(a, t);
    PadsCollect(a, "a", "b", GC_INTERVAL, t);
    var b := Final(a, true, pads);
    var second;
    second, end := FullBucketIsSpent(b, "a", t);
    calls := first + (pads + second);
    MonotoneConcat(pads, second, mid, t);
    MonotoneConcat(first, pads + second, 0.0, mid);
    AllowedOfConcat(l, true, first, pads + second, "a");
    AllowedOfConcat(a, true, pads, second, "a");
    GainAdds(mid, wait, rate);
    GainAdds(mid + wait, end - t, rate);
    assert mid + wait + (end - t) == end;
  }

  /** In this window, behind this history, the key gets at most burst + rate * window. */
  predicate WithinBound(rate: real, burst: real, before: seq<Call>, window: seq<Call>, key: string, t0: real, t1: real) {
    Allowed(Final(NewLimits(rate, burst), true, before), true, window, key) as real <= burst + Gain(t1 - t0, rate)
  }

  /** The clock does not go back: before lies between 0 and t0, window between t0 and t1. */
  predicate Clocked(before: seq<Call>, window: seq<Call>, t0: real, t1: real) {
    && Monotone(before, 0.0) && 0.0 <= t0 && (forall i :: 0 <= i < |before| ==> before[i].at <= t0)
    && Monotone(window, t0) && t0 <= t1 && forall i :: 0 <= i < |window| ==> window[i].at <= t1
  }

  /** The limiter bounds every window of every key exactly when every bucket refills before it expires. */
  lemma BoundHoldsIff(rate: real, burst: real)
    requires burst >= 1.0 && rate >= 0.0
    ensures RefillsBeforeExpiry(rate, burst) <==>
              forall before, window, key, t0, t1 :: Clocked(before, window, t0, t1) ==>
                WithinBound(rate, burst, before, window, key, t0, t1)
  {
    if RefillsBeforeExpiry(rate, burst) {
      forall before, window, key, t0, t1 | Clocked(before, window, t0, t1)
        ensures WithinBound(rate, burst, before, window, key, t0, t1)
      {
        WindowBound(rate, burst, true, before, window, key, 0.0, t0, t1);
      }
    } else {
      var calls, end := SlowRefillExceedsBound(rate, burst);
      assert Clocked([], calls, 0.0, end) && !WithinBound(rate, burst, [], calls, "a", 0.0, end);
    }
  }
}
