/** When the limiter's garbage collection can be seen: exactly when a bucket may expire before it has
    refilled. */
module LimiterGc {
  import opened Basics
  import opened Limiter

  // ----- Sequences of calls ------------------------------------------------------------------------

  lemma {:induction false} AnswersOfConcat(l: Limits, gc: bool, x: seq<Call>, y: seq<Call>)
    ensures Answers(l, gc, x + y) == Answers(l, gc, x) + Answers(Final(l, gc, x), gc, y)
    decreases |x|
  {
    if x == [] {
      assert x + y == y;
    } else {
      assert (x + y)[0] == x[0] && (x + y)[1..] == x[1..] + y;
      AnswersOfConcat(AfterCall(l, gc, x[0].key, x[0].at), gc, x[1..], y);
    }
  }

  lemma {:induction false} FinalOfConcat(l: Limits, gc: bool, x: seq<Call>, y: seq<Call>)
    ensures Final(l, gc, x + y) == Final(Final(l, gc, x), gc, y)
    decreases |x|
  {
    if x == [] {
      assert x + y == y;
    } else {
      assert (x + y)[0] == x[0] && (x + y)[1..] == x[1..] + y;
      FinalOfConcat(AfterCall(l, gc, x[0].key, x[0].at), gc, x[1..], y);
    }
  }

  lemma {:induction false} MonotoneConcat(x: seq<Call>, y: seq<Call>, from: real, mid: real)
    requires Monotone(x, from) && Monotone(y, mid) && from <= mid
    requires forall i :: 0 <= i < |x| ==> x[i].at <= mid
    ensures Monotone(x + y, from)
    decreases |x|
  {
    if x == [] {
      assert x + y == y;
    } else {
      assert (x + y)[0] == x[0] && (x + y)[1..] == x[1..] + y;
      MonotoneConcat(x[1..], y, x[0].at, mid);
    }
  }

  /** The sequence tells the two limiters apart. */
  predicate Differ(a: Limits, b: Limits, calls: seq<Call>) {
    Answers(a, true, calls) != Answers(b, false, calls)
  }

  lemma DifferAfter(a: Limits, b: Limits, x: seq<Call>, y: seq<Call>)
    requires Differ(Final(a, true, x), Final(b, false, x), y)
    ensures Differ(a, b, x + y)
  {
    AnswersOfConcat(a, true, x, y);
    AnswersOfConcat(b, false, x, y);
    var p, q := Answers(a, true, x), Answers(b, false, x);
    var r, s := Answers(Final(a, true, x), true, y), Answers(Final(b, false, x), false, y);
    assert (p + r)[|x|..] == r && (q + s)[|x|..] == s;
  }

  // ----- One call with collection on, whatever the settings ------------------------------------------

  /** Collection never costs a key anything: a level of one is still enough, and at most one goes. */
  lemma CollectingCall(l: Limits, key: string, now: real)
    requires Valid(l, now)
    ensures var after := AfterCall(l, true, key, now);
            && Valid(after, now) && after.rate == l.rate && after.burst == l.burst
            && key in after.buckets && after.buckets[key].last == now
            && (Level(l, key, now) >= 1.0 ==> Answer(l, true, key, now) && after.buckets[key].tokens >= Level(l, key, now) - 1.0)
  {
    if key in l.buckets {
      RefilledIsCurrent(l, l.buckets[key], now);
    }
  }

  lemma LevelNow(l: Limits, key: string, now: real)
    requires Valid(l, now) && key in l.buckets && l.buckets[key].last == now
    ensures Level(l, key, now) == l.buckets[key].tokens
  {
    assert Gain(now - l.buckets[key].last, l.rate) == 0.0;
  }

  /** How long until a level below one reaches one, and what another key's bucket has then. */
  lemma WaitForOne(l: Limits, key: string, now: real) returns (t: real)
    requires Valid(l, now) && l.rate > 0.0 && Level(l, key, now) < 1.0
    ensures now <= t && Level(l, key, t) == 1.0 && Gain(t - now, l.rate) == 1.0 - Level(l, key, now)
  {
    LevelGrows(l, key, now, now);
    var missing := 1.0 - Level(l, key, now);
    t := now + missing / l.rate;
    assert (missing / l.rate) * l.rate == missing;
    assert missing / l.rate >= 0.0;
    var b := l.buckets[key];
    GainAdds(now - b.last, t - now, l.rate);
    assert (now - b.last) + (t - now) == t - b.last;
  }

  // ----- Different levels can be told apart ----------------------------------------------------------

  /** From unequal levels of one key some further calls get different answers. */
  lemma {:induction false} LevelsAreObservable(a: Limits, b: Limits, key: string, now: real, n: nat)
    returns (calls: seq<Call>)
    requires Valid(a, now) && Valid(b, now) && a.rate == b.rate
    requires Level(b, key, now) < Level(a, key, now) && Level(b, key, now) < n as real
    requires a.rate > 0.0 || (Level(b, key, now) < 1.0 && 1.0 <= Level(a, key, now))
    ensures Monotone(calls, now) && Differ(a, b, calls)
    decreases n
  {
    CallTakesOneToken(b, false, key, now);
    if Level(a, key, now) < 1.0 {
      var t := WaitForOne(a, key, now);
      LevelGrows(b, key, now, t);
      CollectingCall(a, key, t);
      CallTakesOneToken(b, false, key, t);
      calls := [Call(key, t)];
      assert Answers(a, true, calls)[0] && !Answers(b, false, calls)[0];
    } else if Level(b, key, now) < 1.0 {
      CollectingCall(a, key, now);
      calls := [Call(key, now)];
      assert Answers(a, true, calls)[0] && !Answers(b, false, calls)[0];
    } else {
      CollectingCall(a, key, now);
      var a', b' := AfterCall(a, true, key, now), AfterCall(b, false, key, now);
      LevelNow(a', key, now);
      LevelNow(b', key, now);
      LevelGrows(b, key, now, now);
      var rest := LevelsAreObservable(a', b', key, now, n - 1);
      calls := [Call(key, now)] + rest;
      assert calls[1..] == rest;
      assert Answers(a, true, calls)[1..] == Answers(a', true, rest);
      assert Answers(b, false, calls)[1..] == Answers(b', false, rest);
    }
  }

  // ----- Emptying a bucket, then waiting past its expiry ---------------------------------------------

  /** Both limiters end with a bucket for the key stamped end; without collection it holds less than
      one token, and none when tokens flow at all. */
  ghost predicate Drained(a: Limits, b: Limits, key: string, end: real) {
    && Valid(a, end) && Valid(b, end)
    && key in a.buckets && a.buckets[key].last == end
    && key in b.buckets && b.buckets[key].last == end && b.buckets[key].tokens < 1.0
    && (b.rate > 0.0 ==> b.buckets[key].tokens == 0.0)
  }

  lemma {:induction false} Drain(a: Limits, b: Limits, key: string, now: real, n: nat)
    returns (calls: seq<Call>, end: real)
    requires Valid(a, now) && Valid(b, now) && a.rate == b.rate && a.burst == b.burst
    requires Level(b, key, now) < n as real && (b.rate > 0.0 || Level(b, key, now) >= 1.0)
    ensures Monotone(calls, now) && now <= end && forall i :: 0 <= i < |calls| ==> calls[i].at <= end
    ensures var a', b' := Final(a, true, calls), Final(b, false, calls);
            Drained(a', b', key, end) && a'.rate == a.rate && a'.burst == a.burst && b'.rate == b.rate && b'.burst == b.burst
    decreases n
  {
    end := now;
    if Level(b, key, now) < 1.0 {
      end := WaitForOne(b, key, now);
    }
    var first := Call(key, end);
    CollectingCall(a, key, end);
    CallTakesOneToken(b, false, key, end);
    LevelGrows(b, key, now, end);
    var a', b' := AfterCall(a, true, key, end), AfterCall(b, false, key, end);
    LevelNow(b', key, end);
    assert b'.buckets[key].tokens == Level(b, key, end) - 1.0;
    if b'.buckets[key].tokens == 0.0 || (b.rate == 0.0 && b'.buckets[key].tokens < 1.0) {
      calls := [first];
    } else {
      var rest;
      rest, end := Drain(a', b', key, now, n - 1);
      calls := [first] + rest;
      assert calls[1..] == rest;
    }
  }

  function Pads(key: string, n: nat, t: real): seq<Call> {
    if n == 0 then [] else [Call(key, t)] + Pads(key, n - 1, t)
  }

  lemma {:induction false} PadsAreMonotone(key: string, n: nat, t: real, from: real)
    requires from <= t
    ensures Monotone(Pads(key, n, t), from) && |Pads(key, n, t)| == n
    ensures forall i :: 0 <= i < n ==> Pads(key, n, t)[i] == Call(key, t)
  {
    if n > 0 {
      PadsAreMonotone(key, n - 1, t, t);
      assert Pads(key, n, t)[1..] == Pads(key, n - 1, t);
    }
  }

  /** Enough calls for another key make the collection run and remove an expired bucket. */
  lemma {:induction false} PadsCollect(a: Limits, key: string, other: string, n: nat, t: real)
    requires Valid(a, t) && other != key
    requires key !in a.buckets || (t - a.buckets[key].last > BUCKET_EXPIRY && a.gcCounter + n >= GC_INTERVAL)
    ensures var after := Final(a, true, Pads(other, n, t));
            Valid(after, t) && after.rate == a.rate && after.burst == a.burst && key !in after.buckets
    decreases n
  {
    if n > 0 {
      CollectingCall(a, other, t);
      assert Pads(other, n, t)[1..] == Pads(other, n - 1, t);
      PadsCollect(AfterCall(a, true, other, t), key, other, n - 1, t);
    }
  }

  lemma {:induction false} PadsLeaveBucket(b: Limits, key: string, other: string, n: nat, t: real)
    requires Valid(b, t) && other != key && key in b.buckets
    ensures var after := Final(b, false, Pads(other, n, t));
            Valid(after, t) && after.rate == b.rate && after.burst == b.burst
            && key in after.buckets && after.buckets[key] == b.buckets[key]
    decreases n
  {
    if n > 0 {
      CallTakesOneToken(b, false, other, t);
      assert Pads(other, n, t)[1..] == Pads(other, n - 1, t);
      PadsLeaveBucket(AfterCall(b, false, other, t), key, other, n - 1, t);
    }
  }

  /** A time past the expiry at which an emptied bucket is still below the burst. */
  lemma PastExpiry(rate: real, burst: real) returns (wait: real)
    requires burst >= 1.0 && rate >= 0.0 && !RefillsBeforeExpiry(rate, burst)
    ensures wait > BUCKET_EXPIRY && (rate > 0.0 ==> Gain(wait, rate) < burst) && (rate == 0.0 ==> Gain(wait, rate) == 0.0)
  {
    if rate == 0.0 {
      wait := BUCKET_EXPIRY + 1.0;
    } else {
      var slack := (burst - BUCKET_EXPIRY * rate) / 2.0;
      wait := BUCKET_EXPIRY + slack / rate;
      assert (slack / rate) * rate == slack;
      assert slack / rate > 0.0;
      assert wait * rate == BUCKET_EXPIRY * rate + slack;
    }
  }

  /** When a bucket may expire before it has refilled, some calls are answered differently. */
  lemma SlowRefillIsObservable(rate: real, burst: real) returns (calls: seq<Call>)
    requires burst >= 1.0 && rate >= 0.0 && !RefillsBeforeExpiry(rate, burst)
    ensures Monotone(calls, 0.0) && Differ(NewLimits(rate, burst), NewLimits(rate, burst), calls)
  {
    var l := NewLimits(rate, burst);
    var drain, end := Drain(l, l, "a", 0.0, burst.Floor as nat + 1);
    var a, b := Final(l, true, drain), Final(l, false, drain);
    var wait := PastExpiry(rate, burst);
    var t := end + wait;
    PadsAreMonotone("b", GC_INTERVAL, t, end);
    var pads := Pads("b", GC_INTERVAL, t);
    assert Valid(a, t) && Valid(b, t);
    PadsCollect(a, "a", "b", GC_INTERVAL, t);
    PadsLeaveBucket(b, "a", "b", GC_INTERVAL, t);
    var a', b' := Final(a, true, pads), Final(b, false, pads);
    assert t - end == wait;
    assert Level(a', "a", t) == burst;
    assert Level(b', "a", t) < burst && (rate == 0.0 ==> Level(b', "a", t) < 1.0);
    var last := LevelsAreObservable(a', b', "a", t, burst.Floor as nat + 1);
    DifferAfter(a, b, pads, last);
    DifferAfter(l, l, drain, pads + last);
    MonotoneConcat(pads, last, end, t);
    MonotoneConcat(drain, pads + last, 0.0, end);
    calls := drain + (pads + last);
  }

  /** The collection is unobservable exactly when every bucket refills before it expires. */
  lemma CollectionUnobservableIff(rate: real, burst: real)
    requires burst >= 1.0 && rate >= 0.0
    ensures RefillsBeforeExpiry(rate, burst) <==>
              forall calls :: Monotone(calls, 0.0) ==>
                Answers(NewLimits(rate, burst), true, calls) == Answers(NewLimits(rate, burst), false, calls)
  {
    var l := NewLimits(rate, burst);
    if RefillsBeforeExpiry(rate, burst) {
      forall calls | Monotone(calls, 0.0) ensures Answers(l, true, calls) == Answers(l, false, calls) {
        SameLevelsSameAnswers(l, l, calls, 0.0);
      }
    } else {
      var calls := SlowRefillIsObservable(rate, burst);
      assert Answers(l, true, calls) != Answers(l, false, calls);
    }
  }
}
