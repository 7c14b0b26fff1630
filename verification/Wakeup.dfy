/** Next against enqueue and close in small steps: the one-slot notify channel loses no wakeup exactly when
    there is at most one consumer. */
module Wakeup {
  import opened Basics
  import opened Queue

  /** A consumer outside Next, about to take the lock inside Next, or blocked in its select. */
  datatype Phase = Outside | Checking | Blocked

  datatype World = World(sub: Sub, phases: map<int, Phase>, returned: seq<RuntimeEvent>)

  datatype Step =
    | Enqueue(item: Item)
    | Close
    | Call(c: int)      // the consumer enters Next
    | Check(c: int)     // the locked part: take an item, see the close, or go on to the select
    | Wake(c: int)      // the select receives from the notify channel
    | TimeOut(c: int)   // the select sees the context done

  function Do(w: World, max: nat, step: Step): World {
    match step
    case Enqueue(item) => w.(sub := Enqueued(w.sub, max, item))
    case Close => w.(sub := Closed(w.sub))
    case Call(c) => if c in w.phases && w.phases[c] == Outside then w.(phases := w.phases[c := Checking]) else w
    case Check(c) =>
      if c !in w.phases || w.phases[c] != Checking then w
      else if w.sub.pending != [] then
        World(w.sub.(pending := w.sub.pending[1..]), w.phases[c := Outside], w.returned + [w.sub.pending[0].event])
      else if w.sub.closed then w.(phases := w.phases[c := Outside])
      else w.(phases := w.phases[c := Blocked])
    case Wake(c) =>
      if c in w.phases && w.phases[c] == Blocked && w.sub.token then
        w.(sub := w.sub.(token := false), phases := w.phases[c := Checking])
      else w
    case TimeOut(c) => if c in w.phases && w.phases[c] == Blocked then w.(phases := w.phases[c := Outside]) else w
  }

  function Run(w: World, max: nat, steps: seq<Step>): World {
    if steps == [] then w else Do(Run(w, max, steps[..|steps| - 1]), max, steps[|steps| - 1])
  }

  /** There is something for a consumer to find. */
  predicate Ready(s: Sub) {
    s.pending != [] || s.closed
  }

  /** A blocked consumer with something to find has a token waiting. */
  predicate NoLostWakeup(w: World) {
    forall c :: c in w.phases && w.phases[c] == Blocked && Ready(w.sub) ==> w.sub.token
  }

  lemma {:induction false} StepKeepsWakeup(w: World, max: nat, step: Step)
    requires NoLostWakeup(w) && w.phases.Keys <= {0}
    ensures NoLostWakeup(Do(w, max, step)) && Do(w, max, step).phases.Keys == w.phases.Keys
  {
  }

  predicate Numbered(c: int, n: nat) {
    0 <= c < n
  }

  /** A new subscription and n consumers outside Next. */
  function Consumers(n: nat): World {
    World(NEW_SUB, map c | 0 <= c < n && Numbered(c, n) :: Outside, [])
  }

  /** With at most one consumer no wakeup is lost, whatever enqueues, closes and timed-out calls interleave. */
  lemma {:induction false} OneConsumerNeverSleepsOnWork(n: nat, max: nat, steps: seq<Step>)
    requires n <= 1
    ensures var w := Run(Consumers(n), max, steps);
            NoLostWakeup(w) && w.phases.Keys == Consumers(n).phases.Keys <= {0}
  {
    if steps != [] {
      var butLast := steps[..|steps| - 1];
      OneConsumerNeverSleepsOnWork(n, max, butLast);
      StepKeepsWakeup(Run(Consumers(n), max, butLast), max, steps[|steps| - 1]);
    }
  }

  /** So a blocked consumer with work can always run on, and then finds the first item or the close. */
  lemma BlockedConsumerWithWorkRunsOn(max: nat, steps: seq<Step>)
    ensures var w := Run(Consumers(1), max, steps);
            0 in w.phases && w.phases[0] == Blocked && Ready(w.sub) ==>
              var next := Do(Do(w, max, Wake(0)), max, Check(0));
              0 in next.phases && next.phases[0] == Outside
              && next.returned == w.returned + if w.sub.pending != [] then [w.sub.pending[0].event] else []
  {
    OneConsumerNeverSleepsOnWork(1, max, steps);
  }

  lemma {:induction false} RunSnoc(w: World, max: nat, steps: seq<Step>, step: Step)
    ensures Run(w, max, steps + [step]) == Do(Run(w, max, steps), max, step)
  {
    assert (steps + [step])[..|steps|] == steps;
  }

  /** Both consumers enter Next and block. */
  lemma {:induction false} BothBlock(n: nat, max: nat) returns (steps: seq<Step>)
    requires n >= 2
    ensures var w := Run(Consumers(n), max, steps);
            w.sub == NEW_SUB && 0 in w.phases && w.phases[0] == Blocked && 1 in w.phases && w.phases[1] == Blocked
  {
    var w0 := Consumers(n);
    steps := [];
    RunSnoc(w0, max, steps, Call(0));
    steps := steps + [Call(0)];
    RunSnoc(w0, max, steps, Check(0));
    steps := steps + [Check(0)];
    RunSnoc(w0, max, steps, Call(1));
    steps := steps + [Call(1)];
    RunSnoc(w0, max, steps, Check(1));
    steps := steps + [Check(1)];
  }

  /** Two events arrive behind one token; one consumer takes one event, and the other stays blocked next to
      the second. */
  lemma {:induction false} TwoConsumersCanSleepOnWork(n: nat, max: nat, a: Item, b: Item) returns (steps: seq<Step>)
    requires n >= 2 && !a.droppable && !b.droppable
    ensures var w := Run(Consumers(n), max, steps);
            1 in w.phases && w.phases[1] == Blocked && w.sub == Sub([b], false, false)
  {
    var w0 := Consumers(n);
    steps := BothBlock(n, max);
    RunSnoc(w0, max, steps, Enqueue(a));
    steps := steps + [Enqueue(a)];
    assert Run(w0, max, steps).sub == Sub([a], true, false);
    RunSnoc(w0, max, steps, Enqueue(b));
    steps := steps + [Enqueue(b)];
    assert Kept([a]) == [a];
    assert Run(w0, max, steps).sub == Sub([a, b], true, false);
    RunSnoc(w0, max, steps, Wake(0));
    steps := steps + [Wake(0)];
    RunSnoc(w0, max, steps, Check(0));
    steps := steps + [Check(0)];
  }

  /** No wakeup is ever lost exactly when there is at most one consumer, whatever the queue's limit. */
  lemma NoLostWakeupIffOneConsumer(n: nat, max: nat)
    ensures (forall steps :: NoLostWakeup(Run(Consumers(n), max, steps))) <==> n <= 1
  {
    if n <= 1 {
      forall steps ensures NoLostWakeup(Run(Consumers(n), max, steps)) {
        OneConsumerNeverSleepsOnWork(n, max, steps);
      }
    } else {
      var item := Item(RuntimeEvent(ToolStarted, "", 0, ""), false);
      var steps := TwoConsumersCanSleepOnWork(n, max, item, item);
      assert !NoLostWakeup(Run(Consumers(n), max, steps));
    }
  }
}
