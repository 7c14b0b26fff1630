/** What the hub delivers beyond what it must: to a subscriber that keeps up, every event, and in a replay,
    every event published so far, as long as the history has room. */
module HubLive {
  import opened Basics
  import opened Queue
  import opened Hub
  import opened HubDue

  // ----- The live stream -------------------------------------------------------------------------------

  /** The step publishes an event for a subscriber that its caller knows like this. */
  predicate Reaches(w: Watch, step: Step) {
    (step.Publish? || step.PublishTerminal?) && step.e.eventId != "" && !w.over && step.e.eventId in w.ids
  }

  /** Everything published for c since its Attach, whatever its kind. */
  function Heard(cfg: Config, steps: seq<Step>, c: SubId): seq<RuntimeEvent> {
    if steps == [] then []
    else
      var butLast, last := steps[..|steps| - 1], steps[|steps| - 1];
      Heard(cfg, butLast, c) + if Reaches(Watched(cfg, butLast, c), last) then [last.e] else []
  }

  /** Whenever something is published for c, fewer than maxQueued items are pending. */
  ghost predicate KeepsUp(cfg: Config, steps: seq<Step>, c: SubId) {
    steps != [] ==>
      var butLast, last := steps[..|steps| - 1], steps[|steps| - 1];
      var s := Run(EMPTY_STATE, cfg, butLast);
      && KeepsUp(cfg, butLast, c)
      && (Reaches(Watched(cfg, butLast, c), last) && c in s.members ==> |s.members[c].sub.pending| < cfg.maxQueued)
  }

  lemma RoomTakesEverything(s: State, cfg: Config, step: Step, c: SubId, w: Watch)
    requires HubDue.Ended(s) && Agrees(s, c, w) && c in s.members && (step.Publish? || step.PublishTerminal?)
    requires Reaches(w, step) ==> |s.members[c].sub.pending| < cfg.maxQueued
    ensures var t := TopicAt(Pruned(s.topics, cfg, step.now), step.e.eventId, step.now);
            var got := Obtained(Do(s, cfg, step), c);
            if Reaches(w, step) then
              got != [] && got[..|got| - 1] == Obtained(s, c) && got[|got| - 1].event == Populated(t, step.e)
            else got == Obtained(s, c)
  {
    var t := TopicAt(Pruned(s.topics, cfg, step.now), step.e.eventId, step.now);
    var m, terminal := s.members[c], step.PublishTerminal? || IsTerminal(step.e);
    MemberAfterPublish(s, cfg, step, c);
    if Reaches(w, step) {
      assert c in t.subscribers;
      DispatchTakes(m, cfg, Populated(t, step.e), terminal);
      var item := Item(Populated(t, step.e), !terminal && QueueDroppable(step.e.kind));
      assert Obtained(Do(s, cfg, step), c) == m.delivered + (m.sub.pending + [item]) == Obtained(s, c) + [item];
    } else if !w.over {
      assert step.e.eventId != "" ==> c !in t.subscribers;
    }
  }

  lemma DispatchTakes(m: Member, cfg: Config, event: RuntimeEvent, terminal: bool)
    requires !m.sub.closed && |m.sub.pending| < cfg.maxQueued
    ensures var after := Dispatched(m, cfg, event, terminal);
            && after.delivered == m.delivered
            && after.sub.pending == m.sub.pending + [Item(event, !terminal && QueueDroppable(event.kind))]
  {
  }

  lemma MemberAfterPublish(s: State, cfg: Config, step: Step, c: SubId)
    requires c in s.members && (step.Publish? || step.PublishTerminal?)
    ensures var terminal := step.PublishTerminal? || IsTerminal(step.e);
            var t := TopicAt(Pruned(s.topics, cfg, step.now), step.e.eventId, step.now);
            var after := Do(s, cfg, step);
            && c in after.members
            && after.members[c] == if step.e.eventId != "" && c in t.subscribers && !(terminal && t.terminal.Some?)
                                   then Dispatched(s.members[c], cfg, Populated(t, step.e), terminal) else s.members[c]
  {
  }

  lemma StepDeliversAll(s: State, cfg: Config, step: Step, c: SubId, w: Watch, heard: seq<RuntimeEvent>)
    requires HubDue.Ended(s) && Agrees(s, c, w) && Carry(Obtained(s, c), heard)
    requires Reaches(w, step) && c in s.members ==> |s.members[c].sub.pending| < cfg.maxQueued
    ensures Carry(Obtained(Do(s, cfg, step), c), heard + if Reaches(w, step) then [step.e] else [])
  {
    if !step.Publish? && !step.PublishTerminal? {
      OtherStepsOweNothing(s, cfg, step, c, w, []);
    } else if c in s.members {
      RoomTakesEverything(s, cfg, step, c, w);
      if Reaches(w, step) {
        var got := Obtained(Do(s, cfg, step), c);
        CarryMore(Obtained(s, c), heard, got[|got| - 1], step.e);
        assert got == Obtained(s, c) + [got[|got| - 1]];
      }
    }
  }

  lemma {:induction false} RunDeliversAll(cfg: Config, steps: seq<Step>, c: SubId)
    requires AllProper(steps) && KeepsUp(cfg, steps, c)
    ensures Carry(Obtained(Run(EMPTY_STATE, cfg, steps), c), Heard(cfg, steps, c))
  {
    if steps != [] {
      var butLast, last := steps[..|steps| - 1], steps[|steps| - 1];
      RunDeliversAll(cfg, butLast, c);
      RunAgrees(cfg, butLast, c);
      StepDeliversAll(Run(EMPTY_STATE, cfg, butLast), cfg, last, c, Watched(cfg, butLast, c), Heard(cfg, butLast, c));
    }
  }

  /** A subscriber that never has maxQueued items pending when something is published for it has received, or
      has pending, every event published for it since its Attach, droppable ones included, in order and once. */
  lemma NothingIsDroppedIfItKeepsUp(cfg: Config, steps: seq<Step>, c: SubId)
    requires AllProper(steps) && KeepsUp(cfg, steps, c)
    ensures Carry(Obtained(Run(EMPTY_STATE, cfg, steps), c), Heard(cfg, steps, c))
  {
    RunDeliversAll(cfg, steps, c);
  }

  // ----- The bound -------------------------------------------------------------------------------------

  /** What is queued is marked droppable exactly by its kind. */
  ghost predicate FlagsFit(s: State) {
    forall c :: c in s.members ==> FlagFits(s.members[c].sub.pending)
  }

  predicate FlagFits(items: seq<Item>) {
    forall i :: 0 <= i < |items| ==> (items[i].droppable <==> !MustReach(items[i].event.kind))
  }

  lemma DispatchKeepsFlags(m: Member, cfg: Config, event: RuntimeEvent, terminal: bool)
    requires FlagFits(m.sub.pending) && (terminal <==> EndsStream(event))
    ensures FlagFits(Dispatched(m, cfg, event, terminal).sub.pending)
  {
    KeptKeepsFlags(m.sub.pending);
    var item := Item(event, if terminal then false else QueueDroppable(event.kind));
    FlagPushed(m.sub.pending, item);
    FlagPushed(Kept(m.sub.pending), item);
  }

  lemma KeptKeepsFlags(items: seq<Item>)
    requires FlagFits(items)
    ensures FlagFits(Kept(items))
  {
    KeptIsStable(items);
    forall i | 0 <= i < |Kept(items)| ensures Kept(items)[i] in items {
      assert Kept(items)[i] in Kept(items);
    }
  }

  lemma FlagPushed(items: seq<Item>, item: Item)
    requires FlagFits(items) && (item.droppable <==> !MustReach(item.event.kind))
    ensures FlagFits(items + [item])
  {
  }

  lemma StepKeepsFlags(s: State, cfg: Config, step: Step)
    requires FlagsFit(s) && Proper(step)
    ensures FlagsFit(Do(s, cfg, step))
  {
    if (step.Publish? || step.PublishTerminal?) && step.e.eventId != "" {
      var t := TopicAt(Pruned(s.topics, cfg, step.now), step.e.eventId, step.now);
      forall c | c in s.members
        ensures FlagFits(Dispatched(s.members[c], cfg, Populated(t, step.e), EndsStream(step.e)).sub.pending)
      {
        DispatchKeepsFlags(s.members[c], cfg, Populated(t, step.e), EndsStream(step.e));
      }
    }
  }

  lemma {:induction false} RunKeepsFlags(cfg: Config, steps: seq<Step>)
    requires AllProper(steps)
    ensures FlagsFit(Run(EMPTY_STATE, cfg, steps))
  {
    if steps != [] {
      RunKeepsFlags(cfg, steps[..|steps| - 1]);
      StepKeepsFlags(Run(EMPTY_STATE, cfg, steps[..|steps| - 1]), cfg, steps[|steps| - 1]);
    }
  }

  /** However slow a subscriber is, it has at most maxQueued items pending, or nothing but events that must
      reach it. */
  lemma SlowSubscribersHoldOnlyWhatMustReach(cfg: Config, steps: seq<Step>, c: SubId)
    requires AllProper(steps)
    ensures var s := Run(EMPTY_STATE, cfg, steps);
            c in s.members ==>
              var pending := s.members[c].sub.pending;
              |pending| <= cfg.maxQueued || forall i :: 0 <= i < |pending| ==> MustReach(pending[i].event.kind)
  {
    RunKeepsFlags(cfg, steps);
    QueuesStayBounded(cfg, steps);
    var s := Run(EMPTY_STATE, cfg, steps);
    if c in s.members {
      assert Bounded(s.members[c].sub, cfg.maxQueued);
    }
  }

  // ----- The replay ------------------------------------------------------------------------------------

  /** Everything published for id. */
  function PublishedFor(steps: seq<Step>, id: string): seq<RuntimeEvent> {
    if steps == [] then []
    else
      var last := steps[|steps| - 1];
      PublishedFor(steps[..|steps| - 1], id)
        + if PublishesFor(last, id) then [last.e] else []
  }

  /** What a history of at most max events (any number when max is not positive) holds after these: a delta
      that finds it full is left out, any other event pushes the oldest out. */
  function Remembered(max: int, es: seq<RuntimeEvent>): seq<RuntimeEvent> {
    if es == [] then []
    else
      var h, e := Remembered(max, es[..|es| - 1]), es[|es| - 1];
      if max <= 0 || |h| < max then h + [e]
      else if e.kind in {ReasoningDelta, TextDelta} then h
      else h[1..] + [e]
  }

  lemma {:induction false} FewAreAllRemembered(max: int, es: seq<RuntimeEvent>)
    requires max <= 0 || |es| <= max
    ensures Remembered(max, es) == es
  {
    if es != [] {
      FewAreAllRemembered(max, es[..|es| - 1]);
      assert es == es[..|es| - 1] + [es[|es| - 1]];
    }
  }

  predicate NoEnd(steps: seq<Step>, id: string) {
    forall i :: 0 <= i < |steps| ==> !Ends(steps[i], id)
  }

  /** The history holds what the policy says of the events published for the id. */
  ghost predicate Holds(topics: map<string, Topic>, max: int, id: string, es: seq<RuntimeEvent>) {
    if id in topics then Carry(topics[id].history, Remembered(max, es)) else Remembered(max, es) == []
  }

  lemma HistoryHolds(t: Topic, cfg: Config, e: RuntimeEvent, now: Time, es: seq<RuntimeEvent>)
    requires Carry(t.history, Remembered(cfg.maxReplay, es)) && (cfg.maxReplay > 0 ==> |t.history| <= cfg.maxReplay)
    ensures Carry(Published(t, cfg, e, false, now).history, Remembered(cfg.maxReplay, es + [e]))
  {
    assert (es + [e])[..|es|] == es;
    var item := Item(Populated(t, e), ReplayDroppable(e.kind));
    if cfg.maxReplay > 0 {
      AppendPolicy(t.history, item, cfg.maxReplay);
    }
    CarryMore(t.history, Remembered(cfg.maxReplay, es), item, e);
    if t.history != [] {
      CarryTail(t.history, Remembered(cfg.maxReplay, es));
      CarryMore(t.history[1..], Remembered(cfg.maxReplay, es)[1..], item, e);
    }
  }

  lemma CarryTail(items: seq<Item>, due: seq<RuntimeEvent>)
    requires Carry(items, due) && items != []
    ensures Carry(items[1..], due[1..])
  {
  }

  /** The step publishes for id. */
  predicate PublishesFor(step: Step, id: string) {
    (step.Publish? || step.PublishTerminal?) && step.e.eventId == id && id != ""
  }

  /** A topic that has not ended is not forgotten, and only what is published for it changes what it holds. */
  lemma OthersLeaveTopic(s: State, cfg: Config, step: Step, id: string)
    requires id in s.topics ==> s.topics[id].terminal == None
    requires !PublishesFor(step, id)
    ensures var after := Do(s, cfg, step).topics;
            && (id in s.topics ==> id in after && after[id].history == s.topics[id].history
                                   && after[id].nextSequence == s.topics[id].nextSequence)
            && (id !in s.topics && id in after ==> after[id].history == [] && after[id].nextSequence == 2)
  {
  }

  lemma PublishChangesTopic(s: State, cfg: Config, step: Step, id: string)
    requires id in s.topics ==> s.topics[id].terminal == None
    requires step.Publish? && !IsTerminal(step.e) && PublishesFor(step, id)
    ensures Do(s, cfg, step).topics == Pruned(s.topics, cfg, step.now)[id := Published(TopicAt(s.topics, id, step.now), cfg, step.e, false, step.now)]
  {
    assert TopicAt(Pruned(s.topics, cfg, step.now), id, step.now) == TopicAt(s.topics, id, step.now);
  }

  lemma StepHolds(s: State, cfg: Config, steps: seq<Step>, step: Step, id: string)
    requires HistoriesFit(s, cfg) && Holds(s.topics, cfg.maxReplay, id, PublishedFor(steps, id))
    requires id in s.topics ==> s.topics[id].terminal == None
    requires !Ends(step, id)
    ensures Holds(Do(s, cfg, step).topics, cfg.maxReplay, id, PublishedFor(steps + [step], id))
  {
    assert (steps + [step])[..|steps|] == steps;
    if PublishesFor(step, id) {
      PublishChangesTopic(s, cfg, step, id);
      HistoryHolds(TopicAt(s.topics, id, step.now), cfg, step.e, step.now, PublishedFor(steps, id));
    } else {
      OthersLeaveTopic(s, cfg, step, id);
      assert PublishedFor(steps + [step], id) == PublishedFor(steps, id);
    }
  }

  lemma {:induction false} RunHolds(cfg: Config, steps: seq<Step>, id: string)
    requires NoEnd(steps, id)
    ensures Holds(Run(EMPTY_STATE, cfg, steps).topics, cfg.maxReplay, id, PublishedFor(steps, id))
  {
    if steps != [] {
      var butLast, last := steps[..|steps| - 1], steps[|steps| - 1];
      RunHolds(cfg, butLast, id);
      OnlyEndsEnd(cfg, butLast, id);
      ReplayEndsWithItsTerminal(cfg, butLast);
      StepHolds(Run(EMPTY_STATE, cfg, butLast), cfg, butLast, last, id);
      assert butLast + [last] == steps;
    }
  }

  /** While no terminal event was published for the id, Attach returns exactly what the policy remembers of
      the events published for it; as long as these are at most maxReplay, that is all of them. */
  lemma ReplayIsWhatWasPublished(cfg: Config, steps: seq<Step>, c: SubId, id: string, now: Time)
    requires NoEnd(steps, id)
    ensures var s := Run(EMPTY_STATE, cfg, steps);
            var replay := Returned(s, cfg, Attach(c, id, now));
            var es := PublishedFor(steps, id);
            c in s.members ==>
              && |replay| == |Remembered(cfg.maxReplay, es)|
              && (forall i :: 0 <= i < |replay| ==> Stamped(Remembered(cfg.maxReplay, es)[i], replay[i]))
              && (cfg.maxReplay <= 0 || |es| <= cfg.maxReplay ==>
                    |replay| == |es| && forall i :: 0 <= i < |es| ==> Stamped(es[i], replay[i]))
  {
    var s, es := Run(EMPTY_STATE, cfg, steps), PublishedFor(steps, id);
    RunHolds(cfg, steps, id);
    OnlyEndsEnd(cfg, steps, id);
    if c in s.members {
      assert Returned(s, cfg, Attach(c, id, now)) == Replay(TopicAt(Pruned(s.topics, cfg, now), id, now));
      if cfg.maxReplay <= 0 || |es| <= cfg.maxReplay {
        FewAreAllRemembered(cfg.maxReplay, es);
      }
    }
  }

  // ----- Numbers ---------------------------------------------------------------------------------------

  predicate AllUnset(es: seq<RuntimeEvent>) {
    forall i :: 0 <= i < |es| ==> es[i].sequence == 0
  }

  lemma {:induction false} NumbersRunOn(cfg: Config, steps: seq<Step>, id: string)
    requires NoEnd(steps, id) && AllUnset(PublishedFor(steps, id))
    ensures var topics := Run(EMPTY_STATE, cfg, steps).topics;
            if id in topics then topics[id].nextSequence == 2 + |PublishedFor(steps, id)| else PublishedFor(steps, id) == []
  {
    if steps != [] {
      var butLast, last := steps[..|steps| - 1], steps[|steps| - 1];
      var es := PublishedFor(butLast, id);
      assert forall i :: 0 <= i < |es| ==> es[i] == PublishedFor(steps, id)[i];
      NumbersRunOn(cfg, butLast, id);
      OnlyEndsEnd(cfg, butLast, id);
      var s := Run(EMPTY_STATE, cfg, butLast);
      if PublishesFor(last, id) {
        assert last.e == PublishedFor(steps, id)[|es|];
        PublishChangesTopic(s, cfg, last, id);
      } else {
        OthersLeaveTopic(s, cfg, last, id);
      }
    }
  }

  /** Events published for an id without numbers of their own are numbered 2, 3, 4 and so on. */
  lemma EventsAreNumberedFromTwo(cfg: Config, steps: seq<Step>, e: RuntimeEvent, now: Time)
    requires NoEnd(steps, e.eventId) && AllUnset(PublishedFor(steps, e.eventId)) && e.sequence == 0 && e.eventId != ""
    ensures var n := |PublishedFor(steps, e.eventId)|;
            PublishAnswer(Run(EMPTY_STATE, cfg, steps), cfg, e, IsTerminal(e), now) == e.(sequence := n + 2)
  {
    NumbersRunOn(cfg, steps, e.eventId);
    OnlyEndsEnd(cfg, steps, e.eventId);
  }

  // ----- Forgetting ------------------------------------------------------------------------------------

  /** An ended topic is replayed whole, the terminal event last, and forgotten after its retention: an Attach
      more than that after the end replays nothing and waits for new events. */
  lemma EndIsForgotten(cfg: Config, steps: seq<Step>, e: RuntimeEvent, from: Time, c: SubId, now: Time)
    requires e.eventId != "" && NoEnd(steps, e.eventId)
    ensures var s := Do(Run(EMPTY_STATE, cfg, steps), cfg, PublishTerminal(e, from));
            c in s.members ==>
              var replay := Returned(s, cfg, Attach(c, e.eventId, now));
              var whole := Remembered(cfg.maxReplay, PublishedFor(steps, e.eventId)) + [e];
              if now > from + cfg.retention then replay == []
              else |replay| == |whole| && forall i :: 0 <= i < |whole| ==> Stamped(whole[i], replay[i])
  {
    var s, id := Run(EMPTY_STATE, cfg, steps), e.eventId;
    OnlyEndsEnd(cfg, steps, id);
    RunHolds(cfg, steps, id);
    var ended := Do(s, cfg, PublishTerminal(e, from));
    if c in ended.members {
      EndedTopic(s, cfg, e, from);
      var t := TopicAt(s.topics, id, from);
      AttachToEnded(ended, cfg, id, Published(t, cfg, e, true, from), c, now);
      ReplayOfEnded(t, cfg, e, from, Remembered(cfg.maxReplay, PublishedFor(steps, id)));
    }
  }

  lemma AttachToEnded(s: State, cfg: Config, id: string, t: Topic, c: SubId, now: Time)
    requires id in s.topics && s.topics[id] == t && t.terminal.Some? && t.subscribers == {} && c in s.members
    ensures Returned(s, cfg, Attach(c, id, now)) == if now > t.updatedAt + cfg.retention then [] else Replay(t)
  {
  }

  lemma ReplayOfEnded(t: Topic, cfg: Config, e: RuntimeEvent, from: Time, remembered: seq<RuntimeEvent>)
    requires Carry(t.history, remembered)
    ensures var replay, whole := Replay(Published(t, cfg, e, true, from)), remembered + [e];
            |replay| == |whole| && forall i :: 0 <= i < |whole| ==> Stamped(whole[i], replay[i])
  {
  }

  lemma EndedTopic(s: State, cfg: Config, e: RuntimeEvent, from: Time)
    requires e.eventId != "" && (e.eventId in s.topics ==> s.topics[e.eventId].terminal == None)
    ensures var t := TopicAt(s.topics, e.eventId, from);
            var topics := Do(s, cfg, PublishTerminal(e, from)).topics;
            e.eventId in topics && topics[e.eventId] == Published(t, cfg, e, true, from)
  {
    assert TopicAt(Pruned(s.topics, cfg, from), e.eventId, from) == TopicAt(s.topics, e.eventId, from);
  }
}
