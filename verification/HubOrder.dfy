/** Sequence numbers: with the hub numbering the events, what a subscriber replays and receives rises
    strictly, as long as nothing is published behind a terminal event. */
module HubOrder {
  import opened Basics
  import opened Queue
  import opened Hub

  /** Strictly rising sequence numbers from 2 up and below limit. */
  predicate Rising(es: seq<RuntimeEvent>, limit: int) {
    es != [] ==>
      var last := es[|es| - 1].sequence;
      2 <= last < limit && Rising(es[..|es| - 1], last)
  }

  lemma {:induction false} RisingByIndex(es: seq<RuntimeEvent>, limit: int)
    ensures Rising(es, limit) <==>
              (forall i :: 0 <= i < |es| ==> 2 <= es[i].sequence < limit)
              && (forall i, j :: 0 <= i < j < |es| ==> es[i].sequence < es[j].sequence)
  {
    if es != [] {
      var n := |es| - 1;
      RisingByIndex(es[..n], es[n].sequence);
      assert forall i :: 0 <= i < n ==> es[..n][i] == es[i];
      assert es[n].sequence < limit ==> forall i :: 0 <= i < n && es[i].sequence < es[n].sequence ==> es[i].sequence < limit;
    }
  }

  lemma RisingPushed(es: seq<RuntimeEvent>, e: RuntimeEvent)
    requires Rising(es, e.sequence) && e.sequence >= 2
    ensures Rising(es + [e], e.sequence + 1)
  {
    assert (es + [e])[..|es|] == es;
  }

  lemma RisingWidened(es: seq<RuntimeEvent>, limit: int, more: int)
    requires Rising(es, limit) && limit <= more
    ensures Rising(es, more)
  {
  }

  lemma RisingTail(es: seq<RuntimeEvent>, limit: int)
    requires Rising(es, limit) && es != []
    ensures Rising(es[1..], limit)
  {
    RisingByIndex(es, limit);
    RisingByIndex(es[1..], limit);
  }

  lemma {:induction false} RisingSnoc(es: seq<RuntimeEvent>, e: RuntimeEvent, limit: int)
    ensures Rising(es + [e], limit) <==> 2 <= e.sequence < limit && Rising(es, e.sequence)
  {
    assert (es + [e])[..|es|] == es;
  }

  lemma {:induction false} LastItem(a: seq<RuntimeEvent>, items: seq<Item>)
    requires items != []
    ensures var init, last := items[..|items| - 1], items[|items| - 1];
            && a + Events(items) == (a + Events(init)) + [last.event]
            && (last.droppable ==> Kept(items) == Kept(init))
            && (!last.droppable ==> a + Events(Kept(items)) == (a + Events(Kept(init))) + [last.event])
  {
    assert items == items[..|items| - 1] + [items[|items| - 1]];
    KeptOfConcat(items[..|items| - 1], [items[|items| - 1]]);
  }

  /** Dropping droppable items from the end part of a rising stream keeps it rising. */
  lemma {:induction false} RisingWithoutDropped(a: seq<RuntimeEvent>, items: seq<Item>, limit: int)
    requires Rising(a + Events(items), limit)
    ensures Rising(a + Events(Kept(items)), limit)
  {
    if items != [] {
      var init, last := items[..|items| - 1], items[|items| - 1];
      LastItem(a, items);
      RisingSnoc(a + Events(init), last.event, limit);
      RisingWithoutDropped(a, init, last.event.sequence);
      if last.droppable {
        RisingWidened(a + Events(Kept(init)), last.event.sequence, limit);
      } else {
        RisingSnoc(a + Events(Kept(init)), last.event, limit);
      }
    }
  }

  /** Everything a member has replayed, received and queued, in that order. */
  function Stream(m: Member): seq<RuntimeEvent> {
    m.replay + Events(m.delivered) + Events(m.sub.pending)
  }

  /** The hub numbers the events, each subscription attaches once, and nothing follows a terminal event. */
  predicate Orderly(s: State, cfg: Config, step: Step) {
    match step
    case Attach(c, id, now) => c in s.members ==> s.members[c].eventId == None
    case Publish(e, now) =>
      e.sequence == 0 && (!IsTerminal(e) ==> TopicAt(Pruned(s.topics, cfg, now), e.eventId, now).terminal == None)
    case PublishTerminal(e, now) => e.sequence == 0
    case _ => true
  }

  predicate OrderlyRun(cfg: Config, steps: seq<Step>) {
    steps != [] ==>
      OrderlyRun(cfg, steps[..|steps| - 1]) && Orderly(Run(EMPTY_STATE, cfg, steps[..|steps| - 1]), cfg, steps[|steps| - 1])
  }

  ghost predicate TopicRises(t: Topic) {
    2 <= t.nextSequence && Rising(Replay(t), t.nextSequence)
  }

  /** A member's stream rises, below the next number of any topic it still subscribes to. */
  ghost predicate MemberRises(s: State, c: SubId) {
    c in s.members ==>
      var m := s.members[c];
      && (exists limit :: Rising(Stream(m), limit))
      && (m.eventId == None ==> Stream(m) == [])
      && forall id :: id in s.topics && c in s.topics[id].subscribers ==>
           m.eventId == Some(id) && Rising(Stream(m), s.topics[id].nextSequence)
  }

  ghost predicate Ordered(s: State, cfg: Config) {
    && HistoriesFit(s, cfg)
    && (forall id :: id in s.topics ==> TopicRises(s.topics[id]))
    && (forall id :: id in s.topics ==> s.topics[id].subscribers <= s.members.Keys)
    && (forall c :: MemberRises(s, c))
  }

  lemma EventsPushed(items: seq<Item>, item: Item)
    ensures Events(items + [item]) == Events(items) + [item.event]
  {
    assert (items + [item])[..|items|] == items;
  }

  /** Pushing onto a full history drops the oldest event. */
  lemma {:induction false} ShiftedRises(history: seq<Item>, item: Item)
    requires Rising(Events(history), item.event.sequence) && item.event.sequence >= 2 && history != []
    ensures Rising(Events(history[1..] + [item]), item.event.sequence + 1)
  {
    RisingTail(Events(history), item.event.sequence);
    assert Events(history)[1..] == Events(history[1..]);
    RisingPushed(Events(history[1..]), item.event);
    EventsPushed(history[1..], item);
  }

  lemma {:induction false} AppendedRises(history: seq<Item>, item: Item, max: int)
    requires Rising(Events(history), item.event.sequence) && item.event.sequence >= 2
    requires max > 0 ==> |history| <= max
    ensures Rising(Events(AfterAppend(history, item, max)), item.event.sequence + 1)
  {
    if max > 0 {
      AppendPolicy(history, item, max);
    }
    if max <= 0 || |history| < max {
      RisingPushed(Events(history), item.event);
      EventsPushed(history, item);
    } else if item.droppable {
      RisingWidened(Events(history), item.event.sequence, item.event.sequence + 1);
    } else {
      ShiftedRises(history, item);
    }
  }

  lemma PublishedRises(t: Topic, cfg: Config, e: RuntimeEvent, terminal: bool, now: Time)
    requires TopicRises(t) && e.sequence == 0 && t.terminal == None
    requires cfg.maxReplay > 0 ==> |t.history| <= cfg.maxReplay
    ensures TopicRises(Published(t, cfg, e, terminal, now))
  {
    var event := Populated(t, e);
    var after := Published(t, cfg, e, terminal, now);
    assert Replay(t) == Events(t.history);
    if terminal {
      RisingPushed(Events(t.history), event);
    } else {
      AppendedRises(t.history, Item(event, ReplayDroppable(e.kind)), cfg.maxReplay);
      assert Replay(after) == Events(after.history);
    }
  }

  lemma QueuedRises(base: seq<RuntimeEvent>, s: Sub, max: nat, item: Item)
    requires Rising(base + Events(s.pending), item.event.sequence) && item.event.sequence >= 2
    ensures Rising(base + Events(Enqueued(s, max, item).pending), item.event.sequence + 1)
  {
    var n := item.event.sequence;
    if s.closed || (|s.pending| >= max && item.droppable) {
      RisingWidened(base + Events(s.pending), n, n + 1);
    } else if |s.pending| >= max {
      RisingWithoutDropped(base, s.pending, n);
      PushedOntoRises(base, Kept(s.pending), item);
    } else {
      PushedOntoRises(base, s.pending, item);
    }
  }

  lemma PushedOntoRises(base: seq<RuntimeEvent>, room: seq<Item>, item: Item)
    requires Rising(base + Events(room), item.event.sequence) && item.event.sequence >= 2
    ensures Rising(base + Events(room + [item]), item.event.sequence + 1)
  {
    RisingPushed(base + Events(room), item.event);
    EventsPushed(room, item);
    assert base + Events(room + [item]) == (base + Events(room)) + [item.event];
  }

  lemma DispatchedRises(m: Member, cfg: Config, event: RuntimeEvent, terminal: bool)
    requires Rising(Stream(m), event.sequence) && event.sequence >= 2
    ensures Rising(Stream(Dispatched(m, cfg, event, terminal)), event.sequence + 1)
  {
    var item := Item(event, if terminal then false else QueueDroppable(event.kind));
    QueuedRises(m.replay + Events(m.delivered), m.sub, cfg.maxQueued, item);
  }

  // ----- Steps ---------------------------------------------------------------------------------------

  /** Members whose stream is untouched keep rising when no topic they subscribe to lowers its number. */
  lemma {:induction false} UntouchedMemberRises(s: State, after: State, c: SubId)
    requires MemberRises(s, c) && c in s.members && c in after.members
    requires Stream(after.members[c]) == Stream(s.members[c]) && after.members[c].eventId == s.members[c].eventId
    requires forall id :: id in after.topics && c in after.topics[id].subscribers ==>
               id in s.topics && c in s.topics[id].subscribers && after.topics[id].nextSequence == s.topics[id].nextSequence
    ensures MemberRises(after, c)
  {
    var limit :| Rising(Stream(s.members[c]), limit);
    assert Rising(Stream(after.members[c]), limit);
  }

  /** A member attached to one topic rises below that topic's next number. */
  lemma {:induction false} AttachedRises(s: State, c: SubId, m: Member, id: string, limit: int)
    requires c in s.members && s.members[c] == m && m.eventId == Some(id) && Rising(Stream(m), limit)
    requires forall o :: o in s.topics && c in s.topics[o].subscribers ==> o == id && limit == s.topics[o].nextSequence
    ensures MemberRises(s, c)
  {
  }

  lemma DispatchedIs(s: State, cfg: Config, e: RuntimeEvent, terminal: bool, now: Time, c: SubId)
    requires e.eventId != "" && c in s.members
    requires var t := TopicAt(Pruned(s.topics, cfg, now), e.eventId, now); t.terminal == None && c in t.subscribers
    ensures var t := TopicAt(Pruned(s.topics, cfg, now), e.eventId, now);
            var after := AfterPublish(s, cfg, e, terminal, now);
            && c in after.members && after.members[c] == Dispatched(s.members[c], cfg, Populated(t, e), terminal)
            && after.members[c].eventId == s.members[c].eventId
            && forall o :: o in after.topics && o != e.eventId ==> o in s.topics && after.topics[o] == s.topics[o]
  {
  }

  lemma {:induction false} SubscriberRises(s: State, cfg: Config, e: RuntimeEvent, terminal: bool, now: Time, c: SubId)
    requires Ordered(s, cfg) && e.sequence == 0 && e.eventId != "" && c in s.members
    requires var t := TopicAt(Pruned(s.topics, cfg, now), e.eventId, now); t.terminal == None && c in t.subscribers
    ensures MemberRises(AfterPublish(s, cfg, e, terminal, now), c)
  {
    var t := TopicAt(Pruned(s.topics, cfg, now), e.eventId, now);
    var after := AfterPublish(s, cfg, e, terminal, now);
    assert MemberRises(s, c) && e.eventId in s.topics && t == s.topics[e.eventId] && TopicRises(t);
    var event := Populated(t, e);
    assert event.sequence == t.nextSequence && Rising(Stream(s.members[c]), event.sequence);
    DispatchedRises(s.members[c], cfg, event, terminal);
    DispatchedIs(s, cfg, e, terminal, now, c);
    AttachedRises(after, c, Dispatched(s.members[c], cfg, event, terminal), e.eventId, t.nextSequence + 1);
  }

  lemma {:induction false} BystanderRises(s: State, cfg: Config, e: RuntimeEvent, terminal: bool, now: Time, c: SubId)
    requires Ordered(s, cfg) && e.sequence == 0 && c in s.members
    requires var t := TopicAt(Pruned(s.topics, cfg, now), e.eventId, now);
             e.eventId == "" || (terminal && t.terminal.Some?) || c !in t.subscribers
    ensures MemberRises(AfterPublish(s, cfg, e, terminal, now), c)
  {
    assert MemberRises(s, c);
    UntouchedMemberRises(s, AfterPublish(s, cfg, e, terminal, now), c);
  }

  lemma {:induction false} PublishMemberRises(s: State, cfg: Config, e: RuntimeEvent, terminal: bool, now: Time, c: SubId)
    requires Ordered(s, cfg) && e.sequence == 0
    requires !terminal ==> TopicAt(Pruned(s.topics, cfg, now), e.eventId, now).terminal == None
    ensures MemberRises(AfterPublish(s, cfg, e, terminal, now), c)
  {
    if c in s.members {
      var t := TopicAt(Pruned(s.topics, cfg, now), e.eventId, now);
      if e.eventId == "" || (terminal && t.terminal.Some?) || c !in t.subscribers {
        BystanderRises(s, cfg, e, terminal, now, c);
      } else {
        SubscriberRises(s, cfg, e, terminal, now, c);
      }
    }
  }

  lemma {:induction false} PublishTopicRises(s: State, cfg: Config, e: RuntimeEvent, terminal: bool, now: Time,
      id: string)
    requires Ordered(s, cfg) && e.sequence == 0 && id in AfterPublish(s, cfg, e, terminal, now).topics
    requires !terminal ==> TopicAt(Pruned(s.topics, cfg, now), e.eventId, now).terminal == None
    ensures var after := AfterPublish(s, cfg, e, terminal, now);
            TopicRises(after.topics[id]) && after.topics[id].subscribers <= after.members.Keys
  {
    var t := TopicAt(Pruned(s.topics, cfg, now), e.eventId, now);
    var after := AfterPublish(s, cfg, e, terminal, now);
    if id == e.eventId && id != "" && t.terminal == None {
      assert TopicRises(t);
      PublishedRises(t, cfg, e, terminal, now);
      assert after.topics[id] == Published(t, cfg, e, terminal, now);
    } else {
      assert id in s.topics && after.topics[id] == s.topics[id] && after.members.Keys == s.members.Keys;
    }
  }

  lemma {:induction false} PublishOrdered(s: State, cfg: Config, e: RuntimeEvent, terminal: bool, now: Time)
    requires Ordered(s, cfg) && e.sequence == 0
    requires !terminal ==> TopicAt(Pruned(s.topics, cfg, now), e.eventId, now).terminal == None
    requires HistoriesFit(AfterPublish(s, cfg, e, terminal, now), cfg)
    ensures Ordered(AfterPublish(s, cfg, e, terminal, now), cfg)
  {
    forall id | id in AfterPublish(s, cfg, e, terminal, now).topics
      ensures var after := AfterPublish(s, cfg, e, terminal, now);
              TopicRises(after.topics[id]) && after.topics[id].subscribers <= after.members.Keys
    {
      PublishTopicRises(s, cfg, e, terminal, now, id);
    }
    forall c ensures MemberRises(AfterPublish(s, cfg, e, terminal, now), c) {
      PublishMemberRises(s, cfg, e, terminal, now, c);
    }
  }

  lemma {:induction false} AttacherRises(s: State, cfg: Config, c: SubId, id: string, now: Time)
    requires Ordered(s, cfg) && c in s.members && s.members[c].eventId == None
    ensures MemberRises(AfterAttach(s, cfg, c, id, now), c)
  {
    var t := TopicAt(Pruned(s.topics, cfg, now), id, now);
    var after := AfterAttach(s, cfg, c, id, now);
    assert MemberRises(s, c) && TopicRises(t);
    FreshStream(s.members[c], after.members[c]);
    AttachedRises(after, c, after.members[c], id, t.nextSequence);
  }

  lemma FreshStream(m: Member, after: Member)
    requires Stream(m) == [] && after.delivered == m.delivered && after.sub == m.sub
    ensures Stream(after) == after.replay
  {
    assert |m.replay| + |Events(m.delivered)| + |Events(m.sub.pending)| == |Stream(m)|;
  }

  lemma {:induction false} AttachMemberRises(s: State, cfg: Config, c: SubId, id: string, now: Time, d: SubId)
    requires Ordered(s, cfg) && c in s.members && s.members[c].eventId == None && d in s.members
    ensures MemberRises(AfterAttach(s, cfg, c, id, now), d)
  {
    if d == c {
      AttacherRises(s, cfg, c, id, now);
    } else {
      assert MemberRises(s, d);
      UntouchedMemberRises(s, AfterAttach(s, cfg, c, id, now), d);
    }
  }

  lemma {:induction false} AttachOrdered(s: State, cfg: Config, c: SubId, id: string, now: Time)
    requires Ordered(s, cfg) && c in s.members && s.members[c].eventId == None
    requires HistoriesFit(AfterAttach(s, cfg, c, id, now), cfg)
    ensures Ordered(AfterAttach(s, cfg, c, id, now), cfg)
  {
    var t := TopicAt(Pruned(s.topics, cfg, now), id, now);
    var after := AfterAttach(s, cfg, c, id, now);
    assert TopicRises(t) && Replay(after.topics[id]) == Replay(t);
    forall d ensures MemberRises(after, d) {
      if d in s.members {
        AttachMemberRises(s, cfg, c, id, now, d);
      }
    }
  }

  lemma OtherTopicKept(s: State, cfg: Config, step: Step, id: string)
    requires (step.Reserve? || step.Release? || step.Receive?) && id in Do(s, cfg, step).topics
    ensures var t := Do(s, cfg, step).topics[id];
            && id in s.topics
            && t == s.topics[id].(subscribers := t.subscribers, updatedAt := t.updatedAt)
            && t.subscribers <= s.topics[id].subscribers
    ensures s.members.Keys <= Do(s, cfg, step).members.Keys
  {
  }

  lemma {:induction false} OtherMemberRises(s: State, cfg: Config, step: Step, d: SubId)
    requires (step.Reserve? || step.Release? || step.Receive?) && MemberRises(s, d)
    requires forall id :: id in s.topics && d in s.topics[id].subscribers ==> d in s.members
    ensures MemberRises(Do(s, cfg, step), d)
  {
    var after := Do(s, cfg, step);
    forall id | id in after.topics
      ensures id in s.topics && after.topics[id].nextSequence == s.topics[id].nextSequence
              && after.topics[id].subscribers <= s.topics[id].subscribers
    {
      OtherTopicKept(s, cfg, step, id);
    }
    if d in s.members {
      StreamUntouched(s, cfg, step, d);
      UntouchedMemberRises(s, after, d);
    } else if d in after.members {
      assert after.members[d] == Member(NEW_SUB, None, [], []);
      assert Rising(Stream(after.members[d]), 2);
    }
  }

  /** Receiving moves an event from the queue to what was received, releasing only closes the queue. */
  lemma {:induction false} OtherOrdered(s: State, cfg: Config, step: Step)
    requires Ordered(s, cfg) && (step.Reserve? || step.Release? || step.Receive?)
    requires HistoriesFit(Do(s, cfg, step), cfg)
    ensures Ordered(Do(s, cfg, step), cfg)
  {
    var after := Do(s, cfg, step);
    forall d ensures MemberRises(after, d) {
      OtherMemberRises(s, cfg, step, d);
    }
    forall id | id in after.topics ensures TopicRises(after.topics[id]) && after.topics[id].subscribers <= after.members.Keys {
      OtherTopicKept(s, cfg, step, id);
      assert Replay(after.topics[id]) == Replay(s.topics[id]);
    }
  }

  lemma {:induction false} StreamUntouched(s: State, cfg: Config, step: Step, c: SubId)
    requires c in s.members && (step.Reserve? || step.Release? || step.Receive?)
    ensures var after := Do(s, cfg, step);
            && c in after.members && after.members[c].eventId == s.members[c].eventId
            && Stream(after.members[c]) == Stream(s.members[c])
  {
    if step == Receive(c) && s.members[c].sub.pending != [] {
      var m := s.members[c];
      EventsPushed(m.delivered, m.sub.pending[0]);
      assert Events(m.sub.pending) == [m.sub.pending[0].event] + Events(m.sub.pending[1..]);
    }
  }

  lemma StepOrdered(s: State, cfg: Config, step: Step)
    requires Ordered(s, cfg) && Orderly(s, cfg, step)
    ensures Ordered(Do(s, cfg, step), cfg)
  {
    StepKeepsHistoriesFit(s, cfg, step);
    match step
    case Publish(e, now) => PublishOrdered(s, cfg, e, IsTerminal(e), now);
    case PublishTerminal(e, now) => PublishOrdered(s, cfg, e, true, now);
    case Attach(c, id, now) =>
      if c in s.members {
        AttachOrdered(s, cfg, c, id, now);
      }
    case Receive(c) => OtherOrdered(s, cfg, step);
    case Reserve(c) => OtherOrdered(s, cfg, step);
    case Release(c, now) => OtherOrdered(s, cfg, step);
  }

  lemma {:induction false} OrderlyRunOrdered(cfg: Config, steps: seq<Step>)
    requires OrderlyRun(cfg, steps)
    ensures Ordered(Run(EMPTY_STATE, cfg, steps), cfg)
  {
    if steps != [] {
      OrderlyRunOrdered(cfg, steps[..|steps| - 1]);
      StepOrdered(Run(EMPTY_STATE, cfg, steps[..|steps| - 1]), cfg, steps[|steps| - 1]);
    }
  }

  /** In an orderly run every subscriber's replay followed by its live events carries strictly rising
      sequence numbers from 2 up, and so does every topic's replay. */
  lemma StreamsRise(cfg: Config, steps: seq<Step>, c: SubId, id: string)
    requires OrderlyRun(cfg, steps)
    ensures var s := Run(EMPTY_STATE, cfg, steps);
            && (c in s.members ==>
                  var es := Stream(s.members[c]);
                  (forall i :: 0 <= i < |es| ==> es[i].sequence >= 2)
                  && forall i, j :: 0 <= i < j < |es| ==> es[i].sequence < es[j].sequence)
            && (id in s.topics ==>
                  var es := Replay(s.topics[id]);
                  (forall i :: 0 <= i < |es| ==> es[i].sequence >= 2)
                  && forall i, j :: 0 <= i < j < |es| ==> es[i].sequence < es[j].sequence)
  {
    OrderlyRunOrdered(cfg, steps);
    var s := Run(EMPTY_STATE, cfg, steps);
    if c in s.members {
      assert MemberRises(s, c);
      var limit :| Rising(Stream(s.members[c]), limit);
      RisingByIndex(Stream(s.members[c]), limit);
    }
    if id in s.topics {
      RisingByIndex(Replay(s.topics[id]), s.topics[id].nextSequence);
    }
  }

  /** The condition is needed: an event published behind a terminal one and kept in the history is
      replayed before it with a higher number. */
  lemma LateEventBreaksOrder(t: Topic, cfg: Config, e: RuntimeEvent, now: Time)
    requires t.terminal.Some? && t.terminal.value.sequence < t.nextSequence && e.sequence == 0 && !IsTerminal(e)
    requires cfg.maxReplay > 0 && |t.history| <= cfg.maxReplay
    ensures Rising(Replay(Published(t, cfg, e, false, now)), t.nextSequence + 1) <==>
              Rising(Replay(t), t.nextSequence + 1) && |t.history| == cfg.maxReplay && ReplayDroppable(e.kind)
  {
    var after := Published(t, cfg, e, false, now);
    var item := Item(Populated(t, e), ReplayDroppable(e.kind));
    AppendPolicy(t.history, item, cfg.maxReplay);
    if |t.history| == cfg.maxReplay && item.droppable {
      assert Replay(after) == Replay(t);
    } else {
      var n := |after.history|;
      assert after.history[n - 1] == item;
      var replay := Replay(after);
      assert |replay| == n + 1 && replay[n - 1].sequence == t.nextSequence && replay[n] == t.terminal.value;
      RisingByIndex(replay, t.nextSequence + 1);
    }
  }

  lemma FirstAppend(item: Item, max: int)
    ensures AfterAppend([], item, max) == [item]
  {
    assert [] + [item] == [item];
  }

  lemma {:induction false} ReplayBehind(t: Topic, cfg: Config, g: RuntimeEvent, e: RuntimeEvent)
    requires t.history == [] && t.terminal == Some(e) && t.nextSequence == 3 && g.sequence == 0
    ensures Replay(Published(t, cfg, g, false, 0)) == [g.(sequence := 3), e]
  {
    var item := Item(Populated(t, g), ReplayDroppable(g.kind));
    FirstAppend(item, cfg.maxReplay);
    assert Published(t, cfg, g, false, 0).history == [item];
    assert [item][..0] == [] && Events([item]) == [item.event];
  }

  lemma LateEventAfterwards(cfg: Config, e: RuntimeEvent, g: RuntimeEvent)
    requires e.eventId == g.eventId != "" && e.sequence == g.sequence == 0 && !IsTerminal(g) && cfg.retention >= 0
    ensures var s := Do(Do(EMPTY_STATE, cfg, PublishTerminal(e, 0)), cfg, Publish(g, 0));
            e.eventId in s.topics && Replay(s.topics[e.eventId]) == [g.(sequence := 3), e.(sequence := 2)]
  {
    var s1 := Do(EMPTY_STATE, cfg, PublishTerminal(e, 0));
    var t := s1.topics[e.eventId];
    assert t == Topic(3, {}, [], Some(e.(sequence := 2)), 0) && !Stale(t, cfg, 0);
    ReplayBehind(t, cfg, g, e.(sequence := 2));
  }

  lemma {:induction false} RunOfTwo(cfg: Config, first: Step, second: Step)
    ensures Run(EMPTY_STATE, cfg, [first] + [second]) == Do(Do(EMPTY_STATE, cfg, first), cfg, second)
  {
    assert [first][..0] == [] && ([first] + [second])[..1] == [first];
    assert Run(EMPTY_STATE, cfg, [first]) == Do(EMPTY_STATE, cfg, first);
  }

  /** From an empty hub: a terminal event, then an event of the same id, and the next Attach replays the
      second with number 3 before the first with number 2. */
  lemma LateEventIsReplayedFirst(cfg: Config, e: RuntimeEvent, g: RuntimeEvent)
    requires e.eventId == g.eventId != "" && e.sequence == g.sequence == 0 && !IsTerminal(g) && cfg.retention >= 0
    ensures var s := Run(EMPTY_STATE, cfg, [PublishTerminal(e, 0)] + [Publish(g, 0)]);
            && e.eventId in s.topics && Replay(s.topics[e.eventId]) == [g.(sequence := 3), e.(sequence := 2)]
            && forall limit :: !Rising(Replay(s.topics[e.eventId]), limit)
  {
    LateEventAfterwards(cfg, e, g);
    RunOfTwo(cfg, PublishTerminal(e, 0), Publish(g, 0));
    var replay := [g.(sequence := 3), e.(sequence := 2)];
    forall limit ensures !Rising(replay, limit) {
      RisingByIndex(replay, limit);
      assert replay[0].sequence > replay[1].sequence;
    }
  }
}
