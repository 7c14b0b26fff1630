/** The stream hub: per event a replay history and a terminal event, and subscribers that get every
    event published after they attached, minus droppable ones that did not fit. */
module Hub {
  import opened Basics
  import opened Queue

  type SubId = int

  datatype Config = Config(maxQueued: nat, maxReplay: int, retention: Time)

  const DEFAULT_CONFIG := Config(64, 2048, 10 * MINUTE)

  datatype Topic = Topic(
    nextSequence: int, subscribers: set<SubId>, history: seq<Item>, terminal: Option<RuntimeEvent>, updatedAt: Time)

  /** A subscription as the hub and its consumer see it: the event it is attached to (None before),
      what Attach returned, and what Next has returned. */
  datatype Member = Member(sub: Sub, eventId: Option<string>, replay: seq<RuntimeEvent>, delivered: seq<Item>)

  datatype State = State(topics: map<string, Topic>, members: map<SubId, Member>)

  const EMPTY_STATE := State(map[], map[])

  predicate IsTerminal(e: RuntimeEvent) {
    e.kind == Completed || e.kind == Failed
  }

  predicate QueueDroppable(kind: Kind) {
    kind in {Claimed, Executing, FinalizeStarted, ReasoningDelta, TextDelta}
  }

  predicate ReplayDroppable(kind: Kind) {
    kind in {ReasoningDelta, TextDelta}
  }

  // ----- History -----------------------------------------------------------------------------------

  /** The items appendHistory's filter keeps: every item while fewer than max are kept, then only those
      that must not be dropped. */
  function Fitting(items: seq<Item>, max: nat): seq<Item> {
    if items == [] then []
    else
      var head := Fitting(items[..|items| - 1], max);
      var last := items[|items| - 1];
      if |head| < max || !last.droppable then head + [last] else head
  }

  function AfterAppend(history: seq<Item>, item: Item, max: int): seq<Item> {
    var long := history + [item];
    if max <= 0 || |long| <= max then long
    else
      var fitting := Fitting(long, max);
      if |fitting| <= max then fitting else fitting[|fitting| - max..]
  }

  lemma {:induction false} ShortFits(items: seq<Item>, max: nat)
    requires |items| <= max
    ensures Fitting(items, max) == items
  {
    if items != [] {
      ShortFits(items[..|items| - 1], max);
    }
  }

  /** On a history within its limit: a new item is appended while there is room; on a full history a
      droppable item is lost and any other item pushes the oldest one out. */
  lemma AppendPolicy(history: seq<Item>, item: Item, max: int)
    requires 0 < max && |history| <= max
    ensures AfterAppend(history, item, max)
              == if |history| < max then history + [item] else if item.droppable then history else history[1..] + [item]
  {
    if |history| == max {
      ShortFits(history, max);
      assert (history + [item])[..|history|] == history;
    }
  }

  /** The filter loop of appendHistory, over the array it reads. */
  method FitInPlace(a: array<Item>, max: nat) returns (m: nat)
    modifies a
    ensures m <= a.Length && a[..m] == Fitting(old(a[..]), max)
  {
    m := 0;
    var i := 0;
    while i < a.Length
      invariant 0 <= m <= i <= a.Length
      invariant a[..m] == Fitting(old(a[..i]), max)
      invariant a[i..] == old(a[i..])
    {
      assert old(a[..i + 1])[..i] == old(a[..i]);
      var existing := a[i];
      assert existing == a[i..][0] == old(a[i..])[0] == old(a[..i + 1])[i];
      if m < max || !existing.droppable {
        a[m] := existing;
        assert a[..m + 1] == a[..m] + [existing];
        m := m + 1;
      }
      assert a[i + 1..] == old(a[i..])[1..];
      i := i + 1;
    }
    assert old(a[..i]) == old(a[..]);
  }

  method AppendHistory(history: seq<Item>, item: Item, max: int) returns (r: seq<Item>)
    ensures r == AfterAppend(history, item, max)
  {
    var long := history + [item];
    if max <= 0 || |long| <= max {
      return long;
    }
    var a := new Item[|long|](i requires 0 <= i < |long| => long[i]);
    assert a[..] == long;
    var m := FitInPlace(a, max);
    var filtered := a[..m];
    r := if m <= max then filtered else filtered[m - max..];
  }

  // ----- Steps ---------------------------------------------------------------------------------------

  predicate Stale(t: Topic, cfg: Config, now: Time) {
    t.terminal.Some? && t.subscribers == {} && now - t.updatedAt > cfg.retention
  }

  function Pruned(topics: map<string, Topic>, cfg: Config, now: Time): map<string, Topic> {
    map id | id in topics && !Stale(topics[id], cfg, now) :: topics[id]
  }

  /** The topic publish and attach work on, after pruning; a new one starts at sequence 2. */
  function TopicAt(topics: map<string, Topic>, id: string, now: Time): Topic {
    if id in topics then topics[id] else Topic(2, {}, [], None, now)
  }

  function Replay(t: Topic): seq<RuntimeEvent> {
    Events(t.history) + if t.terminal.Some? then [t.terminal.value] else []
  }

  /** The event as recorded: an unset sequence number gets the topic's next one. */
  function Populated(t: Topic, e: RuntimeEvent): RuntimeEvent {
    if e.sequence == 0 then e.(sequence := t.nextSequence) else e
  }

  function Published(t: Topic, cfg: Config, e: RuntimeEvent, terminal: bool, now: Time): Topic {
    var event := Populated(t, e);
    Topic(if e.sequence == 0 then t.nextSequence + 1 else t.nextSequence,
          if terminal then {} else t.subscribers,
          if terminal then t.history else AfterAppend(t.history, Item(event, ReplayDroppable(e.kind)), cfg.maxReplay),
          if terminal then Some(event) else t.terminal,
          now)
  }

  /** What one subscriber sees of a published event. */
  function Dispatched(m: Member, cfg: Config, event: RuntimeEvent, terminal: bool): Member {
    if terminal then m.(sub := Queue.Closed(Enqueued(m.sub, cfg.maxQueued, Item(event, false))))
    else m.(sub := Enqueued(m.sub, cfg.maxQueued, Item(event, QueueDroppable(event.kind))))
  }

  function AfterPublish(s: State, cfg: Config, e: RuntimeEvent, terminal: bool, now: Time): State {
    if e.eventId == "" then s
    else
      var topics := Pruned(s.topics, cfg, now);
      var t := TopicAt(topics, e.eventId, now);
      if terminal && t.terminal.Some? then s.(topics := topics)
      else
        State(topics[e.eventId := Published(t, cfg, e, terminal, now)],
              map c | c in s.members ::
                if c in t.subscribers then Dispatched(s.members[c], cfg, Populated(t, e), terminal) else s.members[c])
  }

  /** What a publish returns: the event as recorded, or the terminal event the topic already has. */
  function PublishAnswer(s: State, cfg: Config, e: RuntimeEvent, terminal: bool, now: Time): RuntimeEvent {
    if e.eventId == "" then e
    else
      var t := TopicAt(Pruned(s.topics, cfg, now), e.eventId, now);
      if terminal && t.terminal.Some? then t.terminal.value else Populated(t, e)
  }

  function AfterAttach(s: State, cfg: Config, c: SubId, id: string, now: Time): State
    requires c in s.members
  {
    var topics := Pruned(s.topics, cfg, now);
    var t := TopicAt(topics, id, now);
    State(topics[id := t.(subscribers := if t.terminal.None? then t.subscribers + {c} else t.subscribers, updatedAt := now)],
          s.members[c := s.members[c].(eventId := Some(id), replay := Replay(t))])
  }

  function AfterRelease(s: State, cfg: Config, c: SubId, now: Time): State
    requires c in s.members
  {
    var m := s.members[c];
    var topics :=
      if m.eventId.Some? && m.eventId.value != "" && m.eventId.value in s.topics then
        var t := s.topics[m.eventId.value].(subscribers := s.topics[m.eventId.value].subscribers - {c}, updatedAt := now);
        var left := s.topics[m.eventId.value := t];
        if t.subscribers == {} && t.terminal.Some? then Pruned(left, cfg, now) else left
      else s.topics;
    State(topics, s.members[c := m.(sub := Queue.Closed(m.sub))])
  }

  datatype Step =
    | Reserve(c: SubId)
    | Attach(c: SubId, id: string, now: Time)
    | Publish(e: RuntimeEvent, now: Time)
    | PublishTerminal(e: RuntimeEvent, now: Time)
    | Release(c: SubId, now: Time)
    | Receive(c: SubId)

  function Do(s: State, cfg: Config, step: Step): State {
    match step
    case Reserve(c) => if c in s.members then s else s.(members := s.members[c := Member(NEW_SUB, None, [], [])])
    case Attach(c, id, now) => if c in s.members then AfterAttach(s, cfg, c, id, now) else s
    case Publish(e, now) => AfterPublish(s, cfg, e, IsTerminal(e), now)
    case PublishTerminal(e, now) => AfterPublish(s, cfg, e, true, now)
    case Release(c, now) => if c in s.members then AfterRelease(s, cfg, c, now) else s
    case Receive(c) =>
      if c in s.members && s.members[c].sub.pending != [] then
        var m := s.members[c];
        s.(members := s.members[c := m.(sub := m.sub.(pending := m.sub.pending[1..]), delivered := m.delivered + [m.sub.pending[0]])])
      else s
  }

  function Run(s: State, cfg: Config, steps: seq<Step>): State {
    if steps == [] then s else Do(Run(s, cfg, steps[..|steps| - 1]), cfg, steps[|steps| - 1])
  }

  // ----- What a publish gives a subscriber ------------------------------------------------------------

  /** What c has received or has queued. */
  function Obtained(s: State, c: SubId): seq<Item> {
    if c in s.members then s.members[c].delivered + s.members[c].sub.pending else []
  }

  /** What a dispatch adds to what a member must get. */
  function Share(m: Member, event: RuntimeEvent, terminal: bool): seq<Item> {
    if m.sub.closed || (!terminal && QueueDroppable(event.kind)) then [] else [Item(event, false)]
  }

  lemma DispatchedKeeps(m: Member, cfg: Config, event: RuntimeEvent, terminal: bool)
    ensures var after := Dispatched(m, cfg, event, terminal);
            after.delivered == m.delivered
            && Kept(after.delivered + after.sub.pending) == Kept(m.delivered + m.sub.pending) + Share(m, event, terminal)
  {
    var item := Item(event, if terminal then false else QueueDroppable(event.kind));
    var after := Enqueued(m.sub, cfg.maxQueued, item).pending;
    assert Dispatched(m, cfg, event, terminal).sub.pending == after;
    EnqueuedKeeps(m.sub, cfg.maxQueued, item);
    assert Kept(after) == Kept(m.sub.pending) + Share(m, event, terminal);
    KeptOfConcat(m.delivered, m.sub.pending);
    KeptOfConcat(m.delivered, after);
  }

  lemma PublishGivesItsShare(s: State, cfg: Config, e: RuntimeEvent, terminal: bool, now: Time, c: SubId)
    requires c in s.members
    ensures var topics := Pruned(s.topics, cfg, now);
            var t := TopicAt(topics, e.eventId, now);
            Kept(Obtained(AfterPublish(s, cfg, e, terminal, now), c))
              == Kept(Obtained(s, c)) + if e.eventId != "" && c in t.subscribers && !(terminal && t.terminal.Some?)
                                   then Share(s.members[c], Populated(t, e), terminal) else []
  {
    var t := TopicAt(Pruned(s.topics, cfg, now), e.eventId, now);
    if e.eventId != "" && c in t.subscribers && !(terminal && t.terminal.Some?) {
      DispatchedKeeps(s.members[c], cfg, Populated(t, e), terminal);
    }
  }

  ghost predicate QueuesBounded(s: State, cfg: Config) {
    forall c :: c in s.members ==> Bounded(s.members[c].sub, cfg.maxQueued)
  }

  lemma StepKeepsQueuesBounded(s: State, cfg: Config, step: Step)
    requires QueuesBounded(s, cfg)
    ensures QueuesBounded(Do(s, cfg, step), cfg)
  {
    if (step.Publish? || step.PublishTerminal?) && step.e.eventId != "" {
      var t := TopicAt(Pruned(s.topics, cfg, step.now), step.e.eventId, step.now);
      var terminal := step.PublishTerminal? || IsTerminal(step.e);
      var event := Populated(t, step.e);
      forall c | c in s.members ensures Bounded(Dispatched(s.members[c], cfg, event, terminal).sub, cfg.maxQueued) {
        EnqueuedStaysBounded(s.members[c].sub, cfg.maxQueued, Item(event, !terminal && QueueDroppable(event.kind)));
      }
    }
  }

  /** A queue is within its limit, or everything in it must be kept. */
  lemma {:induction false} QueuesStayBounded(cfg: Config, steps: seq<Step>)
    ensures QueuesBounded(Run(EMPTY_STATE, cfg, steps), cfg)
  {
    if steps != [] {
      QueuesStayBounded(cfg, steps[..|steps| - 1]);
      StepKeepsQueuesBounded(Run(EMPTY_STATE, cfg, steps[..|steps| - 1]), cfg, steps[|steps| - 1]);
    }
  }

  // ----- Replay ----------------------------------------------------------------------------------------

  /** Histories stay within their limit, hold no terminal event, and every topic has a real id. */
  ghost predicate HistoriesFit(s: State, cfg: Config) {
    forall id :: id in s.topics ==>
      && (cfg.maxReplay > 0 ==> |s.topics[id].history| <= cfg.maxReplay)
      && (forall i :: 0 <= i < |s.topics[id].history| ==> !IsTerminal(s.topics[id].history[i].event))
  }

  lemma AppendFits(history: seq<Item>, item: Item, max: int)
    requires max > 0 ==> |history| <= max
    requires !IsTerminal(item.event) && forall i :: 0 <= i < |history| ==> !IsTerminal(history[i].event)
    ensures var r := AfterAppend(history, item, max);
            (max > 0 ==> |r| <= max) && forall i :: 0 <= i < |r| ==> !IsTerminal(r[i].event)
  {
    if max > 0 {
      AppendPolicy(history, item, max);
    }
  }

  lemma StepKeepsHistoriesFit(s: State, cfg: Config, step: Step)
    requires HistoriesFit(s, cfg)
    ensures HistoriesFit(Do(s, cfg, step), cfg)
  {
    if step.Publish? && step.e.eventId != "" && !IsTerminal(step.e) {
      var t := TopicAt(Pruned(s.topics, cfg, step.now), step.e.eventId, step.now);
      AppendFits(t.history, Item(Populated(t, step.e), ReplayDroppable(step.e.kind)), cfg.maxReplay);
    }
  }

  /** In every run a replay has a terminal event at most in its last place, and history stays within
      its limit. */
  lemma {:induction false} ReplayEndsWithItsTerminal(cfg: Config, steps: seq<Step>)
    ensures HistoriesFit(Run(EMPTY_STATE, cfg, steps), cfg)
    ensures forall id :: id in Run(EMPTY_STATE, cfg, steps).topics ==>
              var replay := Replay(Run(EMPTY_STATE, cfg, steps).topics[id]);
              forall i :: 0 <= i < |replay| - 1 ==> !IsTerminal(replay[i])
  {
    if steps != [] {
      ReplayEndsWithItsTerminal(cfg, steps[..|steps| - 1]);
      StepKeepsHistoriesFit(Run(EMPTY_STATE, cfg, steps[..|steps| - 1]), cfg, steps[|steps| - 1]);
    }
  }
}
