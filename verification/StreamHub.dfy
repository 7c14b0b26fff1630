/** The hub in its own form: maps updated under its mutex, loops over topics and subscribers, and the
    observer's terminal fallback on top. */
module StreamHub {
  import opened Basics
  import opened Queue
  import opened Hub

  method ReplayContainsTerminal(replay: seq<RuntimeEvent>) returns (found: bool)
    ensures found <==> exists i :: 0 <= i < |replay| && IsTerminal(replay[i])
  {
    var i := 0;
    while i < |replay|
      invariant 0 <= i <= |replay|
      invariant forall j :: 0 <= j < i ==> !IsTerminal(replay[j])
    {
      if IsTerminal(replay[i]) {
        return true;
      }
      i := i + 1;
    }
    found := false;
  }

  /** A replay has no terminal event but the topic's own, as its last one. */
  lemma ReplayOfTopic(t: Topic)
    requires forall i :: 0 <= i < |t.history| ==> !IsTerminal(t.history[i].event)
    requires t.terminal.Some? ==> IsTerminal(t.terminal.value)
    ensures forall i :: 0 <= i < |Replay(t)| - 1 ==> !IsTerminal(Replay(t)[i])
    ensures t.terminal.None? ==> forall i :: 0 <= i < |Replay(t)| ==> !IsTerminal(Replay(t)[i])
    ensures t.terminal.Some? ==> Replay(t) != [] && Replay(t)[|Replay(t)| - 1] == t.terminal.value
  {
    assert forall i :: 0 <= i < |t.history| ==> Replay(t)[i] == t.history[i].event;
  }

  class HubService {
    const cfg: Config
    var topics: map<string, Topic>
    var members: map<SubId, Member>

    constructor (cfg: Config)
      ensures this.cfg == cfg && View() == EMPTY_STATE
    {
      this.cfg := cfg;
      topics, members := map[], map[];
    }

    function View(): State
      reads this
    {
      State(topics, members)
    }

    method Reserve(c: SubId)
      requires c !in members
      modifies this
      ensures View() == Do(old(View()), cfg, Step.Reserve(c))
    {
      members := members[c := Member(NEW_SUB, None, [], [])];
    }

    method Prune(now: Time)
      modifies this`topics
      ensures topics == Pruned(old(topics), cfg, now)
      ensures forall id :: id in topics <==>
                id in old(topics)
                && !(old(topics)[id].terminal.Some? && old(topics)[id].subscribers == {}
                     && now - old(topics)[id].updatedAt > cfg.retention)
      ensures forall id :: id in topics ==> topics[id] == old(topics)[id]
    {
      var todo := topics.Keys;
      while todo != {}
        invariant todo <= old(topics).Keys
        invariant topics == map id | id in old(topics) && (id in todo || !Stale(old(topics)[id], cfg, now)) :: old(topics)[id]
        decreases |todo|
      {
        var id := Take(todo);
        if Stale(topics[id], cfg, now) {
          topics := topics - {id};
        }
        todo := todo - {id};
      }
    }

    method Attach(c: SubId, id: string, now: Time) returns (replay: seq<RuntimeEvent>)
      requires c in members
      modifies this
      ensures View() == Do(old(View()), cfg, Step.Attach(c, id, now))
      ensures replay == members[c].replay
    {
      Prune(now);
      var t := TopicAt(topics, id, now);
      replay := Replay(t);
      if t.terminal.None? {
        t := t.(subscribers := t.subscribers + {c});
      }
      topics := topics[id := t.(updatedAt := now)];
      members := members[c := members[c].(eventId := Some(id), replay := replay)];
    }

    method Dispatch(subscribers: set<SubId>, event: RuntimeEvent, terminal: bool)
      modifies this`members
      ensures members == map c | c in old(members) ::
                           if c in subscribers then Dispatched(old(members)[c], cfg, event, terminal) else old(members)[c]
    {
      var todo := subscribers;
      while todo != {}
        invariant todo <= subscribers && members.Keys == old(members).Keys
        invariant forall c :: c in old(members) ==>
                    members[c] == if c in subscribers && c !in todo then Dispatched(old(members)[c], cfg, event, terminal)
                                  else old(members)[c]
      {
        var c := Take(todo);
        if c in members {
          members := members[c := Dispatched(members[c], cfg, event, terminal)];
        }
        todo := todo - {c};
      }
      ghost var after := map c | c in old(members) ::
        if c in subscribers then Dispatched(old(members)[c], cfg, event, terminal) else old(members)[c];
      assert forall c :: c in after ==> members[c] == after[c];
      assert members == after;
    }

    /** The recorded event: with its sequence number, or the topic's first terminal event. */
    method PublishEvent(e: RuntimeEvent, terminal: bool, now: Time) returns (recorded: RuntimeEvent)
      modifies this
      ensures View() == AfterPublish(old(View()), cfg, e, terminal, now)
      ensures recorded == PublishAnswer(old(View()), cfg, e, terminal, now)
      ensures e.eventId != "" && terminal ==>
                e.eventId in topics && topics[e.eventId].terminal == Some(recorded)
    {
      if e.eventId == "" {
        return e;
      }
      Prune(now);
      var t := TopicAt(topics, e.eventId, now);
      if terminal && t.terminal.Some? {
        return t.terminal.value;
      }
      recorded := Populated(t, e);
      var history := t.history;
      if !terminal {
        history := AppendHistory(t.history, Item(recorded, ReplayDroppable(e.kind)), cfg.maxReplay);
      }
      Dispatch(t.subscribers, recorded, terminal);
      topics := topics[e.eventId := Topic(if e.sequence == 0 then t.nextSequence + 1 else t.nextSequence,
                                          if terminal then {} else t.subscribers, history,
                                          if terminal then Some(recorded) else t.terminal, now)];
    }

    method Release(c: SubId, now: Time)
      requires c in members
      modifies this
      ensures View() == Do(old(View()), cfg, Step.Release(c, now))
      ensures members.Keys == old(members).Keys && forall d :: d in members && d != c ==> members[d] == old(members)[d]
      ensures members[c] == old(members)[c].(sub := members[c].sub)
              && members[c].sub.closed && members[c].sub.pending == old(members)[c].sub.pending
      ensures members[c].eventId.Some? && members[c].eventId.value in topics && members[c].eventId.value != "" ==>
                c !in topics[members[c].eventId.value].subscribers
    {
      var m := members[c];
      if m.eventId.Some? && m.eventId.value != "" && m.eventId.value in topics {
        var t := topics[m.eventId.value];
        t := t.(subscribers := t.subscribers - {c}, updatedAt := now);
        topics := topics[m.eventId.value := t];
        if t.subscribers == {} && t.terminal.Some? {
          Prune(now);
        }
      }
      members := members[c := m.(sub := Queue.Closed(m.sub))];
    }

    /** The observer's Attach: when the replay has no terminal event but one is stored, it is published
        and replayed last. */
    method AttachWithFallback(c: SubId, id: string, stored: Option<RuntimeEvent>, now: Time)
      returns (replay: seq<RuntimeEvent>)
      requires c in members
      requires stored.Some? ==> stored.value.eventId == id && id != "" && IsTerminal(stored.value)
      requires HistoriesFit(View(), cfg)
      requires forall t :: t in topics && topics[t].terminal.Some? ==> IsTerminal(topics[t].terminal.value)
      modifies this
      ensures forall i :: 0 <= i < |replay| - 1 ==> !IsTerminal(replay[i])
      ensures stored.Some? ==> replay != [] && id in topics && topics[id].terminal == Some(replay[|replay| - 1])
      ensures stored.None? ==> View() == Do(old(View()), cfg, Step.Attach(c, id, now)) && replay == members[c].replay
      ensures stored.Some? ==>
                View() == Do(old(View()), cfg, Step.Attach(c, id, now))
                || View() == Do(Do(old(View()), cfg, Step.Attach(c, id, now)), cfg, PublishTerminal(stored.value, now))
    {
      StepKeepsHistoriesFit(View(), cfg, Step.Attach(c, id, now));
      replay := Attach(c, id, now);
      ghost var t := TopicAt(Pruned(old(topics), cfg, now), id, now);
      assert replay == Replay(t) && topics[id].terminal == t.terminal;
      ReplayOfTopic(t);
      var found := ReplayContainsTerminal(replay);
      if !found && stored.Some? {
        var recorded := PublishEvent(stored.value, true, now);
        replay := replay + [recorded];
      }
    }
  }

  // ----- The frames of one chat stream ----------------------------------------------------------------

  datatype Frame = Accepted | Event(e: RuntimeEvent) | Comment

  /** What one bounded wait in the frame loop ends with. */
  datatype Wait = Received(e: RuntimeEvent) | TimedOut | Over

  predicate TerminalFrame(f: Frame) {
    f.Event? && (f.e.kind == Completed || f.e.kind == Failed)
  }

  /** The frames without keepalive comments. */
  function Data(frames: seq<Frame>): seq<Frame> {
    if frames == [] then []
    else Data(frames[..|frames| - 1]) + if frames[|frames| - 1] == Comment then [] else [frames[|frames| - 1]]
  }

  /** The events among the waits, in order. */
  function Arrivals(waits: seq<Wait>): seq<Frame> {
    if waits == [] then []
    else Arrivals(waits[..|waits| - 1]) + if waits[|waits| - 1].Received? then [Event(waits[|waits| - 1].e)] else []
  }

  /** The frame of every wait: an event when one came, a keepalive comment when none did in time. */
  function LiveFrames(waits: seq<Wait>): seq<Frame> {
    if waits == [] then [] else LiveFrames(waits[..|waits| - 1]) + FrameOf(waits[|waits| - 1])
  }

  function FrameOf(w: Wait): seq<Frame> {
    match w
    case Received(e) => [Event(e)]
    case TimedOut => [Comment]
    case Over => []
  }

  function Frames(events: seq<RuntimeEvent>): (r: seq<Frame>)
    ensures |r| == |events|
  {
    if events == [] then [] else Frames(events[..|events| - 1]) + [Event(events[|events| - 1])]
  }

  lemma DataPushed(frames: seq<Frame>, f: Frame)
    ensures Data(frames + [f]) == Data(frames) + if f == Comment then [] else [f]
  {
    assert (frames + [f])[..|frames|] == frames;
  }

  predicate NoTerminal(frames: seq<Frame>) {
    forall i :: 0 <= i < |frames| ==> !TerminalFrame(frames[i])
  }

  /** The accepted frame and the first i events of the replay. */
  function ReplayFrames(replay: seq<RuntimeEvent>, i: nat): seq<Frame>
    requires i <= |replay|
  {
    [Accepted] + Frames(replay[..i])
  }

  lemma {:induction false} FramePushed(replay: seq<RuntimeEvent>, i: nat)
    requires i < |replay|
    ensures ReplayFrames(replay, i + 1) == ReplayFrames(replay, i) + [Event(replay[i])]
  {
    assert replay[..i + 1][..i] == replay[..i];
  }

  lemma {:induction false} ReplayGrows(replay: seq<RuntimeEvent>, i: nat, j: nat)
    requires i <= j <= |replay|
    ensures ReplayFrames(replay, i) <= ReplayFrames(replay, j)
    decreases j
  {
    if i < j {
      ReplayGrows(replay, i, j - 1);
      FramePushed(replay, j - 1);
    }
  }

  lemma {:induction false} DataOfReplay(replay: seq<RuntimeEvent>, i: nat)
    requires i <= |replay|
    ensures Data(ReplayFrames(replay, i)) == ReplayFrames(replay, i)
  {
    if i == 0 {
      assert ReplayFrames(replay, 0) == [] + [Accepted];
      DataPushed([], Accepted);
    } else {
      DataOfReplay(replay, i - 1);
      FramePushed(replay, i - 1);
      DataPushed(ReplayFrames(replay, i - 1), Event(replay[i - 1]));
    }
  }

  /** What has been written of the replay is data and a prefix of all of it. */
  lemma {:induction false} ReplayIsData(replay: seq<RuntimeEvent>, i: nat)
    requires i <= |replay|
    ensures var fs := ReplayFrames(replay, i); Data(fs) == fs <= [Accepted] + Frames(replay)
  {
    DataOfReplay(replay, i);
    ReplayGrows(replay, i, |replay|);
    assert replay[..|replay|] == replay;
  }

  /** The accepted frame and the replay. budget is the number of writes that succeed; open says that
      the stream goes on: every write succeeded and none was terminal. */
  method WriteReplay(replay: seq<RuntimeEvent>, budget: nat) returns (frames: seq<Frame>, open: bool)
    ensures |frames| <= budget
    ensures frames != [] ==> NoTerminal(frames[..|frames| - 1])
    ensures Data(frames) == frames <= [Accepted] + Frames(replay)
    ensures open ==> NoTerminal(frames) && frames == [Accepted] + Frames(replay)
    ensures !open ==> |frames| == budget || !NoTerminal(frames)
  {
    frames, open := [], false;
    if budget == 0 {
      return;
    }
    frames := [Accepted];
    assert replay[..0] == [] && [Accepted] + Frames([]) == [Accepted];
    var i := 0;
    while i < |replay|
      invariant 0 <= i <= |replay| && |frames| <= budget
      invariant NoTerminal(frames) && frames == ReplayFrames(replay, i)
    {
      if |frames| == budget {
        ReplayIsData(replay, i);
        return;
      }
      FramePushed(replay, i);
      frames := frames + [Event(replay[i])];
      i := i + 1;
      if IsTerminal(replay[i - 1]) {
        ReplayIsData(replay, i);
        assert TerminalFrame(frames[|frames| - 1]);
        return;
      }
    }
    ReplayIsData(replay, i);
    assert replay[..i] == replay;
    open := true;
  }

  /** The frame loop: one frame per wait until the first n are over. */
  method WriteLive(start: seq<Frame>, waits: seq<Wait>, budget: nat) returns (frames: seq<Frame>, n: nat)
    requires start != [] && NoTerminal(start) && |start| <= budget
    ensures n <= |waits| && frames == start + LiveFrames(waits[..n]) && |frames| <= budget
    ensures frames != [] && NoTerminal(frames[..|frames| - 1])
    ensures NoTerminal(frames) && |frames| < budget ==> n == |waits| || waits[n] == Over
  {
    frames, n := start, 0;
    while n < |waits| && waits[n] != Over && |frames| < budget
      invariant 0 <= n <= |waits| && |start| <= |frames| <= budget
      invariant NoTerminal(frames) && frames == start + LiveFrames(waits[..n])
    {
      assert waits[..n + 1][..n] == waits[..n];
      var f := if waits[n].Received? then Event(waits[n].e) else Comment;
      ghost var before := frames;
      frames := frames + [f];
      assert frames[..|frames| - 1] == before;
      n := n + 1;
      if TerminalFrame(f) {
        assert TerminalFrame(frames[|frames| - 1]);
        return;
      }
    }
  }

  /** HandleChatStream after Accept: writes until a terminal frame, a failed write, or the end of the
      waits. At most one terminal frame is written, as the last one, and no event is skipped. */
  method HandleChatStream(replay: seq<RuntimeEvent>, waits: seq<Wait>, budget: nat) returns (frames: seq<Frame>)
    ensures |frames| <= budget
    ensures frames != [] ==> NoTerminal(frames[..|frames| - 1])
    ensures Data(frames) <= [Accepted] + Frames(replay) + Arrivals(waits)
    ensures frames <= [Accepted] + Frames(replay) + LiveFrames(waits)
    ensures |frames| < budget && NoTerminal(frames) ==>
              exists n :: 0 <= n <= |waits| && frames == [Accepted] + Frames(replay) + LiveFrames(waits[..n])
                          && Data(frames) == [Accepted] + Frames(replay) + Arrivals(waits[..n])
                          && (n == |waits| || waits[n] == Over)
  {
    var open;
    frames, open := WriteReplay(replay, budget);
    if !open {
      return;
    }
    ghost var start := frames;
    var n;
    frames, n := WriteLive(frames, waits, budget);
    LiveIsArrivals(start, waits[..n]);
    ArrivalsPrefix(waits, n);
  }

  lemma {:induction false} LiveIsArrivals(start: seq<Frame>, waits: seq<Wait>)
    ensures Data(start + LiveFrames(waits)) == Data(start) + Arrivals(waits)
  {
    if waits == [] {
      assert start + [] == start && Data(start) + [] == Data(start);
    } else {
      var n := |waits| - 1;
      LiveIsArrivals(start, waits[..n]);
      var arrival := if waits[n].Received? then [Event(waits[n].e)] else [];
      FramePushes(start + LiveFrames(waits[..n]), waits[n]);
      Regroup(start, LiveFrames(waits[..n]), FrameOf(waits[n]));
      Regroup(Data(start), Arrivals(waits[..n]), arrival);
    }
  }

  lemma Regroup<T>(a: seq<T>, b: seq<T>, c: seq<T>)
    ensures a + (b + c) == (a + b) + c
  {
  }

  lemma FramePushes(frames: seq<Frame>, w: Wait)
    ensures Data(frames + FrameOf(w)) == Data(frames) + if w.Received? then [Event(w.e)] else []
  {
    if w == Over {
      assert frames + [] == frames;
    } else {
      DataPushed(frames, FrameOf(w)[0]);
      assert frames + FrameOf(w) == frames + [FrameOf(w)[0]];
    }
  }

  lemma {:induction false} ArrivalsPrefix(waits: seq<Wait>, n: nat)
    requires n <= |waits|
    ensures Arrivals(waits[..n]) <= Arrivals(waits) && LiveFrames(waits[..n]) <= LiveFrames(waits)
    decreases |waits|
  {
    if n < |waits| {
      ArrivalsPrefix(waits[..|waits| - 1], n);
      assert waits[..|waits| - 1][..n] == waits[..n];
    } else {
      assert waits[..n] == waits;
    }
  }
}
