/** The lane scheduler: one token per key, lanes created on demand and deleted by reference count. */
module Lanes {
  import opened Basics

  type Key = string
  type LaneId = nat   // identity of a laneState object
  type Client = int   // one Acquire call and the lease it may return

  datatype LaneState = LaneState(tokens: nat, refs: int)

  /** Where a client is between its Acquire and the end of its Release. */
  datatype Phase =
    | Waiting    // retained, blocked in the select
    | Holding    // took the token, lease not released
    | Returned   // put the token back, has not dropped its reference
    | Cancelled  // context done, has not dropped its reference
    | Gone

  datatype Seat = Seat(key: Key, lane: LaneId, phase: Phase)

  datatype Scheduling = Scheduling(lanes: map<Key, LaneId>, states: map<LaneId, LaneState>)

  datatype World = World(sched: Scheduling, seats: map<Client, Seat>)

  const EMPTY_WORLD := World(Scheduling(map[], map[]), map[])

  // ----- The scheduler's critical sections and channel operations --------------------------------

  /** retain: the lane for a key, created with its token when missing (unused is its identity then). */
  function AfterRetain(s: Scheduling, key: Key, unused: LaneId): Scheduling {
    if key in s.lanes && s.lanes[key] in s.states then
      var lane := s.lanes[key];
      s.(states := s.states[lane := s.states[lane].(refs := s.states[lane].refs + 1)])
    else
      Scheduling(s.lanes[key := unused], s.states[unused := LaneState(1, 1)])
  }

  function Retained(s: Scheduling, key: Key, unused: LaneId): LaneId {
    if key in s.lanes && s.lanes[key] in s.states then s.lanes[key] else unused
  }

  function WithTokens(s: Scheduling, lane: LaneId, tokens: nat): Scheduling
    requires lane in s.states
  {
    s.(states := s.states[lane := s.states[lane].(tokens := tokens)])
  }

  /** drop: give up one reference, and delete the lane with the last one. */
  function AfterDrop(s: Scheduling, key: Key, lane: LaneId): Scheduling {
    if key !in s.lanes || s.lanes[key] != lane || lane !in s.states then s
    else
      var state := s.states[lane].(refs := s.states[lane].refs - 1);
      Scheduling(if state.refs == 0 && state.tokens == 1 then s.lanes - {key} else s.lanes, s.states[lane := state])
  }

  /** The scheduler itself: methods under its mutex and on its token channels. */
  class Scheduler {
    var lanes: map<Key, LaneId>
    var states: map<LaneId, LaneState>

    constructor ()
      ensures View() == Scheduling(map[], map[])
    {
      lanes, states := map[], map[];
    }

    function View(): Scheduling
      reads this
    {
      Scheduling(lanes, states)
    }

    method Retain(key: Key, unused: LaneId) returns (lane: LaneId)
      requires unused !in states
      requires key in lanes ==> lanes[key] in states
      modifies this
      ensures View() == AfterRetain(old(View()), key, unused) && lane == Retained(old(View()), key, unused)
    {
      if key in lanes {
        lane := lanes[key];
      } else {
        lane := unused;
        states := states[lane := LaneState(1, 0)];
        lanes := lanes[key := lane];
      }
      states := states[lane := states[lane].(refs := states[lane].refs + 1)];
    }

    /** The receive case of Acquire's select, when a token is there. */
    method TakeToken(lane: LaneId) returns (ok: bool)
      requires lane in states
      modifies this
      ensures ok <==> old(states[lane].tokens) > 0
      ensures View() == if ok then WithTokens(old(View()), lane, old(states[lane].tokens) - 1) else old(View())
    {
      ok := states[lane].tokens > 0;
      if ok {
        states := states[lane := states[lane].(tokens := states[lane].tokens - 1)];
      }
    }

    /** The send of Release on the one-slot channel; it would block when the slot is taken. */
    method PutToken(lane: LaneId) returns (blocked: bool)
      requires lane in states
      modifies this
      ensures blocked <==> old(states[lane].tokens) >= 1
      ensures View() == if blocked then old(View()) else WithTokens(old(View()), lane, 1)
    {
      blocked := states[lane].tokens >= 1;
      if !blocked {
        states := states[lane := states[lane].(tokens := 1)];
      }
    }

    method Drop(key: Key, lane: LaneId)
      requires lane in states
      modifies this
      ensures View() == AfterDrop(old(View()), key, lane)
    {
      if key !in lanes || lanes[key] != lane {
        return;
      }
      states := states[lane := states[lane].(refs := states[lane].refs - 1)];
      if states[lane].refs == 0 && states[lane].tokens == 1 {
        lanes := lanes - {key};
      }
    }
  }

  // ----- All interleavings -----------------------------------------------------------------------

  datatype Step =
    | Acquire(c: Client, key: Key, unused: LaneId)
    | TakeToken(c: Client)
    | Cancel(c: Client)
    | Release(c: Client)   // a second Release of the same lease does nothing
    | Drop(c: Client)

  function Move(w: World, c: Client, phase: Phase): World
    requires c in w.seats
  {
    w.(seats := w.seats[c := w.seats[c].(phase := phase)])
  }

  /** One small step; a step that cannot be taken, a blocked send included, changes nothing. */
  function Do(w: World, step: Step): World {
    match step
    case Acquire(c, key, unused) =>
      if c in w.seats || unused in w.sched.states then w
      else World(AfterRetain(w.sched, key, unused), w.seats[c := Seat(key, Retained(w.sched, key, unused), Waiting)])
    case TakeToken(c) =>
      if c in w.seats && w.seats[c].phase == Waiting && w.seats[c].lane in w.sched.states
         && w.sched.states[w.seats[c].lane].tokens > 0 then
        var lane := w.seats[c].lane;
        Move(w.(sched := WithTokens(w.sched, lane, w.sched.states[lane].tokens - 1)), c, Holding)
      else w
    case Cancel(c) => if c in w.seats && w.seats[c].phase == Waiting then Move(w, c, Cancelled) else w
    case Release(c) =>
      if c in w.seats && w.seats[c].phase == Holding && w.seats[c].lane in w.sched.states && !SendBlocks(w, c) then
        var lane := w.seats[c].lane;
        Move(w.(sched := WithTokens(w.sched, lane, w.sched.states[lane].tokens + 1)), c, Returned)
      else w
    case Drop(c) =>
      if c in w.seats && (w.seats[c].phase == Returned || w.seats[c].phase == Cancelled) then
        Move(w.(sched := AfterDrop(w.sched, w.seats[c].key, w.seats[c].lane)), c, Gone)
      else w
  }

  /** The token channel of c's lane is full. */
  predicate SendBlocks(w: World, c: Client)
    requires c in w.seats
  {
    w.seats[c].lane in w.sched.states && w.sched.states[w.seats[c].lane].tokens >= 1
  }

  function Run(w: World, steps: seq<Step>): World {
    if steps == [] then w else Do(Run(w, steps[..|steps| - 1]), steps[|steps| - 1])
  }

  // ----- The invariant -----------------------------------------------------------------------------

  predicate Refers(w: World, c: Client, lane: LaneId) {
    c in w.seats && w.seats[c].lane == lane && w.seats[c].phase != Gone
  }

  function Referrers(w: World, lane: LaneId): set<Client> {
    set c | c in w.seats && Refers(w, c, lane)
  }

  function Holders(w: World, lane: LaneId): set<Client> {
    set c | c in w.seats && Refers(w, c, lane) && w.seats[c].phase == Holding
  }

  /** A lane's count is its referrers, and its token is either in the channel or with one holder. */
  predicate Balanced(w: World, lane: LaneId) {
    lane in w.sched.states ==>
      w.sched.states[lane].refs == |Referrers(w, lane)| && w.sched.states[lane].tokens + |Holders(w, lane)| == 1
  }

  ghost predicate Mapped(w: World) {
    && (forall key :: key in w.sched.lanes ==> w.sched.lanes[key] in w.sched.states && w.sched.states[w.sched.lanes[key]].refs > 0)
    && (forall c :: c in w.seats ==> w.seats[c].lane in w.sched.states)
    && (forall c :: c in w.seats && w.seats[c].phase != Gone ==>
          w.seats[c].key in w.sched.lanes && w.sched.lanes[w.seats[c].key] == w.seats[c].lane)
    && (forall k, q :: k in w.sched.lanes && q in w.sched.lanes && w.sched.lanes[k] == w.sched.lanes[q] ==> k == q)
  }

  ghost predicate Valid(w: World) {
    (forall lane :: Balanced(w, lane)) && Mapped(w)
  }

  lemma SizeOfMoved<T>(s: set<T>, t: set<T>, c: T)
    requires s - {c} == t - {c}
    ensures |t| == |s| - (if c in s then 1 else 0) + (if c in t then 1 else 0)
  {
    assert c in s ==> s == (s - {c}) + {c};
    assert c in t ==> t == (t - {c}) + {c};
  }

  /** What a step that only touches client c's seat does to one lane's referrers and holders. */
  lemma SeatMoved(w: World, v: World, c: Client, lane: LaneId)
    requires forall d :: d != c ==> (d in w.seats <==> d in v.seats) && (d in w.seats ==> w.seats[d] == v.seats[d])
    ensures |Referrers(v, lane)| == |Referrers(w, lane)| - (if Refers(w, c, lane) then 1 else 0)
                                                        + (if Refers(v, c, lane) then 1 else 0)
    ensures |Holders(v, lane)| == |Holders(w, lane)|
              - (if Refers(w, c, lane) && w.seats[c].phase == Holding then 1 else 0)
              + (if Refers(v, c, lane) && v.seats[c].phase == Holding then 1 else 0)
  {
    assert forall d :: d in Referrers(w, lane) - {c} <==> d in Referrers(v, lane) - {c};
    assert forall d :: d in Holders(w, lane) - {c} <==> d in Holders(v, lane) - {c};
    SizeOfMoved(Referrers(w, lane), Referrers(v, lane), c);
    SizeOfMoved(Holders(w, lane), Holders(v, lane), c);
  }

  /** A lane that a live client refers to has a positive count. */
  lemma ReferrerCounts(w: World, c: Client, lane: LaneId)
    requires Refers(w, c, lane)
    ensures |Referrers(w, lane)| > 0
    ensures w.seats[c].phase == Holding ==> |Holders(w, lane)| > 0
  {
    assert c in Referrers(w, lane);
    assert w.seats[c].phase == Holding ==> c in Holders(w, lane);
  }

  lemma StepBalanced(w: World, step: Step, lane: LaneId)
    requires Valid(w)
    ensures Balanced(Do(w, step), lane)
  {
    var v := Do(w, step);
    SeatMoved(w, v, step.c, lane);
    assert Balanced(w, lane);
    if step.Acquire? && step.unused == lane && lane !in w.sched.states {
      assert Referrers(w, lane) == {} && Holders(w, lane) == {};
    }
  }

  lemma StepMapped(w: World, step: Step)
    requires Valid(w)
    ensures Mapped(Do(w, step))
  {
    if step.Drop? && step.c in w.seats && w.seats[step.c].phase != Gone {
      var lane := w.seats[step.c].lane;
      assert Balanced(w, lane);
      forall d | d in w.seats && d != step.c && w.seats[d].lane == lane && w.seats[d].phase != Gone
        ensures w.sched.states[lane].refs > 1
      {
        assert {step.c, d} <= Referrers(w, lane);
        TwoElements(step.c, d, Referrers(w, lane));
      }
      ReferrerCounts(w, step.c, lane);
    }
  }

  lemma TwoElements(c: Client, d: Client, s: set<Client>)
    requires c != d && c in s && d in s
    ensures |s| > 1
  {
    assert s == (s - {c, d}) + {c, d};
  }

  lemma StepValid(w: World, step: Step)
    requires Valid(w)
    ensures Valid(Do(w, step))
  {
    forall lane ensures Balanced(Do(w, step), lane) {
      StepBalanced(w, step, lane);
    }
    StepMapped(w, step);
  }

  lemma {:induction false} RunValid(steps: seq<Step>)
    ensures Valid(Run(EMPTY_WORLD, steps))
  {
    if steps != [] {
      RunValid(steps[..|steps| - 1]);
      StepValid(Run(EMPTY_WORLD, steps[..|steps| - 1]), steps[|steps| - 1]);
    }
  }

  // ----- What every interleaving guarantees ---------------------------------------------------------

  /** At most one lease per key is out. */
  lemma OneLeasePerKey(steps: seq<Step>, c: Client, d: Client)
    ensures var w := Run(EMPTY_WORLD, steps);
            (c in w.seats && d in w.seats && w.seats[c].phase == Holding && w.seats[d].phase == Holding
             && w.seats[c].key == w.seats[d].key)
            ==> c == d
  {
    RunValid(steps);
    var w := Run(EMPTY_WORLD, steps);
    if c in w.seats && d in w.seats && w.seats[c].phase == Holding && w.seats[d].phase == Holding
       && w.seats[c].key == w.seats[d].key && c != d
    {
      var lane := w.seats[c].lane;
      assert Balanced(w, lane);
      TwoElements(c, d, Holders(w, lane));
    }
  }

  /** The reference count is the number of clients between Acquire and the end of Release, and the
      token is in the channel exactly when nobody holds it. */
  lemma CountsAreExact(steps: seq<Step>, lane: LaneId)
    ensures var w := Run(EMPTY_WORLD, steps);
            lane in w.sched.states ==>
              && w.sched.states[lane].refs == |Referrers(w, lane)|
              && w.sched.states[lane].tokens == (if Holders(w, lane) == {} then 1 else 0)
              && |Holders(w, lane)| <= 1
  {
    RunValid(steps);
    var w := Run(EMPTY_WORLD, steps);
    assert Balanced(w, lane);
    assert |Holders(w, lane)| == 0 <==> Holders(w, lane) == {};
  }

  /** The send in Release never blocks, and drop always finds the lane it retained. */
  lemma ReleaseNeverBlocks(steps: seq<Step>, c: Client)
    ensures var w := Run(EMPTY_WORLD, steps);
            c in w.seats && w.seats[c].phase != Gone ==>
              && (w.seats[c].phase == Holding ==> !SendBlocks(w, c) && Do(w, Release(c)).seats[c].phase == Returned)
              && w.seats[c].key in w.sched.lanes && w.sched.lanes[w.seats[c].key] == w.seats[c].lane
              && w.seats[c].lane in w.sched.states
  {
    RunValid(steps);
    var w := Run(EMPTY_WORLD, steps);
    if c in w.seats && w.seats[c].phase != Gone {
      assert Balanced(w, w.seats[c].lane);
      ReferrerCounts(w, c, w.seats[c].lane);
    }
  }

  /** A waiter can take the token exactly when no client holds its key. */
  lemma WaiterGoesIffKeyFree(steps: seq<Step>, c: Client)
    ensures var w := Run(EMPTY_WORLD, steps);
            c in w.seats && w.seats[c].phase == Waiting ==>
              (Do(w, TakeToken(c)).seats[c].phase == Holding <==>
                 forall d :: d in w.seats && w.seats[d].phase == Holding ==> w.seats[d].key != w.seats[c].key)
  {
    RunValid(steps);
    var w := Run(EMPTY_WORLD, steps);
    if c in w.seats && w.seats[c].phase == Waiting {
      var lane := w.seats[c].lane;
      CountsAreExact(steps, lane);
      if Holders(w, lane) != {} {
        var d := Pick(Holders(w, lane));
        assert w.seats[d].phase == Holding && w.seats[d].key == w.seats[c].key;
      } else {
        assert forall d :: d in w.seats && w.seats[d].phase == Holding && w.seats[d].key == w.seats[c].key ==> d in Holders(w, lane);
      }
    }
  }

  /** A lane is in the map exactly while it is referenced, so an idle scheduler keeps no lanes. */
  lemma MappedIffReferenced(steps: seq<Step>, lane: LaneId)
    ensures var w := Run(EMPTY_WORLD, steps);
            lane in w.sched.states ==>
              (w.sched.states[lane].refs > 0 <==> exists key :: key in w.sched.lanes && w.sched.lanes[key] == lane)
    ensures var w := Run(EMPTY_WORLD, steps);
            (forall c :: c in w.seats ==> w.seats[c].phase == Gone) ==> w.sched.lanes == map[]
  {
    RunValid(steps);
    var w := Run(EMPTY_WORLD, steps);
    if lane in w.sched.states && w.sched.states[lane].refs > 0 {
      assert Balanced(w, lane);
      var c := Pick(Referrers(w, lane));
      assert w.seats[c].key in w.sched.lanes;
    }
    forall key | key in w.sched.lanes ensures exists c :: c in w.seats && w.seats[c].phase != Gone {
      assert Balanced(w, w.sched.lanes[key]);
      var c := Pick(Referrers(w, w.sched.lanes[key]));
      assert c in w.seats && w.seats[c].phase != Gone;
    }
    assert (forall key :: key !in w.sched.lanes) ==> w.sched.lanes == map[];
  }

  // ----- Lane keys -----------------------------------------------------------------------------------

  function Resolve(laneKey: string, sessionKey: string, eventId: string): Key {
    if Trim(laneKey) != "" then Trim(laneKey)
    else if Trim(sessionKey) != "" then "session:" + Trim(sessionKey)
    else if Trim(eventId) != "" then "event:" + Trim(eventId)
    else "work:global"
  }

  lemma PrefixTellsApart(a: string, x: string, y: string)
    ensures a + x == a + y <==> x == y
  {
    assert (a + x)[|a|..] == x && (a + y)[|a|..] == y;
  }

  /** Work without a lane key of its own shares a lane exactly with the work of the same session, or, without
      a session, of the same event; surrounding space does not matter. */
  lemma SameLaneIff(laneKey: string, session: string, event: string,
                    otherLaneKey: string, otherSession: string, otherEvent: string)
    requires Blank(laneKey) && Blank(otherLaneKey)
    ensures Resolve(laneKey, session, event) == Resolve(otherLaneKey, otherSession, otherEvent) <==>
              Trim(session) == Trim(otherSession) && (Blank(session) ==> Trim(event) == Trim(otherEvent))
  {
    TrimIsTight(laneKey);
    TrimIsTight(otherLaneKey);
    TrimIsTight(session);
    TrimIsTight(otherSession);
    TrimIsTight(event);
    TrimIsTight(otherEvent);
    PrefixTellsApart("session:", Trim(session), Trim(otherSession));
    PrefixTellsApart("event:", Trim(event), Trim(otherEvent));
    assert "session:"[0] != "event:"[0] && "session:"[0] != "work:global"[0] && "event:"[0] != "work:global"[0];
    assert forall x, y: string :: ("session:" + x)[0] != ("event:" + y)[0];
  }

  /** A lane key of its own decides alone. */
  lemma LaneKeyWins(laneKey: string, session: string, event: string)
    ensures !Blank(laneKey) ==> Resolve(laneKey, session, event) == Trim(laneKey)
    ensures Blank(laneKey) && Blank(session) && Blank(event) ==> Resolve(laneKey, session, event) == "work:global"
  {
    TrimIsTight(laneKey);
    TrimIsTight(session);
    TrimIsTight(event);
  }

  /** Resolving again with a key that was resolved before gives the same lane: the key computed before
      scheduling and the one computed after the claim agree. */
  lemma ResolveIsStable(laneKey: string, sessionKey: string, eventId: string, otherSession: string, otherEvent: string)
    ensures var key := Resolve(laneKey, sessionKey, eventId); Resolve(key, otherSession, otherEvent) == key
  {
    TrimIsTight(laneKey);
    TrimIsTight(sessionKey);
    TrimIsTight(eventId);
    var key := Resolve(laneKey, sessionKey, eventId);
    assert Tight(key);
    TightIsTrimmed(key);
  }
}
