/** What the hub owes its subscribers, told from the calls and the replays alone: every event that must be
    kept, from the Attach to the Release or the terminal event; and the terminal event, once recorded, to
    everybody who attaches later. */
module HubDue {
  import opened Basics
  import opened Queue
  import opened Hub

  // ----- What a caller knows ---------------------------------------------------------------------------

  /** What a caller knows of subscription c: whether it was reserved, whether it is over, the ids it was
      attached to while they were live, and what was published for those ids since. */
  datatype Watch = Watch(reserved: bool, over: bool, ids: set<string>, due: seq<RuntimeEvent>)

  const NEW_WATCH := Watch(false, false, {}, [])

  /** Completed and failed events end the stream. */
  predicate EndsStream(e: RuntimeEvent) {
    e.kind == Completed || e.kind == Failed
  }

  predicate HasTerminal(replay: seq<RuntimeEvent>) {
    exists i :: 0 <= i < |replay| && EndsStream(replay[i])
  }

  /** Tool events and terminal ones must reach every subscriber; the others may give way. */
  predicate MustReach(kind: Kind) {
    kind in {ToolStarted, ToolFinished, Completed, Failed}
  }

  /** A publish call: a terminal event is always due and is the last one, any other if it must reach everybody. */
  function Announced(w: Watch, e: RuntimeEvent, terminal: bool): Watch {
    if e.eventId == "" || w.over || e.eventId !in w.ids then w
    else if terminal then w.(over := true, due := w.due + [e])
    else if !MustReach(e.kind) then w
    else w.(due := w.due + [e])
  }

  /** What c's caller knows after a step; replay is what Attach returned. */
  function Noted(w: Watch, c: SubId, step: Step, replay: seq<RuntimeEvent>): Watch {
    match step
    case Reserve(d) => if d == c then w.(reserved := true) else w
    case Attach(d, id, _) => if d == c && w.reserved && !HasTerminal(replay) then w.(ids := w.ids + {id}) else w
    case Release(d, _) => if d == c && w.reserved then w.(over := true) else w
    case Publish(e, _) => Announced(w, e, EndsStream(e))
    case PublishTerminal(e, _) => Announced(w, e, true)
    case Receive(_) => w
  }

  /** What Attach returns when the step is one. */
  function Returned(s: State, cfg: Config, step: Step): seq<RuntimeEvent> {
    if step.Attach? && step.c in s.members then Do(s, cfg, step).members[step.c].replay else []
  }

  function Watched(cfg: Config, steps: seq<Step>, c: SubId): Watch {
    if steps == [] then NEW_WATCH
    else
      var butLast, last := steps[..|steps| - 1], steps[|steps| - 1];
      Noted(Watched(cfg, butLast, c), c, last, Returned(Run(EMPTY_STATE, cfg, butLast), cfg, last))
  }

  /** f is e as recorded: only an unset sequence number has been filled in. */
  predicate Stamped(e: RuntimeEvent, f: RuntimeEvent) {
    f == if e.sequence == 0 then e.(sequence := f.sequence) else e
  }

  /** The items carry these events, in this order and nothing else. */
  ghost predicate Carry(items: seq<Item>, due: seq<RuntimeEvent>) {
    |items| == |due| && forall i :: 0 <= i < |due| ==> Stamped(due[i], items[i].event)
  }

  lemma CarryMore(items: seq<Item>, due: seq<RuntimeEvent>, item: Item, e: RuntimeEvent)
    requires Carry(items, due) && Stamped(e, item.event)
    ensures Carry(items + [item], due + [e])
  {
  }

  // ----- The hub keeps what the caller knows -----------------------------------------------------------

  /** A terminal event ends a topic: nobody is subscribed any more, and the replay shows it. */
  ghost predicate Ended(s: State) {
    forall id :: id in s.topics && s.topics[id].terminal.Some? ==>
      s.topics[id].subscribers == {} && IsTerminal(s.topics[id].terminal.value)
  }

  /** The hub's subscribers of an open subscription are the ids its caller is waiting for. */
  ghost predicate Agrees(s: State, c: SubId, w: Watch) {
    && (w.reserved <==> c in s.members)
    && (!w.reserved ==> w == NEW_WATCH)
    && (w.reserved ==> w.over == s.members[c].sub.closed)
    && (!w.over ==> forall id :: id in w.ids <==> id in s.topics && c in s.topics[id].subscribers)
  }

  /** The terminal events handed over are terminal, as the observer's only come from finished events. */
  predicate Proper(step: Step) {
    step.PublishTerminal? && step.e.eventId != "" ==> EndsStream(step.e)
  }

  predicate AllProper(steps: seq<Step>) {
    forall i :: 0 <= i < |steps| ==> Proper(steps[i])
  }

  lemma StepKeepsEnded(s: State, cfg: Config, step: Step)
    requires Ended(s) && Proper(step)
    ensures Ended(Do(s, cfg, step))
  {
  }

  /** Attach's replay shows a terminal event exactly when the topic has ended. */
  lemma ReplayShowsTheEnd(s: State, cfg: Config, step: Step)
    requires HistoriesFit(s, cfg) && Ended(s) && step.Attach? && step.c in s.members
    ensures HasTerminal(Returned(s, cfg, step)) <==> TopicAt(Pruned(s.topics, cfg, step.now), step.id, step.now).terminal.Some?
  {
    var t := TopicAt(Pruned(s.topics, cfg, step.now), step.id, step.now);
    var replay := Returned(s, cfg, step);
    assert replay == Replay(t);
    if t.terminal.Some? {
      assert IsTerminal(replay[|replay| - 1]);
    } else {
      assert forall i :: 0 <= i < |replay| ==> replay[i] == t.history[i].event;
    }
  }

  lemma AttachAgrees(s: State, cfg: Config, step: Step, c: SubId, w: Watch)
    requires HistoriesFit(s, cfg) && Ended(s) && Agrees(s, c, w) && step.Attach?
    ensures Agrees(Do(s, cfg, step), c, Noted(w, c, step, Returned(s, cfg, step)))
  {
    if step.c in s.members {
      ReplayShowsTheEnd(s, cfg, step);
    }
  }

  lemma PublishAgrees(s: State, cfg: Config, step: Step, c: SubId, w: Watch)
    requires Ended(s) && Agrees(s, c, w) && (step.Publish? || step.PublishTerminal?)
    ensures Agrees(Do(s, cfg, step), c, Noted(w, c, step, []))
  {
  }

  lemma ReleaseAgrees(s: State, cfg: Config, step: Step, c: SubId, w: Watch)
    requires Ended(s) && Agrees(s, c, w) && step.Release?
    ensures Agrees(Do(s, cfg, step), c, Noted(w, c, step, []))
  {
  }

  lemma StepAgrees(s: State, cfg: Config, step: Step, c: SubId, w: Watch)
    requires HistoriesFit(s, cfg) && Ended(s) && Agrees(s, c, w)
    ensures Agrees(Do(s, cfg, step), c, Noted(w, c, step, Returned(s, cfg, step)))
  {
    match step
    case Attach(_, _, _) => AttachAgrees(s, cfg, step, c, w);
    case Publish(_, _) => PublishAgrees(s, cfg, step, c, w);
    case PublishTerminal(_, _) => PublishAgrees(s, cfg, step, c, w);
    case Release(_, _) => ReleaseAgrees(s, cfg, step, c, w);
    case _ =>
  }

  /** What a publish gives c is what its caller is now due. */
  lemma ShareIsDue(s: State, cfg: Config, step: Step, c: SubId, w: Watch)
    requires Ended(s) && Agrees(s, c, w) && c in s.members && (step.Publish? || step.PublishTerminal?)
    ensures var terminal := step.PublishTerminal? || IsTerminal(step.e);
            var t := TopicAt(Pruned(s.topics, cfg, step.now), step.e.eventId, step.now);
            var listens := step.e.eventId != "" && c in t.subscribers && !(terminal && t.terminal.Some?);
            var share := if listens then Share(s.members[c], Populated(t, step.e), terminal) else [];
            && Announced(w, step.e, terminal).due == w.due + (if share == [] then [] else [step.e])
            && (share == [] || share == [Item(Populated(t, step.e), false)])
  {
    var t := TopicAt(Pruned(s.topics, cfg, step.now), step.e.eventId, step.now);
    if !w.over {
      assert c in t.subscribers <==> step.e.eventId in w.ids;
    }
  }

  lemma PublishPaysWhatIsDue(s: State, cfg: Config, step: Step, c: SubId, w: Watch)
    requires Ended(s) && Agrees(s, c, w) && c in s.members && (step.Publish? || step.PublishTerminal?)
    requires Carry(Kept(Obtained(s, c)), w.due)
    ensures Carry(Kept(Obtained(Do(s, cfg, step), c)), Noted(w, c, step, []).due)
  {
    var terminal := step.PublishTerminal? || IsTerminal(step.e);
    var t := TopicAt(Pruned(s.topics, cfg, step.now), step.e.eventId, step.now);
    PublishGivesItsShare(s, cfg, step.e, terminal, step.now, c);
    ShareIsDue(s, cfg, step, c, w);
    var before := Kept(Obtained(s, c));
    if Kept(Obtained(Do(s, cfg, step), c)) != before {
      CarryMore(before, w.due, Item(Populated(t, step.e), false), step.e);
    }
    assert before + [] == before && w.due + [] == w.due;
  }

  lemma OtherStepsOweNothing(s: State, cfg: Config, step: Step, c: SubId, w: Watch, replay: seq<RuntimeEvent>)
    requires !step.Publish? && !step.PublishTerminal?
    ensures Obtained(Do(s, cfg, step), c) == Obtained(s, c) && Noted(w, c, step, replay).due == w.due
  {
  }

  lemma StepPaysWhatIsDue(s: State, cfg: Config, step: Step, c: SubId, w: Watch)
    requires Ended(s) && Agrees(s, c, w) && Carry(Kept(Obtained(s, c)), w.due)
    ensures Carry(Kept(Obtained(Do(s, cfg, step), c)), Noted(w, c, step, Returned(s, cfg, step)).due)
  {
    if !step.Publish? && !step.PublishTerminal? {
      OtherStepsOweNothing(s, cfg, step, c, w, Returned(s, cfg, step));
    } else if c in s.members {
      PublishPaysWhatIsDue(s, cfg, step, c, w);
    }
  }

  lemma {:induction false} RunAgrees(cfg: Config, steps: seq<Step>, c: SubId)
    requires AllProper(steps)
    ensures var s := Run(EMPTY_STATE, cfg, steps);
            Ended(s) && Agrees(s, c, Watched(cfg, steps, c)) && Carry(Kept(Obtained(s, c)), Watched(cfg, steps, c).due)
  {
    if steps != [] {
      var butLast, last := steps[..|steps| - 1], steps[|steps| - 1];
      RunAgrees(cfg, butLast, c);
      ReplayEndsWithItsTerminal(cfg, butLast);
      var s := Run(EMPTY_STATE, cfg, butLast);
      StepKeepsEnded(s, cfg, last);
      StepAgrees(s, cfg, last, c, Watched(cfg, butLast, c));
      StepPaysWhatIsDue(s, cfg, last, c, Watched(cfg, butLast, c));
    }
  }

  /** What c received, then what it has queued, contains in order and once each exactly the events that must
      be kept and were published for it since it attached. */
  ghost predicate AllCarried(cfg: Config, steps: seq<Step>, c: SubId) {
    Carry(Kept(Obtained(Run(EMPTY_STATE, cfg, steps), c)), Watched(cfg, steps, c).due)
  }

  /** For every subscription and every run nothing that is due is lost, and nothing else is kept. */
  lemma NothingDueIsLost(cfg: Config, steps: seq<Step>, c: SubId)
    requires AllProper(steps)
    ensures AllCarried(cfg, steps, c)
  {
    RunAgrees(cfg, steps, c);
  }

  // ----- Why the terminal events must be terminal --------------------------------------------------------

  lemma {:induction false} OneMore(cfg: Config, steps: seq<Step>, step: Step, c: SubId)
    ensures Run(EMPTY_STATE, cfg, steps + [step]) == Do(Run(EMPTY_STATE, cfg, steps), cfg, step)
    ensures Watched(cfg, steps + [step], c)
              == Noted(Watched(cfg, steps, c), c, step, Returned(Run(EMPTY_STATE, cfg, steps), cfg, step))
  {
    assert (steps + [step])[..|steps|] == steps;
  }

  /** A topic is ended by e, then subscription 0 attaches to it, then a tool starts. */
  function MislabelledEnd(e: RuntimeEvent): seq<Step> {
    [PublishTerminal(e, 0)] + [Reserve(0)] + [Attach(0, e.eventId, 0)] + [Publish(RuntimeEvent(ToolStarted, e.eventId, 0, ""), 0)]
  }

  lemma MislabelledEndLosesEvents(e: RuntimeEvent)
    requires e.eventId != "" && !IsTerminal(e)
    ensures !AllCarried(DEFAULT_CONFIG, MislabelledEnd(e), 0)
  {
    var cfg, g := DEFAULT_CONFIG, RuntimeEvent(ToolStarted, e.eventId, 0, "");
    OneMore(cfg, [], PublishTerminal(e, 0), 0);
    OneMore(cfg, [PublishTerminal(e, 0)], Reserve(0), 0);
    OneMore(cfg, [PublishTerminal(e, 0)] + [Reserve(0)], Attach(0, e.eventId, 0), 0);
    OneMore(cfg, [PublishTerminal(e, 0)] + [Reserve(0)] + [Attach(0, e.eventId, 0)], Publish(g, 0), 0);
    assert [] + [PublishTerminal(e, 0)] == [PublishTerminal(e, 0)];
    MislabelledEndIsMissed(cfg, e, g);
  }

  lemma MislabelledEndIsMissed(cfg: Config, e: RuntimeEvent, g: RuntimeEvent)
    requires e.eventId != "" && !IsTerminal(e) && cfg.retention >= 0 && g == RuntimeEvent(ToolStarted, e.eventId, 0, "")
    ensures var s1 := Do(EMPTY_STATE, cfg, PublishTerminal(e, 0));
            var s2 := Do(s1, cfg, Reserve(0));
            var s3 := Do(s2, cfg, Attach(0, e.eventId, 0));
            var s4 := Do(s3, cfg, Publish(g, 0));
            && Obtained(s4, 0) == []
            && !HasTerminal(Returned(s2, cfg, Attach(0, e.eventId, 0)))
  {
    var s1 := Do(EMPTY_STATE, cfg, PublishTerminal(e, 0));
    assert s1.topics[e.eventId] == Topic(if e.sequence == 0 then 3 else 2, {}, [], Some(Populated(Topic(2, {}, [], None, 0), e)), 0);
    var s2 := Do(s1, cfg, Reserve(0));
    assert s2.members[0] == Member(NEW_SUB, None, [], []);
    var s3 := Do(s2, cfg, Attach(0, e.eventId, 0));
    assert s3.topics[e.eventId].subscribers == {} && s3.members[0].sub == NEW_SUB;
    var replay := Returned(s2, cfg, Attach(0, e.eventId, 0));
    assert replay == [Populated(Topic(2, {}, [], None, 0), e)];
  }

  /** The terminal events that may be handed over in a run. */
  ghost predicate Allowed(allowed: RuntimeEvent -> bool, steps: seq<Step>) {
    forall i :: 0 <= i < |steps| && steps[i].PublishTerminal? ==> allowed(steps[i].e)
  }

  /** Nothing is lost in any run exactly when no event that is not terminal may be handed over as one. */
  lemma NothingIsLostIffTerminalsAreTerminal(allowed: RuntimeEvent -> bool)
    ensures (forall e :: allowed(e) && e.eventId != "" ==> EndsStream(e))
            <==> forall cfg, steps, c :: Allowed(allowed, steps) ==> AllCarried(cfg, steps, c)
  {
    if e :| allowed(e) && e.eventId != "" && !EndsStream(e) {
      MislabelledEndLosesEvents(e);
      assert Allowed(allowed, MislabelledEnd(e)) && !AllCarried(DEFAULT_CONFIG, MislabelledEnd(e), 0);
    } else {
      forall cfg, steps, c | Allowed(allowed, steps) ensures AllCarried(cfg, steps, c) {
        NothingDueIsLost(cfg, steps, c);
      }
    }
  }

  // ----- What a replay shows -----------------------------------------------------------------------------

  /** The i-th step publishes e for topic id. */
  predicate Publishes(steps: seq<Step>, i: nat, id: string, e: RuntimeEvent) {
    i < |steps| && (steps[i].Publish? || steps[i].PublishTerminal?) && steps[i].e == e && e.eventId == id && id != ""
  }

  /** f was published for id in these steps. */
  ghost predicate WasPublished(steps: seq<Step>, id: string, f: RuntimeEvent) {
    exists i: nat, e :: Publishes(steps, i, id, e) && Stamped(e, f)
  }

  ghost predicate AllPublished(steps: seq<Step>, id: string, es: seq<RuntimeEvent>) {
    forall k :: 0 <= k < |es| ==> WasPublished(steps, id, es[k])
  }

  lemma StillPublished(steps: seq<Step>, step: Step, id: string, f: RuntimeEvent)
    requires WasPublished(steps, id, f)
    ensures WasPublished(steps + [step], id, f)
  {
    var i: nat, e :| Publishes(steps, i, id, e) && Stamped(e, f);
    assert Publishes(steps + [step], i, id, e);
  }

  lemma {:induction false} FittingTakesFrom(items: seq<Item>, max: nat)
    ensures forall x :: x in Fitting(items, max) ==> x in items
  {
    if items != [] {
      FittingTakesFrom(items[..|items| - 1], max);
    }
  }

  lemma AppendTakesFrom(history: seq<Item>, item: Item, max: int)
    ensures forall x :: x in AfterAppend(history, item, max) ==> x in history || x == item
  {
    assert forall x :: x in history + [item] <==> x in history || x == item;
    if max > 0 {
      FittingTakesFrom(history + [item], max);
      var fitting := Fitting(history + [item], max);
      assert |fitting| > max ==> forall x :: x in fitting[|fitting| - max..] ==> x in fitting;
    }
  }

  /** Everything a topic remembers was published for it. */
  ghost predicate Remembers(steps: seq<Step>, id: string, t: Topic) {
    && (forall x :: x in t.history ==> WasPublished(steps, id, x.event))
    && (t.terminal.Some? ==> WasPublished(steps, id, t.terminal.value))
  }

  lemma StillRemembers(steps: seq<Step>, step: Step, id: string, t: Topic)
    requires Remembers(steps, id, t)
    ensures Remembers(steps + [step], id, t)
  {
    forall x | x in t.history ensures WasPublished(steps + [step], id, x.event) {
      StillPublished(steps, step, id, x.event);
    }
    if t.terminal.Some? {
      StillPublished(steps, step, id, t.terminal.value);
    }
  }

  lemma PublishedIsRemembered(steps: seq<Step>, step: Step, cfg: Config, t: Topic, terminal: bool)
    requires (step.Publish? || step.PublishTerminal?) && step.e.eventId != "" && Remembers(steps + [step], step.e.eventId, t)
    ensures Remembers(steps + [step], step.e.eventId, Published(t, cfg, step.e, terminal, step.now))
  {
    var event := Populated(t, step.e);
    assert Publishes(steps + [step], |steps|, step.e.eventId, step.e) && Stamped(step.e, event);
    AppendTakesFrom(t.history, Item(event, ReplayDroppable(step.e.kind)), cfg.maxReplay);
  }

  lemma StepRemembers(s: State, cfg: Config, steps: seq<Step>, step: Step, id: string)
    requires id in Do(s, cfg, step).topics && (id in s.topics ==> Remembers(steps, id, s.topics[id]))
    ensures Remembers(steps + [step], id, Do(s, cfg, step).topics[id])
  {
    if id in s.topics {
      StillRemembers(steps, step, id, s.topics[id]);
    }
    if (step.Publish? || step.PublishTerminal?) && step.e.eventId == id && id != "" {
      var t := TopicAt(Pruned(s.topics, cfg, step.now), id, step.now);
      PublishedIsRemembered(steps, step, cfg, t, step.PublishTerminal? || IsTerminal(step.e));
    }
  }

  lemma {:induction false} RunRemembers(cfg: Config, steps: seq<Step>, id: string)
    requires id in Run(EMPTY_STATE, cfg, steps).topics
    ensures Remembers(steps, id, Run(EMPTY_STATE, cfg, steps).topics[id])
  {
    if steps != [] {
      var butLast, last := steps[..|steps| - 1], steps[|steps| - 1];
      if id in Run(EMPTY_STATE, cfg, butLast).topics {
        RunRemembers(cfg, butLast, id);
      }
      StepRemembers(Run(EMPTY_STATE, cfg, butLast), cfg, butLast, last, id);
      assert steps == butLast + [last];
    }
  }

  /** Attach returns nothing but events that were published for its id before. */
  lemma ReplayWasPublished(cfg: Config, steps: seq<Step>, c: SubId, id: string, now: Time)
    ensures AllPublished(steps, id, Returned(Run(EMPTY_STATE, cfg, steps), cfg, Attach(c, id, now)))
  {
    var s := Run(EMPTY_STATE, cfg, steps);
    if c in s.members {
      var t := TopicAt(Pruned(s.topics, cfg, now), id, now);
      if id in s.topics {
        RunRemembers(cfg, steps, id);
      }
      assert Remembers(steps, id, t);
      assert Returned(s, cfg, Attach(c, id, now)) == Replay(t);
      forall k | 0 <= k < |t.history| ensures WasPublished(steps, id, Events(t.history)[k]) {
        assert t.history[k] in t.history;
      }
    }
  }

  // ----- The terminal event stays ------------------------------------------------------------------------

  function At(step: Step): Option<Time> {
    match step
    case Attach(_, _, now) => Some(now)
    case Publish(_, now) => Some(now)
    case PublishTerminal(_, now) => Some(now)
    case Release(_, now) => Some(now)
    case _ => None
  }

  /** The topic has ended with event t, and is not forgotten in the step. */
  predicate Keeps(s: State, cfg: Config, step: Step, id: string) {
    id in s.topics && (At(step).Some? ==> !Stale(s.topics[id], cfg, At(step).value))
  }

  predicate EndedWith(s: State, id: string, t: RuntimeEvent) {
    id in s.topics && s.topics[id].terminal == Some(t)
  }

  lemma StepKeepsTerminal(s: State, cfg: Config, step: Step, id: string, t: RuntimeEvent)
    requires EndedWith(s, id, t) && Keeps(s, cfg, step, id) && cfg.retention >= 0
    ensures EndedWith(Do(s, cfg, step), id, t)
  {
  }

  /** Over these steps the topic is never old enough to be forgotten. */
  ghost predicate Survives(s: State, cfg: Config, more: seq<Step>, id: string) {
    more != [] ==>
      var n := |more| - 1;
      Survives(s, cfg, more[..n], id) && Keeps(Run(s, cfg, more[..n]), cfg, more[n], id)
  }

  /** The answer of a step that asks for the end of id: a terminal publish, or an Attach. */
  predicate AnswersWith(s: State, cfg: Config, step: Step, id: string, t: RuntimeEvent) {
    && (step.PublishTerminal? && step.e.eventId == id && id != "" ==> PublishAnswer(s, cfg, step.e, true, step.now) == t)
    && (step.Publish? && IsTerminal(step.e) && step.e.eventId == id && id != "" ==>
          PublishAnswer(s, cfg, step.e, true, step.now) == t)
    && (step.Attach? && step.id == id && step.c in s.members ==>
          var replay := Returned(s, cfg, step); replay != [] && replay[|replay| - 1] == t)
  }

  lemma KeptTerminalAnswers(s: State, cfg: Config, step: Step, id: string, t: RuntimeEvent)
    requires EndedWith(s, id, t) && Keeps(s, cfg, step, id)
    ensures AnswersWith(s, cfg, step, id, t)
  {
  }

  /** Every question in these later steps is answered with t. */
  ghost predicate AllAnswerWith(s: State, cfg: Config, more: seq<Step>, id: string, t: RuntimeEvent) {
    more != [] ==>
      var n := |more| - 1;
      AllAnswerWith(s, cfg, more[..n], id, t) && AnswersWith(Run(s, cfg, more[..n]), cfg, more[n], id, t)
  }

  /** That is, the answer at every single step. */
  lemma {:induction false} AnswerAt(s: State, cfg: Config, more: seq<Step>, id: string, t: RuntimeEvent, k: nat)
    requires AllAnswerWith(s, cfg, more, id, t) && k < |more|
    ensures AnswersWith(Run(s, cfg, more[..k]), cfg, more[k], id, t)
  {
    var n := |more| - 1;
    if k < n {
      AnswerAt(s, cfg, more[..n], id, t, k);
      assert more[..n][..k] == more[..k];
    }
  }

  /** Once recorded, a terminal event never changes while its topic lives: every later terminal publish gets
      it back and every later Attach replays it last. */
  lemma {:induction false} TerminalIsRecordedOnce(s: State, cfg: Config, more: seq<Step>, id: string, t: RuntimeEvent)
    requires EndedWith(s, id, t) && Survives(s, cfg, more, id) && cfg.retention >= 0
    ensures EndedWith(Run(s, cfg, more), id, t)
    ensures AllAnswerWith(s, cfg, more, id, t)
  {
    if more != [] {
      var n := |more| - 1;
      TerminalIsRecordedOnce(s, cfg, more[..n], id, t);
      var before := Run(s, cfg, more[..n]);
      StepKeepsTerminal(before, cfg, more[n], id, t);
      KeptTerminalAnswers(before, cfg, more[n], id, t);
    }
  }

  /** Times between from and from + retention. */
  predicate Within(cfg: Config, more: seq<Step>, from: Time) {
    forall k :: 0 <= k < |more| && At(more[k]).Some? ==> from <= At(more[k]).value <= from + cfg.retention
  }

  lemma StepKeepsTouch(s: State, cfg: Config, step: Step, id: string, t: RuntimeEvent, from: Time)
    requires EndedWith(s, id, t) && s.topics[id].updatedAt >= from && cfg.retention >= 0
    requires At(step).Some? ==> from <= At(step).value <= from + cfg.retention
    ensures Keeps(s, cfg, step, id) && EndedWith(Do(s, cfg, step), id, t) && Do(s, cfg, step).topics[id].updatedAt >= from
  {
    StepKeepsTerminal(s, cfg, step, id, t);
  }

  /** A topic that was touched at time from or later lives for the retention after it, whatever happens. */
  lemma {:induction false} TouchedTopicSurvives(s: State, cfg: Config, more: seq<Step>, id: string,
      t: RuntimeEvent, from: Time)
    requires EndedWith(s, id, t) && s.topics[id].updatedAt >= from && Within(cfg, more, from) && cfg.retention >= 0
    ensures Survives(s, cfg, more, id)
    ensures EndedWith(Run(s, cfg, more), id, t) && Run(s, cfg, more).topics[id].updatedAt >= from
  {
    if more != [] {
      var n := |more| - 1;
      TouchedTopicSurvives(s, cfg, more[..n], id, t, from);
      StepKeepsTouch(Run(s, cfg, more[..n]), cfg, more[n], id, t, from);
    }
  }

  /** From the calls and answers alone: when Attach shows a terminal event at time from, every terminal
      publish and every Attach for the same id within the retention after it is answered with that event. */
  lemma ShownEndStays(cfg: Config, steps: seq<Step>, c: SubId, id: string, from: Time, more: seq<Step>)
    requires AllProper(steps) && cfg.retention >= 0 && Within(cfg, more, from)
    requires HasTerminal(Returned(Run(EMPTY_STATE, cfg, steps), cfg, Attach(c, id, from)))
    ensures var s := Run(EMPTY_STATE, cfg, steps);
            var replay := Returned(s, cfg, Attach(c, id, from));
            AllAnswerWith(Do(s, cfg, Attach(c, id, from)), cfg, more, id, replay[|replay| - 1])
  {
    var s, step := Run(EMPTY_STATE, cfg, steps), Attach(c, id, from);
    RunAgrees(cfg, steps, c);
    ReplayEndsWithItsTerminal(cfg, steps);
    ReplayShowsTheEnd(s, cfg, step);
    var replay := Returned(s, cfg, step);
    var t := replay[|replay| - 1];
    assert EndedWith(Do(s, cfg, step), id, t);
    TouchedTopicSurvives(Do(s, cfg, step), cfg, more, id, t, from);
    TerminalIsRecordedOnce(Do(s, cfg, step), cfg, more, id, t);
  }

  predicate Ends(step: Step, id: string) {
    (step.PublishTerminal? || (step.Publish? && EndsStream(step.e))) && step.e.eventId == id
  }

  lemma {:induction false} OnlyEndsEnd(cfg: Config, steps: seq<Step>, id: string)
    requires forall i :: 0 <= i < |steps| ==> !Ends(steps[i], id)
    ensures id in Run(EMPTY_STATE, cfg, steps).topics ==> Run(EMPTY_STATE, cfg, steps).topics[id].terminal == None
  {
    if steps != [] {
      OnlyEndsEnd(cfg, steps[..|steps| - 1], id);
    }
  }

  /** The first terminal event published for an id, at time from, is what every later terminal publish and
      every later Attach for the id is answered with, for the retention after it. */
  lemma FirstEndStays(cfg: Config, steps: seq<Step>, e: RuntimeEvent, from: Time, more: seq<Step>)
    requires e.eventId != "" && cfg.retention >= 0 && Within(cfg, more, from)
    requires forall i :: 0 <= i < |steps| ==> !Ends(steps[i], e.eventId)
    ensures var s := Run(EMPTY_STATE, cfg, steps);
            var t := PublishAnswer(s, cfg, e, true, from);
            Stamped(e, t) && AllAnswerWith(Do(s, cfg, PublishTerminal(e, from)), cfg, more, e.eventId, t)
  {
    var s := Run(EMPTY_STATE, cfg, steps);
    OnlyEndsEnd(cfg, steps, e.eventId);
    var after, t := Do(s, cfg, PublishTerminal(e, from)), PublishAnswer(s, cfg, e, true, from);
    assert EndedWith(after, e.eventId, t) && after.topics[e.eventId].updatedAt == from;
    TouchedTopicSurvives(after, cfg, more, e.eventId, t, from);
    TerminalIsRecordedOnce(after, cfg, more, e.eventId, t);
  }
}
