/** The runtime as a state machine over the database: gateway, event loop, kernel, recovery worker and
    delivery worker take atomic steps in any order. A step that is not enabled leaves the state as it is. */
module Protocol {
  import opened Basics
  import opened Store
  import opened Retry

  /** The event loop's context timeout for one work item. */
  const CONTEXT_TIMEOUT: Time := 2 * MINUTE
  /** The recovery worker's lease, counted from the claim timestamp. */
  const PROCESSING_LEASE: Time := 2 * MINUTE
  /** The delivery worker's lease on a row it is sending. */
  const SENDING_LEASE: Time := 30 * SECOND

  /** A kernel execution between its claim and its one Finalize. */
  datatype Executor = Executor(eventId: EventId, sessionKey: SessionKey, deadline: Time)

  /** What executing a claimed event returned. */
  datatype ExecutionResult = ExecutionResult(
    failed: bool, suppressed: bool, model: string, tokens: Tokens,
    messages: seq<NewMessage>, delivery: Option<string>)

  datatype Sys = Sys(
    db: Db,
    inFlight: map<RunId, Executor>,
    sweep: seq<EventId>, sweepAt: Time,   // what the recovery worker has selected and not yet recovered
    sender: Option<ClaimedOutbox>,        // what the delivery worker is sending
    policy: Policy,
    now: Time)

  datatype Step =
    | Advance(to: Time)
    | Persist(req: Request, at: Time)
    | MarkQueued(e: EventId, at: Time)
    | Claim(e: EventId, r: RunId, begun: Time, at: Time)
    | Finish(r: RunId, result: ExecutionResult, at: Time)
    | Abandon(r: RunId)
    | SweepRead(ids: seq<EventId>, at: Time)
    | SweepOne(e: EventId, at: Time)
    | SweepStop
    | SendRecover(at: Time)
    | SendClaim(o: OutboxId, at: Time)
    | SendFailed(at: Time)
    | SendDone(at: Time)
    | SendDrop
    | Crash

  function Initial(policy: Policy, now: Time): Sys {
    Sys(EMPTY_DB, map[], [], now, None, policy, now)
  }

  /** buildFinalize: the command that ends a run. */
  function BuildFinalize(r: RunId, x: Executor, result: ExecutionResult, at: Time): (cmd: FinalizeCommand)
    ensures cmd.runStatus == if result.failed then RunFailed else RunCompleted
    ensures cmd.eventStatus == Failed <==> result.failed
    ensures cmd.eventStatus == Suppressed <==> !result.failed && result.suppressed
    ensures cmd.eventStatus == Processed <==> !result.failed && !result.suppressed
    ensures SendsOutbox(cmd) <==> !result.failed && !result.suppressed
                                  && result.delivery.Some? && !Blank(result.delivery.value)
    ensures SendsOutbox(cmd) ==> cmd.outboxBody == result.delivery.value
    ensures cmd.runId == r && cmd.eventId == x.eventId && cmd.sessionKey == x.sessionKey && cmd.now == at
    ensures cmd.model == result.model && cmd.tokens == result.tokens && cmd.messages == result.messages
  {
    var base := FinalizeCommand(r, x.eventId, x.sessionKey, RunCompleted, Processed,
                                result.model, result.tokens, result.messages, "", at);
    if result.failed then base.(runStatus := RunFailed, eventStatus := Failed)
    else if result.suppressed then base.(eventStatus := Suppressed)
    else if result.delivery.Some? then base.(outboxBody := result.delivery.value)
    else base
  }

  function Without<K, V>(m: map<K, V>, k: K): map<K, V> {
    m - {k}
  }

  ghost function Do(s: Sys, step: Step): Sys {
    match step
    case Advance(to) => if s.now <= to then s.(now := to) else s
    case Persist(req, at) => s.(db := AfterPersist(s.db, req, at))
    case MarkQueued(e, at) => s.(db := AfterMarkQueued(s.db, e, at))
    case Claim(e, r, begun, at) =>
      if Claimable(s.db, e) && r !in s.db.runs then
        s.(db := AfterClaim(s.db, e, r, at),
           inFlight := s.inFlight[r := Executor(e, s.db.events[e].sessionKey, begun + CONTEXT_TIMEOUT)])
      else s
    case Finish(r, result, at) =>
      if r in s.inFlight then
        s.(db := AfterFinalize(s.db, BuildFinalize(r, s.inFlight[r], result, at)), inFlight := Without(s.inFlight, r))
      else s
    case Abandon(r) => s.(inFlight := Without(s.inFlight, r))
    case SweepRead(ids, at) => s.(sweep := ids, sweepAt := at)
    case SweepOne(e, at) =>
      s.(db := AfterRecover(s.db, e, at), sweep := if s.sweep != [] && s.sweep[0] == e then s.sweep[1..] else s.sweep)
    case SweepStop => s.(sweep := [])
    case SendRecover(at) => if s.sender.None? then s.(db := AfterRecoverSending(s.db, at - SENDING_LEASE, at)) else s
    case SendClaim(o, at) =>
      if s.sender.None? && NextToSend(s.db, o, at) then
        s.(db := AfterClaimOutbox(s.db, o, at),
           sender := Some(ClaimedOutbox(o, s.db.outbox[o].eventId, s.db.outbox[o].attemptCount)))
      else s
    case SendFailed(at) =>
      if s.sender.Some? then
        var d := Decide(s.policy, s.sender.value.attemptCount, at);
        s.(db := AfterFailSend(s.db, s.sender.value, d.dead, d.nextAttemptAt, at), sender := None)
      else s
    case SendDone(at) =>
      if s.sender.Some? then s.(db := AfterCompleteSend(s.db, s.sender.value, at), sender := None) else s
    case SendDrop => s.(sender := None)
    case Crash => s.(inFlight := map[], sweep := [], sender := None)
  }

  ghost function Run(s: Sys, steps: seq<Step>): Sys {
    if steps == [] then s else Do(Run(s, steps[..|steps| - 1]), steps[|steps| - 1])
  }

  lemma RunSnoc(s: Sys, steps: seq<Step>, step: Step)
    ensures Run(s, steps + [step]) == Do(Run(s, steps), step)
  {
    assert (steps + [step])[..|steps|] == steps;
  }

  lemma {:induction false} RunOn(s: Sys, first: seq<Step>, more: seq<Step>)
    requires more != []
    ensures Run(s, first + more) == Do(Run(s, first + more[..|more| - 1]), more[|more| - 1])
  {
    assert first + more == (first + more[..|more| - 1]) + [more[|more| - 1]];
    RunSnoc(s, first + more[..|more| - 1], more[|more| - 1]);
  }

  // ----- What holds with no assumption on timing ------------------------------------------------

  ghost predicate Wired(db: Db, inFlight: map<RunId, Executor>) {
    && (forall r :: r in db.runs ==> db.runs[r].eventId in db.events
                                     && db.runs[r].sessionKey == db.events[db.runs[r].eventId].sessionKey)
    && (forall r :: r in inFlight ==> r in db.runs && db.runs[r].eventId == inFlight[r].eventId
                                      && db.runs[r].sessionKey == inFlight[r].sessionKey)
  }

  /** Event status and started runs fit together. */
  ghost predicate RunsFit(db: Db) {
    && (forall r, q, e :: StartedOn(db, r, e) && StartedOn(db, q, e) ==> r == q)
    && (forall r, e :: StartedOn(db, r, e) ==> e in db.events && !Runnable(db.events[e]))
    && (forall e :: e in db.events && db.events[e].status == Processing ==>
          db.events[e].runId.Some? && StartedOn(db, db.events[e].runId.value, e))
  }

  ghost predicate Sound(s: Sys) {
    Wired(s.db, s.inFlight) && RunsFit(s.db)
  }

  /** Nothing but the outbox columns and the timestamp of events differs, and no run does. */
  ghost predicate SameLives(a: Db, b: Db) {
    && b.runs == a.runs
    && b.events.Keys == a.events.Keys
    && forall e :: e in a.events ==>
         b.events[e].status == a.events[e].status && b.events[e].runId == a.events[e].runId
         && b.events[e].sessionKey == a.events[e].sessionKey
         && b.events[e].processingStartedAt == a.events[e].processingStartedAt
  }

  lemma SameLivesStaySound(a: Db, b: Db, inFlight: map<RunId, Executor>)
    requires SameLives(a, b) && Wired(a, inFlight) && RunsFit(a)
    ensures Wired(b, inFlight) && RunsFit(b)
  {
    assert forall r, e :: StartedOn(b, r, e) <==> StartedOn(a, r, e);
  }

  lemma PersistSound(db: Db, inFlight: map<RunId, Executor>, req: Request, at: Time)
    requires Wired(db, inFlight) && RunsFit(db)
    ensures Wired(AfterPersist(db, req, at), inFlight) && RunsFit(AfterPersist(db, req, at))
  {
    var after := AfterPersist(db, req, at);
    assert forall r, e :: StartedOn(after, r, e) <==> StartedOn(db, r, e);
  }

  lemma MarkQueuedSound(db: Db, inFlight: map<RunId, Executor>, e: EventId, at: Time)
    requires Wired(db, inFlight) && RunsFit(db)
    ensures Wired(AfterMarkQueued(db, e, at), inFlight) && RunsFit(AfterMarkQueued(db, e, at))
  {
    var after := AfterMarkQueued(db, e, at);
    assert forall r, o :: StartedOn(after, r, o) <==> StartedOn(db, r, o);
  }

  lemma ClaimSound(s: Sys, e: EventId, r: RunId, begun: Time, at: Time)
    requires Sound(s)
    ensures Sound(Do(s, Claim(e, r, begun, at)))
  {
    if Claimable(s.db, e) && r !in s.db.runs {
      var after := AfterClaim(s.db, e, r, at);
      assert forall q, o :: StartedOn(after, q, o) <==> StartedOn(s.db, q, o) || (q == r && o == e);
    }
  }

  lemma RecoverSound(db: Db, inFlight: map<RunId, Executor>, e: EventId, at: Time)
    requires Wired(db, inFlight) && RunsFit(db)
    ensures Wired(AfterRecover(db, e, at), inFlight) && RunsFit(AfterRecover(db, e, at))
  {
    var after := AfterRecover(db, e, at);
    assert forall q, o :: StartedOn(after, q, o) <==> StartedOn(db, q, o) && o != e;
  }

  lemma FinalizedFactsSound(db: Db, inFlight: map<RunId, Executor>, cmd: FinalizeCommand)
    requires Wired(db, inFlight) && RunsFit(db) && cmd.runId in db.runs && db.runs[cmd.runId].eventId == cmd.eventId
    requires cmd.runStatus != RunStarted && cmd.eventStatus in {Processed, Suppressed, Failed}
    ensures Wired(FinalizedFacts(db, cmd), inFlight) && RunsFit(FinalizedFacts(db, cmd))
  {
    var after := FinalizedFacts(db, cmd);
    assert forall q, o :: StartedOn(after, q, o) <==> StartedOn(db, q, o) && q != cmd.runId;
  }

  lemma FinalizeSound(s: Sys, r: RunId, result: ExecutionResult, at: Time)
    requires Sound(s)
    ensures Sound(Do(s, Finish(r, result, at)))
  {
    if r in s.inFlight {
      var cmd := BuildFinalize(r, s.inFlight[r], result, at);
      assert cmd.runId == r && cmd.eventId == s.inFlight[r].eventId;
      FinalizedFactsSound(s.db, s.inFlight, cmd);
      if FinalizeKeysFree(s.db, cmd) {
        SameLivesStaySound(FinalizedFacts(s.db, cmd), AfterFinalize(s.db, cmd), s.inFlight);
      }
    }
  }

  /** The steps of the delivery worker and the bookkeeping steps touch no life. */
  predicate Harmless(step: Step) {
    match step
    case Persist(_, _) | MarkQueued(_, _) | Claim(_, _, _, _) | Finish(_, _, _) | SweepOne(_, _) => false
    case _ => true
  }

  lemma HarmlessSteps(s: Sys, step: Step)
    requires Harmless(step)
    ensures SameLives(s.db, Do(s, step).db)
    ensures forall r :: r in Do(s, step).inFlight ==> r in s.inFlight && Do(s, step).inFlight[r] == s.inFlight[r]
  {
    match step
    case SendRecover(at) => RequeuedSameLives(s.db, at - SENDING_LEASE, at);
    case _ =>
  }

  lemma RequeuedSameLives(db: Db, cutoff: Time, at: Time)
    ensures SameLives(db, AfterRecoverSending(db, cutoff, at))
  {
  }

  lemma DoSound(s: Sys, step: Step)
    requires Sound(s)
    ensures Sound(Do(s, step))
  {
    match step
    case Persist(req, at) => PersistSound(s.db, s.inFlight, req, at);
    case MarkQueued(e, at) => MarkQueuedSound(s.db, s.inFlight, e, at);
    case Claim(e, r, begun, at) => ClaimSound(s, e, r, begun, at);
    case Finish(r, result, at) => FinalizeSound(s, r, result, at);
    case SweepOne(e, at) => RecoverSound(s.db, s.inFlight, e, at);
    case _ =>
      HarmlessSteps(s, step);
      SameLivesStaySound(s.db, Do(s, step).db, s.inFlight);
  }

  /** Recovery on stale selections, late finalizers and crashes never break the fit between event
      status and started runs. */
  lemma {:induction false} RunSound(policy: Policy, now: Time, steps: seq<Step>)
    ensures Sound(Run(Initial(policy, now), steps))
  {
    if steps != [] {
      RunSound(policy, now, steps[..|steps| - 1]);
      DoSound(Run(Initial(policy, now), steps[..|steps| - 1]), steps[|steps| - 1]);
    }
  }

  /** A runnable event can always be claimed with a fresh run id: the NOT EXISTS guard never blocks it. */
  lemma RunnableIsClaimable(policy: Policy, now: Time, steps: seq<Step>, e: EventId)
    ensures var s := Run(Initial(policy, now), steps);
            e in s.db.events && Runnable(s.db.events[e]) ==> Claimable(s.db, e)
  {
    RunSound(policy, now, steps);
  }

  /** A processing event has one started run, the one it names. */
  lemma ProcessingHasItsRun(policy: Policy, now: Time, steps: seq<Step>, e: EventId)
    ensures var s := Run(Initial(policy, now), steps);
            e in s.db.events && s.db.events[e].status == Processing ==>
              forall r :: StartedOn(s.db, r, e) <==> s.db.events[e].runId == Some(r)
  {
    RunSound(policy, now, steps);
  }

  lemma RuntimeKeepsTerminal(s: Sys, step: Step, e: EventId)
    requires step.Claim? || step.SweepOne?
    requires e in s.db.events && Terminal(s.db.events[e])
    ensures var after := Do(s, step).db.events; e in after && after[e] == s.db.events[e]
  {
  }

  lemma GatewayKeepsTerminal(s: Sys, step: Step, e: EventId)
    requires step.Persist? || step.MarkQueued?
    requires e in s.db.events && Terminal(s.db.events[e])
    ensures var after := Do(s, step).db.events; e in after && after[e] == s.db.events[e]
  {
  }

  lemma TerminalStaysInStep(s: Sys, step: Step, e: EventId)
    requires e in s.db.events && Terminal(s.db.events[e])
    ensures var after := Do(s, step).db.events; e in after && Terminal(after[e])
  {
    if step.Finish? {
      FinishedIsTerminal(s, step.r, step.result, step.at, e);
    } else if step.Claim? || step.SweepOne? {
      RuntimeKeepsTerminal(s, step, e);
    } else if step.Persist? || step.MarkQueued? {
      GatewayKeepsTerminal(s, step, e);
    } else {
      HarmlessSteps(s, step);
    }
  }

  lemma FinishedIsTerminal(s: Sys, r: RunId, result: ExecutionResult, at: Time, e: EventId)
    requires e in s.db.events && Terminal(s.db.events[e])
    ensures var after := Do(s, Finish(r, result, at)).db.events; e in after && Terminal(after[e])
  {
  }

  /** Once terminal, an event stays terminal, whatever steps follow. */
  lemma {:induction false} TerminalIsForever(policy: Policy, now: Time, first: seq<Step>, more: seq<Step>, e: EventId)
    requires var s := Run(Initial(policy, now), first);
             e in s.db.events && s.db.events[e].status in {Processed, Suppressed, Failed}
    ensures var s := Run(Initial(policy, now), first + more);
            e in s.db.events && s.db.events[e].status in {Processed, Suppressed, Failed}
  {
    if more == [] {
      assert first + more == first;
    } else {
      var butLast := more[..|more| - 1];
      TerminalIsForever(policy, now, first, butLast, e);
      RunOn(Initial(policy, now), first, more);
      TerminalStaysInStep(Run(Initial(policy, now), first + butLast), more[|more| - 1], e);
    }
  }
}
