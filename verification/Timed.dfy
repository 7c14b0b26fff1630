/** The timing argument behind the unguarded Finalize: an executor commits only before its context
    deadline, the context starts before the claim timestamp, and recovery waits one lease after it. */
module Timed {
  import opened Basics
  import opened Store
  import opened Retry
  import opened Protocol

  /** What clocks and contexts guarantee about a step. */
  ghost predicate Timely(s: Sys, step: Step) {
    match step
    case Claim(e, r, begun, at) => begun <= at <= s.now
    case Finish(r, result, at) => r in s.inFlight ==> s.now < s.inFlight[r].deadline
    case SweepRead(ids, at) =>
      s.sweep == [] && at <= s.now && NoRepeats(ids) && forall e :: e in ids <==> Expired(s.db, e, at - PROCESSING_LEASE)
    case SweepOne(e, at) => s.sweep != [] && e == s.sweep[0] && at == s.sweepAt
    case _ => true
  }

  ghost predicate TimelyRun(s: Sys, steps: seq<Step>) {
    steps != [] ==> TimelyRun(s, steps[..|steps| - 1]) && Timely(Run(s, steps[..|steps| - 1]), steps[|steps| - 1])
  }

  /** A run is started only while its event is processing under it, and the lease counts from its start. */
  ghost predicate StartedMeansProcessing(db: Db)
    requires RunsFit(db)
  {
    && (forall r, e :: StartedOn(db, r, e) ==> db.events[e].status == Processing && db.events[e].runId == Some(r))
    && (forall e :: e in db.events && db.events[e].status == Processing ==>
          db.events[e].processingStartedAt == Some(db.runs[db.events[e].runId.value].startedAt))
  }

  /** An executor that may still commit owns a started run. */
  ghost predicate LiveExecutorsOwnTheirRun(s: Sys) {
    forall r :: r in s.inFlight ==>
      && r in s.db.runs
      && s.inFlight[r].deadline <= s.db.runs[r].startedAt + PROCESSING_LEASE
      && (s.now < s.inFlight[r].deadline ==> s.db.runs[r].status == RunStarted)
  }

  /** Whatever the recovery worker still holds is processing with its lease over. */
  ghost predicate SweepIsExpired(s: Sys) {
    && NoRepeats(s.sweep)
    && forall e :: e in s.sweep ==>
         && e in s.db.events && s.db.events[e].status == Processing
         && s.db.events[e].processingStartedAt.Some?
         && s.db.events[e].processingStartedAt.value + PROCESSING_LEASE <= s.now
  }

  /** Outbox rows and the outbox columns of events name each other and carry the same status. */
  ghost predicate OutboxMirrored(db: Db) {
    && (forall o :: o in db.outbox ==>
          var e := db.outbox[o].eventId;
          e in db.events && db.events[e].outboxId == Some(o)
          && db.events[e].outboxStatus == Some(db.outbox[o].status) && db.events[e].status == Processed)
    && (forall e :: e in db.events ==>
          match db.events[e].outboxId
          case Some(o) => o in db.outbox && db.outbox[o].eventId == e
          case None => db.events[e].outboxStatus == None)
  }

  ghost predicate SenderNamesItsEvent(s: Sys) {
    s.sender.Some? ==>
      var msg := s.sender.value; msg.outboxId in s.db.outbox && s.db.outbox[msg.outboxId].eventId == msg.eventId
  }

  ghost predicate Tidy(s: Sys) {
    && Sound(s)
    && StartedMeansProcessing(s.db)
    && LiveExecutorsOwnTheirRun(s)
    && SweepIsExpired(s)
    && OutboxMirrored(s.db)
    && SenderNamesItsEvent(s)
  }

  /** A Finalize that commits in time finds its run started and its event processing under that run,
      so recovery has not failed the run. */
  lemma TimelyFinalizeOwnsItsEvent(s: Sys, r: RunId, result: ExecutionResult, at: Time)
    requires Tidy(s) && r in s.inFlight && Timely(s, Finish(r, result, at))
    ensures var e := s.inFlight[r].eventId;
            StartedOn(s.db, r, e) && s.db.events[e].status == Processing && s.db.events[e].runId == Some(r)
            && (forall o :: o in s.db.outbox ==> s.db.outbox[o].eventId != e)
            && e !in s.sweep
  {
    var e := s.inFlight[r].eventId;
    assert StartedOn(s.db, r, e);
  }

  // ----- Each step keeps the state tidy ---------------------------------------------------------

  lemma ClaimTidy(s: Sys, e: EventId, r: RunId, begun: Time, at: Time)
    requires Tidy(s) && Timely(s, Claim(e, r, begun, at))
    ensures Tidy(Do(s, Claim(e, r, begun, at)))
  {
    ClaimSound(s, e, r, begun, at);
    if Claimable(s.db, e) && r !in s.db.runs {
      var after := AfterClaim(s.db, e, r, at);
      assert forall q, o :: StartedOn(after, q, o) <==> StartedOn(s.db, q, o) || (q == r && o == e);
    }
  }

  lemma SweepOneKeepsMirror(s: Sys, e: EventId, at: Time)
    requires Tidy(s)
    ensures var after := Do(s, SweepOne(e, at)); OutboxMirrored(after.db) && SenderNamesItsEvent(after)
  {
  }

  lemma SweepOneKeepsLeases(s: Sys, e: EventId, at: Time)
    requires Sound(s) && StartedMeansProcessing(s.db) && LiveExecutorsOwnTheirRun(s) && SweepIsExpired(s)
    requires Timely(s, SweepOne(e, at))
    ensures var after := Do(s, SweepOne(e, at));
            Sound(after) && StartedMeansProcessing(after.db) && LiveExecutorsOwnTheirRun(after)
  {
    RecoverSound(s.db, s.inFlight, e, at);
    var after := AfterRecover(s.db, e, at);
    assert e in s.sweep;
    assert forall q, o :: StartedOn(after, q, o) <==> StartedOn(s.db, q, o) && o != e;
  }

  lemma SweepShrinks(s: Sys, e: EventId, at: Time)
    requires SweepIsExpired(s) && Timely(s, SweepOne(e, at))
    ensures SweepIsExpired(Do(s, SweepOne(e, at)))
  {
    var rest := s.sweep[1..];
    assert forall i :: 0 <= i < |rest| ==> rest[i] == s.sweep[i + 1] && rest[i] != e;
    assert forall o :: o in rest ==> o in s.sweep && o != e;
  }

  lemma SweepOneTidy(s: Sys, e: EventId, at: Time)
    requires Tidy(s) && Timely(s, SweepOne(e, at))
    ensures Tidy(Do(s, SweepOne(e, at)))
  {
    SweepOneKeepsMirror(s, e, at);
    SweepOneKeepsLeases(s, e, at);
    SweepShrinks(s, e, at);
  }

  lemma FinishKeepsOutboxMirrored(s: Sys, r: RunId, result: ExecutionResult, at: Time)
    requires Tidy(s) && Timely(s, Finish(r, result, at))
    ensures OutboxMirrored(Do(s, Finish(r, result, at)).db) && SenderNamesItsEvent(Do(s, Finish(r, result, at)))
  {
    if r in s.inFlight {
      TimelyFinalizeOwnsItsEvent(s, r, result, at);
      var cmd := BuildFinalize(r, s.inFlight[r], result, at);
      if FinalizeKeysFree(s.db, cmd) {
        var e := cmd.eventId;
        var facts := FinalizedFacts(s.db, cmd);
        assert AfterFinalize(s.db, cmd).events == facts.events && AfterFinalize(s.db, cmd).outbox == facts.outbox;
        assert s.db.events[e].outboxId == None;
      }
    }
  }

  /** What a Finalize of the executor's own run does to runs and events. */
  lemma FinishedLives(s: Sys, r: RunId, result: ExecutionResult, at: Time)
    requires Tidy(s) && r in s.inFlight && Timely(s, Finish(r, result, at))
    ensures var after := Do(s, Finish(r, result, at));
            var e := s.inFlight[r].eventId;
            && after.inFlight == Without(s.inFlight, r) && after.sweep == s.sweep && after.now == s.now && e !in s.sweep
            && (forall q :: q in after.db.runs <==> q in s.db.runs)
            && (forall q :: q in s.db.runs && q != r ==> after.db.runs[q] == s.db.runs[q])
            && (forall o :: o in after.db.events <==> o in s.db.events)
            && (forall o :: o in s.db.events && o != e ==> after.db.events[o] == s.db.events[o])
  {
    TimelyFinalizeOwnsItsEvent(s, r, result, at);
  }

  lemma FinishKeepsExecutors(s: Sys, r: RunId, result: ExecutionResult, at: Time)
    requires Tidy(s) && Timely(s, Finish(r, result, at))
    ensures var after := Do(s, Finish(r, result, at)); LiveExecutorsOwnTheirRun(after) && SweepIsExpired(after)
  {
    if r in s.inFlight {
      FinishedLives(s, r, result, at);
    }
  }

  lemma FactsKeepStarted(db: Db, cmd: FinalizeCommand)
    requires RunsFit(db) && RunsFit(FinalizedFacts(db, cmd)) && StartedMeansProcessing(db)
    requires cmd.runStatus != RunStarted && cmd.eventStatus in {Processed, Suppressed, Failed}
    requires StartedOn(db, cmd.runId, cmd.eventId)
    ensures StartedMeansProcessing(FinalizedFacts(db, cmd))
  {
    var after := FinalizedFacts(db, cmd);
    assert forall q, o :: StartedOn(after, q, o) <==> StartedOn(db, q, o) && q != cmd.runId;
  }

  lemma FinishKeepsStarted(s: Sys, r: RunId, result: ExecutionResult, at: Time)
    requires Tidy(s) && Timely(s, Finish(r, result, at))
    ensures var after := Do(s, Finish(r, result, at)); Sound(after) && StartedMeansProcessing(after.db)
  {
    FinalizeSound(s, r, result, at);
    if r in s.inFlight {
      TimelyFinalizeOwnsItsEvent(s, r, result, at);
      var cmd := BuildFinalize(r, s.inFlight[r], result, at);
      FinalizedFactsSound(s.db, s.inFlight, cmd);
      FactsKeepStarted(s.db, cmd);
      if FinalizeKeysFree(s.db, cmd) {
        SameStarted(FinalizedFacts(s.db, cmd), AfterFinalize(s.db, cmd));
      }
    }
  }

  lemma SameStarted(a: Db, b: Db)
    requires b.runs == a.runs && b.events == a.events && RunsFit(a) && RunsFit(b) && StartedMeansProcessing(a)
    ensures StartedMeansProcessing(b)
  {
    assert forall q, o :: StartedOn(b, q, o) <==> StartedOn(a, q, o);
  }

  lemma PersistTidy(s: Sys, req: Request, at: Time)
    requires Tidy(s)
    ensures Tidy(Do(s, Persist(req, at)))
  {
    PersistSound(s.db, s.inFlight, req, at);
    var after := AfterPersist(s.db, req, at);
    assert forall q, o :: StartedOn(after, q, o) <==> StartedOn(s.db, q, o);
  }

  lemma MarkQueuedTidy(s: Sys, e: EventId, at: Time)
    requires Tidy(s)
    ensures Tidy(Do(s, MarkQueued(e, at)))
  {
    MarkQueuedSound(s.db, s.inFlight, e, at);
    var after := AfterMarkQueued(s.db, e, at);
    assert forall q, o :: StartedOn(after, q, o) <==> StartedOn(s.db, q, o);
  }

  /** Steps that leave status, run and lease of every event alone keep everything but the mirror. */
  lemma SameLivesKeepLeases(s: Sys, after: Sys)
    requires Tidy(s) && SameLives(s.db, after.db)
    requires s.now <= after.now
    requires forall r :: r in after.inFlight ==> r in s.inFlight && after.inFlight[r] == s.inFlight[r]
    requires after.sweep == s.sweep || after.sweep == []
    ensures Sound(after) && StartedMeansProcessing(after.db) && LiveExecutorsOwnTheirRun(after) && SweepIsExpired(after)
  {
    SameLivesStaySound(s.db, after.db, after.inFlight);
    assert forall q, o :: StartedOn(after.db, q, o) <==> StartedOn(s.db, q, o);
  }

  lemma RewrittenRowStaysMirrored(db: Db, o: OutboxId, row: OutboxRow, at: Time)
    requires OutboxMirrored(db) && o in db.outbox && row.eventId == db.outbox[o].eventId
    ensures OutboxMirrored(db.(outbox := db.outbox[o := row], events := MirrorStatus(db.events, row.eventId, row.status, at)))
  {
  }

  lemma RequeuedStaysMirrored(db: Db, cutoff: Time, at: Time)
    requires OutboxMirrored(db)
    ensures OutboxMirrored(AfterRecoverSending(db, cutoff, at))
  {
    var after := AfterRecoverSending(db, cutoff, at);
    forall e | e in db.events && db.events[e].outboxId.Some? && after != db
      ensures after.events[e].outboxStatus == Some(after.outbox[db.events[e].outboxId.value].status)
    {
      assert forall p :: p in db.outbox && db.outbox[p].eventId == e ==> Some(p) == db.events[e].outboxId;
    }
  }

  lemma DeliveryKeepsLeases(s: Sys, step: Step)
    requires Tidy(s)
    requires step.SendRecover? || step.SendClaim? || step.SendFailed? || step.SendDone? || step.SendDrop?
    ensures var after := Do(s, step);
            Sound(after) && StartedMeansProcessing(after.db) && LiveExecutorsOwnTheirRun(after) && SweepIsExpired(after)
  {
    HarmlessSteps(s, step);
    SameLivesKeepLeases(s, Do(s, step));
  }

  lemma RecoverSendingTidy(s: Sys, at: Time)
    requires Tidy(s)
    ensures Tidy(Do(s, SendRecover(at)))
  {
    DeliveryKeepsLeases(s, SendRecover(at));
    if s.sender.None? {
      RequeuedStaysMirrored(s.db, at - SENDING_LEASE, at);
    }
  }

  lemma DeliveryKeepsMirror(s: Sys, step: Step)
    requires OutboxMirrored(s.db) && SenderNamesItsEvent(s)
    requires step.SendClaim? || step.SendFailed? || step.SendDone? || step.SendDrop?
    ensures OutboxMirrored(Do(s, step).db) && SenderNamesItsEvent(Do(s, step))
  {
    var after := Do(s, step);
    if after.db != s.db {
      var o := if step.SendClaim? then step.o else s.sender.value.outboxId;
      RewrittenRowStaysMirrored(s.db, o, after.db.outbox[o], step.at);
    }
  }

  lemma DeliveryTidy(s: Sys, step: Step)
    requires Tidy(s)
    requires step.SendClaim? || step.SendFailed? || step.SendDone? || step.SendDrop?
    ensures Tidy(Do(s, step))
  {
    DeliveryKeepsLeases(s, step);
    DeliveryKeepsMirror(s, step);
  }

  lemma BookkeepingTidy(s: Sys, step: Step)
    requires Tidy(s) && Timely(s, step)
    requires step.Advance? || step.Abandon? || step.SweepRead? || step.SweepStop? || step.Crash?
    ensures Tidy(Do(s, step))
  {
    if !step.SweepRead? {
      SameLivesKeepLeases(s, Do(s, step));
    }
  }

  lemma DoTidy(s: Sys, step: Step)
    requires Tidy(s) && Timely(s, step)
    ensures Tidy(Do(s, step))
  {
    match step
    case Persist(req, at) => PersistTidy(s, req, at);
    case MarkQueued(e, at) => MarkQueuedTidy(s, e, at);
    case Claim(e, r, begun, at) => ClaimTidy(s, e, r, begun, at);
    case Finish(r, result, at) =>
      FinishKeepsStarted(s, r, result, at);
      FinishKeepsExecutors(s, r, result, at);
      FinishKeepsOutboxMirrored(s, r, result, at);
    case SweepOne(e, at) => SweepOneTidy(s, e, at);
    case SendRecover(at) => RecoverSendingTidy(s, at);
    case SendClaim(_, _) => DeliveryTidy(s, step);
    case SendFailed(_) => DeliveryTidy(s, step);
    case SendDone(_) => DeliveryTidy(s, step);
    case SendDrop => DeliveryTidy(s, step);
    case _ => BookkeepingTidy(s, step);
  }

  lemma {:induction false} TimelyRunTidy(policy: Policy, now: Time, steps: seq<Step>)
    requires TimelyRun(Initial(policy, now), steps)
    ensures Tidy(Run(Initial(policy, now), steps))
  {
    if steps != [] {
      TimelyRunTidy(policy, now, steps[..|steps| - 1]);
      DoTidy(Run(Initial(policy, now), steps[..|steps| - 1]), steps[|steps| - 1]);
    }
  }

  /** An event abandoned while processing is selected as soon as its lease is over, and taking it up fails its
      run and makes it wait again, claimable under any new run: no event stays stuck. */
  lemma AbandonedEventIsFreed(policy: Policy, now: Time, steps: seq<Step>, e: EventId, cutoff: Time, at: Time)
    requires TimelyRun(Initial(policy, now), steps)
    ensures var s := Run(Initial(policy, now), steps);
            e in s.db.events && s.db.events[e].status == Processing ==>
              var after := Do(s, SweepOne(e, at)).db;
              var r := s.db.events[e].runId;
              && r.Some? && r.value in s.db.runs && r.value in after.runs && e in after.events
              && (Expired(s.db, e, cutoff) <==> s.db.runs[r.value].startedAt <= cutoff)
              && after.runs[r.value].status == RunFailed && after.runs[r.value].finishedAt == at
              && after.events[e].status == Queued && after.events[e].processingStartedAt == None
              && Claimable(after, e)
  {
    TimelyRunTidy(policy, now, steps);
    var s := Run(Initial(policy, now), steps);
    RecoverSound(s.db, s.inFlight, e, at);
    if e in s.db.events && s.db.events[e].status == Processing {
      assert StartedOn(s.db, s.db.events[e].runId.value, e);
    }
  }

  // ----- What timely runs guarantee ---------------------------------------------------------------

  /** A run is started exactly while its event is processing under it. */
  lemma StartedIffProcessing(policy: Policy, now: Time, steps: seq<Step>, r: RunId)
    requires TimelyRun(Initial(policy, now), steps)
    ensures var db := Run(Initial(policy, now), steps).db;
            r in db.runs ==>
              && db.runs[r].eventId in db.events
              && (db.runs[r].status == RunStarted <==>
                    db.events[db.runs[r].eventId].status == Processing && db.events[db.runs[r].eventId].runId == Some(r))
  {
    TimelyRunTidy(policy, now, steps);
    var db := Run(Initial(policy, now), steps).db;
    if r in db.runs {
      assert StartedOn(db, r, db.runs[r].eventId) <==> db.runs[r].status == RunStarted;
    }
  }

  /** Each event has at most one outbox row, and the event's outbox columns name it and carry its status. */
  lemma OneMirroredOutboxRowPerEvent(policy: Policy, now: Time, steps: seq<Step>, e: EventId)
    requires TimelyRun(Initial(policy, now), steps)
    ensures var db := Run(Initial(policy, now), steps).db;
            && (forall o :: o in db.outbox && db.outbox[o].eventId == e <==> e in db.events && db.events[e].outboxId == Some(o))
            && (forall o :: o in db.outbox && db.outbox[o].eventId == e ==> db.events[e].outboxStatus == Some(db.outbox[o].status))
            && (e in db.events && db.events[e].outboxId == None ==> db.events[e].outboxStatus == None)
  {
    TimelyRunTidy(policy, now, steps);
  }

  lemma SettledRunUntouched(s: Sys, step: Step, r: RunId)
    requires Tidy(s) && Timely(s, step) && r in s.db.runs && s.db.runs[r].status != RunStarted
    ensures r in Do(s, step).db.runs && Do(s, step).db.runs[r] == s.db.runs[r]
  {
    if step.Finish? && step.r in s.inFlight {
      TimelyFinalizeOwnsItsEvent(s, step.r, step.result, step.at);
    }
  }

  /** Once a run is completed or failed its row never changes again: in particular no Finalize lands
      on a run that recovery has failed. */
  lemma {:induction false} SettledRunsAreFinal(policy: Policy, now: Time, first: seq<Step>, more: seq<Step>, r: RunId)
    requires TimelyRun(Initial(policy, now), first + more)
    requires r in Run(Initial(policy, now), first).db.runs
    requires Run(Initial(policy, now), first).db.runs[r].status != RunStarted
    ensures r in Run(Initial(policy, now), first + more).db.runs
    ensures Run(Initial(policy, now), first + more).db.runs[r] == Run(Initial(policy, now), first).db.runs[r]
  {
    if more == [] {
      assert first + more == first;
    } else {
      var butLast := more[..|more| - 1];
      RunOn(Initial(policy, now), first, more);
      assert (first + more)[..|first + more| - 1] == first + butLast;
      SettledRunsAreFinal(policy, now, first, butLast, r);
      TimelyRunTidy(policy, now, first + butLast);
      SettledRunUntouched(Run(Initial(policy, now), first + butLast), more[|more| - 1], r);
    }
  }

  // ----- Why the timing is needed -----------------------------------------------------------------

  /** With no timing at all, a Finalize keeps rows and events mirrored exactly when its event has no
      outbox row yet. */
  lemma FinalizeKeepsMirrorIffNoRowYet(s: Sys, r: RunId, result: ExecutionResult, at: Time)
    requires Sound(s) && OutboxMirrored(s.db) && r in s.inFlight
    requires FinalizeKeysFree(s.db, BuildFinalize(r, s.inFlight[r], result, at))
    ensures OutboxMirrored(Do(s, Finish(r, result, at)).db) <==> s.db.events[s.inFlight[r].eventId].outboxId == None
  {
    var cmd := BuildFinalize(r, s.inFlight[r], result, at);
    var e := cmd.eventId;
    var facts := FinalizedFacts(s.db, cmd);
    var after := AfterFinalize(s.db, cmd);
    assert after.events == facts.events && after.outbox == facts.outbox;
    if s.db.events[e].outboxId.Some? {
      var o := s.db.events[e].outboxId.value;
      assert o in after.outbox && after.outbox[o].eventId == e && after.events[e].outboxId != Some(o);
    }
  }

  ghost predicate TwoOutboxRows(db: Db, e: EventId) {
    exists o, p :: o != p && o in db.outbox && p in db.outbox && db.outbox[o].eventId == e && db.outbox[p].eventId == e
  }

  /** Every step but the one at index late is timely. */
  ghost predicate TimelyBut(s: Sys, steps: seq<Step>, late: nat) {
    steps != [] ==>
      var n := |steps| - 1;
      TimelyBut(s, steps[..n], late) && (n == late || Timely(Run(s, steps[..n]), steps[n]))
  }

  lemma {:induction false} OneMoreStep(s: Sys, steps: seq<Step>, step: Step, late: nat)
    requires TimelyBut(s, steps, late) && (|steps| == late || Timely(Run(s, steps), step))
    ensures TimelyBut(s, steps + [step], late) && Run(s, steps + [step]) == Do(Run(s, steps), step)
  {
    assert (steps + [step])[..|steps|] == steps;
  }

  const REPLY := ExecutionResult(false, false, "m", Tokens(1, 1, 2), [], Some("hi"))

  /** The moment the lease of a claim at time 2 is over, and with it the claim's context. */
  const OVER: Time := 2 + PROCESSING_LEASE

  /** A claim whose executor outlives its context, and the recovery that follows when the lease is over. */
  function LateStart(): seq<Step> {
    LateClaim() + [Advance(OVER)] + [SweepRead([1], OVER)] + [SweepOne(1, OVER)]
  }

  /** After the recovery a second executor claims the event, and both finish, the first one too late. */
  function LateFinish(): seq<Step> {
    LateStart() + [Claim(1, 11, OVER, OVER)] + [Finish(10, REPLY, OVER)] + [Advance(OVER + 1)] + [Finish(11, REPLY, OVER + 1)]
  }

  const LATE: nat := 7

  lemma ClaimedOnce(s: Sys)
    requires s.db.events.Keys == {1} && s.db.events[1].status == Received && s.db.runs == map[] && s.inFlight == map[]
    ensures var after := Do(s, Claim(1, 10, 2, 2));
            && after.db.outbox == s.db.outbox && after.inFlight == map[10 := Executor(1, s.db.events[1].sessionKey, OVER)]
            && after.db.events.Keys == {1} && after.db.events[1].status == Processing
            && after.db.events[1].processingStartedAt == Some(2)
            && after.db.runs.Keys == {10} && StartedOn(after.db, 10, 1)
            && after.sweep == s.sweep && after.now == s.now
  {
    assert Claimable(s.db, 1);
  }

  lemma RecoveredOnce(s: Sys)
    requires s.db.events.Keys == {1} && s.db.events[1].status == Processing && s.db.runs.Keys == {10} && StartedOn(s.db, 10, 1)
    requires s.sweep == [1] && s.sweepAt == OVER
    ensures Timely(s, SweepOne(1, OVER))
    ensures var after := Do(s, SweepOne(1, OVER));
            && after.db.outbox == s.db.outbox && after.inFlight == s.inFlight && after.now == s.now
            && Claimable(after.db, 1) && after.db.runs.Keys == {10}
  {
    var after := Do(s, SweepOne(1, OVER)).db;
    assert forall r :: !StartedOn(after, r, 1);
  }

  /** Persist, and claim at time 2. */
  function LateClaim(): seq<Step> {
    [Persist(Request("k", "h", "session"), 1)] + [Advance(2)] + [Claim(1, 10, 2, 2)]
  }

  lemma LateClaimIsTimely() returns (s: Sys)
    ensures s == Run(Initial(DEFAULT_POLICY, 0), LateClaim()) && TimelyBut(Initial(DEFAULT_POLICY, 0), LateClaim(), LATE)
    ensures s.db.outbox == map[] && s.inFlight.Keys == {10} && s.inFlight[10].eventId == 1 && s.inFlight[10].deadline == OVER
    ensures s.db.events.Keys == {1} && s.db.events[1].status == Processing && s.db.events[1].processingStartedAt == Some(2)
    ensures s.db.runs.Keys == {10} && StartedOn(s.db, 10, 1) && s.sweep == [] && s.now == 2
  {
    var s0, t := Initial(DEFAULT_POLICY, 0), [Persist(Request("k", "h", "session"), 1)];
    OneMoreStep(s0, [], t[0], LATE);
    assert [] + t == t;
    s := Do(s0, t[0]);
    assert s.db.events.Keys == {1} && s.db.events[1].status == Received;
    OneMoreStep(s0, t, Advance(2), LATE);
    t, s := t + [Advance(2)], Do(s, Advance(2));
    OneMoreStep(s0, t, Claim(1, 10, 2, 2), LATE);
    ClaimedOnce(s);
    s := Do(s, Claim(1, 10, 2, 2));
  }

  lemma LateStartIsTimely() returns (s: Sys)
    ensures s == Run(Initial(DEFAULT_POLICY, 0), LateStart()) && TimelyBut(Initial(DEFAULT_POLICY, 0), LateStart(), LATE)
    ensures s.db.outbox == map[] && 10 in s.inFlight && s.inFlight.Keys == {10}
    ensures s.inFlight[10].eventId == 1 && s.inFlight[10].deadline == OVER && s.now == OVER
    ensures Claimable(s.db, 1) && s.db.runs.Keys == {10}
  {
    var s0, t := Initial(DEFAULT_POLICY, 0), LateClaim();
    s := LateClaimIsTimely();
    OneMoreStep(s0, t, Advance(OVER), LATE);
    t, s := t + [Advance(OVER)], Do(s, Advance(OVER));
    assert forall e :: e in [1] <==> Expired(s.db, e, OVER - PROCESSING_LEASE);
    OneMoreStep(s0, t, SweepRead([1], OVER), LATE);
    t, s := t + [SweepRead([1], OVER)], Do(s, SweepRead([1], OVER));
    RecoveredOnce(s);
    OneMoreStep(s0, t, SweepOne(1, OVER), LATE);
    s := Do(s, SweepOne(1, OVER));
  }

  /** A successful Finalize with a reply inserts the outbox row named after its own time. */
  lemma ReplyIsPosted(s: Sys, r: RunId, result: ExecutionResult, at: Time)
    requires r in s.inFlight && at !in s.db.outbox
    requires !result.failed && !result.suppressed && result.messages == []
    requires result.delivery.Some? && !Blank(result.delivery.value)
    ensures var after := Do(s, Finish(r, result, at));
            after.inFlight == Without(s.inFlight, r)
            && after.db.outbox == s.db.outbox[at := OutboxRow(s.inFlight[r].eventId, result.delivery.value, Pending, at, None, 0)]
  {
    assert FinalizeKeysFree(s.db, BuildFinalize(r, s.inFlight[r], result, at));
  }

  /** One executor that commits behind its deadline, and nothing else out of order: recovery waited for the
      lease and took only what it had selected, and still the event ends with two outbox rows. */
  lemma LateFinalizerDuplicatesOutbox()
    ensures TimelyBut(Initial(DEFAULT_POLICY, 0), LateFinish(), LATE)
    ensures LateFinish()[LATE].Finish? && !Timely(Run(Initial(DEFAULT_POLICY, 0), LateFinish()[..LATE]), LateFinish()[LATE])
    ensures TwoOutboxRows(Run(Initial(DEFAULT_POLICY, 0), LateFinish()).db, 1)
  {
    var s0, t := Initial(DEFAULT_POLICY, 0), LateStart();
    var s := LateStartIsTimely();
    OneMoreStep(s0, t, Claim(1, 11, OVER, OVER), LATE);
    t, s := t + [Claim(1, 11, OVER, OVER)], Do(s, Claim(1, 11, OVER, OVER));
    assert |t| == LATE && t == LateFinish()[..LATE];
    assert s.inFlight.Keys == {10, 11} && s.inFlight[11].eventId == 1 && s.inFlight[11].deadline > OVER + 1;
    assert !IsSpace("hi"[0]);
    ReplyIsPosted(s, 10, REPLY, OVER);
    OneMoreStep(s0, t, Finish(10, REPLY, OVER), LATE);
    t, s := t + [Finish(10, REPLY, OVER)], Do(s, Finish(10, REPLY, OVER));
    OneMoreStep(s0, t, Advance(OVER + 1), LATE);
    t, s := t + [Advance(OVER + 1)], Do(s, Advance(OVER + 1));
    ReplyIsPosted(s, 11, REPLY, OVER + 1);
    OneMoreStep(s0, t, Finish(11, REPLY, OVER + 1), LATE);
    t, s := t + [Finish(11, REPLY, OVER + 1)], Do(s, Finish(11, REPLY, OVER + 1));
    assert t == LateFinish();
    assert s.db.outbox[OVER].eventId == 1 && s.db.outbox[OVER + 1].eventId == 1;
  }
}
