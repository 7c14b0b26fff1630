/** The sessions table is a cache: every row equals the aggregate of the messages and completed runs
    of its key, after every step of every run. */
module Projection {
  import opened Basics
  import opened Store
  import opened Retry
  import opened Protocol

  ghost predicate Covered(s: Sys) {
    && (forall e :: e in s.db.events ==> s.db.events[e].sessionKey in s.db.sessions)
    && (forall r :: r in s.db.runs ==> s.db.runs[r].sessionKey in s.db.sessions)
    && (forall m :: m in s.db.messages ==> s.db.messages[m].sessionKey in s.db.sessions)
    && (forall r :: r in s.inFlight && r in s.db.runs ==> s.db.runs[r].status != RunCompleted)
  }

  ghost predicate Projected(s: Sys) {
    && Sound(s)
    && Covered(s)
    && forall key :: key in s.db.sessions ==> Agrees(s.db, key)
  }

  // ----- The sum over completed runs ------------------------------------------------------------

  lemma {:induction false} SumWithout(runs: map<RunId, RunRow>, r: RunId, c: TokenColumn)
    requires r in runs
    ensures SumOf(runs, c) == Column(runs[r].tokens, c) + SumOf(Without(runs, r), c)
    decreases |runs|
  {
    assert runs.Keys != {};
    var q := Pick(runs.Keys);
    assert Without(runs, q).Keys == runs.Keys - {q};
    if q != r {
      SumWithout(Without(runs, q), r, c);
      assert Without(runs, r).Keys == runs.Keys - {r};
      SumWithout(Without(runs, r), q, c);
      assert Without(Without(runs, q), r) == Without(Without(runs, r), q);
    }
  }

  /** Each total grows by that column of the run taken in, in whatever order the runs come. */
  lemma TotalsWithout(runs: map<RunId, RunRow>, r: RunId)
    requires r in runs
    ensures var all, rest := SumTokens(runs), SumTokens(Without(runs, r));
            && all.prompt == rest.prompt + runs[r].tokens.prompt
            && all.completion == rest.completion + runs[r].tokens.completion
            && all.total == rest.total + runs[r].tokens.total
  {
    SumWithout(runs, r, PromptTokens);
    SumWithout(runs, r, CompletionTokens);
    SumWithout(runs, r, TotalTokens);
  }

  // ----- The message count ----------------------------------------------------------------------

  /** How many of the first n messages of a command the projection counts. */
  function CountedIn(cmd: FinalizeCommand, n: nat): nat
    requires n <= |cmd.messages|
  {
    if n == 0 then 0
    else CountedIn(cmd, n - 1) + if cmd.messages[n - 1].visible && cmd.messages[n - 1].role != OtherRole then 1 else 0
  }

  /** The messages after n inserts: the old ones unchanged and the n new ones under the command's key. */
  lemma {:induction false} InsertedMessages(db: Db, cmd: FinalizeCommand, n: nat)
    requires n <= |cmd.messages| && FinalizeKeysFree(db, cmd)
    ensures var after := WithMessages(db.messages, cmd, n);
            && (forall m :: m in db.messages ==> m in after && after[m] == db.messages[m])
            && (forall m :: m in after && m !in db.messages ==> after[m].sessionKey == cmd.sessionKey)
            && (forall i :: n <= i < |cmd.messages| ==> cmd.messages[i].id !in after)
  {
    if n > 0 {
      InsertedMessages(db, cmd, n - 1);
    }
  }

  lemma {:induction false} InsertedMessagesCount(db: Db, cmd: FinalizeCommand, n: nat)
    requires n <= |cmd.messages| && FinalizeKeysFree(db, cmd)
    ensures |CountedMessages(WithMessages(db.messages, cmd, n), cmd.sessionKey)|
              == |CountedMessages(db.messages, cmd.sessionKey)| + CountedIn(cmd, n)
  {
    if n > 0 {
      InsertedMessagesCount(db, cmd, n - 1);
      InsertedMessages(db, cmd, n - 1);
      var before := CountedMessages(WithMessages(db.messages, cmd, n - 1), cmd.sessionKey);
      var after := CountedMessages(WithMessages(db.messages, cmd, n), cmd.sessionKey);
      var m := cmd.messages[n - 1];
      assert m.id !in before;
      assert after == if m.visible && m.role != OtherRole then before + {m.id} else before;
    }
  }

  lemma OtherKeysUntouched(db: Db, cmd: FinalizeCommand, key: SessionKey)
    requires FinalizeKeysFree(db, cmd) && key != cmd.sessionKey
    requires cmd.runId in db.runs && db.runs[cmd.runId].sessionKey == cmd.sessionKey
    ensures CountedMessages(FinalizedFacts(db, cmd).messages, key) == CountedMessages(db.messages, key)
    ensures CompletedRuns(FinalizedFacts(db, cmd).runs, key) == CompletedRuns(db.runs, key)
  {
    InsertedMessages(db, cmd, |cmd.messages|);
    var after := WithMessages(db.messages, cmd, |cmd.messages|);
    assert forall m :: m in CountedMessages(after, key) <==> m in CountedMessages(db.messages, key);
  }

  // ----- Steps keep the projection --------------------------------------------------------------

  lemma SameFactsAgree(a: Db, b: Db, key: SessionKey)
    requires Agrees(a, key)
    requires key in b.sessions && b.sessions[key] == a.sessions[key]
    requires CountedMessages(b.messages, key) == CountedMessages(a.messages, key)
    requires CompletedRuns(b.runs, key) == CompletedRuns(a.runs, key)
    ensures Agrees(b, key)
  {
  }

  lemma ReprojectedAgrees(db: Db, key: SessionKey, now: Time)
    requires key in db.sessions
    ensures Agrees(db.(sessions := Reprojected(db, key, now)), key)
  {
  }

  lemma PersistAgrees(s: Sys, req: Request, at: Time, key: SessionKey)
    requires Projected(s) && key in AfterPersist(s.db, req, at).sessions
    ensures Agrees(AfterPersist(s.db, req, at), key)
  {
    var after := AfterPersist(s.db, req, at);
    if key in s.db.sessions {
      SameFactsAgree(s.db, after, key);
    } else {
      assert after.messages == s.db.messages && after.runs == s.db.runs;
      assert forall m :: m in s.db.messages ==> s.db.messages[m].sessionKey in s.db.sessions;
      assert CountedMessages(after.messages, key) == {};
      assert forall r :: r in s.db.runs ==> s.db.runs[r].sessionKey in s.db.sessions;
      assert CompletedRuns(after.runs, key).Keys == {};
    }
  }

  lemma OtherKeyAgrees(db: Db, cmd: FinalizeCommand, key: SessionKey)
    requires FinalizeKeysFree(db, cmd) && key != cmd.sessionKey && key in db.sessions && Agrees(db, key)
    requires cmd.runId in db.runs && db.runs[cmd.runId].sessionKey == cmd.sessionKey
    ensures Agrees(AfterFinalize(db, cmd), key)
  {
    OtherKeysUntouched(db, cmd, key);
    assert AfterFinalize(db, cmd).sessions[key] == db.sessions[key];
    SameFactsAgree(db, AfterFinalize(db, cmd), key);
  }

  lemma FinalizeAgrees(s: Sys, cmd: FinalizeCommand, key: SessionKey)
    requires Projected(s) && FinalizeKeysFree(s.db, cmd)
    requires cmd.runId in s.db.runs && s.db.runs[cmd.runId].sessionKey == cmd.sessionKey
    requires key in AfterFinalize(s.db, cmd).sessions
    ensures Agrees(AfterFinalize(s.db, cmd), key)
  {
    if key == cmd.sessionKey {
      ReprojectedAgrees(FinalizedFacts(s.db, cmd), key, cmd.now);
    } else {
      OtherKeyAgrees(s.db, cmd, key);
    }
  }

  /** Sessions and messages are the same, and events and runs keep their keys; no run completes. */
  ghost predicate SameFacts(a: Db, b: Db) {
    && b.sessions == a.sessions && b.messages == a.messages
    && (forall e :: e in b.events ==> e in a.events && b.events[e].sessionKey == a.events[e].sessionKey)
    && (forall r :: r in b.runs ==>
          if r in a.runs
          then b.runs[r] == a.runs[r] || (b.runs[r].sessionKey == a.runs[r].sessionKey
                                          && b.runs[r].status != RunCompleted && a.runs[r].status != RunCompleted)
          else b.runs[r].sessionKey in a.sessions && b.runs[r].status != RunCompleted)
    && (forall r :: r in a.runs ==> r in b.runs)
  }

  lemma DeliveryKeepsFacts(s: Sys, step: Step)
    requires step.SendClaim? || step.SendFailed? || step.SendDone?
    ensures SameFacts(s.db, Do(s, step).db)
  {
  }

  lemma RequeueKeepsFacts(s: Sys, step: Step)
    requires step.SendRecover?
    ensures SameFacts(s.db, Do(s, step).db)
  {
  }

  lemma ClaimKeepsFacts(s: Sys, step: Step)
    requires Sound(s) && Covered(s) && step.Claim?
    ensures SameFacts(s.db, Do(s, step).db)
    ensures forall r :: r in Do(s, step).inFlight ==> r in s.inFlight || step.r == r
  {
  }

  /** Claims and recoveries touch no completed run, the other steps no run at all. */
  lemma OtherStepsKeepFacts(s: Sys, step: Step)
    requires Sound(s) && Covered(s) && !step.Persist? && !step.Finish?
    ensures SameFacts(s.db, Do(s, step).db)
    ensures forall r :: r in Do(s, step).inFlight ==> r in s.inFlight || (step.Claim? && step.r == r)
  {
    match step
    case Claim(_, _, _, _) => ClaimKeepsFacts(s, step);
    case SendRecover(_) => RequeueKeepsFacts(s, step);
    case SendClaim(_, _) | SendFailed(_) | SendDone(_) => DeliveryKeepsFacts(s, step);
    case _ =>
  }

  lemma SameFactsCovered(a: Sys, b: Sys)
    requires Sound(b) && Covered(a) && SameFacts(a.db, b.db)
    requires forall r :: r in b.inFlight && r !in a.inFlight ==> r !in a.db.runs
    ensures Covered(b)
  {
  }

  lemma SameFactsAggregate(a: Db, b: Db, key: SessionKey)
    requires SameFacts(a, b)
    ensures CompletedRuns(b.runs, key) == CompletedRuns(a.runs, key)
  {
    var before, after := CompletedRuns(a.runs, key), CompletedRuns(b.runs, key);
    assert forall r :: r in after <==> r in before;
    assert forall r :: r in after ==> after[r] == before[r];
    assert after == before;
  }

  lemma FinishCovered(s: Sys, r: RunId, result: ExecutionResult, at: Time)
    requires Sound(s) && Covered(s)
    ensures Covered(Do(s, Finish(r, result, at)))
  {
    if r in s.inFlight {
      var cmd := BuildFinalize(r, s.inFlight[r], result, at);
      if FinalizeKeysFree(s.db, cmd) {
        var facts := FinalizedFacts(s.db, cmd);
        var after := AfterFinalize(s.db, cmd);
        assert after.messages == facts.messages && after.runs == facts.runs && after.events == facts.events;
        InsertedMessages(s.db, cmd, |cmd.messages|);
      }
    }
  }

  lemma PersistCovered(s: Sys, req: Request, at: Time)
    requires Sound(s) && Covered(s)
    ensures Covered(Do(s, Persist(req, at)))
  {
  }

  lemma PersistProjected(s: Sys, req: Request, at: Time)
    requires Projected(s)
    ensures Projected(Do(s, Persist(req, at)))
  {
    PersistSound(s.db, s.inFlight, req, at);
    PersistCovered(s, req, at);
    forall key | key in AfterPersist(s.db, req, at).sessions ensures Agrees(AfterPersist(s.db, req, at), key) {
      PersistAgrees(s, req, at, key);
    }
  }

  lemma FinishProjected(s: Sys, r: RunId, result: ExecutionResult, at: Time)
    requires Projected(s)
    ensures Projected(Do(s, Finish(r, result, at)))
  {
    FinalizeSound(s, r, result, at);
    FinishCovered(s, r, result, at);
    if r in s.inFlight && FinalizeKeysFree(s.db, BuildFinalize(r, s.inFlight[r], result, at)) {
      var cmd := BuildFinalize(r, s.inFlight[r], result, at);
      forall key | key in AfterFinalize(s.db, cmd).sessions ensures Agrees(AfterFinalize(s.db, cmd), key) {
        FinalizeAgrees(s, cmd, key);
      }
    }
  }

  lemma OtherStepsProjected(s: Sys, step: Step)
    requires Projected(s) && !step.Persist? && !step.Finish?
    ensures Projected(Do(s, step))
  {
    DoSound(s, step);
    OtherStepsKeepFacts(s, step);
    var after := Do(s, step);
    assert step.Claim? && step.r in after.inFlight && step.r !in s.inFlight ==> step.r !in s.db.runs;
    SameFactsCovered(s, after);
    forall key | key in after.db.sessions ensures Agrees(after.db, key) {
      SameFactsAggregate(s.db, after.db, key);
      SameFactsAgree(s.db, after.db, key);
    }
  }

  lemma StepProjected(s: Sys, step: Step)
    requires Projected(s)
    ensures Projected(Do(s, step))
  {
    if step.Persist? {
      PersistProjected(s, step.req, step.at);
    } else if step.Finish? {
      FinishProjected(s, step.r, step.result, step.at);
    } else {
      OtherStepsProjected(s, step);
    }
  }

  /** After every step of every run, late finalizers included, every session row equals the aggregate
      of the facts for its key. */
  lemma {:induction false} SessionsAgree(policy: Policy, now: Time, steps: seq<Step>)
    ensures Projected(Run(Initial(policy, now), steps))
  {
    if steps != [] {
      var butLast := steps[..|steps| - 1];
      SessionsAgree(policy, now, butLast);
      StepProjected(Run(Initial(policy, now), butLast), steps[|steps| - 1]);
    }
  }

  /** Each token total of after is the one of before plus that of more. */
  predicate TotalsGrow(before: Tokens, after: Tokens, more: Tokens) {
    && after.prompt == before.prompt + more.prompt
    && after.completion == before.completion + more.completion
    && after.total == before.total + more.total
  }

  lemma CompletedRunAdded(db: Db, cmd: FinalizeCommand)
    requires cmd.runId in db.runs && db.runs[cmd.runId].sessionKey == cmd.sessionKey
    requires db.runs[cmd.runId].status != RunCompleted
    ensures var before := SumTokens(CompletedRuns(db.runs, cmd.sessionKey));
            var after := SumTokens(CompletedRuns(FinalizedFacts(db, cmd).runs, cmd.sessionKey));
            TotalsGrow(before, after, if cmd.runStatus == RunCompleted then cmd.tokens else Tokens(0, 0, 0))
  {
    var earlier := CompletedRuns(db.runs, cmd.sessionKey);
    var later := CompletedRuns(FinalizedFacts(db, cmd).runs, cmd.sessionKey);
    if cmd.runStatus == RunCompleted {
      assert Without(later, cmd.runId) == earlier;
      TotalsWithout(later, cmd.runId);
    } else {
      assert later == earlier;
    }
  }

  /** after has the session's counts of before plus the command's visible messages, and its tokens when the
      run completed. */
  ghost predicate AddsItsRun(before: map<SessionKey, SessionRow>, after: map<SessionKey, SessionRow>,
      cmd: FinalizeCommand) {
    && cmd.sessionKey in before && cmd.sessionKey in after
    && after[cmd.sessionKey].messageCount == before[cmd.sessionKey].messageCount + CountedIn(cmd, |cmd.messages|)
    && TotalsGrow(before[cmd.sessionKey].tokens, after[cmd.sessionKey].tokens,
                  if cmd.runStatus == RunCompleted then cmd.tokens else Tokens(0, 0, 0))
  }

  lemma CommandAddsItsRun(db: Db, cmd: FinalizeCommand, after: Db)
    requires cmd.sessionKey in db.sessions && Agrees(db, cmd.sessionKey) && FinalizeKeysFree(db, cmd)
    requires cmd.runId in db.runs && db.runs[cmd.runId].sessionKey == cmd.sessionKey && db.runs[cmd.runId].status != RunCompleted
    requires after == AfterFinalize(db, cmd)
    ensures AddsItsRun(db.sessions, after.sessions, cmd)
  {
    ReprojectedAgrees(FinalizedFacts(db, cmd), cmd.sessionKey, cmd.now);
    InsertedMessagesCount(db, cmd, |cmd.messages|);
    CompletedRunAdded(db, cmd);
  }

  lemma InFlightRunIsReady(s: Sys, r: RunId, result: ExecutionResult, at: Time)
    requires Projected(s) && r in s.inFlight
    ensures var cmd := BuildFinalize(r, s.inFlight[r], result, at);
            && cmd.sessionKey in s.db.sessions && Agrees(s.db, cmd.sessionKey)
            && cmd.runId in s.db.runs && s.db.runs[cmd.runId].sessionKey == cmd.sessionKey
            && s.db.runs[cmd.runId].status != RunCompleted
  {
    assert s.db.runs[r].sessionKey in s.db.sessions;
  }

  /** Conservation: a Finalize adds its visible messages to the session's count, and its tokens to the
      session's totals exactly when the run completed, even when recovery had failed the run before. */
  lemma FinalizeAddsItsRun(s: Sys, r: RunId, result: ExecutionResult, at: Time)
    requires Projected(s) && r in s.inFlight
    requires FinalizeKeysFree(s.db, BuildFinalize(r, s.inFlight[r], result, at))
    ensures AddsItsRun(s.db.sessions, Do(s, Finish(r, result, at)).db.sessions, BuildFinalize(r, s.inFlight[r], result, at))
  {
    InFlightRunIsReady(s, r, result, at);
    CommandAddsItsRun(s.db, BuildFinalize(r, s.inFlight[r], result, at), Do(s, Finish(r, result, at)).db);
  }
}
