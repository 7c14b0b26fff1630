/** What the one Finalize of an execution leaves behind, told from the result of the execution alone. */
module Settle {
  import opened Basics
  import opened Store
  import opened Retry
  import opened Protocol
  import opened Projection

  /** Only a result that neither failed nor was suppressed, and has something to say, is sent. */
  predicate Sends(result: ExecutionResult) {
    !result.failed && !result.suppressed && result.delivery.Some? && !Blank(result.delivery.value)
  }

  /** The transaction can commit: every message id is new, and so is the outbox id if a row is written. */
  predicate CanCommit(db: Db, result: ExecutionResult, at: Time) {
    && (forall i :: 0 <= i < |result.messages| ==> result.messages[i].id !in db.messages)
    && (forall i, j :: 0 <= i < j < |result.messages| ==> result.messages[i].id != result.messages[j].id)
    && (Sends(result) ==> at !in db.outbox)
  }

  ghost predicate RunSettled(a: Db, b: Db, r: RunId, result: ExecutionResult, at: Time) {
    && b.runs.Keys == a.runs.Keys && r in a.runs
    && (forall q :: q in a.runs && q != r ==> b.runs[q] == a.runs[q])
    && b.runs[r].status == (if result.failed then RunFailed else RunCompleted)
    && b.runs[r].model == result.model && b.runs[r].tokens == result.tokens && b.runs[r].finishedAt == at
    && b.runs[r].eventId == a.runs[r].eventId && b.runs[r].sessionKey == a.runs[r].sessionKey
    && b.runs[r].startedAt == a.runs[r].startedAt
  }

  ghost predicate EventSettled(a: Db, b: Db, r: RunId, e: EventId, result: ExecutionResult, at: Time) {
    && b.events.Keys == a.events.Keys && e in a.events
    && (forall o :: o in a.events && o != e ==> b.events[o] == a.events[o])
    && b.events[e].status == (if result.failed then Failed else if result.suppressed then Suppressed else Processed)
    && b.events[e].runId == Some(r) && b.events[e].processingStartedAt == None && b.events[e].updatedAt == at
    && b.events[e].outboxId == (if Sends(result) then Some(at) else None)
    && b.events[e].outboxStatus == (if Sends(result) then Some(Pending) else None)
    && b.events[e].sessionKey == a.events[e].sessionKey && b.events[e].idempotencyKey == a.events[e].idempotencyKey
  }

  ghost predicate OutboxSettled(a: Db, b: Db, e: EventId, result: ExecutionResult, at: Time) {
    b.outbox == if Sends(result) then a.outbox[at := OutboxRow(e, result.delivery.value, Pending, at, None, 0)]
                else a.outbox
  }

  /** The result's messages are stored under the run and its session, in addition to the earlier ones. */
  ghost predicate MessagesSettled(a: Db, b: Db, r: RunId, key: SessionKey, result: ExecutionResult) {
    && (forall m :: m in b.messages <==> m in a.messages || exists i :: 0 <= i < |result.messages| && result.messages[i].id == m)
    && (forall m :: m in a.messages ==> b.messages[m] == a.messages[m])
    && forall i :: 0 <= i < |result.messages| ==>
         result.messages[i].id in b.messages
         && b.messages[result.messages[i].id] == MessageRow(key, r, result.messages[i].role, result.messages[i].visible)
  }

  ghost predicate Settled(a: Db, b: Db, r: RunId, x: Executor, result: ExecutionResult, at: Time) {
    && RunSettled(a, b, r, result, at)
    && EventSettled(a, b, r, x.eventId, result, at)
    && OutboxSettled(a, b, x.eventId, result, at)
    && MessagesSettled(a, b, r, x.sessionKey, result)
    && b.keys == a.keys
  }

  lemma {:induction false} StoredMessages(db: Db, cmd: FinalizeCommand, n: nat, i: nat)
    requires i < n <= |cmd.messages| && FinalizeKeysFree(db, cmd)
    ensures var m := cmd.messages[i];
            var after := WithMessages(db.messages, cmd, n);
            m.id in after && after[m.id] == MessageRow(cmd.sessionKey, cmd.runId, m.role, m.visible)
  {
    if i < n - 1 {
      StoredMessages(db, cmd, n - 1, i);
    }
  }

  lemma {:induction false} OnlyTheseStored(db: Db, cmd: FinalizeCommand, n: nat, m: MessageId)
    requires n <= |cmd.messages|
    ensures m in WithMessages(db.messages, cmd, n) ==> m in db.messages || exists i :: 0 <= i < n && cmd.messages[i].id == m
  {
    if n > 0 {
      OnlyTheseStored(db, cmd, n - 1, m);
    }
  }

  lemma FinalizeStores(db: Db, cmd: FinalizeCommand, r: RunId, key: SessionKey, result: ExecutionResult)
    requires FinalizeKeysFree(db, cmd) && cmd.messages == result.messages && cmd.runId == r && cmd.sessionKey == key
    ensures MessagesSettled(db, AfterFinalize(db, cmd), r, key, result)
  {
    var n := |cmd.messages|;
    var after := AfterFinalize(db, cmd).messages;
    assert after == WithMessages(db.messages, cmd, n);
    InsertedMessages(db, cmd, n);
    forall i | 0 <= i < n
      ensures result.messages[i].id in after
      ensures after[result.messages[i].id] == MessageRow(key, r, result.messages[i].role, result.messages[i].visible)
    {
      StoredMessages(db, cmd, n, i);
    }
    forall m | m in after && m !in db.messages ensures exists i :: 0 <= i < n && result.messages[i].id == m {
      OnlyTheseStored(db, cmd, n, m);
    }
  }

  /** A commit of this executor's Finalize settles run, event, outbox row and messages as the result says,
      and it is refused exactly when an id is taken. */
  lemma FinalizeSettles(db: Db, r: RunId, x: Executor, result: ExecutionResult, at: Time)
    requires r in db.runs && x.eventId in db.events
    ensures var cmd := BuildFinalize(r, x, result, at);
            && (FinalizeKeysFree(db, cmd) <==> CanCommit(db, result, at))
            && if CanCommit(db, result, at) then Settled(db, AfterFinalize(db, cmd), r, x, result, at)
               else AfterFinalize(db, cmd) == db
  {
    var cmd := BuildFinalize(r, x, result, at);
    if CanCommit(db, result, at) {
      FinalizeStores(db, cmd, r, x.sessionKey, result);
      var facts := FinalizedFacts(db, cmd);
      assert AfterFinalize(db, cmd) == facts.(sessions := Reprojected(facts, cmd.sessionKey, cmd.now));
    }
  }

  /** Over every run, late finalizers included: the Finalize of an execution in flight either changes nothing,
      because an id is taken, or leaves exactly what the execution's result calls for. */
  lemma FinishSettles(policy: Policy, now: Time, steps: seq<Step>, r: RunId, result: ExecutionResult, at: Time)
    ensures var s := Run(Initial(policy, now), steps);
            r in s.inFlight ==>
              var after := Do(s, Finish(r, result, at));
              && r !in after.inFlight
              && if CanCommit(s.db, result, at) then Settled(s.db, after.db, r, s.inFlight[r], result, at)
                 else after.db == s.db
  {
    RunSound(policy, now, steps);
    var s := Run(Initial(policy, now), steps);
    if r in s.inFlight {
      FinalizeSettles(s.db, r, s.inFlight[r], result, at);
    }
  }
}
