/** Idempotent ingest: keys and events are in bijection and every retry sees what the first request got. */
module Ingest {
  import opened Basics
  import opened Store
  import opened Retry
  import opened Protocol

  /** Keys and events name each other, and every event carries its session's active id. */
  ghost predicate KeysFit(db: Db) {
    && (forall k :: k in db.keys ==>
          var e := db.keys[k].eventId;
          e in db.events && db.events[e].idempotencyKey == k && db.events[e].payloadHash == db.keys[k].payloadHash
          && db.events[e].sessionKey == db.keys[k].sessionKey && db.events[e].sessionId == db.keys[k].sessionId)
    && (forall e :: e in db.events ==>
          db.events[e].idempotencyKey in db.keys && db.keys[db.events[e].idempotencyKey].eventId == e)
    && (forall e :: e in db.events ==>
          db.events[e].sessionKey in db.sessions
          && db.sessions[db.events[e].sessionKey].activeSessionId == db.events[e].sessionId)
  }

  /** What no step but Persist touches. */
  ghost predicate SameIdentities(a: Db, b: Db) {
    && b.keys == a.keys
    && b.events.Keys == a.events.Keys
    && (forall e :: e in a.events ==>
          b.events[e].idempotencyKey == a.events[e].idempotencyKey && b.events[e].payloadHash == a.events[e].payloadHash
          && b.events[e].sessionKey == a.events[e].sessionKey && b.events[e].sessionId == a.events[e].sessionId)
    && b.sessions.Keys == a.sessions.Keys
    && (forall k :: k in a.sessions ==> b.sessions[k].activeSessionId == a.sessions[k].activeSessionId)
  }

  lemma FinalizeKeepsIdentities(db: Db, cmd: FinalizeCommand)
    ensures SameIdentities(db, AfterFinalize(db, cmd))
  {
    if FinalizeKeysFree(db, cmd) {
      var facts := FinalizedFacts(db, cmd);
      assert SameIdentities(db, facts);
    }
  }

  lemma RecoverSendingKeepsIdentities(db: Db, cutoff: Time, at: Time)
    ensures SameIdentities(db, AfterRecoverSending(db, cutoff, at))
  {
  }

  lemma FailSendKeepsIdentities(db: Db, msg: ClaimedOutbox, dead: bool, next: Time, at: Time)
    ensures SameIdentities(db, AfterFailSend(db, msg, dead, next, at))
  {
  }

  lemma CompleteSendKeepsIdentities(db: Db, msg: ClaimedOutbox, at: Time)
    ensures SameIdentities(db, AfterCompleteSend(db, msg, at))
  {
  }

  lemma ClaimOutboxKeepsIdentities(db: Db, o: OutboxId, at: Time)
    requires o in db.outbox
    ensures SameIdentities(db, AfterClaimOutbox(db, o, at))
  {
  }

  lemma SendStepsKeepIdentities(s: Sys, step: Step)
    requires step.SendClaim? || step.SendFailed? || step.SendDone?
    ensures SameIdentities(s.db, Do(s, step).db)
  {
    match step
    case SendClaim(o, at) =>
      if s.sender.None? && NextToSend(s.db, o, at) {
        ClaimOutboxKeepsIdentities(s.db, o, at);
      }
    case SendFailed(at) =>
      if s.sender.Some? {
        var d := Decide(s.policy, s.sender.value.attemptCount, at);
        FailSendKeepsIdentities(s.db, s.sender.value, d.dead, d.nextAttemptAt, at);
      }
    case SendDone(at) =>
      if s.sender.Some? {
        CompleteSendKeepsIdentities(s.db, s.sender.value, at);
      }
  }

  lemma RunStepsKeepIdentities(s: Sys, step: Step)
    requires step.MarkQueued? || step.Claim? || step.SweepOne?
    ensures SameIdentities(s.db, Do(s, step).db)
  {
  }

  lemma OtherStepsKeepIdentities(s: Sys, step: Step)
    requires !step.Persist?
    ensures SameIdentities(s.db, Do(s, step).db)
  {
    match step
    case Finish(r, result, at) =>
      if r in s.inFlight {
        FinalizeKeepsIdentities(s.db, BuildFinalize(r, s.inFlight[r], result, at));
      }
    case SendRecover(at) => RecoverSendingKeepsIdentities(s.db, at - SENDING_LEASE, at);
    case SendClaim(_, _) | SendFailed(_) | SendDone(_) => SendStepsKeepIdentities(s, step);
    case MarkQueued(_, _) | Claim(_, _, _, _) | SweepOne(_, _) => RunStepsKeepIdentities(s, step);
    case _ =>
  }

  lemma SameIdentitiesFit(a: Db, b: Db)
    requires KeysFit(a) && SameIdentities(a, b)
    ensures KeysFit(b)
  {
  }

  lemma PersistFits(db: Db, req: Request, at: Time)
    requires KeysFit(db)
    ensures KeysFit(AfterPersist(db, req, at))
  {
  }

  lemma StepFits(s: Sys, step: Step)
    requires KeysFit(s.db)
    ensures KeysFit(Do(s, step).db)
  {
    if step.Persist? {
      PersistFits(s.db, step.req, step.at);
    } else {
      OtherStepsKeepIdentities(s, step);
      SameIdentitiesFit(s.db, Do(s, step).db);
    }
  }

  /** In every reachable state the key rows and the events are in bijection. */
  lemma {:induction false} KeysAndEventsBijection(policy: Policy, now: Time, steps: seq<Step>)
    ensures KeysFit(Run(Initial(policy, now), steps).db)
  {
    if steps != [] {
      KeysAndEventsBijection(policy, now, steps[..|steps| - 1]);
      StepFits(Run(Initial(policy, now), steps[..|steps| - 1]), steps[|steps| - 1]);
    }
  }

  /** Key rows are never rewritten and the active session id of a session key never changes. */
  ghost predicate Extends(a: Db, b: Db) {
    && (forall k :: k in a.keys ==> k in b.keys && b.keys[k] == a.keys[k])
    && (forall key :: key in a.sessions ==> key in b.sessions && b.sessions[key].activeSessionId == a.sessions[key].activeSessionId)
    && (forall e :: e in a.events ==> e in b.events)
  }

  lemma StepExtends(s: Sys, step: Step)
    ensures Extends(s.db, Do(s, step).db)
  {
    if !step.Persist? {
      OtherStepsKeepIdentities(s, step);
    }
  }

  lemma {:induction false} KeysAreWriteOnce(s: Sys, steps: seq<Step>)
    ensures Extends(s.db, Run(s, steps).db)
  {
    if steps != [] {
      KeysAreWriteOnce(s, steps[..|steps| - 1]);
      StepExtends(Run(s, steps[..|steps| - 1]), steps[|steps| - 1]);
    }
  }

  /** A request that was persisted once answers every later retry with the same key: with the same hash
      the first event, session and time, marked duplicate; with another hash a conflict. Neither writes. */
  lemma RetryIsIdempotent(s: Sys, req: Request, at: Time, steps: seq<Step>, retry: Request, later: Time)
    requires PersistOutcomeOf(s.db, req, at).Persisted? && retry.idempotencyKey == req.idempotencyKey
    ensures var end := Run(Do(s, Persist(req, at)), steps).db;
            var first := PersistOutcomeOf(s.db, req, at).result;
            && AfterPersist(end, retry, later) == end
            && PersistOutcomeOf(end, retry, later)
                 == if retry.payloadHash == req.payloadHash then Persisted(first.(duplicate := true)) else Conflict
  {
    var next := Do(s, Persist(req, at));
    var first := PersistOutcomeOf(s.db, req, at).result;
    assert next.db.keys[req.idempotencyKey] ==
           KeyRow(first.eventId, req.payloadHash, first.sessionKey, first.sessionId, first.receivedAt);
    KeysAreWriteOnce(next, steps);
  }

  /** A fresh key with a free timestamp is always accepted, and only then is an event created. */
  lemma FreshRequestsCreateEvents(policy: Policy, now: Time, steps: seq<Step>, req: Request, at: Time)
    ensures var db := Run(Initial(policy, now), steps).db;
            && (PersistOutcomeOf(db, req, at).RolledBack? <==> req.idempotencyKey !in db.keys && at in db.events)
            && (AfterPersist(db, req, at).events.Keys != db.events.Keys <==> req.idempotencyKey !in db.keys && at !in db.events)
  {
    KeysAndEventsBijection(policy, now, steps);
    var db := Run(Initial(policy, now), steps).db;
    assert at !in db.events && req.idempotencyKey !in db.keys ==> at in AfterPersist(db, req, at).events.Keys;
  }
}
