/** Outbox delivery by one worker, with crashes and failed writes at any point. */
module Outbox {
  import opened Basics
  import opened Store
  import opened Retry
  import opened Protocol

  ghost predicate AttemptsBounded(s: Sys) {
    var limit := Effective(s.policy).maxAttempts;
    && (forall o :: o in s.db.outbox ==>
          s.db.outbox[o].attemptCount <= limit + 1
          && (s.db.outbox[o].attemptCount == limit + 1 <==> s.db.outbox[o].status == Dead))
    && (s.sender.Some? ==>
          var msg := s.sender.value;
          msg.outboxId in s.db.outbox && s.db.outbox[msg.outboxId].status == Sending
          && s.db.outbox[msg.outboxId].attemptCount == msg.attemptCount
          && s.db.outbox[msg.outboxId].eventId == msg.eventId)
  }

  lemma FinishBounded(s: Sys, r: RunId, result: ExecutionResult, at: Time)
    requires AttemptsBounded(s)
    ensures AttemptsBounded(Do(s, Finish(r, result, at)))
  {
    if r in s.inFlight {
      var cmd := BuildFinalize(r, s.inFlight[r], result, at);
      if FinalizeKeysFree(s.db, cmd) {
        assert AfterFinalize(s.db, cmd).outbox == FinalizedFacts(s.db, cmd).outbox;
      }
    }
  }

  lemma StepBounded(s: Sys, step: Step)
    requires AttemptsBounded(s)
    ensures AttemptsBounded(Do(s, step))
  {
    if step.Finish? {
      FinishBounded(s, step.r, step.result, step.at);
    }
  }

  /** No row is tried more than once after the limit, and a row is dead exactly when it was. */
  lemma {:induction false} AttemptsStayBounded(policy: Policy, now: Time, steps: seq<Step>)
    ensures AttemptsBounded(Run(Initial(policy, now), steps))
    ensures Run(Initial(policy, now), steps).policy == policy
  {
    if steps != [] {
      AttemptsStayBounded(policy, now, steps[..|steps| - 1]);
      StepBounded(Run(Initial(policy, now), steps[..|steps| - 1]), steps[|steps| - 1]);
    }
  }

  /** A row carries a lock exactly while it is sending. */
  ghost predicate LockedIffSending(db: Db) {
    forall o :: o in db.outbox ==> (db.outbox[o].status == Sending <==> db.outbox[o].lockedAt.Some?)
  }

  lemma StepKeepsLocks(s: Sys, step: Step)
    requires LockedIffSending(s.db)
    ensures LockedIffSending(Do(s, step).db)
  {
    if step.Finish? && step.r in s.inFlight {
      var cmd := BuildFinalize(step.r, s.inFlight[step.r], step.result, step.at);
      if FinalizeKeysFree(s.db, cmd) {
        assert AfterFinalize(s.db, cmd).outbox == FinalizedFacts(s.db, cmd).outbox;
      }
    }
  }

  lemma {:induction false} LocksFollowSending(policy: Policy, now: Time, steps: seq<Step>)
    ensures LockedIffSending(Run(Initial(policy, now), steps).db)
  {
    if steps != [] {
      LocksFollowSending(policy, now, steps[..|steps| - 1]);
      StepKeepsLocks(Run(Initial(policy, now), steps[..|steps| - 1]), steps[|steps| - 1]);
    }
  }

  /** Whatever happened before, a dropped send or a crash included: while nothing is being sent, a recovery
      takes back exactly the rows left sending for thirty seconds or longer, and they are due at once with
      their attempts as they were. So no row stays stuck, and no younger lock is broken. */
  lemma NoRowStaysStuck(policy: Policy, now: Time, steps: seq<Step>, at: Time, o: OutboxId)
    ensures var s := Run(Initial(policy, now), steps);
            s.sender.None? && o in s.db.outbox ==>
              var row := s.db.outbox[o];
              var after := Do(s, SendRecover(at)).db.outbox;
              && o in after
              && (row.status == Sending ==> row.lockedAt.Some?)
              && (row.status == Sending && row.lockedAt.value + 30 * SECOND <= at ==>
                    after[o].status == RetryWait && after[o].lockedAt == None && after[o].nextAttemptAt == at
                    && after[o].attemptCount == row.attemptCount && after[o].body == row.body
                    && after[o].eventId == row.eventId)
              && (row.status != Sending || row.lockedAt.value + 30 * SECOND > at ==> after[o] == row)
  {
    LocksFollowSending(policy, now, steps);
  }

  /** The send under way is lost and the worker looks again at time at: the row is then due exactly
      from thirty seconds after its lock on, so a claim finds one. */
  lemma LostSendIsTakenUpAgain(policy: Policy, now: Time, steps: seq<Step>, loss: Step, at: Time)
    requires loss == SendDrop || loss == Crash
    ensures var s := Run(Initial(policy, now), steps);
            s.sender.Some? ==>
              var o := s.sender.value.outboxId;
              var after := Do(Do(s, loss), SendRecover(at)).db.outbox;
              && o in s.db.outbox && s.db.outbox[o].lockedAt.Some? && o in after
              && (s.db.outbox[o].lockedAt.value + 30 * SECOND <= at <==>
                    after[o].status == RetryWait && after[o].nextAttemptAt <= at)
  {
    AttemptsStayBounded(policy, now, steps);
    LocksFollowSending(policy, now, steps);
  }

  predicate Delivered(row: OutboxRow) {
    row.status == Sent || row.status == Dead
  }

  lemma StepKeepsDelivered(s: Sys, step: Step, o: OutboxId)
    requires AttemptsBounded(s) && o in s.db.outbox && Delivered(s.db.outbox[o])
    ensures o in Do(s, step).db.outbox && Do(s, step).db.outbox[o] == s.db.outbox[o]
  {
  }

  /** Sent and dead are final: the row is never written again. */
  lemma {:induction false} SentAndDeadAreFinal(policy: Policy, now: Time, first: seq<Step>, more: seq<Step>, o: OutboxId)
    requires var s := Run(Initial(policy, now), first); o in s.db.outbox && Delivered(s.db.outbox[o])
    ensures o in Run(Initial(policy, now), first + more).db.outbox
    ensures Run(Initial(policy, now), first + more).db.outbox[o] == Run(Initial(policy, now), first).db.outbox[o]
  {
    if more == [] {
      assert first + more == first;
    } else {
      var butLast := more[..|more| - 1];
      SentAndDeadAreFinal(policy, now, first, butLast, o);
      RunOn(Initial(policy, now), first, more);
      AttemptsStayBounded(policy, now, first + butLast);
      StepKeepsDelivered(Run(Initial(policy, now), first + butLast), more[|more| - 1], o);
    }
  }

  /** A failed send either buries the row or schedules it after the policy's delay, and it buries the
      row exactly when the limit had been reached. */
  lemma FailedSendIsScheduled(policy: Policy, now: Time, steps: seq<Step>, at: Time)
    ensures var s := Run(Initial(policy, now), steps);
            s.sender.Some? ==>
              var o := s.sender.value.outboxId;
              o in s.db.outbox &&
              var n := s.db.outbox[o].attemptCount;
              var row := Do(s, SendFailed(at)).db.outbox[o];
              && row.attemptCount == n + 1 && row.lockedAt == None
              && (row.status == Dead <==> n == Effective(policy).maxAttempts)
              && (row.status != Dead ==> row.status == RetryWait && row.nextAttemptAt == at + Delay(Effective(policy), n))
  {
    AttemptsStayBounded(policy, now, steps);
  }
}
