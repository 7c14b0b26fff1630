/** The gateway, the kernel and the two workers as they call the repository. Each call is tied to the
    protocol steps it takes, so the theorems about runs apply to it. */
module Services {
  import opened Basics
  import opened Store
  import opened Retry
  import opened Protocol
  import opened Repository
  import opened Settle

  /** A system with this database and nothing in flight. */
  function Around(db: Db, policy: Policy): Sys {
    Sys(db, map[], [], 0, None, policy, 0)
  }

  /** The event loop's bounded queue. */
  class EventQueue {
    const capacity: nat
    var items: seq<EventId>

    constructor (capacity: nat)
      ensures this.capacity == capacity && items == []
    {
      this.capacity := capacity;
      items := [];
    }

    method TryEnqueue(e: EventId) returns (ok: bool)
      modifies this
      ensures ok <==> |old(items)| < capacity
      ensures items == if ok then old(items) + [e] else old(items)
    {
      ok := |items| < capacity;
      if ok {
        items := items + [e];
      }
    }
  }

  /** The persist and enqueue part of Accept: only a newly created event is ever enqueued, and a retry or
      a conflict leaves both the store and the queue as they were. markOk says whether the write of the queued
      status goes through; when it does not, the event is queued all the same and stays received. */
  method Accept(repo: RuntimeRepository, queue: EventQueue, req: Request, timestamp: Time, now: Time, markOk: bool)
    returns (outcome: PersistOutcome, enqueued: bool)
    modifies repo, queue
    ensures outcome == PersistOutcomeOf(old(repo.db), req, timestamp)
    ensures enqueued <==> outcome.Persisted? && !outcome.result.duplicate && |old(queue.items)| < queue.capacity
    ensures queue.items == if enqueued then old(queue.items) + [outcome.result.eventId] else old(queue.items)
    ensures !outcome.Persisted? || outcome.result.duplicate ==> repo.db == old(repo.db)
    ensures outcome.Persisted? && !outcome.result.duplicate ==>
              var e := outcome.result.eventId;
              e in repo.db.events && e !in old(repo.db).events && repo.db.events[e].idempotencyKey == req.idempotencyKey
              && repo.db.events[e].status == if enqueued && markOk then Queued else Received
    ensures repo.db == AfterPersist(old(repo.db), req, timestamp)
            || (enqueued && markOk
                && repo.db == AfterMarkQueued(AfterPersist(old(repo.db), req, timestamp), outcome.result.eventId, now))
  {
    outcome := repo.PersistEvent(req, timestamp);
    enqueued := false;
    if outcome.Persisted? && !outcome.result.duplicate {
      enqueued := queue.TryEnqueue(outcome.result.eventId);
      if enqueued && markOk {
        repo.MarkEventQueued(outcome.result.eventId, now);
      }
    }
  }

  datatype Kind = Claimed | Executing | FinalizeStarted | Completed | FailedKind

  /** These steps are other actors': none of them ends execution r or the whole process. */
  predicate Leaves(step: Step, r: RunId) {
    match step
    case Finish(q, _, _) => q != r
    case Abandon(q) => q != r
    case Crash => false
    case _ => true
  }

  predicate AllLeave(steps: seq<Step>, r: RunId) {
    forall i :: 0 <= i < |steps| ==> Leaves(steps[i], r)
  }

  /** Execution r goes on under its executor, and nobody has completed its run. */
  ghost predicate Executes(s: Sys, r: RunId, x: Executor) {
    && r in s.inFlight && s.inFlight[r] == x
    && r in s.db.runs && s.db.runs[r].status != RunCompleted
    && x.eventId in s.db.events
  }

  lemma OtherStepsLeaveIt(s: Sys, step: Step, r: RunId, x: Executor)
    requires Executes(s, r, x) && Leaves(step, r)
    ensures Executes(Do(s, step), r, x)
  {
    if Harmless(step) {
      HarmlessSteps(s, step);
    }
  }

  lemma {:induction false} OthersLeaveIt(s: Sys, others: seq<Step>, r: RunId, x: Executor)
    requires Executes(s, r, x) && AllLeave(others, r)
    ensures Executes(Run(s, others), r, x)
  {
    if others != [] {
      OthersLeaveIt(s, others[..|others| - 1], r, x);
      OtherStepsLeaveIt(Run(s, others[..|others| - 1]), others[|others| - 1], r, x);
    }
  }

  /** The steps of one Process call that got its claim, with what everybody else did meanwhile. */
  function ProcessSteps(claim: Step, others: seq<Step>, end: Step): seq<Step> {
    [claim] + others + [end]
  }

  lemma {:induction false} RunFrom(s: Sys, first: Step, others: seq<Step>)
    ensures Run(s, [first] + others) == Run(Do(s, first), others)
  {
    if others == [] {
      assert [first] + others == [] + [first];
      RunSnoc(s, [], first);
    } else {
      var n := |others| - 1;
      RunFrom(s, first, others[..n]);
      assert [first] + others == ([first] + others[..n]) + [others[n]];
      RunSnoc(s, [first] + others[..n], others[n]);
    }
  }

  lemma RunOfProcess(s: Sys, claim: Step, others: seq<Step>, end: Step)
    ensures Run(s, ProcessSteps(claim, others, end)) == Do(Run(Do(s, claim), others), end)
  {
    RunFrom(s, claim, others);
    RunSnoc(s, [claim] + others, end);
  }

  /** Kernel Process: claim, execute, finalize. others are the steps of everybody else between the claim and
      the finalize, and meanwhile is the database they leave. commitOk says whether the finalize transaction
      could commit at all, which it cannot once the context has expired. */
  method Process(repo: RuntimeRepository, policy: Policy, e: EventId, r: RunId, begun: Time, claimedAt: Time,
                 ghost others: seq<Step>, meanwhile: Db, result: ExecutionResult, finalizedAt: Time, commitOk: bool)
    returns (published: seq<Kind>)
    requires AllLeave(others, r)
    requires meanwhile == Run(Do(Around(repo.db, policy), Step.Claim(e, r, begun, claimedAt)), others).db
    modifies repo
    ensures published == [] <==> !(Claimable(old(repo.db), e) && r !in old(repo.db).runs)
    ensures published == [] ==> repo.db == old(repo.db)
    ensures published != [] ==>
              && repo.db == Run(Around(old(repo.db), policy),
                                ProcessSteps(Step.Claim(e, r, begun, claimedAt), others,
                                             if commitOk then Finish(r, result, finalizedAt) else Abandon(r))).db
              && r in repo.db.runs
              && published == [Claimed, Executing, FinalizeStarted, if repo.db.runs[r].status == RunCompleted then Completed else FailedKind]
    ensures published != [] ==>
              var x := Executor(e, old(repo.db).events[e].sessionKey, begun + 120 * SECOND);
              var commits := commitOk && CanCommit(meanwhile, result, finalizedAt);
              && (if commits then Settled(meanwhile, repo.db, r, x, result, finalizedAt) else repo.db == meanwhile)
              && (published[|published| - 1] == Completed <==> commits && !result.failed)
  {
    ghost var claimStep := Step.Claim(e, r, begun, claimedAt);
    ghost var s := Around(repo.db, policy);
    published := [];
    var claim := repo.ClaimWork(e, r, claimedAt);
    if !claim.ClaimedWork? {
      return;
    }
    published := [Claimed, Executing];
    var x := Executor(e, claim.sessionKey, begun + CONTEXT_TIMEOUT);
    assert Executes(Do(s, claimStep), r, x);
    repo.db := meanwhile;
    OthersLeaveIt(Do(s, claimStep), others, r, x);
    var cmd := BuildFinalize(r, x, result, finalizedAt);
    published := published + [FinalizeStarted];
    FinalizeSettles(meanwhile, r, x, result, finalizedAt);
    var ok := false;
    if commitOk {
      ok := repo.Finalize(cmd);
    }
    RunOfProcess(s, claimStep, others, if commitOk then Finish(r, result, finalizedAt) else Abandon(r));
    published := published + [if ok && cmd.eventStatus != Failed then Completed else FailedKind];
  }

  /** One tick of the recovery worker: a failed sweep enqueues nothing, a complete one enqueues what fits. */
  method RecoveryTick(repo: RuntimeRepository, queue: EventQueue, now: Time, broken: set<EventId>)
    returns (ids: seq<EventId>, done: nat)
    modifies repo, queue
    ensures NoRepeats(ids) && forall e :: e in ids <==> Expired(old(repo.db), e, now - PROCESSING_LEASE)
    ensures LeasesOver(old(repo.db), ids, now - 120 * SECOND) && OldestFirst(old(repo.db), ids)
    ensures done <= |ids| && repo.db == AfterRecoverAll(old(repo.db), ids[..done], now)
    ensures done < |ids| ==> ids[done] in broken && queue.items == old(queue.items)
    ensures done == |ids| ==>
              var room := if |old(queue.items)| < queue.capacity then queue.capacity - |old(queue.items)| else 0;
              queue.items == old(queue.items) + ids[..if room < |ids| then room else |ids|]
  {
    var ok;
    ids, done, ok := repo.RecoverExpiredProcessing(now - PROCESSING_LEASE, now, broken);
    if !ok {
      return;
    }
    var i := 0;
    ghost var room := if |old(queue.items)| < queue.capacity then queue.capacity - |old(queue.items)| else 0;
    while i < |ids|
      invariant 0 <= i <= |ids|
      invariant repo.db == AfterRecoverAll(old(repo.db), ids[..done], now)
      invariant queue.items == old(queue.items) + ids[..if room < i then room else i]
    {
      var fits := queue.TryEnqueue(ids[i]);
      assert fits ==> ids[..i] + [ids[i]] == ids[..i + 1];
      i := i + 1;
    }
  }

  /** One tick of the repump loop: what still waits in the store is queued, oldest first, until the queue
      is full. So an idle queue ends up with every runnable event, or full of older ones. */
  method RepumpTick(repo: RuntimeRepository, queue: EventQueue, listOk: bool) returns (ids: seq<EventId>, enqueued: nat)
    modifies queue
    ensures NoRepeats(ids) && forall e :: e in ids ==> e in repo.db.events && repo.db.events[e].status in {Received, Queued}
    ensures OldestFirst(repo.db, ids)
    ensures enqueued <= |ids| && queue.items == old(queue.items) + ids[..enqueued]
    ensures enqueued < |ids| ==> |queue.items| >= queue.capacity
    ensures listOk && old(queue.items) == [] && queue.capacity > 0 ==>
              forall e :: e in repo.db.events && repo.db.events[e].status in {Received, Queued} && e !in queue.items ==>
                |queue.items| == queue.capacity && forall x :: x in queue.items ==> UpdatedEarlier(repo.db, x, e)
  {
    ids, enqueued := [], 0;
    if !listOk {
      return;
    }
    ids := repo.ListRunnable(queue.capacity);
    while enqueued < |ids|
      invariant 0 <= enqueued <= |ids| && queue.items == old(queue.items) + ids[..enqueued]
      invariant repo.db == old(repo.db)
      invariant old(queue.items) == [] ==> enqueued <= queue.capacity
    {
      var fits := queue.TryEnqueue(ids[enqueued]);
      if !fits {
        break;
      }
      assert ids[..enqueued] + [ids[enqueued]] == ids[..enqueued + 1];
      enqueued := enqueued + 1;
    }
    assert enqueued == |ids| ==> ids[..enqueued] == ids;
  }

  /** The status a send attempt leaves behind. */
  function StatusAfterSend(policy: Policy, attemptCount: nat, now: Time, sendOk: bool, recordOk: bool): OutboxStatus {
    if !recordOk then Sending
    else if sendOk then Sent
    else if Decide(policy, attemptCount, now).dead then Dead
    else RetryWait
  }

  /** The protocol step of one send attempt. */
  function SendStep(now: Time, sendOk: bool, recordOk: bool): Step {
    if !recordOk then SendDrop else if sendOk then SendDone(now) else SendFailed(now)
  }

  /** What a send attempt does to the claimed row, and that it does nothing to the others. */
  lemma SendOutcome(db: Db, policy: Policy, msg: ClaimedOutbox, now: Time, sendOk: bool, recordOk: bool)
    requires msg.outboxId in db.outbox && db.outbox[msg.outboxId].status == Sending
    ensures var rows := db.outbox;
            var after := Do(Around(db, policy).(sender := Some(msg)), SendStep(now, sendOk, recordOk)).db.outbox;
            && after.Keys == rows.Keys
            && after[msg.outboxId].status == StatusAfterSend(policy, msg.attemptCount, now, sendOk, recordOk)
            && after[msg.outboxId].attemptCount == rows[msg.outboxId].attemptCount + (if recordOk && !sendOk then 1 else 0)
            && forall o :: o in rows && o != msg.outboxId ==> after[o] == rows[o]
  {
  }

  /** Sending a claimed row and writing the outcome down, if that write goes through. */
  method SendClaimed(repo: RuntimeRepository, policy: Policy, msg: ClaimedOutbox, now: Time, sendOk: bool, recordOk: bool)
    modifies repo
    ensures repo.db == Do(Around(old(repo.db), policy).(sender := Some(msg)), SendStep(now, sendOk, recordOk)).db
  {
    if !recordOk {
      return;
    }
    if sendOk {
      repo.CompleteOutboxSend(msg, now);
    } else {
      var decision := Next(policy, msg.attemptCount, now);
      repo.FailOutboxSend(msg, decision.dead, decision.nextAttemptAt, now);
    }
  }

  /** No row waits for a delivery that is due. */
  ghost predicate NothingDue(db: Db, now: Time) {
    forall o :: o in db.outbox && db.outbox[o].status in {Pending, RetryWait} ==> db.outbox[o].nextAttemptAt > now
  }

  /** No row is sending under a lock of thirty seconds or more. */
  ghost predicate NothingStale(db: Db, now: Time) {
    forall o :: o in db.outbox && db.outbox[o].status == Sending && db.outbox[o].lockedAt.Some? ==>
      db.outbox[o].lockedAt.value + 30 * SECOND > now
  }

  /** Taking up the next row: recovery of stale rows, then the claim. */
  method ClaimNext(repo: RuntimeRepository, policy: Policy, now: Time, recoverOk: bool, claimOk: bool)
    returns (claimed: Option<ClaimedOutbox>, ghost steps: seq<Step>)
    modifies repo
    ensures Run(Around(old(repo.db), policy), steps) == Around(repo.db, policy).(sender := claimed)
    ensures forall i :: 0 <= i < |steps| ==> steps[i].SendRecover? || steps[i].SendClaim?
    ensures claimed.Some? ==>
              var o := claimed.value.outboxId;
              o in repo.db.outbox && repo.db.outbox[o].status == Sending && repo.db.outbox[o].attemptCount == claimed.value.attemptCount
    ensures claimed.None? && claimOk ==> NothingDue(repo.db, now)
    ensures claimed.None? && claimOk && recoverOk ==> NothingStale(repo.db, now)
  {
    ghost var s := Around(repo.db, policy);
    steps, claimed := [], None;
    if recoverOk {
      repo.RecoverExpiredSending(now - SENDING_LEASE, now);
      RunSnoc(s, steps, SendRecover(now));
      steps := steps + [SendRecover(now)];
    }
    if claimOk {
      claimed := repo.ClaimRuntimeOutbox(now);
      if claimed.Some? {
        RunSnoc(s, steps, SendClaim(claimed.value.outboxId, now));
        steps := steps + [SendClaim(claimed.value.outboxId, now)];
      }
    }
  }

  /** One tick of the delivery worker. The four flags say which calls go through: the recovery, the
      claim, the send itself and the write of its outcome. */
  method DeliveryTick(repo: RuntimeRepository, policy: Policy, now: Time,
                      recoverOk: bool, claimOk: bool, sendOk: bool, recordOk: bool)
    returns (sent: Option<ClaimedOutbox>, ghost steps: seq<Step>)
    modifies repo
    ensures Run(Around(old(repo.db), policy), steps) == Around(repo.db, policy)
    ensures forall i :: 0 <= i < |steps| ==>
              steps[i].SendRecover? || steps[i].SendClaim? || steps[i].SendFailed? || steps[i].SendDone? || steps[i].SendDrop?
    ensures sent.Some? ==>
              var o := sent.value.outboxId;
              var n := sent.value.attemptCount;
              o in repo.db.outbox
              && repo.db.outbox[o].status == StatusAfterSend(policy, n, now, sendOk, recordOk)
              && repo.db.outbox[o].attemptCount == n + if recordOk && !sendOk then 1 else 0
    ensures sent.None? && claimOk ==> NothingDue(repo.db, now)
    ensures sent.None? && claimOk && recoverOk ==> NothingStale(repo.db, now)
  {
    ghost var s := Around(repo.db, policy);
    sent, steps := ClaimNext(repo, policy, now, recoverOk, claimOk);
    if sent.Some? {
      ghost var step := SendStep(now, sendOk, recordOk);
      SendOutcome(repo.db, policy, sent.value, now, sendOk, recordOk);
      SendClaimed(repo, policy, sent.value, now, sendOk, recordOk);
      RunSnoc(s, steps, step);
      steps := steps + [step];
    }
  }
}
