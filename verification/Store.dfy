/** The rows of the SQLite tables and, for every writer transaction, what it commits.
    A transaction that would violate a unique key has no result: it rolls back. */
module Store {
  import opened Basics

  type EventId = int    // evt_<nanoseconds of the request timestamp>
  type RunId = int      // position of the run id in the text order of run ids
  type OutboxId = int   // out_<nanoseconds of the finalize time>
  type MessageId = int
  type SessionId = int  // ses_<nanoseconds of the request timestamp>
  type SessionKey = string

  datatype EventStatus = Received | Queued | Processing | Processed | Suppressed | Failed
  datatype RunStatus = RunStarted | RunCompleted | RunFailed
  datatype OutboxStatus = Pending | Sending | RetryWait | Sent | Dead
  datatype Role = User | Assistant | Tool | OtherRole

  datatype Tokens = Tokens(prompt: int, completion: int, total: int)

  datatype EventRow = EventRow(
    sessionKey: SessionKey, sessionId: SessionId, idempotencyKey: string, payloadHash: string,
    status: EventStatus, runId: Option<RunId>,
    outboxId: Option<OutboxId>, outboxStatus: Option<OutboxStatus>,
    processingStartedAt: Option<Time>, updatedAt: Time)

  datatype RunRow = RunRow(
    eventId: EventId, sessionKey: SessionKey, status: RunStatus,
    model: string, tokens: Tokens, startedAt: Time, finishedAt: Time)

  datatype OutboxRow = OutboxRow(
    eventId: EventId, body: string, status: OutboxStatus,
    nextAttemptAt: Time, lockedAt: Option<Time>, attemptCount: nat)

  datatype MessageRow = MessageRow(sessionKey: SessionKey, runId: RunId, role: Role, visible: bool)

  datatype SessionRow = SessionRow(
    activeSessionId: SessionId, messageCount: nat, tokens: Tokens,
    lastModel: string, lastRunId: Option<RunId>, lastActivityAt: Time)

  datatype KeyRow = KeyRow(
    eventId: EventId, payloadHash: string, sessionKey: SessionKey, sessionId: SessionId, createdAt: Time)

  datatype Db = Db(
    events: map<EventId, EventRow>, runs: map<RunId, RunRow>, outbox: map<OutboxId, OutboxRow>,
    messages: map<MessageId, MessageRow>, sessions: map<SessionKey, SessionRow>, keys: map<string, KeyRow>)

  const EMPTY_DB := Db(map[], map[], map[], map[], map[], map[])

  predicate Runnable(e: EventRow) {
    e.status == Received || e.status == Queued
  }

  predicate Terminal(e: EventRow) {
    e.status == Processed || e.status == Suppressed || e.status == Failed
  }

  predicate StartedOn(db: Db, r: RunId, e: EventId) {
    r in db.runs && db.runs[r].eventId == e && db.runs[r].status == RunStarted
  }

  // ----- PersistEvent ------------------------------------------------------------------------

  datatype Request = Request(idempotencyKey: string, payloadHash: string, sessionKey: SessionKey)

  datatype PersistResult = PersistResult(
    eventId: EventId, sessionKey: SessionKey, sessionId: SessionId,
    receivedAt: Time, payloadHash: string, duplicate: bool)

  datatype PersistOutcome = Persisted(result: PersistResult) | Conflict | RolledBack

  /** ResolveSessionTx: the session row after resolving key at time now. */
  function ResolvedSessions(db: Db, key: SessionKey, now: Time): map<SessionKey, SessionRow> {
    if key in db.sessions then db.sessions
    else db.sessions[key := SessionRow(now, 0, Tokens(0, 0, 0), "", None, now)]
  }

  function PersistOutcomeOf(db: Db, req: Request, now: Time): PersistOutcome {
    if req.idempotencyKey in db.keys then
      var row := db.keys[req.idempotencyKey];
      if row.payloadHash != req.payloadHash then Conflict
      else Persisted(PersistResult(row.eventId, row.sessionKey, row.sessionId, row.createdAt, row.payloadHash, true))
    else if now in db.events || exists e :: e in db.events && db.events[e].idempotencyKey == req.idempotencyKey then RolledBack
    else
      var sessionId := ResolvedSessions(db, req.sessionKey, now)[req.sessionKey].activeSessionId;
      Persisted(PersistResult(now, req.sessionKey, sessionId, now, req.payloadHash, false))
  }

  function AfterPersist(db: Db, req: Request, now: Time): Db {
    match PersistOutcomeOf(db, req, now)
    case Persisted(result) =>
      if result.duplicate then db
      else
        db.(sessions := ResolvedSessions(db, req.sessionKey, now),
            keys := db.keys[req.idempotencyKey :=
                      KeyRow(result.eventId, req.payloadHash, req.sessionKey, result.sessionId, now)],
            events := db.events[result.eventId :=
                        EventRow(req.sessionKey, result.sessionId, req.idempotencyKey, req.payloadHash,
                                 Received, None, None, None, None, now)])
    case _ => db
  }

  // ----- MarkEventQueued, ClaimWork, RecoverExpiredProcessing ---------------------------------

  function AfterMarkQueued(db: Db, e: EventId, now: Time): Db {
    if e in db.events && db.events[e].status == Received then
      db.(events := db.events[e := db.events[e].(status := Queued, updatedAt := now)])
    else db
  }

  ghost predicate Claimable(db: Db, e: EventId) {
    && e in db.events
    && Runnable(db.events[e])
    && !exists r :: StartedOn(db, r, e)
  }

  ghost function AfterClaim(db: Db, e: EventId, r: RunId, now: Time): Db {
    if Claimable(db, e) && r !in db.runs then
      var row := db.events[e];
      db.(events := db.events[e := row.(status := Processing, processingStartedAt := Some(now), updatedAt := now, runId := Some(r))],
          runs := db.runs[r := RunRow(e, row.sessionKey, RunStarted, "", Tokens(0, 0, 0), now, 0)])
    else db
  }

  /** The recovery sweep selects the events whose lease ran out at `cutoff`. */
  predicate Expired(db: Db, e: EventId, cutoff: Time) {
    && e in db.events
    && db.events[e].status == Processing
    && (match db.events[e].processingStartedAt case Some(t) => t case None => db.events[e].updatedAt) <= cutoff
  }

  /** The transaction the recovery sweep runs for one selected event. */
  function AfterRecover(db: Db, e: EventId, now: Time): Db {
    db.(runs := map r | r in db.runs ::
                  if StartedOn(db, r, e) then db.runs[r].(status := RunFailed, finishedAt := now) else db.runs[r],
        events := if e in db.events && db.events[e].status == Processing then
                    db.events[e := db.events[e].(status := Queued, processingStartedAt := None, updatedAt := now)]
                  else db.events)
  }

  // ----- Finalize ------------------------------------------------------------------------------

  datatype NewMessage = NewMessage(id: MessageId, role: Role, visible: bool)

  datatype FinalizeCommand = FinalizeCommand(
    runId: RunId, eventId: EventId, sessionKey: SessionKey,
    runStatus: RunStatus, eventStatus: EventStatus,
    model: string, tokens: Tokens, messages: seq<NewMessage>, outboxBody: string, now: Time)

  predicate SendsOutbox(cmd: FinalizeCommand) {
    !Blank(cmd.outboxBody) && cmd.eventStatus == Processed
  }

  /** No message id is used twice or already taken, and the outbox id is free when one is inserted. */
  predicate FinalizeKeysFree(db: Db, cmd: FinalizeCommand) {
    && (forall i :: 0 <= i < |cmd.messages| ==> cmd.messages[i].id !in db.messages)
    && (forall i, j :: 0 <= i < j < |cmd.messages| ==> cmd.messages[i].id != cmd.messages[j].id)
    && (SendsOutbox(cmd) ==> cmd.now !in db.outbox)
  }

  function WithMessages(messages: map<MessageId, MessageRow>, cmd: FinalizeCommand, n: nat): map<MessageId, MessageRow>
    requires n <= |cmd.messages|
  {
    if n == 0 then messages
    else
      var m := cmd.messages[n - 1];
      WithMessages(messages, cmd, n - 1)[m.id := MessageRow(cmd.sessionKey, cmd.runId, m.role, m.visible)]
  }

  /** The facts Finalize writes, before the session projection is recomputed. */
  function FinalizedFacts(db: Db, cmd: FinalizeCommand): Db {
    db.(messages := WithMessages(db.messages, cmd, |cmd.messages|),
        runs := if cmd.runId in db.runs then
                  db.runs[cmd.runId := db.runs[cmd.runId].(status := cmd.runStatus, model := cmd.model,
                                                           tokens := cmd.tokens, finishedAt := cmd.now)]
                else db.runs,
        outbox := if SendsOutbox(cmd) then
                    db.outbox[cmd.now := OutboxRow(cmd.eventId, cmd.outboxBody, Pending, cmd.now, None, 0)]
                  else db.outbox,
        events := if cmd.eventId in db.events then
                    db.events[cmd.eventId := db.events[cmd.eventId].(
                      status := cmd.eventStatus, runId := Some(cmd.runId),
                      outboxId := if SendsOutbox(cmd) then Some(cmd.now) else None,
                      outboxStatus := if SendsOutbox(cmd) then Some(Pending) else None,
                      processingStartedAt := None, updatedAt := cmd.now)]
                  else db.events)
  }

  ghost function AfterFinalize(db: Db, cmd: FinalizeCommand): Db {
    if FinalizeKeysFree(db, cmd) then
      var facts := FinalizedFacts(db, cmd);
      facts.(sessions := Reprojected(facts, cmd.sessionKey, cmd.now))
    else db
  }

  // ----- The sessions projection ---------------------------------------------------------------

  /** The messages the projection counts for a session key. */
  function CountedMessages(messages: map<MessageId, MessageRow>, key: SessionKey): set<MessageId> {
    set m | m in messages && messages[m].sessionKey == key && messages[m].visible && messages[m].role != OtherRole
  }

  /** The runs the projection sums for a session key. */
  function CompletedRuns(runs: map<RunId, RunRow>, key: SessionKey): map<RunId, RunRow> {
    map r | r in runs && runs[r].sessionKey == key && runs[r].status == RunCompleted :: runs[r]
  }

  /** The token columns the projection sums. */
  datatype TokenColumn = PromptTokens | CompletionTokens | TotalTokens

  function Column(t: Tokens, c: TokenColumn): int {
    match c
    case PromptTokens => t.prompt
    case CompletionTokens => t.completion
    case TotalTokens => t.total
  }

  /** SUM over one token column of these runs. */
  ghost function SumOf(runs: map<RunId, RunRow>, c: TokenColumn): int
    decreases |runs|
  {
    if runs.Keys == {} then 0
    else
      var r := Pick(runs.Keys);
      assert |runs - {r}| == |runs| - 1 by { assert (runs - {r}).Keys == runs.Keys - {r}; }
      Column(runs[r].tokens, c) + SumOf(runs - {r}, c)
  }

  ghost function SumTokens(runs: map<RunId, RunRow>): Tokens {
    Tokens(SumOf(runs, PromptTokens), SumOf(runs, CompletionTokens), SumOf(runs, TotalTokens))
  }

  /** The scan's test: (finished_at, run_id) of run a is below that of run b. */
  predicate FinishedBefore(runs: map<RunId, RunRow>, a: RunId, b: RunId)
    requires a in runs && b in runs
  {
    runs[a].finishedAt < runs[b].finishedAt || (runs[a].finishedAt == runs[b].finishedAt && a < b)
  }

  /** r heads `ORDER BY finished_at DESC, run_id DESC`. */
  ghost predicate FinishedLast(runs: map<RunId, RunRow>, r: RunId) {
    r in runs && forall o :: o in runs && o != r ==>
      runs[o].finishedAt < runs[r].finishedAt || (runs[o].finishedAt == runs[r].finishedAt && o < r)
  }

  /** The session row agrees with the facts for its key. */
  ghost predicate Agrees(db: Db, key: SessionKey) {
    && key in db.sessions
    && var row := db.sessions[key];
    && var completed := CompletedRuns(db.runs, key);
    && row.messageCount == |CountedMessages(db.messages, key)|
    && row.tokens.prompt == SumOf(completed, PromptTokens)
    && row.tokens.completion == SumOf(completed, CompletionTokens)
    && row.tokens.total == SumOf(completed, TotalTokens)
    && match row.lastRunId
       case None => completed.Keys == {} && row.lastModel == ""
       case Some(r) => FinishedLast(completed, r) && row.lastModel == completed[r].model
                       && row.lastActivityAt == completed[r].finishedAt
  }

  lemma {:induction false} LastExists(runs: map<RunId, RunRow>)
    requires runs.Keys != {}
    ensures exists r :: FinishedLast(runs, r)
    decreases |runs|
  {
    var r := Pick(runs.Keys);
    var rest := runs - {r};
    assert rest.Keys == runs.Keys - {r} && forall o :: o in runs ==> o == r || o in rest;
    if rest.Keys == {} {
      assert FinishedLast(runs, r);
    } else {
      LastExists(rest);
      var q :| FinishedLast(rest, q);
      assert FinishedLast(runs, if FinishedBefore(runs, q, r) then r else q);
    }
  }

  /** RecomputeSessionAggregateTx: the sessions table after recomputing one key (no row, no change). */
  ghost function Reprojected(db: Db, key: SessionKey, now: Time): map<SessionKey, SessionRow> {
    if key !in db.sessions then db.sessions
    else
      var completed := CompletedRuns(db.runs, key);
      var row := db.sessions[key].(messageCount := |CountedMessages(db.messages, key)|, tokens := SumTokens(completed));
      if completed.Keys == {} then
        db.sessions[key := row.(lastRunId := None, lastModel := "", lastActivityAt := now)]
      else
        LastExists(completed);
        var r :| FinishedLast(completed, r);
        db.sessions[key := row.(lastRunId := Some(r), lastModel := completed[r].model, lastActivityAt := completed[r].finishedAt)]
  }

  // ----- Outbox delivery -----------------------------------------------------------------------

  function MirrorStatus(events: map<EventId, EventRow>, e: EventId, status: OutboxStatus,
      now: Time): map<EventId, EventRow> {
    if e in events then events[e := events[e].(outboxStatus := Some(status), updatedAt := now)] else events
  }

  predicate SendingExpired(row: OutboxRow, cutoff: Time) {
    row.status == Sending && row.lockedAt.Some? && row.lockedAt.value <= cutoff
  }

  /** The given outbox rows put back to waiting, together with the event row each one names. */
  function Requeued(db: Db, rows: set<OutboxId>, now: Time): Db {
    db.(outbox := map o | o in db.outbox ::
                    if o in rows then db.outbox[o].(status := RetryWait, lockedAt := None, nextAttemptAt := now)
                    else db.outbox[o],
        events := map e | e in db.events ::
                    if exists o :: o in rows && o in db.outbox && db.outbox[o].eventId == e
                    then db.events[e].(outboxStatus := Some(RetryWait), updatedAt := now)
                    else db.events[e])
  }

  function AfterRecoverSending(db: Db, cutoff: Time, now: Time): Db {
    Requeued(db, (set o | o in db.outbox && SendingExpired(db.outbox[o], cutoff)), now)
  }

  predicate Sendable(db: Db, o: OutboxId, now: Time) {
    && o in db.outbox
    && (db.outbox[o].status == Pending || db.outbox[o].status == RetryWait)
    && db.outbox[o].nextAttemptAt <= now
  }

  /** o heads the sendable rows in the order (next_attempt_at, outbox_id). */
  ghost predicate NextToSend(db: Db, o: OutboxId, now: Time) {
    && Sendable(db, o, now)
    && forall p :: Sendable(db, p, now) && p != o ==>
         db.outbox[o].nextAttemptAt < db.outbox[p].nextAttemptAt
         || (db.outbox[o].nextAttemptAt == db.outbox[p].nextAttemptAt && o < p)
  }

  datatype ClaimedOutbox = ClaimedOutbox(outboxId: OutboxId, eventId: EventId, attemptCount: nat)

  function AfterClaimOutbox(db: Db, o: OutboxId, now: Time): Db
    requires o in db.outbox
  {
    db.(outbox := db.outbox[o := db.outbox[o].(status := Sending, lockedAt := Some(now))],
        events := MirrorStatus(db.events, db.outbox[o].eventId, Sending, now))
  }

  function AfterFailSend(db: Db, msg: ClaimedOutbox, dead: bool, nextAttemptAt: Time, now: Time): Db {
    var status := if dead then Dead else RetryWait;
    db.(outbox := if msg.outboxId in db.outbox then
                    var row := db.outbox[msg.outboxId];
                    db.outbox[msg.outboxId := row.(status := status, lockedAt := None,
                                                   attemptCount := row.attemptCount + 1, nextAttemptAt := nextAttemptAt)]
                  else db.outbox,
        events := MirrorStatus(db.events, msg.eventId, status, now))
  }

  function AfterCompleteSend(db: Db, msg: ClaimedOutbox, now: Time): Db {
    db.(outbox := if msg.outboxId in db.outbox then
                    db.outbox[msg.outboxId := db.outbox[msg.outboxId].(status := Sent, lockedAt := None)]
                  else db.outbox,
        events := MirrorStatus(db.events, msg.eventId, Sent, now))
  }
}
