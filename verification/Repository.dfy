/** The runtime repository in its own form: every method works on a copy of the tables, statement by
    statement, and commits the copy at the end or leaves the tables alone. */
module Repository {
  import opened Basics
  import opened Store
  import opened Protocol
  import opened Projection

  datatype ClaimResult = ClaimedWork(sessionKey: SessionKey, sessionId: SessionId) | NoMutation | ClaimError

  /** The recovery transactions of a sweep, in order. */
  function AfterRecoverAll(db: Db, ids: seq<EventId>, now: Time): Db {
    if ids == [] then db else AfterRecover(AfterRecoverAll(db, ids[..|ids| - 1], now), ids[|ids| - 1], now)
  }

  function UpdatedAt(db: Db): map<EventId, Time> {
    map e | e in db.events :: db.events[e].updatedAt
  }

  function NextAttempts(db: Db): map<OutboxId, Time> {
    map o | o in db.outbox :: db.outbox[o].nextAttemptAt
  }

  lemma NothingRequeued(db: Db, now: Time)
    ensures Requeued(db, {}, now) == db
  {
    assert Requeued(db, {}, now).outbox == db.outbox;
    assert Requeued(db, {}, now).events == db.events;
  }

  lemma RequeuedOneMore(db: Db, rows: set<OutboxId>, o: OutboxId, now: Time)
    requires o in db.outbox && o !in rows
    ensures var part := Requeued(db, rows, now);
            var row := part.outbox[o];
            Requeued(db, rows + {o}, now)
              == part.(outbox := part.outbox[o := row.(status := RetryWait, lockedAt := None, nextAttemptAt := now)],
                       events := MirrorStatus(part.events, row.eventId, RetryWait, now))
  {
    var part := Requeued(db, rows, now);
    var whole := Requeued(db, rows + {o}, now);
    assert whole.outbox == part.outbox[o := part.outbox[o].(status := RetryWait, lockedAt := None, nextAttemptAt := now)];
    assert whole.events == MirrorStatus(part.events, db.outbox[o].eventId, RetryWait, now);
  }

  /** The older of two events: by updated_at, then by id. */
  ghost predicate UpdatedEarlier(db: Db, a: EventId, b: EventId) {
    a in db.events && b in db.events
    && (db.events[a].updatedAt < db.events[b].updatedAt || (db.events[a].updatedAt == db.events[b].updatedAt && a < b))
  }

  ghost predicate OldestFirst(db: Db, ids: seq<EventId>) {
    forall i, j :: 0 <= i < j < |ids| ==> UpdatedEarlier(db, ids[i], ids[j])
  }

  /** ids are the processing events whose lease was over at cutoff: it counts from processing_started_at,
      or from updated_at when there is none. */
  ghost predicate LeasesOver(db: Db, ids: seq<EventId>, cutoff: Time) {
    && (forall e :: e in ids ==> e in db.events)
    && forall e :: e in db.events ==>
         var row := db.events[e];
         e in ids <==>
           row.status == Processing
           && (row.processingStartedAt.Some? ==> row.processingStartedAt.value <= cutoff)
           && (row.processingStartedAt.None? ==> row.updatedAt <= cutoff)
  }

  /** The request is stored under its key: a received event with this time as its id, in the key's session,
      which is created when missing. */
  ghost predicate NewlyStored(a: Db, b: Db, req: Request, now: Time, sessionId: SessionId) {
    && sessionId == (if req.sessionKey in a.sessions then a.sessions[req.sessionKey].activeSessionId else now)
    && b == a.(events := b.events, keys := b.keys, sessions := b.sessions)
    && b.sessions == (if req.sessionKey in a.sessions then a.sessions
                      else a.sessions[req.sessionKey := SessionRow(now, 0, Tokens(0, 0, 0), "", None, now)])
    && b.keys == a.keys[req.idempotencyKey := KeyRow(now, req.payloadHash, req.sessionKey, sessionId, now)]
    && b.events == a.events[now := EventRow(req.sessionKey, sessionId, req.idempotencyKey, req.payloadHash,
                                            Received, None, None, None, None, now)]
  }

  /** Event e is processing under the new run r since now, and nothing else differs. */
  ghost predicate TakenUp(a: Db, b: Db, e: EventId, r: RunId, now: Time) {
    && e in a.events && r !in a.runs
    && b == a.(events := b.events, runs := b.runs)
    && b.events == a.events[e := a.events[e].(status := Processing, processingStartedAt := Some(now),
                                              updatedAt := now, runId := Some(r))]
    && b.runs.Keys == a.runs.Keys + {r}
    && (forall q :: q in a.runs ==> b.runs[q] == a.runs[q])
    && b.runs[r].eventId == e && b.runs[r].sessionKey == a.events[e].sessionKey
    && b.runs[r].status == RunStarted && b.runs[r].startedAt == now
  }

  /** Every started run of e has failed, and e waits again if it was processing. */
  ghost predicate GivenBack(a: Db, b: Db, e: EventId, now: Time) {
    && b == a.(events := b.events, runs := b.runs)
    && b.runs.Keys == a.runs.Keys && b.events.Keys == a.events.Keys
    && (forall r :: r in a.runs ==>
          b.runs[r] == if a.runs[r].eventId == e && a.runs[r].status == RunStarted
                       then a.runs[r].(status := RunFailed, finishedAt := now) else a.runs[r])
    && (forall o :: o in a.events && (o != e || a.events[o].status != Processing) ==> b.events[o] == a.events[o])
    && (e in a.events && a.events[e].status == Processing ==>
          b.events[e] == a.events[e].(status := Queued, processingStartedAt := None, updatedAt := now))
  }

  /** The row is sending under a lock as old as cutoff. */
  predicate StaleLock(row: OutboxRow, cutoff: Time) {
    row.status == Sending && row.lockedAt.Some? && row.lockedAt.value <= cutoff
  }

  /** The rows under a stale lock wait again from now on, their events say so, and nothing else differs. */
  ghost predicate StaleLocksReleased(a: Db, b: Db, cutoff: Time, now: Time) {
    && b == a.(outbox := b.outbox, events := b.events)
    && b.outbox.Keys == a.outbox.Keys && b.events.Keys == a.events.Keys
    && (forall o :: o in a.outbox ==>
          b.outbox[o] == if StaleLock(a.outbox[o], cutoff)
                         then a.outbox[o].(status := RetryWait, lockedAt := None, nextAttemptAt := now) else a.outbox[o])
    && (forall o :: o in a.outbox && StaleLock(a.outbox[o], cutoff) && a.outbox[o].eventId in a.events ==>
          var e := a.outbox[o].eventId;
          b.events[e] == a.events[e].(outboxStatus := Some(RetryWait), updatedAt := now))
    && (forall e :: e in a.events && (forall o :: o in a.outbox && StaleLock(a.outbox[o], cutoff) ==> a.outbox[o].eventId != e) ==>
          b.events[e] == a.events[e])
  }

  /** Nothing but the message's outbox row and its event's mirror columns differs. */
  ghost predicate OnlyRow(a: Db, b: Db, msg: ClaimedOutbox) {
    && b == a.(outbox := b.outbox, events := b.events)
    && b.outbox.Keys == a.outbox.Keys && b.events.Keys == a.events.Keys
    && (forall o :: o in a.outbox && o != msg.outboxId ==> b.outbox[o] == a.outbox[o])
    && (forall o :: o in a.outbox ==> b.outbox[o].eventId == a.outbox[o].eventId && b.outbox[o].body == a.outbox[o].body)
    && (forall e :: e in a.events && e != msg.eventId ==> b.events[e] == a.events[e])
    && (forall e :: e in a.events ==>
          b.events[e] == a.events[e].(outboxStatus := b.events[e].outboxStatus, updatedAt := b.events[e].updatedAt))
  }

  /** The message's row is unlocked in this status, and its event says so. */
  ghost predicate SentMirrored(db: Db, msg: ClaimedOutbox, status: OutboxStatus, now: Time) {
    && (msg.outboxId in db.outbox ==> db.outbox[msg.outboxId].status == status && db.outbox[msg.outboxId].lockedAt == None)
    && (msg.eventId in db.events ==>
          db.events[msg.eventId].outboxStatus == Some(status) && db.events[msg.eventId].updatedAt == now)
  }

  class RuntimeRepository {
    var db: Db

    constructor ()
      ensures db == EMPTY_DB
    {
      db := EMPTY_DB;
    }

    method PersistEvent(req: Request, now: Time) returns (outcome: PersistOutcome)
      modifies this
      ensures outcome == PersistOutcomeOf(old(db), req, now)
      ensures db == AfterPersist(old(db), req, now)
      ensures req.idempotencyKey in old(db).keys ==>
                var row := old(db).keys[req.idempotencyKey];
                && db == old(db)
                && outcome == (if row.payloadHash != req.payloadHash then Conflict
                               else Persisted(PersistResult(row.eventId, row.sessionKey, row.sessionId,
                                                            row.createdAt, row.payloadHash, true)))
      ensures req.idempotencyKey !in old(db).keys ==>
                && !outcome.Conflict?
                && (outcome.RolledBack? ==> db == old(db))
                && (outcome.Persisted? ==>
                      && outcome.result == PersistResult(now, req.sessionKey, outcome.result.sessionId, now, req.payloadHash, false)
                      && NewlyStored(old(db), db, req, now, outcome.result.sessionId))
    {
      var tx := db;
      if req.idempotencyKey in tx.keys {
        var existing := tx.keys[req.idempotencyKey];
        if existing.payloadHash != req.payloadHash {
          return Conflict;
        }
        return Persisted(PersistResult(existing.eventId, existing.sessionKey, existing.sessionId,
                                       existing.createdAt, existing.payloadHash, true));
      }
      var sessions, sessionId := ResolveSession(tx, req.sessionKey, now);
      tx := tx.(sessions := sessions);
      var eventId := now;
      tx := tx.(keys := tx.keys[req.idempotencyKey := KeyRow(eventId, req.payloadHash, req.sessionKey, sessionId, now)]);
      if eventId in tx.events || exists e :: e in tx.events && tx.events[e].idempotencyKey == req.idempotencyKey {
        return RolledBack;
      }
      tx := tx.(events := tx.events[eventId := EventRow(req.sessionKey, sessionId, req.idempotencyKey, req.payloadHash,
                                                        Received, None, None, None, None, now)]);
      db := tx;
      outcome := Persisted(PersistResult(eventId, req.sessionKey, sessionId, now, req.payloadHash, false));
    }

    /** An existing session keeps its row and its id; a missing one gets an empty row and a new id. */
    method ResolveSession(tx: Db, key: SessionKey, now: Time)
      returns (sessions: map<SessionKey, SessionRow>, id: SessionId)
      ensures sessions == ResolvedSessions(tx, key, now) && key in sessions && sessions[key].activeSessionId == id
      ensures key in tx.sessions ==> sessions == tx.sessions
      ensures key !in tx.sessions ==>
                id == now && sessions.Keys == tx.sessions.Keys + {key} && sessions[key].messageCount == 0
                && sessions[key].tokens == Tokens(0, 0, 0) && sessions[key].lastRunId == None
      ensures forall k :: k in tx.sessions ==> k in sessions && sessions[k] == tx.sessions[k]
    {
      if key in tx.sessions {
        return tx.sessions, tx.sessions[key].activeSessionId;
      }
      id := now;
      sessions := tx.sessions[key := SessionRow(id, 0, Tokens(0, 0, 0), "", None, now)];
    }

    /** Only a received event becomes queued; no other event and no other table changes. */
    method MarkEventQueued(e: EventId, now: Time)
      modifies this
      ensures db == AfterMarkQueued(old(db), e, now)
      ensures db == old(db).(events := db.events) && db.events.Keys == old(db).events.Keys
      ensures forall x :: x in db.events && x != e ==> db.events[x] == old(db).events[x]
      ensures e in db.events ==>
                (db.events[e].status == Queued <==> old(db).events[e].status in {Received, Queued})
                && (old(db).events[e].status != Received ==> db.events[e] == old(db).events[e])
                && (old(db).events[e].status == Received ==>
                      db.events[e] == old(db).events[e].(status := Queued, updatedAt := now))
    {
      if e in db.events && db.events[e].status == Received {
        db := db.(events := db.events[e := db.events[e].(status := Queued, updatedAt := now)]);
      }
    }

    /** The oldest runnable events, at most limit of them (64 when no limit is given). */
    method ListRunnable(limit: int) returns (ids: seq<EventId>)
      ensures NoRepeats(ids) && forall e :: e in ids ==> e in db.events && db.events[e].status in {Received, Queued}
      ensures |ids| <= if limit <= 0 then 64 else limit
      ensures OldestFirst(db, ids)
      ensures forall e :: e in db.events && db.events[e].status in {Received, Queued} && e !in ids ==>
                |ids| == (if limit <= 0 then 64 else limit) && forall x :: x in ids ==> UpdatedEarlier(db, x, e)
    {
      var runnable := set e | e in db.events && Runnable(db.events[e]);
      var all := InOrder(UpdatedAt(db), runnable);
      var n := if limit <= 0 then 64 else limit;
      if |all| <= n {
        return all;
      }
      ids := all[..n];
      assert forall e :: e in ids ==> e in all;
      forall e, x | e in all && e !in ids && x in ids ensures UpdatedEarlier(db, x, e) {
        var i :| 0 <= i < |all| && all[i] == e;
        var j :| 0 <= j < n && all[j] == x;
        assert forall k :: 0 <= k < n ==> ids[k] == all[k];
        assert i >= n;
      }
    }

    method ClaimWork(e: EventId, r: RunId, now: Time) returns (result: ClaimResult)
      modifies this
      ensures db == AfterClaim(old(db), e, r, now)
      ensures result.NoMutation? <==> !Claimable(old(db), e)
      ensures result.ClaimedWork? <==> Claimable(old(db), e) && r !in old(db).runs
      ensures result.ClaimedWork? ==>
                result.sessionKey == old(db).events[e].sessionKey && result.sessionId == old(db).events[e].sessionId
                && TakenUp(old(db), db, e, r, now)
      ensures !result.NoMutation? ==>
                old(db).events[e].status in {Received, Queued}
                && forall q :: q in old(db).runs && old(db).runs[q].eventId == e ==> old(db).runs[q].status != RunStarted
    {
      var tx := db;
      if e !in tx.events || !Runnable(tx.events[e])
         || exists q :: q in tx.runs && tx.runs[q].eventId == e && tx.runs[q].status == RunStarted
      {
        if q :| q in tx.runs && tx.runs[q].eventId == e && tx.runs[q].status == RunStarted {
          assert StartedOn(tx, q, e);
        }
        return NoMutation;
      }
      assert forall q :: !StartedOn(tx, q, e);
      var row := tx.events[e];
      tx := tx.(events := tx.events[e := row.(status := Processing, processingStartedAt := Some(now),
                                              updatedAt := now, runId := Some(r))]);
      if r in tx.runs {
        return ClaimError;
      }
      tx := tx.(runs := tx.runs[r := RunRow(e, row.sessionKey, RunStarted, "", Tokens(0, 0, 0), now, 0)]);
      db := tx;
      result := ClaimedWork(row.sessionKey, row.sessionId);
    }

    /** The sweep's query, read before any of its transactions. */
    method ExpiredIds(cutoff: Time) returns (ids: seq<EventId>)
      ensures NoRepeats(ids) && forall e :: e in ids <==> Expired(db, e, cutoff)
      ensures LeasesOver(db, ids, cutoff) && OldestFirst(db, ids)
    {
      ids := InOrder(UpdatedAt(db), set e | e in db.events && Expired(db, e, cutoff));
    }

    /** One sweep: select the expired events, then one transaction each, until a transaction fails. */
    method RecoverExpiredProcessing(cutoff: Time, now: Time, broken: set<EventId>)
      returns (ids: seq<EventId>, done: nat, ok: bool)
      modifies this
      ensures NoRepeats(ids) && forall e :: e in ids <==> Expired(old(db), e, cutoff)
      ensures done <= |ids| && db == AfterRecoverAll(old(db), ids[..done], now)
      ensures LeasesOver(old(db), ids, cutoff) && OldestFirst(old(db), ids)
      ensures (ok <==> done == |ids|) && (!ok ==> ids[done] in broken) && forall i :: 0 <= i < done ==> ids[i] !in broken
    {
      ids := ExpiredIds(cutoff);
      done := 0;
      while done < |ids|
        invariant done <= |ids| && db == AfterRecoverAll(old(db), ids[..done], now)
        invariant forall i :: 0 <= i < done ==> ids[i] !in broken
      {
        if ids[done] in broken {
          return ids, done, false;
        }
        assert ids[..done + 1][..done] == ids[..done];
        RecoverOne(ids[done], now);
        done := done + 1;
      }
      ok := true;
    }

    method RecoverOne(e: EventId, now: Time)
      modifies this
      ensures db == AfterRecover(old(db), e, now)
      ensures GivenBack(old(db), db, e, now)
    {
      var tx := db;
      var runs := tx.runs;
      var todo := tx.runs.Keys;
      while todo != {}
        invariant db == old(db) && todo <= tx.runs.Keys && runs.Keys == tx.runs.Keys
        invariant forall r :: r in tx.runs ==>
                    runs[r] == if r !in todo && StartedOn(tx, r, e)
                               then tx.runs[r].(status := RunFailed, finishedAt := now) else tx.runs[r]
      {
        var r := Take(todo);
        if runs[r].eventId == e && runs[r].status == RunStarted {
          runs := runs[r := runs[r].(status := RunFailed, finishedAt := now)];
        }
        todo := todo - {r};
      }
      if e in tx.events && tx.events[e].status == Processing {
        tx := tx.(events := tx.events[e := tx.events[e].(status := Queued, processingStartedAt := None, updatedAt := now)]);
      }
      assert runs == AfterRecover(db, e, now).runs;
      db := tx.(runs := runs);
    }

    method Finalize(cmd: FinalizeCommand) returns (ok: bool)
      modifies this
      ensures ok <==> FinalizeKeysFree(old(db), cmd)
      ensures db == AfterFinalize(old(db), cmd)
    {
      var tx := db;
      var i := 0;
      while i < |cmd.messages|
        invariant 0 <= i <= |cmd.messages|
        invariant tx == db.(messages := WithMessages(db.messages, cmd, i))
        invariant forall j :: 0 <= j < i ==> cmd.messages[j].id !in db.messages
        invariant forall j, k :: 0 <= j < k < i ==> cmd.messages[j].id != cmd.messages[k].id
        invariant forall m :: m in tx.messages <==> m in db.messages || exists j :: 0 <= j < i && cmd.messages[j].id == m
      {
        var m := cmd.messages[i];
        if m.id in tx.messages {
          return false;
        }
        tx := tx.(messages := tx.messages[m.id := MessageRow(cmd.sessionKey, cmd.runId, m.role, m.visible)]);
        i := i + 1;
      }
      if cmd.runId in tx.runs {
        tx := tx.(runs := tx.runs[cmd.runId := tx.runs[cmd.runId].(status := cmd.runStatus, model := cmd.model,
                                                                   tokens := cmd.tokens, finishedAt := cmd.now)]);
      }
      var outboxId, outboxStatus := None, None;
      if !Blank(cmd.outboxBody) && cmd.eventStatus == Processed {
        if cmd.now in tx.outbox {
          return false;
        }
        outboxId, outboxStatus := Some(cmd.now), Some(Pending);
        tx := tx.(outbox := tx.outbox[cmd.now := OutboxRow(cmd.eventId, cmd.outboxBody, Pending, cmd.now, None, 0)]);
      }
      if cmd.eventId in tx.events {
        tx := tx.(events := tx.events[cmd.eventId := tx.events[cmd.eventId].(
                    status := cmd.eventStatus, runId := Some(cmd.runId), outboxId := outboxId, outboxStatus := outboxStatus,
                    processingStartedAt := None, updatedAt := cmd.now)]);
      }
      assert tx == FinalizedFacts(db, cmd);
      var sessions := RecomputeSessionAggregate(tx, cmd.sessionKey, cmd.now);
      db := tx.(sessions := sessions);
      ok := true;
    }

    method CountMessages(messages: map<MessageId, MessageRow>, key: SessionKey) returns (n: nat)
      ensures n == |CountedMessages(messages, key)|
    {
      n := 0;
      var todo := messages.Keys;
      ghost var counted := {};
      while todo != {}
        invariant todo <= messages.Keys
        invariant counted == (set m | m in CountedMessages(messages, key) && m !in todo)
        invariant n == |counted|
      {
        var m := Take(todo);
        if messages[m].sessionKey == key && messages[m].visible && messages[m].role != OtherRole {
          counted := counted + {m};
          n := n + 1;
        }
        todo := todo - {m};
      }
      assert counted == CountedMessages(messages, key);
    }

    /** Both run queries of the projection: the token sums and the last completed run. */
    method ScanCompleted(completed: map<RunId, RunRow>) returns (sum: Tokens, last: Option<RunId>)
      ensures sum == SumTokens(completed)
      ensures last.None? <==> completed.Keys == {}
      ensures last.Some? ==> FinishedLast(completed, last.value)
    {
      sum, last := Tokens(0, 0, 0), None;
      var todo := completed.Keys;
      ghost var seen: map<RunId, RunRow> := map[];
      while todo != {}
        invariant todo <= completed.Keys
        invariant seen == map r | r in completed && r !in todo :: completed[r]
        invariant sum == SumTokens(seen)
        invariant last.None? <==> seen.Keys == {}
        invariant last.Some? ==> FinishedLast(seen, last.value)
      {
        var r := Take(todo);
        ghost var next := seen[r := completed[r]];
        assert Without(next, r) == seen;
        TotalsWithout(next, r);
        var tokens := completed[r].tokens;
        sum := Tokens(sum.prompt + tokens.prompt, sum.completion + tokens.completion, sum.total + tokens.total);
        if last.None? || FinishedBefore(completed, last.value, r) {
          last := Some(r);
        }
        seen := next;
        todo := todo - {r};
      }
      assert seen == completed;
    }

    method RecomputeSessionAggregate(tx: Db, key: SessionKey, now: Time) returns (sessions: map<SessionKey, SessionRow>)
      ensures sessions == Reprojected(tx, key, now)
      ensures sessions.Keys == tx.sessions.Keys && forall k :: k in sessions && k != key ==> sessions[k] == tx.sessions[k]
      ensures key in sessions ==>
                Agrees(tx.(sessions := sessions), key)
                && sessions[key].activeSessionId == tx.sessions[key].activeSessionId
                && (sessions[key].lastRunId == None ==> sessions[key].lastActivityAt == now)
    {
      var messageCount := CountMessages(tx.messages, key);
      var completed := CompletedRuns(tx.runs, key);
      var sum, last := ScanCompleted(completed);
      if key !in tx.sessions {
        return tx.sessions;
      }
      var row := tx.sessions[key].(messageCount := messageCount, tokens := sum);
      if last.None? {
        return tx.sessions[key := row.(lastRunId := None, lastModel := "", lastActivityAt := now)];
      }
      var r := last.value;
      sessions := tx.sessions[key := row.(lastRunId := Some(r), lastModel := completed[r].model,
                                          lastActivityAt := completed[r].finishedAt)];
    }

    method RecoverExpiredSending(cutoff: Time, now: Time)
      modifies this
      ensures db == AfterRecoverSending(old(db), cutoff, now)
      ensures StaleLocksReleased(old(db), db, cutoff, now)
      ensures forall o :: o in db.outbox && db.outbox[o].status == Sending && db.outbox[o].lockedAt.Some? ==>
                db.outbox[o].lockedAt.value > cutoff
    {
      var expired := set o | o in db.outbox && SendingExpired(db.outbox[o], cutoff);
      var tx := db;
      var todo := expired;
      NothingRequeued(db, now);
      while todo != {}
        invariant db == old(db) && todo <= expired <= db.outbox.Keys
        invariant tx == Requeued(db, expired - todo, now)
      {
        var o := Take(todo);
        RequeuedOneMore(db, expired - todo, o, now);
        tx := tx.(outbox := tx.outbox[o := tx.outbox[o].(status := RetryWait, lockedAt := None, nextAttemptAt := now)],
                  events := MirrorStatus(tx.events, tx.outbox[o].eventId, RetryWait, now));
        assert expired - (todo - {o}) == (expired - todo) + {o};
        todo := todo - {o};
      }
      assert expired - todo == expired;
      db := tx;
    }

    method ClaimRuntimeOutbox(now: Time) returns (claimed: Option<ClaimedOutbox>)
      modifies this
      ensures claimed.None? ==>
                db == old(db)
                && forall o :: o in db.outbox && db.outbox[o].status in {Pending, RetryWait} ==> db.outbox[o].nextAttemptAt > now
      ensures claimed.Some? ==>
                var rows := old(db).outbox;
                var o := claimed.value.outboxId;
                && o in rows && rows[o].status in {Pending, RetryWait} && rows[o].nextAttemptAt <= now
                && (forall p :: p in rows && p != o && rows[p].status in {Pending, RetryWait} ==>
                      rows[o].nextAttemptAt < rows[p].nextAttemptAt || (rows[o].nextAttemptAt == rows[p].nextAttemptAt && o < p))
                && db.outbox == rows[o := rows[o].(status := Sending, lockedAt := Some(now))]
      ensures claimed.Some? ==>
                var o := claimed.value.outboxId;
                NextToSend(old(db), o, now) && db == AfterClaimOutbox(old(db), o, now)
                && claimed.value == ClaimedOutbox(o, old(db).outbox[o].eventId, old(db).outbox[o].attemptCount)
    {
      var sendable := set o | o in db.outbox && Sendable(db, o, now);
      if sendable == {} {
        forall o | o in db.outbox ensures !Sendable(db, o, now) {
          assert o !in sendable;
        }
        return None;
      }
      var o := Earliest(NextAttempts(db), sendable);
      var row := db.outbox[o];
      assert forall p :: Sendable(db, p, now) ==> p in sendable;
      assert forall p :: p in db.outbox && db.outbox[p].status in {Pending, RetryWait} && db.outbox[p].nextAttemptAt <= now ==>
               p in sendable;
      var tx := db.(outbox := db.outbox[o := row.(status := Sending, lockedAt := Some(now))]);
      db := tx.(events := MirrorStatus(tx.events, row.eventId, Sending, now));
      claimed := Some(ClaimedOutbox(o, row.eventId, row.attemptCount));
    }

    method FailOutboxSend(msg: ClaimedOutbox, dead: bool, nextAttemptAt: Time, now: Time)
      modifies this
      ensures db == AfterFailSend(old(db), msg, dead, nextAttemptAt, now)
      ensures OnlyRow(old(db), db, msg) && SentMirrored(db, msg, if dead then Dead else RetryWait, now)
      ensures msg.outboxId in db.outbox ==>
                db.outbox[msg.outboxId].attemptCount == old(db).outbox[msg.outboxId].attemptCount + 1
                && db.outbox[msg.outboxId].nextAttemptAt == nextAttemptAt
    {
      var status := if dead then Dead else RetryWait;
      var tx := db;
      if msg.outboxId in tx.outbox {
        var row := tx.outbox[msg.outboxId];
        tx := tx.(outbox := tx.outbox[msg.outboxId := row.(status := status, lockedAt := None,
                                                           attemptCount := row.attemptCount + 1, nextAttemptAt := nextAttemptAt)]);
      }
      db := tx.(events := MirrorStatus(tx.events, msg.eventId, status, now));
    }

    method CompleteOutboxSend(msg: ClaimedOutbox, now: Time)
      modifies this
      ensures db == AfterCompleteSend(old(db), msg, now)
      ensures OnlyRow(old(db), db, msg) && SentMirrored(db, msg, Sent, now)
      ensures msg.outboxId in db.outbox ==>
                db.outbox[msg.outboxId].attemptCount == old(db).outbox[msg.outboxId].attemptCount
    {
      var tx := db;
      if msg.outboxId in tx.outbox {
        tx := tx.(outbox := tx.outbox[msg.outboxId := tx.outbox[msg.outboxId].(status := Sent, lockedAt := None)]);
      }
      db := tx.(events := MirrorStatus(tx.events, msg.eventId, Sent, now));
    }
  }
}
