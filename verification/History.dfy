/** Loading the tail of a session's history and repairing it, so that every tool message the model sees
    answers a call it also sees. */
module History {
  import opened Basics
  import Agent

  datatype Role = Assistant | Tool | Other(name: string)

  datatype HistoryMessage = HistoryMessage(role: Role, content: string, calls: seq<Agent.ToolCall>,
      callId: string, payloadType: string)

  datatype ModelMessage = ModelMessage(role: Role, content: string, calls: seq<Agent.ToolCall>, callId: string)

  predicate Skipped(m: HistoryMessage) {
    m.payloadType == "cron_fire" || m.payloadType == "new_session"
  }

  /** What the model is sent for a message that is kept. */
  function Project(m: HistoryMessage): ModelMessage {
    match m.role
    case Assistant => ModelMessage(Assistant, m.content, m.calls, "")
    case Tool => ModelMessage(Tool, m.content, [], m.callId)
    case Other(_) => ModelMessage(m.role, m.content, [], m.callId)
  }

  function CallIds(calls: seq<Agent.ToolCall>): set<string> {
    set c | c in calls && !Blank(c.id) :: c.id
  }

  predicate Keeps(m: HistoryMessage, pending: set<string>) {
    && !Skipped(m)
    && match m.role
       case Assistant => !(Blank(m.content) && m.calls == [])
       case Tool => !Blank(m.callId) && m.callId in pending
       case Other(_) => true
  }

  /** The calls still to be answered after a kept message. */
  function Pending(m: HistoryMessage, pending: set<string>): set<string> {
    match m.role
    case Assistant => pending + CallIds(m.calls)
    case Tool => pending - {m.callId}
    case Other(_) => pending
  }

  datatype Scan = Scan(out: seq<ModelMessage>, pending: set<string>)

  function Scanned(s: Scan, history: seq<HistoryMessage>): Scan
    decreases |history|
  {
    if history == [] then s
    else if Keeps(history[0], s.pending) then
      Scanned(Scan(s.out + [Project(history[0])], Pending(history[0], s.pending)), history[1..])
    else Scanned(s, history[1..])
  }

  const START := Scan([], {})

  function Repaired(history: seq<HistoryMessage>): seq<ModelMessage> {
    Scanned(START, history).out
  }

  /** historyToChatMessages. */
  method HistoryToChatMessages(history: seq<HistoryMessage>) returns (out: seq<ModelMessage>)
    ensures out == Repaired(history)
  {
    out := [];
    var pending: set<string> := {};
    var i := 0;
    while i < |history|
      invariant 0 <= i <= |history|
      invariant Scanned(Scan(out, pending), history[i..]).out == Repaired(history)
    {
      var msg := history[i];
      assert history[i..][0] == msg && history[i..][1..] == history[i + 1..];
      i := i + 1;
      if Skipped(msg) {
        continue;
      }
      match msg.role {
        case Assistant =>
          if Blank(msg.content) && msg.calls == [] {
            continue;
          }
          out := out + [ModelMessage(Assistant, msg.content, msg.calls, "")];
          ghost var before := pending;
          var j := 0;
          while j < |msg.calls|
            invariant 0 <= j <= |msg.calls|
            invariant pending == before + CallIds(msg.calls[..j])
          {
            var id := msg.calls[j].id;
            assert msg.calls[..j + 1] == msg.calls[..j] + [msg.calls[j]];
            if !Blank(id) {
              pending := pending + {id};
            }
            j := j + 1;
          }
          assert msg.calls[..j] == msg.calls;
        case Tool =>
          if Blank(msg.callId) || msg.callId !in pending {
            continue;
          }
          out := out + [ModelMessage(Tool, msg.content, [], msg.callId)];
          pending := pending - {msg.callId};
        case Other(_) =>
          out := out + [ModelMessage(msg.role, msg.content, [], msg.callId)];
      }
    }
  }

  // ----- For every history -----------------------------------------------------------------------------

  /** xs is ys with some elements left out. */
  predicate Subsequence(xs: seq<ModelMessage>, ys: seq<ModelMessage>) {
    if xs == [] then true
    else if ys == [] then false
    else if xs[0] == ys[0] then Subsequence(xs[1..], ys[1..])
    else Subsequence(xs, ys[1..])
  }

  function Projected(history: seq<HistoryMessage>): seq<ModelMessage> {
    if history == [] then [] else [Project(history[0])] + Projected(history[1..])
  }

  lemma {:induction false} ScanAppends(s: Scan, history: seq<HistoryMessage>)
    ensures Scanned(s, history).out == s.out + Scanned(Scan([], s.pending), history).out
    ensures Scanned(s, history).pending == Scanned(Scan([], s.pending), history).pending
    decreases |history|
  {
    if history != [] {
      var m := history[0];
      if Keeps(m, s.pending) {
        var p := Pending(m, s.pending);
        ScanAppends(Scan(s.out + [Project(m)], p), history[1..]);
        ScanAppends(Scan([Project(m)], p), history[1..]);
        assert [] + [Project(m)] == [Project(m)];
      } else {
        ScanAppends(s, history[1..]);
        ScanAppends(Scan([], s.pending), history[1..]);
      }
    }
  }

  lemma {:induction false} SkippingIsFree(xs: seq<ModelMessage>, y: ModelMessage, ys: seq<ModelMessage>)
    requires Subsequence(xs, ys)
    ensures Subsequence(xs, [y] + ys)
    decreases |ys|, 1
  {
    assert ([y] + ys)[1..] == ys;
    if xs != [] && xs[0] == y {
      TailIsSubsequence(xs, ys);
    }
  }

  lemma {:induction false} TailIsSubsequence(xs: seq<ModelMessage>, ys: seq<ModelMessage>)
    requires Subsequence(xs, ys) && xs != []
    ensures Subsequence(xs[1..], ys)
    decreases |ys|, 0
  {
    assert ys == [ys[0]] + ys[1..];
    if xs[0] == ys[0] {
      SkippingIsFree(xs[1..], ys[0], ys[1..]);
    } else {
      TailIsSubsequence(xs, ys[1..]);
      SkippingIsFree(xs[1..], ys[0], ys[1..]);
    }
  }

  /** The repaired history is the history with some messages left out, in the same order. */
  lemma {:induction false} RepairedIsSubsequence(history: seq<HistoryMessage>, pending: set<string>)
    ensures Subsequence(Scanned(Scan([], pending), history).out, Projected(history))
    decreases |history|
  {
    if history != [] {
      var m := history[0];
      if Keeps(m, pending) {
        var p := Pending(m, pending);
        RepairedIsSubsequence(history[1..], p);
        ScanAppends(Scan([] + [Project(m)], p), history[1..]);
        var rest := Scanned(Scan([], p), history[1..]).out;
        assert ([Project(m)] + rest)[1..] == rest;
      } else {
        RepairedIsSubsequence(history[1..], pending);
        SkippingIsFree(Scanned(Scan([], pending), history[1..]).out, Project(m), Projected(history[1..]));
      }
    }
  }

  /** The tool message at i answers a call of an earlier assistant message, and no tool message in between
      has answered it. */
  ghost predicate AnswersOpenCall(out: seq<ModelMessage>, i: nat)
    requires i < |out|
  {
    exists j :: 0 <= j < i && Calls(out[j], out[i].callId)
                && forall k :: j < k < i ==> !(out[k].role == Tool && out[k].callId == out[i].callId)
  }

  predicate Calls(m: ModelMessage, id: string) {
    m.role == Assistant && !Blank(id) && exists c :: c in m.calls && c.id == id
  }

  lemma CallsAreCallIds(m: ModelMessage, id: string)
    ensures Calls(m, id) <==> m.role == Assistant && id in CallIds(m.calls)
  {
  }

  /** Call id is open at the end of out. */
  ghost predicate Open(out: seq<ModelMessage>, id: string) {
    exists j :: 0 <= j < |out| && Calls(out[j], id)
                && forall k :: j < k < |out| ==> !(out[k].role == Tool && out[k].callId == id)
  }

  /** The pending set is what is open in the output so far. */
  ghost predicate OpenArePending(out: seq<ModelMessage>, pending: set<string>) {
    forall id :: id in pending <==> Open(out, id)
  }

  lemma OpenInMore(out: seq<ModelMessage>, m: ModelMessage, id: string)
    ensures Open(out + [m], id) <==> Calls(m, id) || (Open(out, id) && !(m.role == Tool && m.callId == id))
  {
    var next := out + [m];
    assert forall k :: 0 <= k < |out| ==> next[k] == out[k];
    assert next[|out|] == m;
    if Open(next, id) && !Calls(m, id) {
      var j :| 0 <= j < |next| && Calls(next[j], id) && forall k :: j < k < |next| ==> !(next[k].role == Tool && next[k].callId == id);
      assert j < |out| && Calls(out[j], id);
      assert forall k :: j < k < |out| ==> !(out[k].role == Tool && out[k].callId == id);
    }
    if Open(out, id) && !(m.role == Tool && m.callId == id) {
      var j :| 0 <= j < |out| && Calls(out[j], id) && forall k :: j < k < |out| ==> !(out[k].role == Tool && out[k].callId == id);
      assert Calls(next[j], id);
    }
  }

  lemma {:induction false} OpenAfter(out: seq<ModelMessage>, m: HistoryMessage, pending: set<string>)
    requires Keeps(m, pending) && OpenArePending(out, pending)
    ensures OpenArePending(out + [Project(m)], Pending(m, pending))
  {
    forall id ensures id in Pending(m, pending) <==> Open(out + [Project(m)], id) {
      OpenInMore(out, Project(m), id);
      CallsAreCallIds(Project(m), id);
    }
  }

  ghost predicate AllAnswer(out: seq<ModelMessage>) {
    forall i :: 0 <= i < |out| && out[i].role == Tool ==> AnswersOpenCall(out, i)
  }

  lemma {:induction false} AnswerAfter(out: seq<ModelMessage>, m: HistoryMessage, pending: set<string>)
    requires Keeps(m, pending) && AllAnswer(out) && OpenArePending(out, pending)
    ensures AllAnswer(out + [Project(m)])
  {
    var next := out + [Project(m)];
    forall i | 0 <= i < |next| && next[i].role == Tool ensures AnswersOpenCall(next, i) {
      if i < |out| {
        assert AnswersOpenCall(out, i);
        var j :| 0 <= j < i && Calls(out[j], out[i].callId)
                 && forall k :: j < k < i ==> !(out[k].role == Tool && out[k].callId == out[i].callId);
        assert next[j] == out[j] && forall k :: j < k < i ==> next[k] == out[k];
      } else {
        assert Open(out, m.callId);
        var j :| 0 <= j < |out| && Calls(out[j], m.callId)
                 && forall k :: j < k < |out| ==> !(out[k].role == Tool && out[k].callId == m.callId);
        assert next[j] == out[j] && forall k :: j < k < i ==> next[k] == out[k];
      }
    }
  }

  lemma {:induction false} ScanAnswersOpenCalls(s: Scan, history: seq<HistoryMessage>)
    requires AllAnswer(s.out) && OpenArePending(s.out, s.pending)
    ensures AllAnswer(Scanned(s, history).out) && OpenArePending(Scanned(s, history).out, Scanned(s, history).pending)
    decreases |history|
  {
    if history != [] {
      var m := history[0];
      if Keeps(m, s.pending) {
        OpenAfter(s.out, m, s.pending);
        AnswerAfter(s.out, m, s.pending);
        ScanAnswersOpenCalls(Scan(s.out + [Project(m)], Pending(m, s.pending)), history[1..]);
      } else {
        ScanAnswersOpenCalls(s, history[1..]);
      }
    }
  }

  /** Every tool message of a repaired history answers an earlier call that is still open. */
  lemma ToolMessagesAnswerOpenCalls(history: seq<HistoryMessage>)
    ensures AllAnswer(Repaired(history))
  {
    ScanAnswersOpenCalls(START, history);
  }

  /** What the model sees of a kept message: its role and content, the calls of an assistant message, and the
      call id of any other. */
  predicate ShownAs(m: HistoryMessage, p: ModelMessage) {
    && p.role == m.role && p.content == m.content
    && p.calls == (if m.role == Assistant then m.calls else [])
    && p.callId == (if m.role == Assistant then "" else m.callId)
  }

  /** A message is sent unless its run is skipped, it is an assistant message that says and calls nothing, or it
      is a tool message that answers no call open in what was sent before. */
  ghost predicate IsSent(m: HistoryMessage, before: seq<ModelMessage>) {
    && m.payloadType != "cron_fire" && m.payloadType != "new_session"
    && (m.role == Assistant ==> !Blank(m.content) || m.calls != [])
    && (m.role == Tool ==> !Blank(m.callId) && Open(before, m.callId))
  }

  /** The repair message by message: each one is appended as it is shown, or left out, by what was sent before. */
  lemma RepairDecides(history: seq<HistoryMessage>, m: HistoryMessage)
    ensures var before, after := Repaired(history), Repaired(history + [m]);
            if IsSent(m, before) then after != [] && after[..|after| - 1] == before && ShownAs(m, after[|after| - 1])
            else after == before
  {
    ScanAnswersOpenCalls(START, history);
    ScanOfConcat(START, history, [m]);
    assert [m][1..] == [];
    var s := Scanned(START, history);
    assert Keeps(m, s.pending) <==> IsSent(m, s.out);
    if IsSent(m, s.out) {
      assert (s.out + [Project(m)])[..|s.out|] == s.out;
    }
  }

  /** A model message as history, without a payload type. */
  function Lifted(ms: seq<ModelMessage>): seq<HistoryMessage> {
    if ms == [] then []
    else Lifted(ms[..|ms| - 1]) + [HistoryMessage(ms[|ms| - 1].role, ms[|ms| - 1].content, ms[|ms| - 1].calls, ms[|ms| - 1].callId, "")]
  }

  lemma {:induction false} ScanOfConcat(s: Scan, a: seq<HistoryMessage>, b: seq<HistoryMessage>)
    ensures Scanned(s, a + b) == Scanned(Scanned(s, a), b)
    decreases |a|
  {
    if a == [] {
      assert a + b == b;
    } else {
      var m := a[0];
      assert (a + b)[0] == m && (a + b)[1..] == a[1..] + b;
      ScanOfConcat(if Keeps(m, s.pending) then Scan(s.out + [Project(m)], Pending(m, s.pending)) else s, a[1..], b);
    }
  }

  lemma {:induction false} RepairedAgain(s: Scan, history: seq<HistoryMessage>)
    requires Scanned(START, Lifted(s.out)) == s
    ensures var r := Scanned(s, history); Scanned(START, Lifted(r.out)) == r
    decreases |history|
  {
    if history != [] {
      var m := history[0];
      if Keeps(m, s.pending) {
        var p := Project(m);
        var lifted := HistoryMessage(p.role, p.content, p.calls, p.callId, "");
        var next := Scan(s.out + [p], Pending(m, s.pending));
        assert (s.out + [p])[..|s.out|] == s.out;
        ScanOfConcat(START, Lifted(s.out), [lifted]);
        assert Keeps(lifted, s.pending) && Project(lifted) == p && Pending(lifted, s.pending) == Pending(m, s.pending);
        assert [lifted][1..] == [];
        assert Scanned(s, [lifted]) == next;
        RepairedAgain(next, history[1..]);
      } else {
        RepairedAgain(s, history[1..]);
      }
    }
  }

  /** Repairing twice changes nothing. */
  lemma RepairIsIdempotent(history: seq<HistoryMessage>)
    ensures Repaired(Lifted(Repaired(history))) == Repaired(history)
  {
    RepairedAgain(START, history);
  }

  // ----- Agent transcripts -----------------------------------------------------------------------------

  /** A stored message of an agent run. */
  function Stored(m: Agent.Message, payloadType: string): HistoryMessage {
    match m
    case UserMessage(content) => HistoryMessage(Other("user"), content, [], "", payloadType)
    case AssistantMessage(content, calls) => HistoryMessage(Assistant, content, calls, "", payloadType)
    case ToolMessage(content, callId, _) => HistoryMessage(Tool, content, [], callId, payloadType)
  }

  /** Tool messages with these call ids, in order. */
  predicate Answer(ms: seq<HistoryMessage>, ids: seq<string>) {
    if ms == [] || ids == [] then ms == [] && ids == []
    else ms[0].role == Tool && ms[0].callId == ids[0] && !Skipped(ms[0]) && Answer(ms[1..], ids[1..])
  }

  function Ids(calls: seq<Agent.ToolCall>): (r: seq<string>)
    ensures |r| == |calls|
  {
    if calls == [] then [] else [calls[0].id] + Ids(calls[1..])
  }

  /** Not blank, and no two the same. */
  predicate UsableIds(ids: seq<string>) {
    ids == [] || (!Blank(ids[0]) && ids[0] !in ids[1..] && UsableIds(ids[1..]))
  }

  lemma {:induction false} UsableIdsArePending(calls: seq<Agent.ToolCall>, id: string)
    requires UsableIds(Ids(calls)) && id in Ids(calls)
    ensures id in CallIds(calls)
  {
    if id != calls[0].id {
      UsableIdsArePending(calls[1..], id);
    }
  }

  /** The calls a message makes. */
  function Asked(m: HistoryMessage): seq<string> {
    if m.role == Assistant then Ids(m.calls) else []
  }

  function AskedCount(m: HistoryMessage): nat {
    |Asked(m)|
  }

  /** A message that starts a turn and is kept whatever came before. */
  predicate Opens(m: HistoryMessage) {
    !Skipped(m) && m.role != Tool && (m.role == Assistant ==> !(Blank(m.content) && m.calls == []))
  }

  /** A message that is not a tool message, followed by one answer to each call it makes. */
  ghost predicate Turn(ms: seq<HistoryMessage>) {
    ms != [] && Opens(ms[0]) && UsableIds(Asked(ms[0])) && Answer(ms[1..], Asked(ms[0]))
  }

  /** ms splits into good segments, each as long as its first element says. */
  ghost predicate Segmented<T(!new)>(good: seq<T> -> bool, extra: T -> nat, ms: seq<T>)
    decreases |ms|
  {
    ms == [] || (var n := 1 + extra(ms[0]); n <= |ms| && good(ms[..n]) && Segmented(good, extra, ms[n..]))
  }

  lemma {:induction false} SegmentedConcat<T(!new)>(good: seq<T> -> bool, extra: T -> nat, a: seq<T>, b: seq<T>)
    requires Segmented(good, extra, a) && Segmented(good, extra, b)
    ensures Segmented(good, extra, a + b)
    decreases |a|
  {
    if a == [] {
      assert a + b == b;
    } else {
      var n := 1 + extra(a[0]);
      assert (a + b)[0] == a[0] && (a + b)[..n] == a[..n] && (a + b)[n..] == a[n..] + b;
      SegmentedConcat(good, extra, a[n..], b);
    }
  }

  lemma FirstSegment<T(!new)>(good: seq<T> -> bool, extra: T -> nat, ms: seq<T>) returns (first: seq<T>, rest: seq<T>)
    requires Segmented(good, extra, ms) && ms != []
    ensures first != [] && good(first) && Segmented(good, extra, rest) && ms == first + rest
  {
    var n := 1 + extra(ms[0]);
    first, rest := ms[..n], ms[n..];
  }

  /** Complete turns, one after the other. */
  ghost predicate Conversation(ms: seq<HistoryMessage>) {
    Segmented(Turn, AskedCount, ms)
  }

  lemma ConversationConcat(a: seq<HistoryMessage>, b: seq<HistoryMessage>)
    requires Conversation(a) && Conversation(b)
    ensures Conversation(a + b)
  {
    SegmentedConcat(Turn, AskedCount, a, b);
  }

  lemma {:induction false} AnswersAreTools(ms: seq<HistoryMessage>, ids: seq<string>)
    requires Answer(ms, ids)
    ensures |ms| == |ids| && forall m :: m in ms ==> m.role == Tool
  {
    if ms != [] {
      AnswersAreTools(ms[1..], ids[1..]);
    }
  }

  lemma TurnIsConversation(turn: seq<HistoryMessage>)
    requires Turn(turn)
    ensures Conversation(turn)
  {
    var n := 1 + |Asked(turn[0])|;
    AnswersAreTools(turn[1..], Asked(turn[0]));
    assert turn[..n] == turn && turn[n..] == [];
  }

  lemma {:induction false} AskedArePending(m: HistoryMessage, pending: set<string>)
    requires UsableIds(Asked(m))
    ensures forall id :: id in Asked(m) ==> id in Pending(m, pending)
  {
    forall id | id in Asked(m) ensures id in Pending(m, pending) {
      UsableIdsArePending(m.calls, id);
    }
  }

  lemma {:induction false} HeadIsKept(s: Scan, ms: seq<HistoryMessage>, next: Scan)
    requires ms != [] && Keeps(ms[0], s.pending) && next == Scan(s.out + [Project(ms[0])], Pending(ms[0], s.pending))
    requires Scanned(next, ms[1..]).out == next.out + Projected(ms[1..])
    ensures Scanned(s, ms).out == s.out + Projected(ms)
  {
    assert next.out + Projected(ms[1..]) == s.out + ([Project(ms[0])] + Projected(ms[1..]));
  }

  /** Answers to open calls are all kept. */
  lemma {:induction false} AnswersAreKept(s: Scan, ms: seq<HistoryMessage>, ids: seq<string>)
    requires Answer(ms, ids) && UsableIds(ids) && forall id :: id in ids ==> id in s.pending
    ensures Scanned(s, ms).out == s.out + Projected(ms)
    decreases |ms|
  {
    if ms != [] {
      var next := Scan(s.out + [Project(ms[0])], s.pending - {ids[0]});
      AnswersAreKept(next, ms[1..], ids[1..]);
      HeadIsKept(s, ms, next);
    } else {
      assert s.out + [] == s.out;
    }
  }

  lemma {:induction false} TurnIsKept(s: Scan, turn: seq<HistoryMessage>)
    requires Turn(turn)
    ensures Scanned(s, turn).out == s.out + Projected(turn)
  {
    var next := Scan(s.out + [Project(turn[0])], Pending(turn[0], s.pending));
    AskedArePending(turn[0], s.pending);
    AnswersAreKept(next, turn[1..], Asked(turn[0]));
    HeadIsKept(s, turn, next);
  }

  lemma {:induction false} ProjectedConcat(a: seq<HistoryMessage>, b: seq<HistoryMessage>)
    ensures Projected(a + b) == Projected(a) + Projected(b)
    decreases |a|
  {
    if a == [] {
      assert a + b == b;
    } else {
      assert (a + b)[0] == a[0] && (a + b)[1..] == a[1..] + b;
      ProjectedConcat(a[1..], b);
    }
  }

  lemma {:induction false} TurnThenRest(s: Scan, turn: seq<HistoryMessage>, rest: seq<HistoryMessage>)
    requires Scanned(s, turn).out == s.out + Projected(turn)
    requires Scanned(Scanned(s, turn), rest).out == Scanned(s, turn).out + Projected(rest)
    ensures Scanned(s, turn + rest).out == s.out + Projected(turn + rest)
  {
    ScanOfConcat(s, turn, rest);
    ProjectedConcat(turn, rest);
    assert (s.out + Projected(turn)) + Projected(rest) == s.out + (Projected(turn) + Projected(rest));
  }

  lemma FirstTurn(ms: seq<HistoryMessage>) returns (turn: seq<HistoryMessage>, rest: seq<HistoryMessage>)
    requires Conversation(ms) && ms != []
    ensures Turn(turn) && Conversation(rest) && ms == turn + rest
  {
    turn, rest := FirstSegment(Turn, AskedCount, ms);
  }

  /** Complete turns pass the repair untouched, whatever calls are still open. */
  lemma {:induction false} ConversationIsKept(s: Scan, ms: seq<HistoryMessage>)
    requires Conversation(ms)
    ensures Scanned(s, ms).out == s.out + Projected(ms)
    decreases |ms|
  {
    if ms == [] {
      assert s.out + [] == s.out;
    } else {
      var turn, rest := FirstTurn(ms);
      TurnIsKept(s, turn);
      ConversationIsKept(Scanned(s, turn), rest);
      TurnThenRest(s, turn, rest);
    }
  }

  function StoredAll(ms: seq<Agent.Message>, payloadType: string): (r: seq<HistoryMessage>)
    ensures |r| == |ms|
  {
    if ms == [] then [] else [Stored(ms[0], payloadType)] + StoredAll(ms[1..], payloadType)
  }

  predicate Prompted(payloadType: string) {
    payloadType != "cron_fire" && payloadType != "new_session"
  }

  lemma {:induction false} AnswersAreStored(ms: seq<Agent.Message>, calls: seq<Agent.ToolCall>, payloadType: string)
    requires |ms| == |calls| && Prompted(payloadType)
    requires forall i :: 0 <= i < |ms| ==> Agent.AnswersCall(ms[i], calls[i])
    ensures Answer(StoredAll(ms, payloadType), Ids(calls))
  {
    if ms != [] {
      AnswersAreStored(ms[1..], calls[1..], payloadType);
    }
  }

  lemma {:induction false} BlockIsTurn(block: seq<Agent.Message>, reply: Agent.Reply, payloadType: string)
    requires Agent.IsBlock(block, reply) && reply.calls != [] && UsableIds(Ids(reply.calls)) && Prompted(payloadType)
    ensures Turn(StoredAll(block, payloadType))
  {
    assert forall i :: 0 <= i < |block[1..]| ==> block[1..][i] == block[i + 1];
    AnswersAreStored(block[1..], reply.calls, payloadType);
  }

  lemma {:induction false} BlockIsConversation(block: seq<Agent.Message>, reply: Agent.Reply, payloadType: string)
    requires Agent.IsBlock(block, reply) && reply.calls != [] && UsableIds(Ids(reply.calls)) && Prompted(payloadType)
    ensures Conversation(StoredAll(block, payloadType))
  {
    BlockIsTurn(block, reply, payloadType);
    TurnIsConversation(StoredAll(block, payloadType));
  }

  lemma {:induction false} BlocksAreConversation(ms: seq<Agent.Message>, rounds: seq<Agent.Reply>, payloadType: string)
    requires Agent.IsBlocks(ms, rounds) && Prompted(payloadType)
    requires forall i :: 0 <= i < |rounds| ==> UsableIds(Ids(rounds[i].calls))
    ensures Conversation(StoredAll(ms, payloadType))
    decreases |rounds|
  {
    if rounds != [] {
      var last := rounds[|rounds| - 1];
      var n := |ms| - 1 - |last.calls|;
      BlocksAreConversation(ms[..n], rounds[..|rounds| - 1], payloadType);
      BlockIsConversation(ms[n..], last, payloadType);
      ConversationConcat(StoredAll(ms[..n], payloadType), StoredAll(ms[n..], payloadType));
      StoredConcat(ms[..n], ms[n..], payloadType);
      assert ms == ms[..n] + ms[n..];
    }
  }

  lemma SingleIsTurn(m: HistoryMessage)
    requires Opens(m) && Asked(m) == []
    ensures Conversation([m])
  {
    assert [m][1..] == [];
    TurnIsConversation([m]);
  }

  lemma FramedConversation(first: HistoryMessage, middle: seq<HistoryMessage>, last: seq<HistoryMessage>)
    requires Opens(first) && Asked(first) == [] && Conversation(middle)
    requires |last| <= 1 && (last != [] ==> Opens(last[0]) && Asked(last[0]) == [])
    ensures Conversation([first] + middle + last)
  {
    SingleIsTurn(first);
    ConversationConcat([first], middle);
    if last != [] {
      SingleIsTurn(last[0]);
      assert [last[0]] == last;
    }
    ConversationConcat([first] + middle, last);
  }

  lemma {:induction false} StoredConcat(a: seq<Agent.Message>, b: seq<Agent.Message>, payloadType: string)
    ensures StoredAll(a + b, payloadType) == StoredAll(a, payloadType) + StoredAll(b, payloadType)
  {
    if a == [] {
      assert a + b == b;
    } else {
      assert (a + b)[1..] == a[1..] + b;
      StoredConcat(a[1..], b, payloadType);
    }
  }

  /** The transcript of an agent run is a sequence of complete turns, when its calls have usable ids. */
  lemma {:induction false} TranscriptIsConversation(ms: seq<Agent.Message>, user: string,
      rounds: seq<Agent.Reply>, reply: string, payloadType: string)
    requires Agent.IsTranscript(ms, user, rounds, reply) && (reply != "" ==> !Blank(reply)) && Prompted(payloadType)
    requires forall i :: 0 <= i < |rounds| ==> UsableIds(Ids(rounds[i].calls))
    ensures Conversation(StoredAll(ms, payloadType))
  {
    var n := if reply == "" then |ms| else |ms| - 1;
    var first, middle, last := ms[..1], ms[1..n], ms[n..];
    BlocksAreConversation(middle, rounds, payloadType);
    StoredConcat(first, middle, payloadType);
    StoredConcat(first + middle, last, payloadType);
    assert ms == first + middle + last;
    FramedConversation(Stored(ms[0], payloadType), StoredAll(middle, payloadType), StoredAll(last, payloadType));
  }

  /** What the next run sends of a message of an earlier one. */
  predicate Carries(m: Agent.Message, p: ModelMessage) {
    match m
    case UserMessage(content) => p == ModelMessage(Other("user"), content, [], "")
    case AssistantMessage(content, calls) => p == ModelMessage(Assistant, content, calls, "")
    case ToolMessage(content, callId, _) => p == ModelMessage(Tool, content, [], callId)
  }

  lemma {:induction false} StoredShows(ms: seq<Agent.Message>, payloadType: string)
    ensures var p := Projected(StoredAll(ms, payloadType)); |p| == |ms| && forall i :: 0 <= i < |ms| ==> Carries(ms[i], p[i])
  {
    if ms != [] {
      StoredShows(ms[1..], payloadType);
      var p := Projected(StoredAll(ms, payloadType));
      assert p[1..] == Projected(StoredAll(ms[1..], payloadType));
      assert forall i :: 0 < i < |ms| ==> ms[i] == ms[1..][i - 1] && p[i] == p[1..][i - 1];
    }
  }

  /** Every run of the agent comes back from the repair whole. */
  lemma AgentRunSurvives(user: string, payloadType: string, maxToolRounds: int, model: nat -> Option<Agent.Reply>,
                         rounds: seq<Agent.Reply>, out: Agent.Output)
    requires Agent.Outcome(user, maxToolRounds, model, rounds, out) && Prompted(payloadType)
    requires forall i :: 0 <= i < |rounds| ==> UsableIds(Ids(rounds[i].calls))
    ensures Repaired(StoredAll(out.messages, payloadType)) == Projected(StoredAll(out.messages, payloadType))
    ensures var sent := Repaired(StoredAll(out.messages, payloadType));
            |sent| == |out.messages| && forall i :: 0 <= i < |sent| ==> Carries(out.messages[i], sent[i])
    ensures IsRun(StoredRun(payloadType, user, rounds, out.reply, out.messages))
  {
    StoredShows(out.messages, payloadType);
    var stored := StoredAll(out.messages, payloadType);
    TranscriptIsConversation(out.messages, user, rounds, out.reply, payloadType);
    ConversationIsKept(START, stored);
    assert [] + Projected(stored) == Projected(stored);
  }

  // ----- Tail windows ----------------------------------------------------------------------------------

  /** Where the leading tool messages end. */
  function ToolPrefix(ms: seq<HistoryMessage>): (n: nat)
    ensures n <= |ms| && (n < |ms| ==> ms[n].role != Tool) && forall i :: 0 <= i < n ==> ms[i].role == Tool
  {
    if ms == [] || ms[0].role != Tool then 0 else 1 + ToolPrefix(ms[1..])
  }

  lemma TailOfTurn(turn: seq<HistoryMessage>, k: nat, rest: seq<HistoryMessage>)
    requires Turn(turn) && Conversation(rest) && 0 < k <= |turn|
    ensures var tail := turn[k..] + rest; Conversation(tail[ToolPrefix(tail)..])
  {
    AnswersAreTools(turn[1..], Asked(turn[0]));
    forall i | 0 <= i < |turn[k..]| ensures turn[k..][i].role == Tool {
      assert turn[k..][i] == turn[1..][i + k - 1];
    }
    ToolsThenConversation(turn[k..], rest);
  }

  lemma WholeTail(ms: seq<HistoryMessage>)
    requires Conversation(ms)
    ensures ms[0..] == ms && Conversation(ms[ToolPrefix(ms)..])
  {
    ToolsThenConversation([], ms);
    assert [] + ms == ms[0..] == ms;
  }

  lemma TailOfConcat<T>(a: seq<T>, b: seq<T>, k: nat)
    requires k <= |a + b|
    ensures (a + b)[k..] == if k <= |a| then a[k..] + b else b[k - |a|..]
  {
  }

  /** Every tail of complete turns is some tool messages whose calls were cut off, then complete turns. */
  lemma {:induction false} TailOfConversation(ms: seq<HistoryMessage>, k: nat)
    requires Conversation(ms) && k <= |ms|
    ensures var tail := ms[k..]; Conversation(tail[ToolPrefix(tail)..])
    decreases |ms|
  {
    if k == 0 {
      WholeTail(ms);
    } else {
      var turn, rest := FirstTurn(ms);
      TailOfConcat(turn, rest, k);
      if k <= |turn| {
        TailOfTurn(turn, k, rest);
      } else {
        TailOfConversation(rest, k - |turn|);
      }
    }
  }

  lemma {:induction false} ToolsThenConversation(tools: seq<HistoryMessage>, rest: seq<HistoryMessage>)
    requires (forall i :: 0 <= i < |tools| ==> tools[i].role == Tool) && Conversation(rest)
    ensures ToolPrefix(tools + rest) == |tools| && (tools + rest)[|tools|..] == rest
    decreases |tools|
  {
    if tools == [] {
      assert tools + rest == rest;
      if rest != [] {
        var first, _ := FirstTurn(rest);
        assert rest[0] == first[0];
      }
    } else {
      assert (tools + rest)[0] == tools[0] && (tools + rest)[1..] == tools[1..] + rest;
      ToolsThenConversation(tools[1..], rest);
    }
  }

  /** With no call open, leading tool messages are dropped. */
  lemma {:induction false} LeadingToolsAreDropped(ms: seq<HistoryMessage>)
    ensures Repaired(ms) == Repaired(ms[ToolPrefix(ms)..])
    decreases |ms|
  {
    if ms != [] && ms[0].role == Tool {
      LeadingToolsAreDropped(ms[1..]);
      assert ms[1..][ToolPrefix(ms[1..])..] == ms[ToolPrefix(ms)..];
    }
  }

  /** On any tail window of complete turns the repair drops exactly the tool messages whose call was cut
      off and keeps everything else; on a whole conversation it drops nothing. */
  lemma WindowLosesOnlyOrphans(ms: seq<HistoryMessage>, k: nat)
    requires Conversation(ms) && k <= |ms|
    ensures var tail := ms[k..]; Repaired(tail) == Projected(tail[ToolPrefix(tail)..])
    ensures k == 0 ==> Repaired(ms) == Projected(ms)
  {
    var tail := ms[k..];
    LeadingToolsAreDropped(tail);
    TailOfConversation(ms, k);
    ConversationIsKept(START, tail[ToolPrefix(tail)..]);
    ConversationIsKept(START, ms);
    assert [] + Projected(tail[ToolPrefix(tail)..]) == Projected(tail[ToolPrefix(tail)..]);
    assert [] + Projected(ms) == Projected(ms);
  }

  // ----- Loading ---------------------------------------------------------------------------------------

  /** The messages the prompt history is made of, oldest first. */
  function Relevant(ms: seq<HistoryMessage>): seq<HistoryMessage> {
    if ms == [] then []
    else Relevant(ms[..|ms| - 1]) + if Skipped(ms[|ms| - 1]) then [] else [ms[|ms| - 1]]
  }

  function LastOf(ms: seq<HistoryMessage>, n: nat): seq<HistoryMessage> {
    if |ms| <= n then ms else ms[|ms| - n..]
  }

  /** LoadPromptHistory: reads the rows newest first, skips, stops at the limit, and reverses in place. */
  method LoadPromptHistory(rows: seq<HistoryMessage>, limit: int) returns (out: seq<HistoryMessage>)
    ensures out == LastOf(Relevant(rows), if limit <= 0 then 20 else limit)
    ensures var all := Relevant(rows);
            |out| <= |all| && out == all[|all| - |out|..] && (|out| == |all| || |out| == if limit <= 0 then 20 else limit)
  {
    var n := if limit <= 0 then 20 else limit;
    var newestFirst := [];
    var i := |rows|;
    assert rows[..i] == rows;
    while i > 0 && |newestFirst| < n
      invariant 0 <= i <= |rows| && |newestFirst| <= n
      invariant Relevant(rows) == Relevant(rows[..i]) + Reversed(newestFirst)
    {
      var msg := rows[i - 1];
      assert rows[..i][..i - 1] == rows[..i - 1];
      if !Skipped(msg) {
        newestFirst := newestFirst + [msg];
      }
      i := i - 1;
    }
    out := Reverse(newestFirst);
  }

  lemma WindowOfConversation(ms: seq<HistoryMessage>, n: nat)
    requires Conversation(ms)
    ensures var window := LastOf(ms, n); Repaired(window) == Projected(window[ToolPrefix(window)..])
  {
    var k := if |ms| <= n then 0 else |ms| - n;
    assert ms[k..] == LastOf(ms, n);
    WindowLosesOnlyOrphans(ms, k);
  }

  // ----- Whole sessions ----------------------------------------------------------------------------------

  /** What one run of the agent stored: its transcript under its payload type. */
  datatype StoredRun = StoredRun(
    payloadType: string, user: string, rounds: seq<Agent.Reply>, reply: string, messages: seq<Agent.Message>)

  /** A run of the agent whose calls have usable ids, or one the prompt history leaves out anyway. */
  ghost predicate IsRun(run: StoredRun) {
    Prompted(run.payloadType) ==>
      && Agent.IsTranscript(run.messages, run.user, run.rounds, run.reply) && (run.reply != "" ==> !Blank(run.reply))
      && forall i :: 0 <= i < |run.rounds| ==> UsableIds(Ids(run.rounds[i].calls))
  }

  /** The rows of a session, run after run, as each Finalize stores its messages together. */
  function Rows(runs: seq<StoredRun>): seq<HistoryMessage> {
    if runs == [] then []
    else
      var n := |runs| - 1;
      Rows(runs[..n]) + StoredAll(runs[n].messages, runs[n].payloadType)
  }

  lemma {:induction false} RelevantConcat(a: seq<HistoryMessage>, b: seq<HistoryMessage>)
    ensures Relevant(a + b) == Relevant(a) + Relevant(b)
  {
    if b == [] {
      assert a + b == a;
    } else {
      RelevantConcat(a, b[..|b| - 1]);
      assert (a + b)[..|a + b| - 1] == a + b[..|b| - 1];
    }
  }

  lemma {:induction false} RelevantOfRun(ms: seq<Agent.Message>, payloadType: string)
    ensures Relevant(StoredAll(ms, payloadType)) == if Prompted(payloadType) then StoredAll(ms, payloadType) else []
  {
    if ms != [] {
      var n := |ms| - 1;
      RelevantOfRun(ms[..n], payloadType);
      StoredConcat(ms[..n], [ms[n]], payloadType);
      assert ms == ms[..n] + [ms[n]];
      assert StoredAll([ms[n]], payloadType) == [Stored(ms[n], payloadType)];
      RelevantOfOne(StoredAll(ms[..n], payloadType), Stored(ms[n], payloadType));
    }
  }

  lemma {:induction false} RelevantOfOne(a: seq<HistoryMessage>, m: HistoryMessage)
    ensures Relevant(a + [m]) == Relevant(a) + if Skipped(m) then [] else [m]
  {
    assert (a + [m])[..|a|] == a;
  }

  /** The relevant messages of a session made of whole agent runs, skipped runs in between, are complete turns. */
  lemma {:induction false} SessionIsConversation(runs: seq<StoredRun>)
    requires forall i :: 0 <= i < |runs| ==> IsRun(runs[i])
    ensures Conversation(Relevant(Rows(runs)))
  {
    if runs != [] {
      var n := |runs| - 1;
      var run := runs[n];
      var stored := StoredAll(run.messages, run.payloadType);
      SessionIsConversation(runs[..n]);
      RelevantConcat(Rows(runs[..n]), stored);
      RelevantOfRun(run.messages, run.payloadType);
      if Prompted(run.payloadType) {
        assert IsRun(run);
        TranscriptIsConversation(run.messages, run.user, run.rounds, run.reply, run.payloadType);
        ConversationConcat(Relevant(Rows(runs[..n])), stored);
      } else {
        assert Relevant(Rows(runs[..n])) + [] == Relevant(Rows(runs[..n]));
      }
    }
  }

  /** The prompt of a session of whole agent runs: of what LoadPromptHistory reads the model is sent every
      message but the answers whose call lies before the window, and with a large enough limit all of them. */
  lemma PromptSeesTail(runs: seq<StoredRun>, n: nat)
    requires forall i :: 0 <= i < |runs| ==> IsRun(runs[i])
    ensures var window := LastOf(Relevant(Rows(runs)), n); Repaired(window) == Projected(window[ToolPrefix(window)..])
    ensures n >= |Relevant(Rows(runs))| ==> Repaired(LastOf(Relevant(Rows(runs)), n)) == Projected(Relevant(Rows(runs)))
  {
    SessionIsConversation(runs);
    WindowOfConversation(Relevant(Rows(runs)), n);
    WindowLosesOnlyOrphans(Relevant(Rows(runs)), 0);
  }
}
