/** The tool-calling agent run: bounded rounds, tool policy, and the transcript it produces. */
module Agent {
  import opened Basics

  /** path is the cleaned workspace path of a context_get call. */
  datatype ToolCall = ToolCall(id: string, name: string, path: string)

  datatype Usage = Usage(prompt: int, completion: int, total: int)

  datatype Reply = Reply(text: string, calls: seq<ToolCall>, usage: Usage)

  datatype Message =
    | UserMessage(content: string)
    | AssistantMessage(content: string, calls: seq<ToolCall>)
    | ToolMessage(content: string, callId: string, toolName: string)

  datatype Action = Action(index: nat, toolName: string)

  const MAX_ROUNDS_REPLY := "工具调用轮次已达上限。"
  const DENIED := "denied"

  // ----- Tool policy ---------------------------------------------------------------------------------

  const CRON_TOOLS := {"memory_search", "memory_get", "context_get"}
  const INJECTED_FILES := {"SOUL.md", "IDENTITY.md", "USER.md", "AGENTS.md", "TOOLS.md", "BOOTSTRAP.md", "HEARTBEAT.md"}

  /** The allowlist of the plan for a payload type; no allowlist allows every tool. */
  function AllowedTools(payloadType: string): Option<set<string>> {
    if payloadType == "cron_fire" then Some(CRON_TOOLS) else None
  }

  predicate ToolAllowed(name: string, allowed: Option<set<string>>) {
    allowed.Some? ==> name in allowed.value
  }

  function LowerAscii(c: char): char {
    if 'A' <= c <= 'Z' then c - 'A' + 'a' else c
  }

  /** `strings.EqualFold(strings.TrimSpace(payloadType), "cron_fire")`; no letter of cron_fire folds
      outside ASCII. */
  predicate Budgeted(payloadType: string) {
    var t, cron := Trim(payloadType), "cron_fire";
    |t| == |cron| && forall i :: 0 <= i < |cron| ==> LowerAscii(t[i]) == cron[i]
  }

  /** cronFireToolPolicyError: the call is refused under these counts. */
  predicate PolicyRefuses(call: ToolCall, counts: multiset<string>) {
    (call.name in CRON_TOOLS && counts[call.name] >= 1) || (call.name == "context_get" && call.path in INJECTED_FILES)
  }

  /** The tool is really invoked. */
  predicate Invokes(call: ToolCall, payloadType: string, counts: multiset<string>) {
    ToolAllowed(call.name, AllowedTools(payloadType)) && (Budgeted(payloadType) ==> !PolicyRefuses(call, counts))
  }

  // ----- Transcripts ---------------------------------------------------------------------------------

  predicate AnswersCall(m: Message, call: ToolCall) {
    m.ToolMessage? && m.callId == call.id && m.toolName == call.name
  }

  /** One round: the assistant with its calls, then one tool message per call, in order. */
  predicate IsBlock(block: seq<Message>, reply: Reply) {
    && |block| == 1 + |reply.calls|
    && block[0] == AssistantMessage(Trim(reply.text), reply.calls)
    && forall k :: 1 <= k < |block| ==> AnswersCall(block[k], reply.calls[k - 1])
  }

  /** ms is one block per reply. */
  predicate IsBlocks(ms: seq<Message>, replies: seq<Reply>) {
    if replies == [] then ms == []
    else
      var last := replies[|replies| - 1];
      var n := |ms| - 1 - |last.calls|;
      n >= 0 && last.calls != [] && IsBlock(ms[n..], last) && IsBlocks(ms[..n], replies[..|replies| - 1])
  }

  /** The user's message, one block per tool round, and at most one final reply. */
  predicate IsTranscript(ms: seq<Message>, user: string, rounds: seq<Reply>, reply: string) {
    && ms != [] && ms[0] == UserMessage(Trim(user))
    && var n := if reply == "" then |ms| else |ms| - 1;
    && n >= 1 && IsBlocks(ms[1..n], rounds)
    && (reply != "" ==> ms[n] == AssistantMessage(reply, []))
  }

  /** One action per call: action i has index i and names the tool of call i. */
  ghost predicate Listed(actions: seq<Action>, calls: seq<ToolCall>) {
    |actions| == |calls| && forall i :: 0 <= i < |calls| ==> actions[i] == Action(i, calls[i].name)
  }

  function Sum(xs: seq<int>): int {
    if xs == [] then 0 else Sum(xs[..|xs| - 1]) + xs[|xs| - 1]
  }

  /** Each number of the usage is the sum of that number over the replies. */
  ghost predicate IsUsageOf(usage: Usage, replies: seq<Reply>) {
    && usage.prompt == Sum(seq(|replies|, i requires 0 <= i < |replies| => replies[i].usage.prompt))
    && usage.completion == Sum(seq(|replies|, i requires 0 <= i < |replies| => replies[i].usage.completion))
    && usage.total == Sum(seq(|replies|, i requires 0 <= i < |replies| => replies[i].usage.total))
  }

  function AddUsage(a: Usage, b: Usage): Usage {
    Usage(a.prompt + b.prompt, a.completion + b.completion, a.total + b.total)
  }

  lemma SumSnoc(xs: seq<int>, x: int)
    ensures Sum(xs + [x]) == Sum(xs) + x
  {
    assert (xs + [x])[..|xs|] == xs;
  }

  lemma UsagePushed(usage: Usage, replies: seq<Reply>, reply: Reply)
    requires IsUsageOf(usage, replies)
    ensures IsUsageOf(AddUsage(usage, reply.usage), replies + [reply])
  {
    var all := replies + [reply];
    var n := |replies|;
    var p := seq(n, i requires 0 <= i < n => replies[i].usage.prompt);
    var c := seq(n, i requires 0 <= i < n => replies[i].usage.completion);
    var t := seq(n, i requires 0 <= i < n => replies[i].usage.total);
    SumSnoc(p, reply.usage.prompt);
    SumSnoc(c, reply.usage.completion);
    SumSnoc(t, reply.usage.total);
    assert seq(n + 1, i requires 0 <= i < n + 1 => all[i].usage.prompt) == p + [reply.usage.prompt];
    assert seq(n + 1, i requires 0 <= i < n + 1 => all[i].usage.completion) == c + [reply.usage.completion];
    assert seq(n + 1, i requires 0 <= i < n + 1 => all[i].usage.total) == t + [reply.usage.total];
  }

  // ----- What ran ------------------------------------------------------------------------------------

  function AllCalls(rounds: seq<Reply>): seq<ToolCall> {
    if rounds == [] then [] else AllCalls(rounds[..|rounds| - 1]) + rounds[|rounds| - 1].calls
  }

  /** The call runs when these tools ran before it. */
  predicate RunsAfter(call: ToolCall, payloadType: string, ran: seq<string>) {
    Invokes(call, payloadType, if Budgeted(payloadType) then multiset(ran) else multiset{})
  }

  /** The tools that ran among these calls, each judged by what ran before it. */
  function RanNames(payloadType: string, calls: seq<ToolCall>): seq<string> {
    if calls == [] then []
    else
      var n := |calls| - 1;
      var before := RanNames(payloadType, calls[..n]);
      if RunsAfter(calls[n], payloadType, before) then before + [calls[n].name] else before
  }

  /** Call i of the run is one that ran. */
  predicate Ran(payloadType: string, calls: seq<ToolCall>, i: nat)
    requires i < |calls|
  {
    RunsAfter(calls[i], payloadType, RanNames(payloadType, calls[..i]))
  }

  /** cron_fire in any mix of small and capital letters. */
  predicate SpellsCronFire(t: string) {
    && |t| == 9
    && t[0] in {'c', 'C'} && t[1] in {'r', 'R'} && t[2] in {'o', 'O'} && t[3] in {'n', 'N'} && t[4] == '_'
    && t[5] in {'f', 'F'} && t[6] in {'i', 'I'} && t[7] in {'r', 'R'} && t[8] in {'e', 'E'}
  }

  lemma LowerAsciiIs(c: char, small: char)
    requires 'a' <= small <= 'z' || small == '_'
    ensures LowerAscii(c) == small <==> c == small || (small != '_' && c == small - 'a' + 'A')
  {
  }

  /** The budget goes by the trimmed type in any spelling. */
  lemma BudgetedIff(payloadType: string)
    ensures Budgeted(payloadType) <==> SpellsCronFire(Trim(payloadType))
  {
    var t, cron := Trim(payloadType), "cron_fire";
    if |t| == |cron| {
      forall i | 0 <= i < 9
        ensures LowerAscii(t[i]) == cron[i] <==> t[i] == cron[i] || (cron[i] != '_' && t[i] == cron[i] - 'a' + 'A')
      {
        assert cron[i] in {'c', 'r', 'o', 'n', '_', 'f', 'i', 'e'};
        LowerAsciiIs(t[i], cron[i]);
      }
    }
  }

  /** Which calls of a run really run. For cron_fire those of the three tools that ran not yet and do not ask
      for an injected file; for another spelling of it, which has no allowlist, all but repeats of the three
      tools and injected files; otherwise all. So the first call of each cron tool runs. */
  lemma RanIff(payloadType: string, calls: seq<ToolCall>, i: nat)
    requires i < |calls|
    ensures var cron := calls[i].name in {"memory_search", "memory_get", "context_get"};
            var injected := calls[i].path in {"SOUL.md", "IDENTITY.md", "USER.md", "AGENTS.md", "TOOLS.md", "BOOTSTRAP.md", "HEARTBEAT.md"};
            var repeats := calls[i].name in RanNames(payloadType, calls[..i]);
            Ran(payloadType, calls, i) <==>
              (payloadType == "cron_fire" ==> cron)
              && (SpellsCronFire(Trim(payloadType)) ==>
                    !(cron && repeats) && !(calls[i].name == "context_get" && injected))
    ensures RanNames(payloadType, calls[..i + 1])
              == RanNames(payloadType, calls[..i]) + if Ran(payloadType, calls, i) then [calls[i].name] else []
  {
    assert calls[..i + 1][..i] == calls[..i];
    BudgetedIff(payloadType);
    RunsAfterIff(calls[i], payloadType, RanNames(payloadType, calls[..i]));
  }

  lemma RunsAfterIff(call: ToolCall, payloadType: string, ran: seq<string>)
    ensures RunsAfter(call, payloadType, ran) <==>
              ToolAllowed(call.name, AllowedTools(payloadType))
              && (Budgeted(payloadType) ==>
                    !(call.name in CRON_TOOLS && call.name in ran) && !(call.name == "context_get" && call.path in INJECTED_FILES))
  {
  }

  // ----- Tool answers --------------------------------------------------------------------------------

  function ToolMessages(ms: seq<Message>): seq<Message> {
    if ms == [] then []
    else
      var n := |ms| - 1;
      if ms[n].ToolMessage? then ToolMessages(ms[..n]) + [ms[n]] else ToolMessages(ms[..n])
  }

  lemma {:induction false} ToolMessagesConcat(a: seq<Message>, b: seq<Message>)
    ensures ToolMessages(a + b) == ToolMessages(a) + ToolMessages(b)
  {
    if b == [] {
      assert a + b == a;
    } else {
      var n := |b| - 1;
      assert (a + b)[..|a| + n] == a + b[..n] && (a + b)[|a| + n] == b[n];
      ToolMessagesConcat(a, b[..n]);
    }
  }

  lemma {:induction false} AllToolMessages(ms: seq<Message>)
    requires forall k :: 0 <= k < |ms| ==> ms[k].ToolMessage?
    ensures ToolMessages(ms) == ms
  {
    if ms != [] {
      AllToolMessages(ms[..|ms| - 1]);
      assert ms[..|ms| - 1] + [ms[|ms| - 1]] == ms;
    }
  }

  /** The answer to call i of the run: the tool's result when the call ran, the denial otherwise. */
  function AnswerTo(payloadType: string, calls: seq<ToolCall>, tool: nat -> string, i: nat): Message
    requires i < |calls|
  {
    ToolMessage(if Ran(payloadType, calls, i) then tool(i) else DENIED, calls[i].id, calls[i].name)
  }

  /** answers are the tool messages for these calls, one each and in order. */
  ghost predicate Answers(answers: seq<Message>, payloadType: string, calls: seq<ToolCall>, tool: nat -> string) {
    |answers| == |calls| && forall i :: 0 <= i < |calls| ==> answers[i] == AnswerTo(payloadType, calls, tool, i)
  }

  lemma AnswersPushed(answers: seq<Message>, payloadType: string, calls: seq<ToolCall>, call: ToolCall,
                      tool: nat -> string, message: Message)
    requires Answers(answers, payloadType, calls, tool)
    requires message == ToolMessage(if RunsAfter(call, payloadType, RanNames(payloadType, calls)) then tool(|calls|) else DENIED,
                                    call.id, call.name)
    ensures Answers(answers + [message], payloadType, calls + [call], tool)
    ensures RanNames(payloadType, calls + [call])
              == RanNames(payloadType, calls)
                 + if RunsAfter(call, payloadType, RanNames(payloadType, calls)) then [call.name] else []
  {
    var all := calls + [call];
    assert all[..|calls|] == calls;
    assert forall i :: 0 <= i < |calls| ==> all[..i] == calls[..i] && all[i] == calls[i];
  }

  /** calls counts the provider calls, invoked lists the tools that really ran. */
  datatype Output = Output(
    messages: seq<Message>, actions: seq<Action>, usage: Usage, reply: string, failed: bool, calls: nat, invoked: seq<string>)

  method ExecuteTool(call: ToolCall, payloadType: string, counts: multiset<string>, result: string)
    returns (message: Message, counts': multiset<string>, invoked: bool)
    ensures message == ToolMessage(if invoked then result else DENIED, call.id, call.name)
    ensures invoked <==> Invokes(call, payloadType, counts)
    ensures counts' == if invoked && Budgeted(payloadType) then counts + multiset{call.name} else counts
  {
    counts', invoked := counts, false;
    var content := DENIED;
    if !ToolAllowed(call.name, AllowedTools(payloadType)) {
    } else if Budgeted(payloadType) {
      if !PolicyRefuses(call, counts) {
        content, invoked := result, true;
        counts' := counts + multiset{call.name};
      }
    } else {
      content, invoked := result, true;
    }
    message := ToolMessage(content, call.id, call.name);
  }

  /** What the run has invoked so far: these are the tools that ran, counted when budgeted, and within the
      allowlist. */
  predicate Disciplined(payloadType: string, counts: multiset<string>, invoked: seq<string>, calls: seq<ToolCall>) {
    && invoked == RanNames(payloadType, calls)
    && (if Budgeted(payloadType) then counts == multiset(invoked) && forall n :: n in CRON_TOOLS ==> counts[n] <= 1
        else counts == multiset{})
    && forall n :: n in invoked ==> ToolAllowed(n, AllowedTools(payloadType))
  }

  /** The round's block after the first i calls. */
  ghost predicate IsBlockSoFar(block: seq<Message>, reply: Reply, i: nat)
    requires i <= |reply.calls|
  {
    && |block| == 1 + i
    && block[0] == AssistantMessage(Trim(reply.text), reply.calls)
    && forall k :: 1 <= k <= i ==> AnswersCall(block[k], reply.calls[k - 1])
  }

  /** The next call of a round, after the calls in earlier. */
  method ExecuteNext(call: ToolCall, payloadType: string, tool: nat -> string, before: seq<Action>,
      invoked: seq<string>, counts: multiset<string>, ghost earlier: seq<ToolCall>, ghost answers: seq<Message>)
    returns (message: Message, actions: seq<Action>, invoked': seq<string>, counts': multiset<string>)
    requires Disciplined(payloadType, counts, invoked, earlier) && Listed(before, earlier)
    requires Answers(answers, payloadType, earlier, tool)
    ensures AnswersCall(message, call)
    ensures Listed(actions, earlier + [call])
    ensures Disciplined(payloadType, counts', invoked', earlier + [call])
    ensures Answers(answers + [message], payloadType, earlier + [call], tool)
  {
    var ran;
    message, counts', ran := ExecuteTool(call, payloadType, counts, tool(|before|));
    AnswersPushed(answers, payloadType, earlier, call, tool, message);
    invoked' := if ran then invoked + [call.name] else invoked;
    actions := before + [Action(|before|, call.name)];
  }

  method ExecuteRound(reply: Reply, payloadType: string, tool: nat -> string, before: seq<Action>,
      invoked: seq<string>, counts: multiset<string>, ghost earlier: seq<ToolCall>, ghost answers: seq<Message>)
    returns (block: seq<Message>, actions: seq<Action>, invoked': seq<string>, counts': multiset<string>)
    requires Disciplined(payloadType, counts, invoked, earlier) && Listed(before, earlier)
    requires Answers(answers, payloadType, earlier, tool)
    ensures IsBlock(block, reply)
    ensures Listed(actions, earlier + reply.calls)
    ensures Disciplined(payloadType, counts', invoked', earlier + reply.calls)
    ensures Answers(answers + block[1..], payloadType, earlier + reply.calls, tool)
  {
    block := [AssistantMessage(Trim(reply.text), reply.calls)];
    actions, invoked', counts' := before, invoked, counts;
    var i := 0;
    ghost var done, answered := earlier, answers;
    assert done == earlier + reply.calls[..0] && answered == answers + block[1..];
    while i < |reply.calls|
      invariant 0 <= i <= |reply.calls| && IsBlockSoFar(block, reply, i)
      invariant Listed(actions, done) && done == earlier + reply.calls[..i] && answered == answers + block[1..]
      invariant Disciplined(payloadType, counts', invoked', done)
      invariant Answers(answered, payloadType, done, tool)
    {
      var call := reply.calls[i];
      var message;
      message, actions, invoked', counts' := ExecuteNext(call, payloadType, tool, actions, invoked', counts', done, answered);
      done, answered := done + [call], answered + [message];
      OneMore(earlier, reply.calls, i, answers, block, message);
      BlockPushed(block, reply, i, message);
      block := block + [message];
      i := i + 1;
    }
    assert reply.calls[..i] == reply.calls;
  }

  lemma OneMore<A, B>(xs: seq<A>, calls: seq<A>, i: nat, ys: seq<B>, block: seq<B>, y: B)
    requires i < |calls| && block != []
    ensures xs + calls[..i] + [calls[i]] == xs + calls[..i + 1]
    ensures ys + block[1..] + [y] == ys + (block + [y])[1..]
  {
    assert calls[..i] + [calls[i]] == calls[..i + 1];
  }

  lemma BlockPushed(block: seq<Message>, reply: Reply, i: nat, message: Message)
    requires i < |reply.calls| && IsBlockSoFar(block, reply, i) && AnswersCall(message, reply.calls[i])
    ensures IsBlockSoFar(block + [message], reply, i + 1)
  {
  }

  lemma {:induction false} BlocksPushed(ms: seq<Message>, rounds: seq<Reply>, block: seq<Message>, reply: Reply)
    requires IsBlocks(ms, rounds) && IsBlock(block, reply) && reply.calls != []
    ensures IsBlocks(ms + block, rounds + [reply])
  {
    assert (rounds + [reply])[..|rounds|] == rounds;
    assert (ms + block)[|ms|..] == block && (ms + block)[..|ms|] == ms;
  }

  lemma BlockAnswers(messages: seq<Message>, block: seq<Message>, reply: Reply)
    requires IsBlock(block, reply)
    ensures ToolMessages(messages + block) == ToolMessages(messages) + block[1..]
  {
    ToolMessagesConcat(messages, block);
    AnswersOfBlock(block, reply);
  }

  lemma AnswersOfBlock(block: seq<Message>, reply: Reply)
    requires IsBlock(block, reply)
    ensures ToolMessages(block) == block[1..]
  {
    var answers := block[1..];
    forall k | 0 <= k < |answers| ensures answers[k].ToolMessage? {
      assert AnswersCall(block[k + 1], reply.calls[k]);
    }
    AllToolMessages(answers);
    assert block == [block[0]] + answers;
    ToolMessagesConcat([block[0]], answers);
    NoToolMessage(block[0]);
  }

  lemma NoToolMessage(m: Message)
    requires !m.ToolMessage?
    ensures ToolMessages([m]) == []
  {
  }

  lemma {:induction false} CallsPushed(rounds: seq<Reply>, reply: Reply)
    ensures AllCalls(rounds + [reply]) == AllCalls(rounds) + reply.calls
  {
    assert (rounds + [reply])[..|rounds|] == rounds;
  }

  /** Where a run stands after some completed tool rounds. */
  ghost predicate Progress(user: string, model: nat -> Option<Reply>, rounds: seq<Reply>,
                           messages: seq<Message>, actions: seq<Action>, usage: Usage) {
    && (forall i :: 0 <= i < |rounds| ==> model(i) == Some(rounds[i]))
    && IsUsageOf(usage, rounds)
    && messages != [] && messages[0] == UserMessage(Trim(user)) && IsBlocks(messages[1..], rounds)
    && Listed(actions, AllCalls(rounds))
  }

  lemma {:induction false} RoundProgresses(user: string, model: nat -> Option<Reply>, rounds: seq<Reply>,
                                           messages: seq<Message>, actions: seq<Action>, usage: Usage,
                                           last: Reply, block: seq<Message>, more: seq<Action>, usage': Usage)
    requires Progress(user, model, rounds, messages, actions, usage)
    requires model(|rounds|) == Some(last) && last.calls != [] && IsBlock(block, last)
    requires Listed(more, AllCalls(rounds) + last.calls)
    requires IsUsageOf(usage', rounds + [last])
    ensures Progress(user, model, rounds + [last], messages + block, more, usage')
  {
    BlocksPushed(messages[1..], rounds, block, last);
    CallsPushed(rounds, last);
    assert (messages + block)[1..] == messages[1..] + block;
  }

  /** The messages with the final reply, if there is one. */
  function Ended(messages: seq<Message>, reply: string): seq<Message> {
    if reply == "" then messages else messages + [AssistantMessage(reply, [])]
  }

  lemma {:induction false} TranscriptEnds(user: string, rounds: seq<Reply>, messages: seq<Message>, reply: string)
    requires messages != [] && messages[0] == UserMessage(Trim(user)) && IsBlocks(messages[1..], rounds)
    ensures IsTranscript(Ended(messages, reply), user, rounds, reply)
    ensures ToolMessages(Ended(messages, reply)) == ToolMessages(messages)
  {
    var final := Ended(messages, reply);
    ToolMessagesConcat(messages, [AssistantMessage(reply, [])]);
    assert final[1..|messages|] == messages[1..];
  }

  /** What a run promises, when the model's i-th reply is model(i), None for an error, and rounds are the
      replies whose tools were executed. */
  ghost predicate Outcome(user: string, maxToolRounds: int, model: nat -> Option<Reply>, rounds: seq<Reply>, out: Output) {
    && out.calls <= (if maxToolRounds < 0 then 0 else maxToolRounds + 1)
    && |rounds| == (if out.calls == 0 then 0 else out.calls - 1)
    && (forall i :: 0 <= i < |rounds| ==> model(i) == Some(rounds[i]))
    && (out.failed <==> out.calls > 0 && model(out.calls - 1).None?)
    && IsTranscript(out.messages, user, rounds, out.reply)
    && Listed(out.actions, AllCalls(rounds))
    && (out.failed || out.calls == 0 ==> out.reply == "")
    && (out.reply != "" ==> !Blank(out.reply))
    && (!out.failed && out.calls > 0 ==>
          var last := model(out.calls - 1).value;
          && IsUsageOf(out.usage, rounds + [last])
          && out.reply == (if last.calls == [] then Trim(last.text) else MAX_ROUNDS_REPLY)
          && (last.calls != [] ==> out.calls == maxToolRounds + 1))
  }

  /** What a run promises about its tools, when the tool would answer its i-th call with tool(i): each call is
      answered by that result exactly when it ran, and what ran is within the policy. */
  ghost predicate Answered(payloadType: string, tool: nat -> string, rounds: seq<Reply>, out: Output) {
    && Answers(ToolMessages(out.messages), payloadType, AllCalls(rounds), tool)
    && out.invoked == RanNames(payloadType, AllCalls(rounds))
    && WithinPolicy(payloadType, out.invoked)
  }

  /** Tools that ran are allowed, and within the budget of the payload type. */
  ghost predicate WithinPolicy(payloadType: string, invoked: seq<string>) {
    && (forall n :: n in invoked ==> ToolAllowed(n, AllowedTools(payloadType)))
    && (Budgeted(payloadType) ==> forall n :: n in CRON_TOOLS ==> multiset(invoked)[n] <= 1)
  }

  /** The end of a run whose model failed. */
  method Fail(user: string, maxToolRounds: int, ghost model: nat -> Option<Reply>, ghost rounds: seq<Reply>,
              messages: seq<Message>, actions: seq<Action>, ghost usage: Usage, invoked: seq<string>,
              round: nat)
    returns (out: Output)
    requires Progress(user, model, rounds, messages, actions, usage)
    requires |rounds| == round <= maxToolRounds && model(round).None?
    ensures Outcome(user, maxToolRounds, model, rounds, out)
    ensures out.invoked == invoked && ToolMessages(out.messages) == ToolMessages(messages)
  {
    TranscriptEnds(user, rounds, messages, "");
    out := Output(messages, actions, Usage(0, 0, 0), "", true, round + 1, invoked);
  }

  lemma ReplyIsBlankOnlyIfEmpty(last: Reply)
    ensures !Blank(MAX_ROUNDS_REPLY) && (Trim(last.text) != "" ==> !Blank(Trim(last.text)))
  {
    TrimIsTight(last.text);
    assert !IsSpace(MAX_ROUNDS_REPLY[0]);
  }

  /** The end of a run with the model's last reply. */
  method Close(user: string, maxToolRounds: int, ghost model: nat -> Option<Reply>, ghost rounds: seq<Reply>,
               messages: seq<Message>, actions: seq<Action>, usage: Usage, invoked: seq<string>,
               round: nat, last: Reply)
    returns (out: Output)
    requires Progress(user, model, rounds, messages, actions, usage)
    requires |rounds| == round <= maxToolRounds && model(round) == Some(last) && (last.calls == [] || round == maxToolRounds)
    ensures Outcome(user, maxToolRounds, model, rounds, out)
    ensures out.invoked == invoked && ToolMessages(out.messages) == ToolMessages(messages)
  {
    CallsPushed(rounds, last);
    var reply := if last.calls == [] then Trim(last.text) else MAX_ROUNDS_REPLY;
    UsagePushed(usage, rounds, last);
    TranscriptEnds(user, rounds, messages, reply);
    ReplyIsBlankOnlyIfEmpty(last);
    out := Output(Ended(messages, reply), actions, AddUsage(usage, last.usage), reply, false, round + 1, invoked);
  }

  /** The tools of these rounds were judged one by one, and answered accordingly. */
  ghost predicate Judged(payloadType: string, tool: nat -> string, rounds: seq<Reply>, messages: seq<Message>,
                         invoked: seq<string>, counts: multiset<string>) {
    && Disciplined(payloadType, counts, invoked, AllCalls(rounds))
    && Answers(ToolMessages(messages), payloadType, AllCalls(rounds), tool)
  }

  /** One tool round of the run. */
  method TakeRound(ghost user: string, payloadType: string, ghost model: nat -> Option<Reply>, tool: nat -> string,
                   ghost rounds: seq<Reply>, messages: seq<Message>, actions: seq<Action>, usage: Usage,
                   invoked: seq<string>, counts: multiset<string>, last: Reply)
    returns (messages': seq<Message>, actions': seq<Action>, usage': Usage, invoked': seq<string>, counts': multiset<string>)
    requires Progress(user, model, rounds, messages, actions, usage)
    requires Judged(payloadType, tool, rounds, messages, invoked, counts)
    requires model(|rounds|) == Some(last) && last.calls != []
    ensures Progress(user, model, rounds + [last], messages', actions', usage')
    ensures Judged(payloadType, tool, rounds + [last], messages', invoked', counts')
  {
    var block;
    block, actions', invoked', counts' :=
      ExecuteRound(last, payloadType, tool, actions, invoked, counts, AllCalls(rounds), ToolMessages(messages));
    CallsPushed(rounds, last);
    BlockAnswers(messages, block, last);
    UsagePushed(usage, rounds, last);
    usage' := AddUsage(usage, last.usage);
    RoundProgresses(user, model, rounds, messages, actions, usage, last, block, actions', usage');
    messages' := messages + block;
  }

  /** The agent executor, for arbitrary model replies and tool results. */
  method Execute(user: string, payloadType: string, maxToolRounds: int, model: nat -> Option<Reply>, tool: nat -> string)
    returns (out: Output, ghost rounds: seq<Reply>)
    ensures Outcome(user, maxToolRounds, model, rounds, out)
    ensures out.calls <= (if maxToolRounds < 0 then 0 else maxToolRounds + 1)
    ensures out.failed <==> out.calls > 0 && model(out.calls - 1).None?
    ensures out.messages != [] && out.messages[0] == UserMessage(Trim(user))
    ensures Answered(payloadType, tool, rounds, out)
  {
    var messages := [UserMessage(Trim(user))];
    var actions: seq<Action>, invoked: seq<string> := [], [];
    var counts: multiset<string> := multiset{};
    var usage := Usage(0, 0, 0);
    rounds := [];
    var round := 0;
    while round <= maxToolRounds
      invariant 0 <= round == |rounds| && (round > 0 ==> round <= maxToolRounds)
      invariant Progress(user, model, rounds, messages, actions, usage)
      invariant Judged(payloadType, tool, rounds, messages, invoked, counts)
    {
      var result := model(round);
      if result.None? {
        out := Fail(user, maxToolRounds, model, rounds, messages, actions, usage, invoked, round);
        return;
      }
      var last := result.value;
      if last.calls == [] || round == maxToolRounds {
        out := Close(user, maxToolRounds, model, rounds, messages, actions, usage, invoked, round, last);
        return;
      }
      messages, actions, usage, invoked, counts :=
        TakeRound(user, payloadType, model, tool, rounds, messages, actions, usage, invoked, counts, last);
      rounds := rounds + [last];
      round := round + 1;
    }
    TranscriptEnds(user, rounds, messages, "");
    out := Output(messages, actions, usage, "", false, 0, invoked);
  }

  /** For the payload type cron_fire every tool that runs is one of the three allowed ones and runs once. */
  lemma CronRunsEachAllowedToolOnce(invoked: seq<string>)
    requires WithinPolicy("cron_fire", invoked)
    ensures (forall n :: n in invoked ==> n in CRON_TOOLS) && NoRepeats(invoked) && |invoked| <= 3
  {
    assert forall n :: n in invoked ==> n in CRON_TOOLS;
    OnceEach(invoked, CRON_TOOLS);
  }

  lemma OnceEach(xs: seq<string>, s: set<string>)
    requires forall x :: x in xs ==> x in s && multiset(xs)[x] <= 1
    ensures NoRepeats(xs) && |xs| <= |s|
  {
    forall i, j | 0 <= i < j < |xs| ensures xs[i] != xs[j] {
      assert xs == xs[..i] + [xs[i]] + xs[i + 1..j] + [xs[j]] + xs[j + 1..];
      assert xs[i] in xs;
    }
    SizeWithin(xs, s);
  }

  lemma {:induction false} SizeWithin(xs: seq<string>, s: set<string>)
    requires NoRepeats(xs) && forall x :: x in xs ==> x in s
    ensures |xs| <= |s|
    decreases |xs|
  {
    if xs != [] {
      assert forall i :: 0 < i < |xs| ==> xs[i] == xs[1..][i - 1];
      SizeWithin(xs[1..], s - {xs[0]});
    }
  }

  /** Another spelling of the type is budgeted like it. */
  lemma SpacedTypeIsBudgeted()
    ensures Budgeted(" CRON_fire ") && Budgeted("cron_fire")
  {
    var spaced, cron := " CRON_fire ", "cron_fire";
    assert spaced[1..][..9] == "CRON_fire";
    TrimOfSpaced("CRON_fire");
    assert [' '] + "CRON_fire" + [' '] == spaced;
    TightIsTrimmed(cron);
  }

  /** The allowlist and the budget go by different tests. What may run is limited to the three cron tools
      exactly for the exact type, while other spellings of it are budgeted too. */
  lemma RestrictedIffExactType(payloadType: string)
    ensures (forall call, counts :: Invokes(call, payloadType, counts) ==> call.name in CRON_TOOLS) <==> payloadType == "cron_fire"
    ensures exists other :: other != "cron_fire" && Budgeted(other)
  {
    if payloadType != "cron_fire" {
      var call := ToolCall("", "shell", "");
      assert !PolicyRefuses(call, multiset{}) && Invokes(call, payloadType, multiset{}) && call.name !in CRON_TOOLS;
    }
    SpacedTypeIsBudgeted();
    assert " CRON_fire " != "cron_fire" by {
      assert " CRON_fire "[0] != "cron_fire"[0];
    }
  }

  lemma {:induction false} TrimOfSpaced(s: string)
    requires Tight(s) && s != ""
    ensures Trim([' '] + s + [' ']) == s
  {
    var t := [' '] + s + [' '];
    assert t[1..] == s + [' '];
    assert TrimLeft(t) == TrimLeft(t[1..]) == s + [' '];
    assert (s + [' '])[..|s|] == s;
    assert TrimRight(s + [' ']) == TrimRight(s) == s;
  }
}
