/**
 The loop of agent/subagent.py against any provider and any tools: both are arbitrary functions of
 how often they were asked and with what, and the provider may raise at any call.
 */
module SubAgent {
  import opened Text
  import opened ToolProtocol
  import opened ToolBatch

  datatype Reply = Raised | Reply(content: Option<string>, calls: seq<Call>)

  type Provider = (nat, seq<Message>) -> Reply
  type Tools = (nat, Call) -> Outcome

  datatype Reason = Idle | Running | Failed | Completed | ToolLoop | ForcedSummary | ForcedFallback

  /** How a pass of the main loop ends. */
  datatype Step = Error | Finish(text: string) | Denial | Again

  const UNKNOWN_TOOL := "未知工具: "
  const REFLECT := "根据上述工具结果，决定下一步操作。"
  const REFLECT_WARN := "步骤预算即将耗尽，请优先完成核心目标。"
  const REFLECT_LAST := "步骤预算将在下一步耗尽。"
  const WARN_THRESHOLD := 5
  const CLEANUP := "步骤预算已耗尽，进入强制收尾阶段。"
  const SUMMARY_PROMPT := "当前任务未在步骤预算内完成，请直接输出中文进度总结，不要 JSON。"
  const FINAL_PROMPT := "你已用完任务执行预算，禁止再调用工具。"
  const SUMMARY_FALLBACK := "本轮步骤预算已用完：已完成部分关键步骤，但仍有未完成项，下一轮将从当前检查点继续推进。"
  const FINAL_FALLBACK := "这次后台任务已先停在当前进度。"

  /** (content or "").strip() */
  function TextOf(content: Option<string>): string {
    if content.Some? then Strip(content.value) else ""
  }

  /** It is what the content says without surrounding white space, and empty if that is nothing. */
  lemma TextOfSpec(content: Option<string>)
    ensures TextOf(content) == "" <==> content.None? || Blank(content.value)
    ensures content.Some? ==> TextOf(content) == content.value[StripFrom(content.value)..StripTo(content.value)]
  {
    if content.Some? {
      StripBlank(content.value);
      StripBounds(content.value);
    }
  }

  /** The system prompt, if there is one, and the task. */
  function Opening(systemPrompt: string, task: string): seq<Message> {
    (if systemPrompt == "" then [] else [System(systemPrompt)]) + [User(task)]
  }

  /** The exit tools that exist, in order. */
  function Known(names: seq<Name>, tools: set<Name>): seq<Name> {
    if names == [] then []
    else Known(names[..|names| - 1], tools) + if names[|names| - 1] in tools then [names[|names| - 1]] else []
  }

  lemma {:induction false} KnownSpec(names: seq<Name>, tools: set<Name>)
    ensures forall n :: n in Known(names, tools) <==> n in names && n in tools
    ensures (forall n :: n in names ==> n in tools) ==> Known(names, tools) == names
  {
    if names != [] {
      KnownSpec(names[..|names| - 1], tools);
      FrontLast(names);
    }
  }

  function Cleanup(tool: Name): string {
    CLEANUP + tool.text
  }

  function Reflect(remaining: int): string {
    if remaining == 0 then REFLECT_LAST else if remaining <= WARN_THRESHOLD then REFLECT_WARN else REFLECT
  }

  /** With passes left the prompt warns from five on, and says when the next step is the last. */
  lemma ReflectByBudget(remaining: nat)
    ensures Reflect(0) == REFLECT_LAST && (1 <= remaining <= 5 ==> Reflect(remaining) == REFLECT_WARN)
    ensures remaining >= 6 ==> Reflect(remaining) == REFLECT
  {
  }

  // ── what a run is ──────────────────────────────────────────────

  /** The replies are the provider's, asked in turn. */
  ghost predicate Answers(provider: Provider, from: nat, sent: seq<seq<Message>>, replies: seq<Reply>) {
    |replies| == |sent| && forall k :: 0 <= k < |sent| ==> replies[k] == provider(from + k, sent[k])
  }

  /** How often a tool was run: calls of unknown tools are answered without running anything. */
  function ToolRuns(toolMap: set<Name>, done: seq<Executed>): nat {
    if done == [] then 0
    else ToolRuns(toolMap, done[..|done| - 1]) + if done[|done| - 1].call.tool in toolMap then 1 else 0
  }

  /** A tool of the map answers for itself; any other gives the error text. */
  ghost predicate TrueOutcome(tools: Tools, toolMap: set<Name>, n: nat, e: Executed) {
    e.outcome == if e.call.tool in toolMap then tools(n, e.call)
                 else Outcome(UNKNOWN_TOOL + e.call.tool.text, false, false, false)
  }

  /** Every outcome is what the tool gave when its turn came. */
  ghost predicate TrueOutcomes(tools: Tools, toolMap: set<Name>, from: nat, done: seq<Executed>) {
    done != [] ==>
      var front := done[..|done| - 1];
      TrueOutcomes(tools, toolMap, from, front) && TrueOutcome(tools, toolMap, from + ToolRuns(toolMap, front), done[|done| - 1])
  }

  /** A round of tool calls: what the provider asked for and what was executed. */
  datatype ToolRound = ToolRound(content: Option<string>, calls: seq<Call>, done: seq<Executed>)

  function RoundMessages(r: ToolRound, remaining: int): seq<Message>
    requires |r.done| <= |r.calls|
  {
    BatchMessages(r.content, r.calls, r.done) + if Denied(r.done) then [] else [User(Reflect(remaining))]
  }

  predicate RoundFits(r: ToolRound) {
    r.calls != [] && RanUntilDenied(r.calls, r.done)
  }

  predicate RoundsFit(rounds: seq<ToolRound>) {
    forall k :: 0 <= k < |rounds| ==> RoundFits(rounds[k])
  }

  /** The history after these rounds of a run that allows max of them. */
  function History(opening: seq<Message>, rounds: seq<ToolRound>, max: int): seq<Message>
    requires RoundsFit(rounds)
  {
    if rounds == [] then opening
    else History(opening, rounds[..|rounds| - 1], max) + RoundMessages(rounds[|rounds| - 1], max - |rounds|)
  }

  function AllDone(rounds: seq<ToolRound>): seq<Executed> {
    if rounds == [] then [] else AllDone(rounds[..|rounds| - 1]) + rounds[|rounds| - 1].done
  }

  /** Round k is the provider's k-th reply, to the trimmed history before it. */
  ghost predicate RoundsOk(opening: seq<Message>, rounds: seq<ToolRound>, max: int, sent: seq<seq<Message>>, replies: seq<Reply>) {
    && |rounds| <= |sent| == |replies| && RoundsFit(rounds)
    && (rounds != [] ==>
          var n := |rounds| - 1;
          && RoundsOk(opening, rounds[..n], max, sent, replies)
          && ToolRoundOk(History(opening, rounds[..n], max), rounds[n], sent[n], replies[n]))
  }

  ghost predicate ToolRoundOk(before: seq<Message>, r: ToolRound, s: seq<Message>, reply: Reply) {
    IsTrimmed(before, s) && reply == Reply(r.content, r.calls)
  }

  /** The forced call of one exit tool: what the provider replied, and the one call executed, if any. */
  datatype ExitTurn = ExitTurn(tool: Name, reply: Reply, done: seq<Executed>)

  /** Only the first call of the reply is executed. */
  predicate TurnFits(t: ExitTurn) {
    if t.reply.Raised? || t.reply.calls == [] then t.done == []
    else |t.done| == 1 && t.done[0].call == t.reply.calls[0]
  }

  /** The result of an exit tool is not clipped. */
  function TurnMessages(t: ExitTurn): seq<Message>
    requires TurnFits(t)
  {
    [User(Cleanup(t.tool))]
    + if t.done == [] then []
      else
        var e := t.done[0];
        [Assistant(t.reply.content, [e.call])] + ResultMessages(e.call.id, e.outcome.text, e.outcome.blocks)
  }

  predicate TurnsFit(turns: seq<ExitTurn>) {
    forall j :: 0 <= j < |turns| ==> TurnFits(turns[j])
  }

  function TurnsMessages(turns: seq<ExitTurn>): seq<Message>
    requires TurnsFit(turns)
  {
    if turns == [] then [] else TurnsMessages(turns[..|turns| - 1]) + TurnMessages(turns[|turns| - 1])
  }

  function TurnsDone(turns: seq<ExitTurn>): seq<Executed> {
    if turns == [] then [] else TurnsDone(turns[..|turns| - 1]) + turns[|turns| - 1].done
  }

  /** One turn per exit tool, each asked for over the whole history so far; the first of them is call n of the run. */
  ghost predicate TurnsOk(start: seq<Message>, names: seq<Name>, turns: seq<ExitTurn>, n: nat, sent: seq<seq<Message>>, replies: seq<Reply>) {
    && |turns| == |names| && n + |turns| <= |sent| == |replies| && TurnsFit(turns)
    && (turns != [] ==>
          var j := |turns| - 1;
          && TurnsOk(start, names[..j], turns[..j], n, sent, replies)
          && TurnOk(start + TurnsMessages(turns[..j]), names[j], turns[j], sent[n + j], replies[n + j]))
  }

  predicate TurnOk(before: seq<Message>, name: Name, t: ExitTurn, s: seq<Message>, reply: Reply) {
    t.tool == name && t.reply == reply && s == before + [User(Cleanup(name))]
  }

  /** A list sent to the provider: an earlier state of the history, trimmed, or followed by one prompt. */
  ghost predicate IsView(ms: seq<Message>, s: seq<Message>) {
    exists n: nat :: n <= |ms| && ViewAt(ms, n, s)
  }

  ghost predicate ViewAt(ms: seq<Message>, n: nat, s: seq<Message>)
    requires n <= |ms|
  {
    s == ms[..n] || IsTrimmed(ms[..n], s) || exists prompt :: s == ms[..n] + [User(prompt)]
  }

  /** Every list sent so far keeps the protocol and is a view of the history. */
  ghost predicate AllSentOk(ms: seq<Message>, sent: seq<seq<Message>>) {
    forall i :: 0 <= i < |sent| ==> Answered(sent[i]) && IsView(ms, sent[i])
  }

  lemma ViewsStay(ms: seq<Message>, more: seq<Message>, sent: seq<seq<Message>>)
    requires AllSentOk(ms, sent)
    ensures AllSentOk(ms + more, sent)
  {
    hide Answered, IsTrimmed;
    forall i | 0 <= i < |sent| ensures IsView(ms + more, sent[i]) {
      var n: nat :| n <= |ms| && ViewAt(ms, n, sent[i]);
      assert (ms + more)[..n] == ms[..n];
      assert ViewAt(ms + more, n, sent[i]);
    }
  }

  /** What may be sent when nothing is owed. */
  lemma CanSend(ms: seq<Message>, sent: seq<seq<Message>>, s: seq<Message>)
    requires Owed(ms) == Some([]) && AllSentOk(ms, sent)
    requires s == ms || IsTrimmed(ms, s) || exists prompt :: s == ms + [User(prompt)]
    ensures Answered(s) && AllSentOk(ms, sent + [s])
  {
    assert ms[..|ms|] == ms;
    assert ViewAt(ms, |ms|, s);
    AnsweredIffNothingOwed(ms);
    if IsTrimmed(ms, s) {
      TrimmingIsSafe(ms, s);
    } else if s != ms {
      var prompt :| s == ms + [User(prompt)];
      UserKeepsOwed(ms, prompt);
      AnsweredIffNothingOwed(s);
    }
    hide Answered, IsTrimmed, Owed;
  }

  class SubAgent {
    const provider: Provider
    const tools: Tools
    const toolMap: set<Name>
    const systemPrompt: string
    const maxIterations: int
    const exitTools: seq<Name>

    var messages: seq<Message>
    var lastExitReason: Reason
    var iterationsUsed: nat
    var toolsCalled: seq<Name>
    var asked: nat
    var ran: nat

    /** Every list the provider was given in this run and its replies; the executions of the main loop. */
    ghost var sent: seq<seq<Message>>
    ghost var replies: seq<Reply>
    ghost var lastReply: Reply
    ghost var executed: seq<Executed>

    /** How often provider and tools had been used when the run began. */
    ghost var askedFrom: nat
    ghost var ranFrom: nat

    constructor (provider: Provider, tools: Tools, toolMap: set<Name>, systemPrompt: string, maxIterations: int, exitTools: seq<Name>)
      ensures lastExitReason == Idle
    {
      this.provider, this.tools, this.toolMap := provider, tools, toolMap;
      this.systemPrompt, this.maxIterations, this.exitTools := systemPrompt, maxIterations, exitTools;
      messages, lastExitReason, iterationsUsed, toolsCalled, asked, ran := [], Idle, 0, [], 0, 0;
      sent, replies, executed, askedFrom, ranFrom := [], [], [], 0, 0;
    }

    /** Nothing is owed, and everything sent was in order and answered by the provider. */
    ghost predicate Ready()
      reads this`messages, this`sent, this`replies, this`asked, this`askedFrom
    {
      Owed(messages) == Some([]) && AllSentOk(messages, sent) && Logged()
    }

    ghost predicate Logged()
      reads this`asked, this`askedFrom, this`sent, this`replies
    {
      asked == askedFrom + |sent| && Answers(provider, askedFrom, sent, replies)
    }

    /** How a run that was cut short asks for a summary. */
    function LastPrompt(): Option<string>
      reads this`lastExitReason
    {
      if lastExitReason == Failed || lastExitReason == Completed then None
      else Some(if lastExitReason == ToolLoop then SUMMARY_PROMPT else FINAL_PROMPT)
    }

    lemma LastPromptIs()
      ensures lastExitReason == Failed || lastExitReason == Completed ==> LastPrompt() == None
      ensures lastExitReason == ToolLoop ==> LastPrompt() == Some(SUMMARY_PROMPT)
      ensures lastExitReason == ForcedSummary || lastExitReason == ForcedFallback ==> LastPrompt() == Some(FINAL_PROMPT)
    {
    }

    /** The outcomes of the main loop are the tools' own. */
    ghost predicate RanTrue()
      reads this`ran, this`ranFrom, this`executed
    {
      ran == ranFrom + ToolRuns(toolMap, executed) && TrueOutcomes(tools, toolMap, ranFrom, executed)
    }

    /** Every call of the provider goes through here, so no list that breaks the protocol is sent. */
    method Chat(ms: seq<Message>) returns (r: Reply)
      requires Answered(ms) && Logged()
      modifies this`asked, this`sent, this`replies, this`lastReply
      ensures sent == old(sent) + [ms] && replies == old(replies) + [r] && r == lastReply && Logged()
      ensures r == provider(old(asked), ms)
    {
      r := provider(asked, ms);
      asked := asked + 1;
      sent, replies, lastReply := sent + [ms], replies + [r], r;
    }

    /** A tool of the map is run, once; for any other nothing is run. */
    method ExecuteToolCall(call: Call) returns (o: Outcome)
      modifies this`ran
      ensures call.tool in toolMap ==> o == tools(old(ran), call) && ran == old(ran) + 1
      ensures call.tool !in toolMap ==> o == Outcome(UNKNOWN_TOOL + call.tool.text, false, false, false) && ran == old(ran)
    {
      if call.tool !in toolMap {
        return Outcome(UNKNOWN_TOOL + call.tool.text, false, false, false);
      }
      o := tools(ran, call);
      ran := ran + 1;
    }

    /** append_tool_result */
    method AppendToolResult(id: Name, text: string, blocks: bool)
      modifies this`messages
      ensures messages == old(messages) + ResultMessages(id, text, blocks)
    {
      messages := messages + [Tool(id, if text == "" then DONE else text)];
      if blocks {
        messages := messages + [User(FILE_CONTENTS)];
      }
    }

    /** The replies to the calls the loop guard cut off. */
    method SkipRest(calls: seq<Call>)
      requires Owed(messages) == Some(Ids(calls))
      modifies this`messages
      ensures messages == old(messages) + SkippedMessages(calls) && Owed(messages) == Some([])
    {
      for i := 0 to |calls|
        invariant messages == old(messages) + SkippedMessages(calls[..i])
        invariant Owed(messages) == Some(Ids(calls[i..]))
      {
        OneAnswered(calls, i);
        ResultAnswers(messages, calls[i].id, Ids(calls[i + 1..]), SKIPPED, false);
        AppendToolResult(calls[i].id, SKIPPED, false);
      }
      assert calls[..|calls|] == calls;
    }

    /** One call of a batch: run it, note its success, append its clipped result. */
    method RunOne(tc: Call, ghost rest: seq<Name>) returns (o: Outcome)
      requires Owed(messages) == Some([tc.id] + rest) && RanTrue()
      modifies this`messages, this`toolsCalled, this`executed, this`ran
      ensures executed == old(executed) + [Executed(tc, o)] && RanTrue()
      ensures messages == old(messages) + ResultMessages(tc.id, Clip(o.text), o.blocks) && Owed(messages) == Some(rest)
      ensures old(toolsCalled) == SuccessNames(old(executed)) ==> toolsCalled == SuccessNames(executed)
    {
      hide Owed, SuccessNames, ResultMessages, RanTrue, Clip;
      o := RunNoted(tc);
      var text := o.text;
      if |text| > MAX_TOOL_RESULT_CHARS {
        text := text[..MAX_TOOL_RESULT_CHARS] + TRUNCATED;
      }
      ClipIs(o.text);
      ResultAnswers(messages, tc.id, rest, text, o.blocks);
      AppendToolResult(tc.id, text, o.blocks);
    }

    /** Run a call and note its success. */
    method RunNoted(tc: Call) returns (o: Outcome)
      requires RanTrue()
      modifies this`toolsCalled, this`executed, this`ran
      ensures executed == old(executed) + [Executed(tc, o)] && RanTrue()
      ensures old(toolsCalled) == SuccessNames(old(executed)) ==> toolsCalled == SuccessNames(executed)
    {
      hide SuccessNames, TrueOutcomes, ToolRuns;
      o := ExecuteToolCall(tc);
      TrueStep(tools, toolMap, ranFrom, executed, Executed(tc, o));
      NoteExecution(tc, o);
    }

    /** tools_called gets the tool if it succeeded and is not there yet. */
    method NoteExecution(tc: Call, o: Outcome)
      modifies this`toolsCalled, this`executed
      ensures executed == old(executed) + [Executed(tc, o)]
      ensures old(toolsCalled) == SuccessNames(old(executed)) ==> toolsCalled == SuccessNames(executed)
    {
      SuccessSnoc(executed, Executed(tc, o));
      hide SuccessNames;
      if o.success && tc.tool !in toolsCalled {
        toolsCalled := toolsCalled + [tc.tool];
      }
      executed := executed + [Executed(tc, o)];
    }

    /** The loop over the calls of a batch, up to a denial. */
    method RunCalls(calls: seq<Call>, content: Option<string>, ghost before: seq<Message>) returns (ghost done: seq<Executed>, count: nat, denied: bool)
      requires messages == SoFar(before, content, calls, []) && Owed(messages) == Some(Ids(calls[0..])) && RanTrue()
      modifies this`messages, this`toolsCalled, this`executed, this`ran
      ensures RanUntilDenied(calls, done) && denied == Denied(done) && executed == old(executed) + done && count == |done| <= |calls|
      ensures messages == SoFar(before, content, calls, done) && Owed(messages) == Some(Ids(calls[|done|..])) && RanTrue()
      ensures old(toolsCalled) == SuccessNames(old(executed)) ==> toolsCalled == SuccessNames(executed)
    {
      done := [];
      RanNone(calls);
      hide *;
      for i := 0 to |calls|
        invariant |done| == i && RanSoFar(calls, done) && executed == old(executed) + done
        invariant messages == SoFar(before, content, calls, done) && Owed(messages) == Some(Ids(calls[i..])) && RanTrue()
        invariant old(toolsCalled) == SuccessNames(old(executed)) ==> toolsCalled == SuccessNames(executed)
      {
        OneAnswered(calls, i);
        var o := RunOne(calls[i], Ids(calls[i + 1..]));
        ghost var e := Executed(calls[i], o);
        BatchGrows(before, content, calls, done, e);
        RanStep(calls, done, e);
        done := done + [e];
        if o.guardDenied {
          return done, i + 1, true;
        }
      }
      RanAll(calls, done);
      return done, |calls|, false;
    }

    /** Every call of a batch, run or, after a denial, skipped. */
    method AnswerCalls(calls: seq<Call>, content: Option<string>, ghost before: seq<Message>) returns (ghost done: seq<Executed>, denied: bool)
      requires messages == SoFar(before, content, calls, []) && Owed(messages) == Some(Ids(calls[0..])) && RanTrue()
      modifies this`messages, this`toolsCalled, this`executed, this`ran
      ensures RanUntilDenied(calls, done) && denied == Denied(done) && executed == old(executed) + done && RanTrue()
      ensures |done| <= |calls| && messages == before + BatchMessages(content, calls, done) && Owed(messages) == Some([])
      ensures old(toolsCalled) == SuccessNames(old(executed)) ==> toolsCalled == SuccessNames(executed)
    {
      var count: nat;
      hide *;
      done, count, denied := RunCalls(calls, content, before);
      BatchEnds(before, content, calls, done);
      if denied {
        SkipRest(calls[count..]);
      } else {
        NothingSkipped(calls, done);
      }
    }

    /** One round of tool calls: the assistant message, then a reply to every call, run or skipped. */
    method RunBatch(content: Option<string>, calls: seq<Call>) returns (ghost done: seq<Executed>, denied: bool)
      requires Ready() && RanTrue() && calls != []
      modifies this`messages, this`toolsCalled, this`executed, this`ran
      ensures RanUntilDenied(calls, done) && denied == Denied(done) && executed == old(executed) + done
      ensures messages == old(messages) + BatchMessages(content, calls, done)
      ensures old(toolsCalled) == SuccessNames(old(executed)) ==> toolsCalled == SuccessNames(executed)
      ensures Ready() && RanTrue()
    {
      assert AllSentOk(messages, sent) && Logged();
      hide *;
      BatchStarts(messages, content, calls);
      ghost var before := messages;
      messages := messages + [Assistant(content, calls)];
      done, denied := AnswerCalls(calls, content, before);
      ViewsStay(before, BatchMessages(content, calls, done), sent);
      NowReady();
    }

    /** The one call an exit tool's reply may make; its result is not clipped. */
    method RunExitCall(content: Option<string>, tc: Call) returns (ghost e: Executed)
      requires Ready()
      modifies this`messages, this`ran
      ensures e.call == tc && TrueOutcome(tools, toolMap, old(ran), e)
      ensures ran == old(ran) + if tc.tool in toolMap then 1 else 0
      ensures messages == old(messages) + ([Assistant(content, [tc])] + ResultMessages(tc.id, e.outcome.text, e.outcome.blocks))
      ensures Ready()
    {
      hide Owed, AllSentOk, ResultMessages, Ids, Answers;
      BatchOpens(messages, content, [tc]);
      LoneCall(tc);
      messages := messages + [Assistant(content, [tc])];
      var o := ExecuteToolCall(tc);
      e := Executed(tc, o);
      ResultAnswers(messages, tc.id, [], o.text, o.blocks);
      AppendToolResult(tc.id, o.text, o.blocks);
      ghost var result := ResultMessages(tc.id, o.text, o.blocks);
      Associative(old(messages), [Assistant(content, [tc])], result);
      ViewsStay(old(messages), [Assistant(content, [tc])] + result, sent);
    }

    /** The forced call of one exit tool: the prompt, the provider's reply to it, and its first call. */
    method RunExit(tool: Name) returns (ghost t: ExitTurn)
      requires Ready()
      modifies this`messages, this`asked, this`sent, this`replies, this`lastReply, this`ran
      ensures TurnFits(t) && t.tool == tool && |sent| == |old(sent)| + 1
      ensures sent == old(sent) + [sent[|old(sent)|]] && replies == old(replies) + [lastReply]
      ensures TurnOk(old(messages), tool, t, sent[|old(sent)|], lastReply)
      ensures messages == old(messages) + TurnMessages(t) && Ready()
      ensures ran == old(ran) + ToolRuns(toolMap, t.done) && TrueOutcomes(tools, toolMap, old(ran), t.done)
    {
      hide Owed, AllSentOk, Answered, ResultMessages, Answers, Cleanup, TrueOutcomes, ToolRuns, IsTrimmed;
      NothingRun(tools, toolMap, ran);
      AppendPrompt(Cleanup(tool));
      CanSend(messages, sent, messages);
      var reply := Chat(messages);
      t := ExitTurn(tool, reply, []);
      if reply.Reply? && reply.calls != [] {
        ghost var prompted := messages;
        ghost var e := RunExitCall(reply.content, reply.calls[0]);
        t := t.(done := [e]);
        RunOnce(tools, toolMap, old(ran), e);
        Associative(old(messages), [User(Cleanup(tool))],
          [Assistant(reply.content, [e.call])] + ResultMessages(e.call.id, e.outcome.text, e.outcome.blocks));
      }
    }

    /** The exit calls so far: call n of the run was the first of them, and the tools had been run from times before it. */
    ghost predicate Exiting(start: seq<Message>, names: seq<Name>, turns: seq<ExitTurn>, n: nat, from: nat)
      reads this
    {
      && TurnsFit(turns) && TurnsOk(start, names, turns, n, sent, replies) && |replies| == |sent| == n + |turns|
      && messages == start + TurnsMessages(turns) && Ready()
      && ran == from + ToolRuns(toolMap, TurnsDone(turns)) && TrueOutcomes(tools, toolMap, from, TurnsDone(turns))
    }

    method RunNextExit(tool: Name, ghost start: seq<Message>, ghost names: seq<Name>, ghost turns: seq<ExitTurn>, ghost n: nat, ghost from: nat)
        returns (ghost t: ExitTurn)
      requires Exiting(start, names, turns, n, from)
      modifies this`messages, this`asked, this`sent, this`replies, this`lastReply, this`ran
      ensures Exiting(start, names + [tool], turns + [t], n, from) && old(sent) <= sent && old(replies) <= replies
    {
      hide TurnsFit, TurnFits, TurnsOk, TurnsMessages, TurnMessages, TurnsDone, TrueOutcomes, ToolRuns, Ready, TurnOk;
      ghost var s, rs := sent, replies;
      t := RunExit(tool);
      hide *;
      SnocFront(s, sent[|s|]);
      SnocFront(rs, lastReply);
      TurnsMore(start, names, turns, n, s, rs, sent, replies);
      TurnsStep(start, names, turns, n, sent, replies, t);
      TrueAppend(tools, toolMap, from, TurnsDone(turns), t.done);
      TurnsGrow(turns, t);
      Associative(start, TurnsMessages(turns), TurnMessages(t));
    }

    /** _run_mandatory_exit: one forced call per exit tool that exists. */
    method RunMandatoryExit() returns (ghost turns: seq<ExitTurn>)
      requires Ready()
      modifies this`messages, this`asked, this`sent, this`replies, this`lastReply, this`ran
      ensures Exiting(old(messages), Known(exitTools, toolMap), turns, |old(sent)|, old(ran))
      ensures old(sent) <= sent && old(replies) <= replies && |turns| <= |exitTools|
    {
      turns := [];
      NoTurns(tools, toolMap, ran, messages, exitTools, sent, replies);
      assert Exiting(messages, Known(exitTools[..0], toolMap), turns, |sent|, ran);
      hide *;
      for i := 0 to |exitTools|
        invariant Exiting(old(messages), Known(exitTools[..i], toolMap), turns, |old(sent)|, old(ran))
        invariant old(sent) <= sent && old(replies) <= replies && |turns| <= i
      {
        KnownStep(exitTools, toolMap, i);
        if exitTools[i] in toolMap {
          ghost var t := RunNextExit(exitTools[i], old(messages), Known(exitTools[..i], toolMap), turns, |old(sent)|, old(ran));
          turns := turns + [t];
        }
      }
      assert exitTools[..|exitTools|] == exitTools;
    }

    /** One provider call of the main loop, on the trimmed history. */
    method AskTrimmed() returns (reply: Reply, ghost trimmed: seq<Message>)
      requires Ready()
      modifies this`asked, this`sent, this`replies, this`lastReply
      ensures Ready() && sent == old(sent) + [trimmed] && replies == old(replies) + [reply] && reply == lastReply
      ensures IsTrimmed(messages, trimmed)
    {
      var ms := TrimToolResults(messages);
      CanSend(messages, sent, ms);
      hide Owed, AllSentOk, Answered, IsTrimmed, Answers;
      reply := Chat(ms);
      trimmed := ms;
    }

    /** One pass of the main loop; remaining is how many are left after it. */
    method Iterate(remaining: int) returns (step: Step, ghost trimmed: seq<Message>, ghost r: ToolRound)
      requires Ready() && RanTrue() && toolsCalled == SuccessNames(executed) && NoneDenied(executed)
      modifies this`messages, this`asked, this`sent, this`replies, this`lastReply, this`toolsCalled, this`executed, this`ran
      ensures sent == old(sent) + [trimmed] && IsTrimmed(old(messages), trimmed) && replies == old(replies) + [lastReply]
      ensures Ready() && RanTrue() && toolsCalled == SuccessNames(executed) && (NoneDenied(executed) <==> step != Denial)
      ensures step.Error? <==> lastReply.Raised?
      ensures step.Finish? <==> lastReply.Reply? && lastReply.calls == []
      ensures step.Finish? ==> step.text == TextOf(lastReply.content)
      ensures step.Error? || step.Finish? ==> messages == old(messages) && executed == old(executed)
      ensures step.Denial? || step.Again? ==> RoundFits(r) && ToolRoundOk(old(messages), r, trimmed, lastReply)
      ensures step.Denial? || step.Again? ==> executed == old(executed) + r.done && messages == old(messages) + RoundMessages(r, remaining)
    {
      var reply;
      reply, trimmed := AskTrimmed();
      hide *;
      r := ToolRound(None, [], []);
      if reply.Raised? {
        return Error, trimmed, r;
      }
      if reply.calls == [] {
        return Finish(TextOf(reply.content)), trimmed, r;
      }
      var denied;
      r, denied := RunRound(reply.content, reply.calls, remaining);
      AskedFor(old(messages), r, trimmed, reply);
      return if denied then Denial else Again, trimmed, r;
    }

    /** The calls of one reply and, unless one was denied, the prompt for the next pass. */
    method RunRound(content: Option<string>, calls: seq<Call>, remaining: int) returns (ghost r: ToolRound, denied: bool)
      requires Ready() && RanTrue() && calls != [] && toolsCalled == SuccessNames(executed) && NoneDenied(executed)
      modifies this`messages, this`toolsCalled, this`executed, this`ran
      ensures r.content == content && r.calls == calls && RoundFits(r)
      ensures Ready() && RanTrue() && toolsCalled == SuccessNames(executed) && (NoneDenied(executed) <==> !denied)
      ensures executed == old(executed) + r.done && messages == old(messages) + RoundMessages(r, remaining)
    {
      hide *;
      ghost var was, before := executed, messages;
      ghost var done;
      done, denied := RunBatch(content, calls);
      DenialSeen(was, calls, done);
      r := ToolRound(content, calls, done);
      RoundIs(before, r, remaining);
      if !denied {
        AppendPrompt(Reflect(remaining));
      }
    }

    /** The start of a run. */
    method Begin(task: string)
      modifies this
      ensures Ready() && messages == Opening(systemPrompt, task) && sent == [] && replies == [] && executed == [] && RanTrue()
      ensures asked == askedFrom == old(asked) && ran == ranFrom == old(ran)
      ensures lastExitReason == Running && iterationsUsed == 0 && toolsCalled == [] == SuccessNames(executed) && NoneDenied(executed)
    {
      hide *;
      OpeningOwesNothing(systemPrompt, task);
      OpeningSteps(systemPrompt, task);
      messages, sent, replies, executed, askedFrom, ranFrom := [], [], [], [], asked, ran;
      lastExitReason, iterationsUsed, toolsCalled := Running, 0, [];
      if systemPrompt != "" {
        messages := messages + [System(systemPrompt)];
      }
      messages := messages + [User(task)];
      NewRun();
    }

    lemma NewRun()
      requires Owed(messages) == Some([]) && AllSentOk(messages, sent) && sent == [] && replies == [] && executed == []
      requires asked == askedFrom && ran == ranFrom
      ensures Ready() && RanTrue()
    {
    }

    /** After so many rounds, each of which left the next to be asked for. */
    ghost predicate After(opening: seq<Message>, rounds: seq<ToolRound>)
      reads this`messages, this`sent, this`replies, this`asked, this`askedFrom
      reads this`executed, this`toolsCalled, this`ran, this`ranFrom
    {
      && RoundsFit(rounds) && RoundsOk(opening, rounds, maxIterations, sent, replies) && |replies| == |sent| == |rounds|
      && messages == History(opening, rounds, maxIterations) && executed == AllDone(rounds)
      && toolsCalled == SuccessNames(executed) && Ready() && RanTrue()
    }

    /** The provider's last reply, to the trimmed history, ended the run. */
    ghost predicate Closed(opening: seq<Message>, rounds: seq<ToolRound>)
      reads this`messages, this`sent, this`replies, this`asked, this`askedFrom
      reads this`executed, this`toolsCalled, this`ran, this`ranFrom
    {
      && RoundsFit(rounds) && RoundsOk(opening, rounds, maxIterations, sent, replies) && |replies| == |sent| == |rounds| + 1
      && messages == History(opening, rounds, maxIterations) && executed == AllDone(rounds)
      && toolsCalled == SuccessNames(executed) && Ready() && RanTrue()
      && IsTrimmed(messages, sent[|rounds|])
    }

    /** One pass, as part of the run. */
    method Pass(remaining: int, ghost opening: seq<Message>, ghost was: seq<ToolRound>) returns (step: Step, ghost rounds: seq<ToolRound>)
      requires After(opening, was) && NoneDenied(executed) && remaining == maxIterations - |was| - 1
      modifies this`messages, this`asked, this`sent, this`replies, this`lastReply, this`toolsCalled, this`executed, this`ran
      ensures step.Error? || step.Finish? ==> rounds == was && Closed(opening, rounds)
      ensures step.Denial? || step.Again? ==> |rounds| == |was| + 1 && After(opening, rounds)
      ensures NoneDenied(executed) <==> step != Denial
      ensures step.Error? <==> lastReply.Raised?
      ensures step.Finish? <==> lastReply.Reply? && lastReply.calls == []
      ensures step.Finish? ==> step.text == TextOf(lastReply.content)
      ensures replies != [] && lastReply == replies[|replies| - 1]
    {
      ghost var s, rs := sent, replies;
      hide RoundsFit, RoundsOk, History, AllDone, SuccessNames, Ready, RanTrue, NoneDenied, IsTrimmed, TextOf, RoundMessages, RoundFits, ToolRoundOk;
      ghost var trimmed, r;
      step, trimmed, r := Iterate(remaining);
      rounds := was;
      SnocFront(s, trimmed);
      SnocFront(rs, lastReply);
      RoundsMore(opening, was, maxIterations, s, rs, sent, replies);
      if step.Denial? || step.Again? {
        RoundsStep(opening, was, maxIterations, sent, replies, r);
        HistoryStep(opening, was, maxIterations, r);
        SnocFront(was, r);
        rounds := was + [r];
      }
    }

    /** After the forced exit calls. */
    ghost predicate Cut(opening: seq<Message>, rounds: seq<ToolRound>, turns: seq<ExitTurn>, sent: seq<seq<Message>>, replies: seq<Reply>)
      reads this`messages, this`executed, this`toolsCalled, this`ranFrom
    {
      && RoundsFit(rounds) && RoundsOk(opening, rounds, maxIterations, sent, replies)
      && TurnsFit(turns) && messages == History(opening, rounds, maxIterations) + TurnsMessages(turns)
      && TurnsOk(History(opening, rounds, maxIterations), Known(exitTools, toolMap), turns, |rounds|, sent, replies)
      && executed == AllDone(rounds) && toolsCalled == SuccessNames(executed)
      && TrueOutcomes(tools, toolMap, ranFrom, executed + TurnsDone(turns))
    }

    /** The forced exit calls at the end of a run. */
    method CutShort(ghost opening: seq<Message>, ghost rounds: seq<ToolRound>) returns (ghost turns: seq<ExitTurn>)
      requires After(opening, rounds)
      modifies this`messages, this`asked, this`sent, this`replies, this`lastReply, this`ran
      ensures Cut(opening, rounds, turns, sent, replies) && Ready() && |sent| == |rounds| + |turns| && |turns| <= |exitTools|
    {
      ghost var s, rs, r := sent, replies, ran;
      hide RoundsOk, TurnsOk, Owed, AllSentOk, Answers, History, AllDone, TrueOutcomes, ToolRuns, TurnsMessages, TurnsDone, Known, Ready, SuccessNames, RoundsFit, TurnsFit;
      turns := RunMandatoryExit();
      RoundsMore(opening, rounds, maxIterations, s, rs, sent, replies);
      TrueAppend(tools, toolMap, ranFrom, executed, TurnsDone(turns));
    }

    lemma StillCut(opening: seq<Message>, rounds: seq<ToolRound>, turns: seq<ExitTurn>, s: seq<seq<Message>>, rs: seq<Reply>, ms: seq<Message>)
      requires Cut(opening, rounds, turns, s, rs) && |s| == |rounds| + |turns| && |rs| == |s|
      requires sent == s + [ms] && replies == rs + [lastReply]
      ensures Cut(opening, rounds, turns, sent, replies)
    {
      hide RoundsOk, TurnsOk, History, AllDone, TrueOutcomes, ToolRuns, TurnsMessages, TurnsDone, Known, SuccessNames, RoundsFit, TurnsFit;
      SnocFront(s, ms);
      SnocFront(rs, lastReply);
      RoundsMore(opening, rounds, maxIterations, s, rs, sent, replies);
      TurnsMore(History(opening, rounds, maxIterations), Known(exitTools, toolMap), turns, |rounds|, s, rs, sent, replies);
    }

    lemma NothingYet(opening: seq<Message>)
      requires Ready() && RanTrue() && messages == opening && sent == [] && executed == [] && toolsCalled == SuccessNames(executed)
      ensures After(opening, [])
    {
    }

    lemma ClosedMeans(opening: seq<Message>, rounds: seq<ToolRound>)
      requires Closed(opening, rounds)
      ensures RoundsFit(rounds) && RoundsOk(opening, rounds, maxIterations, sent, replies) && |sent| == |rounds| + 1
      ensures TurnsFit([]) && messages == History(opening, rounds, maxIterations) + TurnsMessages([])
      ensures executed == AllDone(rounds) && toolsCalled == SuccessNames(executed) && Ready()
      ensures TrueOutcomes(tools, toolMap, ranFrom, executed + TurnsDone([])) && IsTrimmed(messages, sent[|rounds|])
    {
      hide RoundsFit, RoundsOk, History, AllDone, SuccessNames, Ready, IsTrimmed, TrueOutcomes;
      assert executed + TurnsDone([]) == executed;
      assert messages + TurnsMessages([]) == messages;
    }

    /**
     The history is the opening, the rounds and the exit turns; the rounds are the provider's first
     replies, and if the run was cut short the exit turns are the next ones and the last list sent is
     the whole history with the prompt for a summary.
     */
    ghost predicate IsRun(opening: seq<Message>, rounds: seq<ToolRound>, turns: seq<ExitTurn>, prompt: Option<string>, asked: nat, ran: nat)
      reads this`messages, this`sent, this`replies, this`executed
    {
      && RoundsFit(rounds) && TurnsFit(turns) && executed == AllDone(rounds)
      && messages == History(opening, rounds, maxIterations) + TurnsMessages(turns)
      && Answers(provider, asked, sent, replies) && TrueOutcomes(tools, toolMap, ran, executed + TurnsDone(turns))
      && RoundsOk(opening, rounds, maxIterations, sent, replies)
      && |sent| == |rounds| + |turns| + 1
      && match prompt {
           case None => turns == [] && IsTrimmed(messages, sent[|rounds|])
           case Some(text) =>
             && TurnsOk(History(opening, rounds, maxIterations), Known(exitTools, toolMap), turns, |rounds|, sent, replies)
             && sent[|rounds| + |turns|] == messages + [User(text)]
         }
    }

    lemma RunClosed(opening: seq<Message>, rounds: seq<ToolRound>)
      requires Closed(opening, rounds)
      ensures IsRun(opening, rounds, [], None, askedFrom, ranFrom) && toolsCalled == SuccessNames(executed)
      ensures Answered(messages) && AllSentOk(messages, sent) && |sent| == |rounds| + 1
    {
      hide RoundsFit, RoundsOk, TurnsFit, TurnsOk, History, AllDone, SuccessNames, Ready, IsTrimmed, TrueOutcomes, Answered, AllSentOk, Answers, Known;
      ClosedMeans(opening, rounds);
      ReadyMeans();
    }

    lemma RunCut(opening: seq<Message>, rounds: seq<ToolRound>, turns: seq<ExitTurn>, prompt: string)
      requires Cut(opening, rounds, turns, sent, replies) && Ready()
      requires |sent| == |rounds| + |turns| + 1 && sent[|sent| - 1] == messages + [User(prompt)]
      ensures IsRun(opening, rounds, turns, Some(prompt), askedFrom, ranFrom) && toolsCalled == SuccessNames(executed)
      ensures Answered(messages) && AllSentOk(messages, sent)
    {
      hide RoundsFit, RoundsOk, TurnsFit, TurnsOk, TurnsMessages, History, AllDone, SuccessNames, Ready, IsTrimmed, TrueOutcomes, Answered, AllSentOk, Answers, Known;
      ReadyMeans();
    }

    lemma NowReady()
      requires Owed(messages) == Some([]) && AllSentOk(messages, sent) && Logged()
      ensures Ready()
    {
    }

    lemma ReadyMeans()
      requires Ready()
      ensures Answered(messages) && AllSentOk(messages, sent) && Answers(provider, askedFrom, sent, replies)
      ensures asked == askedFrom + |sent| && |replies| == |sent|
    {
      AnsweredIffNothingOwed(messages);
    }

    /** _summarize_incomplete_progress */
    method SummarizeIncompleteProgress(ghost opening: seq<Message>, ghost rounds: seq<ToolRound>, ghost turns: seq<ExitTurn>) returns (text: string)
      requires Cut(opening, rounds, turns, sent, replies) && Ready() && |sent| == |rounds| + |turns|
      modifies this`asked, this`sent, this`replies, this`lastReply
      ensures Cut(opening, rounds, turns, sent, replies) && Ready()
      ensures |replies| == |sent| == |rounds| + |turns| + 1 && sent[|sent| - 1] == messages + [User(SUMMARY_PROMPT)]
      ensures lastReply == replies[|replies| - 1]
      ensures text == if lastReply.Reply? && TextOf(lastReply.content) != "" then TextOf(lastReply.content) else SUMMARY_FALLBACK
    {
      hide *;
      var reply := AskLast(SUMMARY_PROMPT, opening, rounds, turns);
      if reply.Reply? {
        text := TextOf(reply.content);
        if text != "" {
          return text;
        }
      }
      return SUMMARY_FALLBACK;
    }

    /** _force_final_summary */
    method ForceFinalSummary(ghost opening: seq<Message>, ghost rounds: seq<ToolRound>, ghost turns: seq<ExitTurn>) returns (text: string)
      requires Cut(opening, rounds, turns, sent, replies) && Ready() && |sent| == |rounds| + |turns|
      modifies this`asked, this`sent, this`replies, this`lastReply, this`lastExitReason
      ensures Cut(opening, rounds, turns, sent, replies) && Ready()
      ensures |replies| == |sent| == |rounds| + |turns| + 1 && sent[|sent| - 1] == messages + [User(FINAL_PROMPT)]
      ensures lastReply == replies[|replies| - 1]
      ensures lastExitReason == ForcedSummary || lastExitReason == ForcedFallback
      ensures lastExitReason == ForcedSummary <==> lastReply.Reply? && TextOf(lastReply.content) != ""
      ensures text == if lastExitReason == ForcedSummary then TextOf(lastReply.content) else FINAL_FALLBACK
    {
      hide *;
      var reply := AskLast(FINAL_PROMPT, opening, rounds, turns);
      if reply.Reply? {
        text := TextOf(reply.content);
        if text != "" {
          lastExitReason := ForcedSummary;
          return text;
        }
      }
      lastExitReason := ForcedFallback;
      return FINAL_FALLBACK;
    }

    /** The provider call that closes a run cut short. */
    method AskLast(prompt: string, ghost opening: seq<Message>, ghost rounds: seq<ToolRound>, ghost turns: seq<ExitTurn>) returns (reply: Reply)
      requires Cut(opening, rounds, turns, sent, replies) && Ready() && |sent| == |rounds| + |turns|
      modifies this`asked, this`sent, this`replies, this`lastReply
      ensures Cut(opening, rounds, turns, sent, replies) && Ready() && reply == lastReply
      ensures |replies| == |sent| == |rounds| + |turns| + 1 && sent[|sent| - 1] == messages + [User(prompt)]
      ensures lastReply == replies[|replies| - 1]
    {
      ReadyMeans();
      ghost var s, rs := sent, replies;
      var ms := messages + [User(prompt)];
      CanSend(messages, sent, ms);
      hide Owed, AllSentOk, Answered, Answers, Cut;
      reply := Chat(ms);
      StillCut(opening, rounds, turns, s, rs, ms);
    }

    /**
     A whole run.  The history is the opening, the rounds and the exit turns, where round k is the
     provider's k-th reply, given to the trimmed history before it, and every call of it is answered,
     by what its tool gave when its turn came, by the error text for an unknown tool, or as skipped
     after a denial.  Every list the provider was given keeps the protocol; the number of provider
     calls is exactly the iterations used, plus one per existing exit tool and the summary when the
     run is cut short; the exit reason says which way it ended and which text is returned.
     */
    method Run(task: string) returns (result: string, ghost rounds: seq<ToolRound>, ghost turns: seq<ExitTurn>)
      modifies this
      ensures IsRun(Opening(systemPrompt, task), rounds, turns, LastPrompt(), old(asked), old(ran))
      ensures Answered(messages) && AllSentOk(messages, sent) && toolsCalled == SuccessNames(executed)
      ensures iterationsUsed <= (if maxIterations > 0 then maxIterations else 0)
      ensures |sent| <= (if maxIterations > 0 then maxIterations else 0) + |exitTools| + 1
      ensures iterationsUsed == |rounds| + if lastExitReason == Failed || lastExitReason == Completed then 1 else 0
      ensures lastExitReason != Idle && lastExitReason != Running && replies != [] && lastReply == replies[|replies| - 1]
      ensures lastExitReason == Failed ==> lastReply.Raised? && result == ""
      ensures lastExitReason == Completed ==> lastReply.Reply? && lastReply.calls == [] && result == TextOf(lastReply.content)
      ensures lastExitReason == ToolLoop <==> !NoneDenied(executed)
      ensures lastExitReason == ToolLoop ==>
        result == if lastReply.Reply? && TextOf(lastReply.content) != "" then TextOf(lastReply.content) else SUMMARY_FALLBACK
      ensures lastExitReason == ForcedSummary || lastExitReason == ForcedFallback ==>
        && iterationsUsed == (if maxIterations > 0 then maxIterations else 0)
        && (lastExitReason == ForcedSummary <==> lastReply.Reply? && TextOf(lastReply.content) != "")
        && result == if lastExitReason == ForcedSummary then TextOf(lastReply.content) else FINAL_FALLBACK
    {
      hide *;
      Begin(task);
      ghost var opening := messages;
      NothingYet(opening);
      var step;
      step, rounds := Loop(opening);
      result, turns := Conclude(step, opening, rounds);
    }

    /** What follows the main loop. */
    method Conclude(step: Step, ghost opening: seq<Message>, ghost rounds: seq<ToolRound>) returns (result: string, ghost turns: seq<ExitTurn>)
      requires if step.Error? || step.Finish? then Closed(opening, rounds) else After(opening, rounds)
      modifies this`messages, this`asked, this`sent, this`replies, this`lastReply, this`ran, this`lastExitReason
      ensures IsRun(opening, rounds, turns, LastPrompt(), askedFrom, ranFrom)
      ensures Answered(messages) && AllSentOk(messages, sent) && toolsCalled == SuccessNames(executed) && |turns| <= |exitTools|
      ensures step.Error? ==> lastExitReason == Failed && result == "" && lastReply == old(lastReply) && replies == old(replies)
      ensures step.Finish? ==> lastExitReason == Completed && result == step.text && lastReply == old(lastReply) && replies == old(replies)
      ensures step.Denial? || step.Again? ==> replies != [] && lastReply == replies[|replies| - 1]
      ensures step.Denial? ==>
        && lastExitReason == ToolLoop
        && result == if lastReply.Reply? && TextOf(lastReply.content) != "" then TextOf(lastReply.content) else SUMMARY_FALLBACK
      ensures step.Again? ==>
        && (lastExitReason == ForcedSummary || lastExitReason == ForcedFallback)
        && (lastExitReason == ForcedSummary <==> lastReply.Reply? && TextOf(lastReply.content) != "")
        && result == if lastExitReason == ForcedSummary then TextOf(lastReply.content) else FINAL_FALLBACK
      ensures |sent| == |rounds| + |turns| + 1
    {
      hide *;
      turns := [];
      match step
      case Error =>
        lastExitReason := Failed;
        RunClosed(opening, rounds);
        LastPromptIs();
        return "", turns;
      case Finish(text) =>
        lastExitReason := Completed;
        RunClosed(opening, rounds);
        LastPromptIs();
        return text, turns;
      case Denial =>
        lastExitReason := ToolLoop;
        turns := CutShort(opening, rounds);
        result := SummarizeIncompleteProgress(opening, rounds, turns);
        RunCut(opening, rounds, turns, SUMMARY_PROMPT);
        LastPromptIs();
      case Again =>
        turns := CutShort(opening, rounds);
        result := ForceFinalSummary(opening, rounds, turns);
        RunCut(opening, rounds, turns, FINAL_PROMPT);
        LastPromptIs();
    }

    /** The main loop: passes until one ends it or the budget is used up. */
    method Loop(ghost opening: seq<Message>) returns (step: Step, ghost rounds: seq<ToolRound>)
      requires After(opening, []) && NoneDenied(executed)
      modifies this`messages, this`asked, this`sent, this`replies, this`lastReply, this`toolsCalled, this`executed, this`ran, this`iterationsUsed
      ensures step.Error? || step.Finish? ==> Closed(opening, rounds) && iterationsUsed == |rounds| + 1
      ensures step.Denial? || step.Again? ==> After(opening, rounds) && iterationsUsed == |rounds|
      ensures iterationsUsed <= (if maxIterations > 0 then maxIterations else 0)
      ensures step.Again? ==> iterationsUsed == if maxIterations > 0 then maxIterations else 0
      ensures NoneDenied(executed) <==> step != Denial
      ensures step.Error? ==> lastReply.Raised?
      ensures step.Finish? ==> lastReply.Reply? && lastReply.calls == [] && step.text == TextOf(lastReply.content)
      ensures !step.Again? ==> replies != [] && lastReply == replies[|replies| - 1]
    {
      hide *;
      rounds := [];
      var iteration := 0;
      iterationsUsed := 0;
      while iteration < maxIterations
        invariant iteration == 0 || iteration <= maxIterations
        invariant iterationsUsed == iteration == |rounds| && After(opening, rounds) && NoneDenied(executed)
      {
        iterationsUsed := iteration + 1;
        step, rounds := Pass(maxIterations - iteration - 1, opening, rounds);
        if !step.Again? {
          return;
        }
        iteration := iteration + 1;
      }
      step := Again;
    }

    method AppendPrompt(prompt: string)
      requires Ready()
      modifies this`messages
      ensures Ready() && messages == old(messages) + [User(prompt)]
    {
      UserKeepsOwed(messages, prompt);
      ViewsStay(messages, [User(prompt)], sent);
      messages := messages + [User(prompt)];
    }
  }

  /** The history in the middle of a batch. */
  function SoFar(before: seq<Message>, content: Option<string>, calls: seq<Call>, done: seq<Executed>): seq<Message> {
    before + ([Assistant(content, calls)] + ExecutedMessages(done))
  }

  lemma BatchStarts(before: seq<Message>, content: Option<string>, calls: seq<Call>)
    requires Owed(before) == Some([])
    ensures SoFar(before, content, calls, []) == before + [Assistant(content, calls)]
    ensures Owed(before + [Assistant(content, calls)]) == Some(Ids(calls[0..]))
  {
    BatchOpens(before, content, calls);
    assert calls[0..] == calls;
  }

  lemma BatchGrows(before: seq<Message>, content: Option<string>, calls: seq<Call>, done: seq<Executed>, e: Executed)
    ensures SoFar(before, content, calls, done + [e])
         == SoFar(before, content, calls, done) + ResultMessages(e.call.id, Clip(e.outcome.text), e.outcome.blocks)
  {
    ExecutedSnoc(done, e);
    hide ExecutedMessages, ResultMessages, Clip;
  }

  lemma BatchEnds(before: seq<Message>, content: Option<string>, calls: seq<Call>, done: seq<Executed>)
    requires |done| <= |calls|
    ensures SoFar(before, content, calls, done) + SkippedMessages(calls[|done|..]) == before + BatchMessages(content, calls, done)
    ensures |done| == |calls| ==> SoFar(before, content, calls, done) == before + BatchMessages(content, calls, done)
  {
    hide ExecutedMessages;
  }

  lemma SuccessSnoc(done: seq<Executed>, e: Executed)
    ensures SuccessNames(done + [e]) == SuccessNames(done)
         + if e.outcome.success && e.call.tool !in SuccessNames(done) then [e.call.tool] else []
  {
    assert (done + [e])[..|done|] == done;
  }

  lemma ExecutedSnoc(done: seq<Executed>, e: Executed)
    ensures ExecutedMessages(done + [e]) == ExecutedMessages(done)
         + ResultMessages(e.call.id, Clip(e.outcome.text), e.outcome.blocks)
  {
    assert (done + [e])[..|done|] == done;
  }

  /** Calls executed so far, none denied. */
  predicate RanSoFar(calls: seq<Call>, done: seq<Executed>) {
    |done| <= |calls| && forall k :: 0 <= k < |done| ==> done[k].call == calls[k] && !done[k].outcome.guardDenied
  }

  lemma RanStep(calls: seq<Call>, done: seq<Executed>, e: Executed)
    requires RanSoFar(calls, done) && |done| < |calls| && e.call == calls[|done|]
    ensures if e.outcome.guardDenied then RanUntilDenied(calls, done + [e]) else RanSoFar(calls, done + [e])
    ensures Denied(done + [e]) == e.outcome.guardDenied
  {
  }

  lemma RanAll(calls: seq<Call>, done: seq<Executed>)
    requires RanSoFar(calls, done) && |done| == |calls|
    ensures RanUntilDenied(calls, done) && !Denied(done)
  {
  }

  lemma NothingSkipped(calls: seq<Call>, done: seq<Executed>)
    requires RanUntilDenied(calls, done) && !Denied(done)
    ensures |done| == |calls| && SkippedMessages(calls[|done|..]) == [] && Ids(calls[|done|..]) == []
  {
  }

  ghost predicate NoneDenied(done: seq<Executed>) {
    forall i :: 0 <= i < |done| ==> !done[i].outcome.guardDenied
  }

  lemma DenialSeen(was: seq<Executed>, calls: seq<Call>, done: seq<Executed>)
    requires NoneDenied(was) && RanUntilDenied(calls, done)
    ensures NoneDenied(was + done) <==> !Denied(done)
  {
    var all := was + done;
    assert forall i :: 0 <= i < |done| ==> all[|was| + i] == done[i];
    assert done != [] ==> all[|all| - 1] == done[|done| - 1];
  }

  lemma OpeningOwesNothing(systemPrompt: string, task: string)
    ensures Owed(Opening(systemPrompt, task)) == Some([]) && AllSentOk(Opening(systemPrompt, task), [])
    ensures SuccessNames([]) == [] && NoneDenied([])
  {
    if systemPrompt == "" {
      assert Opening(systemPrompt, task) == [] + [User(task)];
      UserKeepsOwed([], task);
    } else {
      OwedSnoc([], System(systemPrompt));
      assert [] + [System(systemPrompt)] == [System(systemPrompt)];
      UserKeepsOwed([System(systemPrompt)], task);
    }
  }

  lemma OpeningSteps(systemPrompt: string, task: string)
    ensures [] + (if systemPrompt == "" then [] else [System(systemPrompt)]) + [User(task)] == Opening(systemPrompt, task)
    ensures Opening(systemPrompt, task)
         == if systemPrompt == "" then [] + [User(task)] else [] + [System(systemPrompt)] + [User(task)]
  {
  }

  // ── runs grow ──────────────────────────────────────────────────

  lemma KnownStep(names: seq<Name>, tools: set<Name>, i: nat)
    requires i < |names|
    ensures var before := Known(names[..i], tools);
            Known(names[..i + 1], tools) == if names[i] in tools then before + [names[i]] else before
  {
    assert names[..i + 1][..i] == names[..i];
  }

  lemma NothingRun(tools: Tools, toolMap: set<Name>, from: nat)
    ensures ToolRuns(toolMap, []) == 0 && TrueOutcomes(tools, toolMap, from, [])
  {
  }

  lemma TrueStep(tools: Tools, toolMap: set<Name>, from: nat, done: seq<Executed>, e: Executed)
    ensures TrueOutcomes(tools, toolMap, from, done + [e])
       <==> TrueOutcomes(tools, toolMap, from, done) && TrueOutcome(tools, toolMap, from + ToolRuns(toolMap, done), e)
    ensures ToolRuns(toolMap, done + [e]) == ToolRuns(toolMap, done) + if e.call.tool in toolMap then 1 else 0
  {
    SnocFront(done, e);
    hide TrueOutcome;
  }

  lemma ClipIs(text: string)
    ensures Clip(text) == if |text| > MAX_TOOL_RESULT_CHARS then text[..MAX_TOOL_RESULT_CHARS] + TRUNCATED else text
  {
  }

  lemma RunOnce(tools: Tools, toolMap: set<Name>, from: nat, e: Executed)
    requires TrueOutcome(tools, toolMap, from, e)
    ensures TrueOutcomes(tools, toolMap, from, [e]) && ToolRuns(toolMap, [e]) == if e.call.tool in toolMap then 1 else 0
  {
    NothingRun(tools, toolMap, from);
    TrueStep(tools, toolMap, from, [], e);
    assert [] + [e] == [e];
  }

  /** Two stretches of executions, the second starting where the first left the tools. */
  lemma {:induction false} TrueAppend(tools: Tools, toolMap: set<Name>, from: nat, done: seq<Executed>, more: seq<Executed>)
    requires TrueOutcomes(tools, toolMap, from, done)
    requires TrueOutcomes(tools, toolMap, from + ToolRuns(toolMap, done), more)
    ensures TrueOutcomes(tools, toolMap, from, done + more)
    ensures ToolRuns(toolMap, done + more) == ToolRuns(toolMap, done) + ToolRuns(toolMap, more)
  {
    if more == [] {
      assert done + more == done;
    } else {
      hide *;
      var front, e := more[..|more| - 1], more[|more| - 1];
      FrontLast(more);
      TrueStep(tools, toolMap, from + ToolRuns(toolMap, done), front, e);
      TrueAppend(tools, toolMap, from, done, front);
      TrueStep(tools, toolMap, from, done + front, e);
      Associative(done, front, [e]);
    }
  }

  lemma {:induction false} RoundsMore(opening: seq<Message>, rounds: seq<ToolRound>, max: int, s: seq<seq<Message>>, rs: seq<Reply>, sent: seq<seq<Message>>, replies: seq<Reply>)
    requires RoundsOk(opening, rounds, max, s, rs) && s <= sent && rs <= replies && |sent| == |replies|
    ensures RoundsOk(opening, rounds, max, sent, replies)
  {
    if rounds != [] {
      RoundsMore(opening, rounds[..|rounds| - 1], max, s, rs, sent, replies);
    }
    hide ToolRoundOk, History, RoundFits;
  }

  lemma HistoryStep(opening: seq<Message>, rounds: seq<ToolRound>, max: int, r: ToolRound)
    requires RoundsFit(rounds) && RoundFits(r)
    ensures RoundsFit(rounds + [r]) && AllDone(rounds + [r]) == AllDone(rounds) + r.done
    ensures History(opening, rounds + [r], max) == History(opening, rounds, max) + RoundMessages(r, max - |rounds| - 1)
  {
    assert (rounds + [r])[..|rounds|] == rounds;
    hide RoundFits, RoundMessages;
  }

  lemma RoundsStep(opening: seq<Message>, rounds: seq<ToolRound>, max: int, sent: seq<seq<Message>>, replies: seq<Reply>, r: ToolRound)
    requires RoundsOk(opening, rounds, max, sent, replies) && |rounds| < |sent| && RoundFits(r)
    requires ToolRoundOk(History(opening, rounds, max), r, sent[|rounds|], replies[|rounds|])
    ensures RoundsFit(rounds + [r]) && RoundsOk(opening, rounds + [r], max, sent, replies)
  {
    SnocFront(rounds, r);
    HistoryStep(opening, rounds, max, r);
    hide ToolRoundOk, RoundsFit, RoundFits, History;
  }

  lemma AskedFor(before: seq<Message>, r: ToolRound, s: seq<Message>, reply: Reply)
    requires IsTrimmed(before, s) && reply == Reply(r.content, r.calls)
    ensures ToolRoundOk(before, r, s, reply)
  {
    hide IsTrimmed;
  }

  lemma RoundIs(before: seq<Message>, r: ToolRound, remaining: int)
    requires r.calls != [] && RanUntilDenied(r.calls, r.done)
    ensures RoundFits(r)
    ensures var all := before + BatchMessages(r.content, r.calls, r.done);
            before + RoundMessages(r, remaining) == if Denied(r.done) then all else all + [User(Reflect(remaining))]
  {
    hide BatchMessages, Denied, Reflect;
  }

  lemma NoTurns(tools: Tools, toolMap: set<Name>, from: nat, start: seq<Message>, names: seq<Name>, sent: seq<seq<Message>>, replies: seq<Reply>)
    requires |sent| == |replies|
    ensures TurnsFit([]) && TurnsMessages([]) == [] && start + [] == start && TurnsDone([]) == [] && names[..0] == []
    ensures TurnsOk(start, Known(names[..0], toolMap), [], |sent|, sent, replies)
    ensures ToolRuns(toolMap, []) == 0 && TrueOutcomes(tools, toolMap, from, [])
  {
  }

  lemma TurnsGrow(turns: seq<ExitTurn>, t: ExitTurn)
    requires TurnsFit(turns) && TurnFits(t)
    ensures TurnsFit(turns + [t]) && TurnsMessages(turns + [t]) == TurnsMessages(turns) + TurnMessages(t)
    ensures TurnsDone(turns + [t]) == TurnsDone(turns) + t.done
  {
    assert (turns + [t])[..|turns|] == turns;
    hide TurnFits, TurnMessages;
  }

  lemma {:induction false} TurnsMore(start: seq<Message>, names: seq<Name>, turns: seq<ExitTurn>, n: nat, s: seq<seq<Message>>, rs: seq<Reply>, sent: seq<seq<Message>>, replies: seq<Reply>)
    requires TurnsOk(start, names, turns, n, s, rs) && s <= sent && rs <= replies && |sent| == |replies|
    ensures TurnsOk(start, names, turns, n, sent, replies)
  {
    if turns != [] {
      TurnsMore(start, names[..|turns| - 1], turns[..|turns| - 1], n, s, rs, sent, replies);
    }
    hide TurnsMessages, TurnFits, TurnOk;
  }

  lemma TurnsStep(start: seq<Message>, names: seq<Name>, turns: seq<ExitTurn>, n: nat, sent: seq<seq<Message>>, replies: seq<Reply>, t: ExitTurn)
    requires TurnsOk(start, names, turns, n, sent, replies) && n + |turns| < |sent| && TurnFits(t)
    requires TurnOk(start + TurnsMessages(turns), t.tool, t, sent[n + |turns|], replies[n + |turns|])
    ensures TurnsOk(start, names + [t.tool], turns + [t], n, sent, replies)
  {
    SnocFront(turns, t);
    SnocFront(names, t.tool);
    TurnsGrow(turns, t);
    hide TurnOk, TurnsMessages, TurnFits, TurnsFit;
  }

  lemma RanNone(calls: seq<Call>)
    ensures RanSoFar(calls, [])
  {
  }

  lemma LoneCall(tc: Call)
    ensures Ids([tc]) == [tc.id] + []
  {
  }

  lemma OneAnswered(calls: seq<Call>, i: nat)
    requires i < |calls|
    ensures Ids(calls[i..]) == [calls[i].id] + Ids(calls[i + 1..])
    ensures SkippedMessages(calls[..i + 1]) == SkippedMessages(calls[..i]) + ResultMessages(calls[i].id, SKIPPED, false)
  {
    assert calls[..i + 1][..i] == calls[..i];
  }
}
