/** The messages one batch of tool calls leaves behind (agent/subagent.py:209-276, agent/tool_runtime.py:90-129). */
module ToolBatch {
  import opened Text
  import opened ToolProtocol

  /** What executing a call gives: its text, whether it has content blocks, how it ended. */
  datatype Outcome = Outcome(text: string, blocks: bool, success: bool, guardDenied: bool)

  datatype Executed = Executed(call: Call, outcome: Outcome)

  const MAX_TOOL_RESULT_CHARS := 100_000
  const TRUNCATED := "\n...[结果已截断]"
  const DONE := "工具执行完成。"
  const SKIPPED := "工具调用已因重复循环检测跳过。"
  const FILE_CONTENTS := "以下是工具读取到的文件内容，请直接查看。"

  function Clip(text: string): string {
    if |text| > MAX_TOOL_RESULT_CHARS then text[..MAX_TOOL_RESULT_CHARS] + TRUNCATED else text
  }

  /** append_tool_result: the reply, then the content blocks as a user message. */
  function ResultMessages(id: Name, text: string, blocks: bool): seq<Message> {
    [Tool(id, if text == "" then DONE else text)] + if blocks then [User(FILE_CONTENTS)] else []
  }

  function ExecutedMessages(done: seq<Executed>): seq<Message> {
    if done == [] then []
    else
      var last := done[|done| - 1];
      ExecutedMessages(done[..|done| - 1]) + ResultMessages(last.call.id, Clip(last.outcome.text), last.outcome.blocks)
  }

  function SkippedMessages(calls: seq<Call>): seq<Message> {
    if calls == [] then []
    else SkippedMessages(calls[..|calls| - 1]) + ResultMessages(calls[|calls| - 1].id, SKIPPED, false)
  }

  /** The calls of a batch up to the first one the loop guard denied, with their outcomes. */
  predicate RanUntilDenied(calls: seq<Call>, done: seq<Executed>) {
    && |done| <= |calls|
    && (forall i :: 0 <= i < |done| ==> done[i].call == calls[i])
    && (forall i :: 0 <= i < |done| - 1 ==> !done[i].outcome.guardDenied)
    && (|done| < |calls| ==> done != [] && done[|done| - 1].outcome.guardDenied)
  }

  predicate Denied(done: seq<Executed>) {
    done != [] && done[|done| - 1].outcome.guardDenied
  }

  /** Everything a batch appends. */
  function BatchMessages(content: Option<string>, calls: seq<Call>, done: seq<Executed>): seq<Message>
    requires |done| <= |calls|
  {
    [Assistant(content, calls)] + ExecutedMessages(done) + SkippedMessages(calls[|done|..])
  }

  // ── the replies of a batch ─────────────────────────────────────

  /** The tool messages of a list, in order. */
  function Replies(ms: seq<Message>): seq<Message> {
    if ms == [] then []
    else Replies(ms[..|ms| - 1]) + if ms[|ms| - 1].Tool? then [ms[|ms| - 1]] else []
  }

  lemma RepliesSnoc(ms: seq<Message>, id: Name, text: string, blocks: bool)
    ensures Replies(ms + ResultMessages(id, text, blocks)) == Replies(ms) + [Tool(id, if text == "" then DONE else text)]
  {
    var reply := Tool(id, if text == "" then DONE else text);
    SnocFront(ms, reply);
    SnocFront(ms + [reply], User(FILE_CONTENTS));
    if blocks {
      assert ms + ResultMessages(id, text, blocks) == ms + [reply] + [User(FILE_CONTENTS)];
    }
    hide Replies;
    assert Replies(ms) + [reply] + [] == Replies(ms) + [reply];
  }

  /** The reply with a result's text: cut at the limit, and never empty. */
  predicate IsReply(m: Message, id: Name, text: string) {
    m.Tool? && m.id == id
    && if text == "" then m.text == DONE
       else if |text| <= MAX_TOOL_RESULT_CHARS then m.text == text
       else m.text == text[..MAX_TOOL_RESULT_CHARS] + TRUNCATED
  }

  lemma ClippedReply(id: Name, text: string)
    ensures IsReply(Tool(id, if Clip(text) == "" then DONE else Clip(text)), id, text)
  {
    assert |text| > MAX_TOOL_RESULT_CHARS ==> |Clip(text)| > 0;
  }

  predicate AllReplied(rs: seq<Message>, done: seq<Executed>) {
    |rs| == |done| && forall i :: 0 <= i < |done| ==> IsReply(rs[i], done[i].call.id, done[i].outcome.text)
  }

  predicate AllSkipped(rs: seq<Message>, calls: seq<Call>) {
    |rs| == |calls| && forall i :: 0 <= i < |calls| ==> rs[i] == Tool(calls[i].id, SKIPPED)
  }

  lemma OneMoreReplied(rs: seq<Message>, done: seq<Executed>, m: Message, e: Executed)
    requires AllReplied(rs, done) && IsReply(m, e.call.id, e.outcome.text)
    ensures AllReplied(rs + [m], done + [e])
  {
    hide IsReply;
    SnocFront(rs, m);
    SnocFront(done, e);
  }

  lemma OneMoreSkipped(rs: seq<Message>, calls: seq<Call>, c: Call)
    requires AllSkipped(rs, calls)
    ensures AllSkipped(rs + [Tool(c.id, SKIPPED)], calls + [c])
  {
    SnocFront(rs, Tool(c.id, SKIPPED));
    SnocFront(calls, c);
  }

  lemma NoReplies(first: Message)
    requires first.Assistant?
    ensures Replies([first] + ExecutedMessages([])) == [] && AllReplied([], []) && AllSkipped([], [])
  {
    SnocFront([], first);
    assert [first] + [] == [] + [first];
  }

  lemma {:induction false} ExecutedReplies(first: Message, done: seq<Executed>)
    requires first.Assistant?
    ensures AllReplied(Replies([first] + ExecutedMessages(done)), done)
  {
    NoReplies(first);
    hide *;
    if done != [] {
      var front, last := done[..|done| - 1], done[|done| - 1];
      FrontLast(done);
      ExecutedReplies(first, front);
      ExecutedStep(done);
      ClippedReply(last.call.id, last.outcome.text);
      var id, text, blocks := last.call.id, Clip(last.outcome.text), last.outcome.blocks;
      Associative([first], ExecutedMessages(front), ResultMessages(id, text, blocks));
      RepliesSnoc([first] + ExecutedMessages(front), id, text, blocks);
      OneMoreReplied(Replies([first] + ExecutedMessages(front)), front, Tool(id, if text == "" then DONE else text), last);
    }
  }

  lemma SkippedStep(calls: seq<Call>)
    requires calls != []
    ensures SkippedMessages(calls)
         == SkippedMessages(calls[..|calls| - 1]) + ResultMessages(calls[|calls| - 1].id, SKIPPED, false)
    ensures SKIPPED != ""
  {
  }

  lemma NothingSkippedYet(ms: seq<Message>)
    ensures ms + SkippedMessages([]) == ms && Replies(ms) == Replies(ms) + [] && AllSkipped([], [])
  {
  }

  lemma {:induction false} SkippedReplies(ms: seq<Message>, calls: seq<Call>) returns (rs: seq<Message>)
    ensures Replies(ms + SkippedMessages(calls)) == Replies(ms) + rs && AllSkipped(rs, calls)
  {
    rs := [];
    NothingSkippedYet(ms);
    hide *;
    if calls != [] {
      var front, last := calls[..|calls| - 1], calls[|calls| - 1];
      FrontLast(calls);
      var before := SkippedReplies(ms, front);
      SkippedStep(calls);
      RepliesSnoc(ms + SkippedMessages(front), last.id, SKIPPED, false);
      Associative(ms, SkippedMessages(front), ResultMessages(last.id, SKIPPED, false));
      OneMoreSkipped(before, front, last);
      rs := before + [Tool(last.id, SKIPPED)];
      Associative(Replies(ms), before, [Tool(last.id, SKIPPED)]);
    }
  }

  /** A batch is answered call by call: with its own result as far as it was executed, as skipped from there on. */
  lemma BatchReplies(content: Option<string>, calls: seq<Call>, done: seq<Executed>)
    requires RanUntilDenied(calls, done)
    ensures var rs := Replies(BatchMessages(content, calls, done));
            && |rs| == |calls|
            && (forall i :: 0 <= i < |done| ==> IsReply(rs[i], calls[i].id, done[i].outcome.text))
            && (forall i :: |done| <= i < |calls| ==> rs[i] == Tool(calls[i].id, SKIPPED))
  {
    hide ExecutedMessages, SkippedMessages, Replies, IsReply;
    var first, rest := Assistant(content, calls), calls[|done|..];
    var ms := [first] + ExecutedMessages(done);
    ExecutedReplies(first, done);
    var skipped := SkippedReplies(ms, rest);
    assert BatchMessages(content, calls, done) == ms + SkippedMessages(rest);
    RepliesByCall(calls, done, Replies(ms), skipped);
  }

  lemma RepliesByCall(calls: seq<Call>, done: seq<Executed>, replied: seq<Message>, skipped: seq<Message>)
    requires RanUntilDenied(calls, done) && AllReplied(replied, done) && AllSkipped(skipped, calls[|done|..])
    ensures var rs := replied + skipped;
            && |rs| == |calls|
            && (forall i :: 0 <= i < |done| ==> IsReply(rs[i], calls[i].id, done[i].outcome.text))
            && (forall i :: |done| <= i < |calls| ==> rs[i] == Tool(calls[i].id, SKIPPED))
  {
    hide IsReply;
    var rs, rest := replied + skipped, calls[|done|..];
    assert forall i :: 0 <= i < |done| ==> rs[i] == replied[i];
    forall i | |done| <= i < |calls| ensures rs[i] == Tool(calls[i].id, SKIPPED) {
      assert rs[i] == skipped[i - |done|] && rest[i - |done|] == calls[i];
    }
  }

  // ── what is owed during a batch ────────────────────────────────

  lemma OwedSnoc(ms: seq<Message>, m: Message)
    ensures Owed(ms + [m]) == Next(Owed(ms), m)
  {
    assert (ms + [m])[..|ms|] == ms;
  }

  /** A result answers the call that is owed next. */
  lemma ResultAnswers(ms: seq<Message>, id: Name, rest: seq<Name>, text: string, blocks: bool)
    requires Owed(ms) == Some([id] + rest)
    ensures Owed(ms + ResultMessages(id, text, blocks)) == Some(rest)
  {
    var reply := Tool(id, if text == "" then DONE else text);
    OwedSnoc(ms, reply);
    OwedSnoc(ms + [reply], User(FILE_CONTENTS));
    assert ([id] + rest)[1..] == rest;
    hide Owed;
    if blocks {
      assert ms + ResultMessages(id, text, blocks) == ms + [reply] + [User(FILE_CONTENTS)];
    } else {
      assert ms + ResultMessages(id, text, blocks) == ms + [reply];
    }
  }

  lemma BatchOpens(ms: seq<Message>, content: Option<string>, calls: seq<Call>)
    requires Owed(ms) == Some([])
    ensures Owed(ms + [Assistant(content, calls)]) == Some(Ids(calls))
  {
    OwedSnoc(ms, Assistant(content, calls));
  }

  lemma UserKeepsOwed(ms: seq<Message>, text: string)
    ensures Owed(ms + [User(text)]) == Owed(ms)
  {
    OwedSnoc(ms, User(text));
  }

  // ── the names of tools that succeeded ──────────────────────────

  /** Each tool that succeeded, once, in order of first success. */
  function SuccessNames(done: seq<Executed>): seq<Name> {
    if done == [] then []
    else
      var front, last := SuccessNames(done[..|done| - 1]), done[|done| - 1];
      front + if last.outcome.success && last.call.tool !in front then [last.call.tool] else []
  }

  lemma {:induction false} SuccessNamesSpec(done: seq<Executed>)
    ensures forall i, j :: 0 <= i < j < |SuccessNames(done)| ==> SuccessNames(done)[i] != SuccessNames(done)[j]
    ensures forall n :: n in SuccessNames(done) <==> exists e :: e in done && e.outcome.success && e.call.tool == n
  {
    if done != [] {
      var front, last := done[..|done| - 1], done[|done| - 1];
      SuccessNamesSpec(front);
      assert done == front + [last];
      assert last in done;
    }
  }

  // ── replies directly after their calls ─────────────────────────

  /** No message comes between an assistant message and its replies, or between two of its replies. */
  predicate Contiguous(ms: seq<Message>) {
    forall i :: 0 < i < |ms| && ms[i].Tool? ==> ms[i - 1].Tool? || ms[i - 1].Assistant?
  }

  predicate EndsInUser(ms: seq<Message>) {
    ms != [] && ms[|ms| - 1].User?
  }

  predicate EndsInSystem(ms: seq<Message>) {
    ms == [] || ms[|ms| - 1].System?
  }

  lemma ContiguousSnoc(ms: seq<Message>, id: Name, text: string, blocks: bool)
    requires !EndsInSystem(ms)
    ensures var all := ms + ResultMessages(id, text, blocks);
            && (Contiguous(all) <==> Contiguous(ms) && !EndsInUser(ms))
            && (EndsInUser(all) <==> blocks) && !EndsInSystem(all)
  {
    var all := ms + ResultMessages(id, text, blocks);
    assert forall i :: 0 <= i < |ms| ==> all[i] == ms[i];
    assert all[|ms|].Tool? && (blocks ==> all[|ms| + 1].User?);
    if Contiguous(all) {
      assert all[|ms| - 1].Tool? || all[|ms| - 1].Assistant?;
      forall i | 0 < i < |ms| && ms[i].Tool? ensures ms[i - 1].Tool? || ms[i - 1].Assistant? {
        assert all[i].Tool? && all[i - 1] == ms[i - 1];
      }
    }
  }

  /** Only the last of the executed calls may have content blocks. */
  predicate BlocksLast(done: seq<Executed>) {
    forall i :: 0 <= i < |done| - 1 ==> !done[i].outcome.blocks
  }

  predicate LastHasBlocks(done: seq<Executed>) {
    done != [] && done[|done| - 1].outcome.blocks
  }

  lemma BlocksLastStep(done: seq<Executed>)
    requires done != []
    ensures var front := done[..|done| - 1];
            && (BlocksLast(done) <==> BlocksLast(front) && !LastHasBlocks(front))
            && (LastHasBlocks(done) <==> done[|done| - 1].outcome.blocks)
  {
    var front := done[..|done| - 1];
    if BlocksLast(done) && front != [] {
      assert !done[|front| - 1].outcome.blocks;
    }
  }

  lemma {:induction false} ExecutedContiguous(first: Message, done: seq<Executed>)
    requires first.Assistant?
    ensures var ms := [first] + ExecutedMessages(done);
            && (Contiguous(ms) <==> BlocksLast(done))
            && (EndsInUser(ms) <==> LastHasBlocks(done)) && !EndsInSystem(ms)
  {
    if done == [] {
      FirstAlone(first);
    } else {
      var front, last := done[..|done| - 1], done[|done| - 1];
      ExecutedContiguous(first, front);
      ExecutedStep(done);
      hide *;
      var id, text, blocks := last.call.id, Clip(last.outcome.text), last.outcome.blocks;
      Associative([first], ExecutedMessages(front), ResultMessages(id, text, blocks));
      ContiguousSnoc([first] + ExecutedMessages(front), id, text, blocks);
      BlocksLastStep(done);
    }
  }

  lemma FirstAlone(first: Message)
    requires first.Assistant?
    ensures var ms := [first] + ExecutedMessages([]);
            Contiguous(ms) && !EndsInUser(ms) && !EndsInSystem(ms) && BlocksLast([]) && !LastHasBlocks([])
  {
  }

  lemma ExecutedStep(done: seq<Executed>)
    requires done != []
    ensures var last := done[|done| - 1];
            ExecutedMessages(done)
            == ExecutedMessages(done[..|done| - 1]) + ResultMessages(last.call.id, Clip(last.outcome.text), last.outcome.blocks)
  {
  }

  lemma {:induction false} SkippedContiguous(ms: seq<Message>, calls: seq<Call>)
    requires !EndsInSystem(ms)
    ensures var all := ms + SkippedMessages(calls);
            && (Contiguous(all) <==> Contiguous(ms) && (calls == [] || !EndsInUser(ms)))
            && (EndsInUser(all) <==> calls == [] && EndsInUser(ms)) && !EndsInSystem(all)
  {
    if calls == [] {
      assert ms + [] == ms;
    } else {
      var front, id := calls[..|calls| - 1], calls[|calls| - 1].id;
      SkippedContiguous(ms, front);
      var all := ms + SkippedMessages(front);
      assert ms + SkippedMessages(calls) == all + ResultMessages(id, SKIPPED, false);
      ContiguousSnoc(all, id, SKIPPED, false);
      hide Contiguous, EndsInUser, EndsInSystem, ResultMessages, SkippedMessages;
    }
  }

  /** Replies follow their calls without interruption exactly when no result but the batch's last has content blocks. */
  lemma BatchContiguousIff(content: Option<string>, calls: seq<Call>, done: seq<Executed>)
    requires RanUntilDenied(calls, done)
    ensures Contiguous(BatchMessages(content, calls, done))
       <==> forall i :: 0 <= i < |done| && i < |calls| - 1 ==> !done[i].outcome.blocks
  {
    var first, rest := Assistant(content, calls), calls[|done|..];
    var ms := [first] + ExecutedMessages(done);
    ExecutedContiguous(first, done);
    SkippedContiguous(ms, rest);
    hide Contiguous, EndsInUser, EndsInSystem, ExecutedMessages, SkippedMessages;
    assert |done| < |calls| ==> rest != [];
  }

  /** Two calls, the first result with content blocks: a user message stands between their replies. */
  lemma BlocksBetweenReplies(first: Call, second: Call, one: Outcome, two: Outcome)
    requires one.blocks && !one.guardDenied
    ensures var calls, done := [first, second], [Executed(first, one), Executed(second, two)];
            RanUntilDenied(calls, done) && !Contiguous(BatchMessages(None, calls, done))
  {
    var calls, done := [first, second], [Executed(first, one), Executed(second, two)];
    assert RanUntilDenied(calls, done);
    hide Contiguous, BatchMessages;
    BatchContiguousIff(None, calls, done);
    assert done[0].outcome.blocks;
  }
}
