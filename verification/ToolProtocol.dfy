/**
 The message list of agent/subagent.py and agent/tool_runtime.py: what it means that every tool call
 is answered, and the trimming of old tool results.
 */
module ToolProtocol {
  import opened Text

  datatype Name = Name(text: string)

  datatype Call = Call(id: Name, tool: Name, arguments: string)

  datatype Message =
    | System(text: string)
    | User(text: string)
    | Assistant(content: Option<string>, calls: seq<Call>)
    | Tool(id: Name, text: string)

  function Ids(calls: seq<Call>): (ids: seq<Name>)
    ensures |ids| == |calls| && forall i :: 0 <= i < |calls| ==> ids[i] == calls[i].id
  {
    seq(|calls|, i requires 0 <= i < |calls| => calls[i].id)
  }

  // ── the protocol, stated on the whole list ─────────────────────

  /** The ids of the tool messages from position i up to the next assistant message. */
  function RepliesFrom(ms: seq<Message>, i: nat): seq<Name>
    requires i <= |ms|
    decreases |ms| - i
  {
    if i == |ms| || ms[i].Assistant? then []
    else (if ms[i].Tool? then [ms[i].id] else []) + RepliesFrom(ms, i + 1)
  }

  /** Each assistant message is followed by one reply per call, in call order; there are no other replies. */
  predicate Answered(ms: seq<Message>) {
    && RepliesFrom(ms, 0) == []
    && forall i :: 0 <= i < |ms| && ms[i].Assistant? ==> RepliesFrom(ms, i + 1) == Ids(ms[i].calls)
  }

  // ── the protocol, message by message ───────────────────────────

  /** The ids still owed after a message; None once the protocol is broken. */
  function Next(owed: Option<seq<Name>>, m: Message): Option<seq<Name>> {
    if owed.None? then None
    else
      match m
      case Assistant(_, calls) => if owed.value == [] then Some(Ids(calls)) else None
      case Tool(id, _) => if owed.value != [] && owed.value[0] == id then Some(owed.value[1..]) else None
      case System(_) => owed
      case User(_) => owed
  }

  function Owed(ms: seq<Message>): Option<seq<Name>> {
    if ms == [] then Some([]) else Next(Owed(ms[..|ms| - 1]), ms[|ms| - 1])
  }

  // ── the two agree ──────────────────────────────────────────────

  /** Where replies are counted from: the start, or an assistant message. */
  predicate Round(ms: seq<Message>, i: int) {
    i == -1 || (0 <= i < |ms| && ms[i].Assistant?)
  }

  function LastRound(ms: seq<Message>): (i: int)
    ensures Round(ms, i) && forall j :: i < j < |ms| ==> !ms[j].Assistant?
  {
    if ms == [] then -1
    else if ms[|ms| - 1].Assistant? then |ms| - 1
    else LastRound(ms[..|ms| - 1])
  }

  function Expected(ms: seq<Message>, i: int): seq<Name>
    requires Round(ms, i)
  {
    if i == -1 then [] else Ids(ms[i].calls)
  }

  /** The round at i is answered, up to what is owed if it is the last one. */
  predicate RoundOk(ms: seq<Message>, i: int, owed: seq<Name>)
    requires Round(ms, i)
  {
    RepliesFrom(ms, i + 1) + (if i == LastRound(ms) then owed else []) == Expected(ms, i)
  }

  /** Everything but the last round is answered, and the last one lacks exactly these. */
  ghost predicate AnsweredBut(ms: seq<Message>, owed: seq<Name>) {
    forall i :: Round(ms, i) ==> RoundOk(ms, i, owed)
  }

  lemma {:induction false} RepliesSnoc(ms: seq<Message>, m: Message, i: nat)
    requires i <= |ms|
    ensures RepliesFrom(ms + [m], i) == RepliesFrom(ms, i) + if m.Tool? && i > LastRound(ms) then [m.id] else []
    decreases |ms| - i
  {
    var all := ms + [m];
    assert all[..|all| - 1] == ms;
    if i < |ms| {
      assert all[i] == ms[i];
      RepliesSnoc(ms, m, i + 1);
      assert ms[i].Assistant? ==> i <= LastRound(ms);
    } else {
      assert all[i] == m;
      assert RepliesFrom(all, i + 1) == [];
    }
  }

  lemma SnocRounds(ms: seq<Message>, m: Message)
    ensures forall i :: Round(ms + [m], i) <==> Round(ms, i) || (i == |ms| && m.Assistant?)
    ensures forall i :: Round(ms, i) ==> Expected(ms + [m], i) == Expected(ms, i)
    ensures LastRound(ms + [m]) == if m.Assistant? then |ms| else LastRound(ms)
  {
    var all := ms + [m];
    assert all[..|all| - 1] == ms && all[|ms|] == m;
    assert forall i :: 0 <= i < |ms| ==> all[i] == ms[i];
  }

  lemma RoundOkOther(ms: seq<Message>, m: Message, i: int, owed: seq<Name>)
    requires Round(ms, i) && Round(ms + [m], i) && (m.System? || m.User?)
    ensures RoundOk(ms + [m], i, owed) <==> RoundOk(ms, i, owed)
  {
    SnocRounds(ms, m);
    RepliesSnoc(ms, m, i + 1);
    hide RepliesFrom, Expected, LastRound;
    assert RepliesFrom(ms, i + 1) + [] == RepliesFrom(ms, i + 1);
  }

  lemma RoundOkTool(ms: seq<Message>, m: Message, i: int, owed: seq<Name>)
    requires Round(ms, i) && Round(ms + [m], i) && m.Tool?
    ensures RoundOk(ms + [m], i, owed) <==> RoundOk(ms, i, [m.id] + owed)
  {
    SnocRounds(ms, m);
    RepliesSnoc(ms, m, i + 1);
    var r := RepliesFrom(ms, i + 1);
    assert i <= LastRound(ms);
    hide RepliesFrom, Expected, LastRound;
    assert r + [m.id] + owed == r + ([m.id] + owed) && r + [] == r;
  }

  lemma RoundOkAssistant(ms: seq<Message>, m: Message, i: int, owed: seq<Name>)
    requires Round(ms, i) && m.Assistant?
    ensures Round(ms + [m], i) && (RoundOk(ms + [m], i, owed) <==> RoundOk(ms, i, []))
  {
    SnocRounds(ms, m);
    RepliesSnoc(ms, m, i + 1);
    hide RepliesFrom, Expected, LastRound;
    assert RepliesFrom(ms, i + 1) + [] == RepliesFrom(ms, i + 1);
  }

  lemma OtherStep(ms: seq<Message>, m: Message, owed: seq<Name>)
    requires m.System? || m.User?
    ensures AnsweredBut(ms + [m], owed) <==> AnsweredBut(ms, owed)
  {
    SnocRounds(ms, m);
    hide RoundOk, Round;
    forall i | Round(ms, i) ensures RoundOk(ms + [m], i, owed) <==> RoundOk(ms, i, owed) {
      RoundOkOther(ms, m, i, owed);
    }
  }

  lemma ToolStep(ms: seq<Message>, m: Message, owed: seq<Name>)
    requires m.Tool?
    ensures AnsweredBut(ms + [m], owed) <==> AnsweredBut(ms, [m.id] + owed)
  {
    SnocRounds(ms, m);
    hide RoundOk, Round;
    forall i | Round(ms, i) ensures RoundOk(ms + [m], i, owed) <==> RoundOk(ms, i, [m.id] + owed) {
      RoundOkTool(ms, m, i, owed);
    }
  }

  lemma AssistantStep(ms: seq<Message>, m: Message, owed: seq<Name>)
    requires m.Assistant?
    ensures AnsweredBut(ms + [m], owed) <==> AnsweredBut(ms, []) && owed == Ids(m.calls)
  {
    SnocRounds(ms, m);
    NewRound(ms, m, owed);
    hide RoundOk, Round;
    forall i | Round(ms, i) ensures RoundOk(ms + [m], i, owed) <==> RoundOk(ms, i, []) {
      RoundOkAssistant(ms, m, i, owed);
    }
  }

  lemma NewRound(ms: seq<Message>, m: Message, owed: seq<Name>)
    requires m.Assistant?
    ensures !Round(ms, |ms|) && Round(ms + [m], |ms|)
    ensures RoundOk(ms + [m], |ms|, owed) <==> owed == Ids(m.calls)
  {
    SnocRounds(ms, m);
    assert (ms + [m])[|ms|] == m;
    assert [] + owed == owed;
  }

  lemma NextTool(o: Option<seq<Name>>, id: Name, text: string, owed: seq<Name>)
    ensures Next(o, Tool(id, text)) == Some(owed) <==> o == Some([id] + owed)
  {
    if o.Some? && o.value != [] {
      assert o.value == [o.value[0]] + o.value[1..];
    }
  }

  lemma {:induction false} OwedIff(ms: seq<Message>, owed: seq<Name>)
    ensures Owed(ms) == Some(owed) <==> AnsweredBut(ms, owed)
  {
    if ms == [] {
      assert Round(ms, -1);
    } else {
      var front, m := ms[..|ms| - 1], ms[|ms| - 1];
      assert ms == front + [m];
      assert Owed(ms) == Next(Owed(front), m);
      hide AnsweredBut, Owed;
      match m
      case System(_) =>
        OwedIff(front, owed);
        OtherStep(front, m, owed);
      case User(_) =>
        OwedIff(front, owed);
        OtherStep(front, m, owed);
      case Tool(id, text) =>
        NextTool(Owed(front), id, text, owed);
        OwedIff(front, [id] + owed);
        ToolStep(front, m, owed);
      case Assistant(_, calls) =>
        OwedIff(front, []);
        AssistantStep(front, m, owed);
    }
  }

  /** Going message by message and looking at the whole list come to the same. */
  lemma AnsweredIffNothingOwed(ms: seq<Message>)
    ensures Answered(ms) <==> Owed(ms) == Some([])
  {
    OwedIff(ms, []);
    if Answered(ms) {
      forall i | Round(ms, i) ensures RoundOk(ms, i, []) {
        assert RepliesFrom(ms, i + 1) + [] == RepliesFrom(ms, i + 1);
      }
    }
    if AnsweredBut(ms, []) {
      assert Round(ms, -1);
      forall i | 0 <= i < |ms| && ms[i].Assistant? ensures RepliesFrom(ms, i + 1) == Ids(ms[i].calls) {
        assert Round(ms, i) && RoundOk(ms, i, []);
      }
    }
  }

  // ── trimming old tool results ──────────────────────────────────

  const CLEARED := "[已清除]"
  const RECENT_TOOL_ROUNDS := 3

  /** The positions of the assistant messages with calls. */
  function ToolRounds(ms: seq<Message>): seq<nat> {
    if ms == [] then []
    else
      var m := ms[|ms| - 1];
      ToolRounds(ms[..|ms| - 1]) + if m.Assistant? && m.calls != [] then [|ms| - 1] else []
  }

  /** They are all of them, in order. */
  lemma {:induction false} ToolRoundsSpec(ms: seq<Message>)
    ensures forall i, j :: 0 <= i < j < |ToolRounds(ms)| ==> ToolRounds(ms)[i] < ToolRounds(ms)[j]
    ensures forall i: nat :: i in ToolRounds(ms) <==> i < |ms| && ms[i].Assistant? && ms[i].calls != []
  {
    if ms != [] {
      ToolRoundsSpec(ms[..|ms| - 1]);
      var front := ToolRounds(ms[..|ms| - 1]);
      assert forall i :: 0 <= i < |front| ==> front[i] in front;
    }
  }

  /** The start of the third round from the end; 0 if there are no more than three. */
  function Cutoff(ms: seq<Message>): nat {
    var rounds := ToolRounds(ms);
    if |rounds| <= RECENT_TOOL_ROUNDS then 0 else rounds[|rounds| - RECENT_TOOL_ROUNDS]
  }

  function Cleared(m: Message): Message {
    if m.Tool? then m.(text := CLEARED) else m
  }

  /** What trimming leaves: results before the cutoff replaced, everything else as it was. */
  predicate IsTrimmed(ms: seq<Message>, out: seq<Message>) {
    |out| == |ms| && forall i :: 0 <= i < |ms| ==> out[i] == if i < Cutoff(ms) then Cleared(ms[i]) else ms[i]
  }

  /** The same messages up to the text of tool results. */
  predicate SameShape(a: seq<Message>, b: seq<Message>) {
    |a| == |b| && forall i :: 0 <= i < |a| ==> Cleared(a[i]) == Cleared(b[i])
  }

  method TrimToolResults(ms: seq<Message>) returns (out: seq<Message>)
    ensures IsTrimmed(ms, out)
  {
    var rounds: seq<nat> := [];
    for i := 0 to |ms|
      invariant rounds == ToolRounds(ms[..i])
    {
      assert ms[..i + 1][..i] == ms[..i];
      if ms[i].Assistant? && ms[i].calls != [] {
        rounds := rounds + [i];
      }
    }
    assert ms[..|ms|] == ms;
    hide ToolRounds;
    if |rounds| <= RECENT_TOOL_ROUNDS {
      return ms;
    }
    var cutoff := rounds[|rounds| - RECENT_TOOL_ROUNDS];
    out := [];
    for i := 0 to |ms|
      invariant |out| == i && forall k :: 0 <= k < i ==> out[k] == if k < cutoff then Cleared(ms[k]) else ms[k]
    {
      out := out + [if ms[i].Tool? && i < cutoff then ms[i].(text := CLEARED) else ms[i]];
    }
  }

  lemma {:induction false} SameRounds(a: seq<Message>, b: seq<Message>)
    requires SameShape(a, b)
    ensures ToolRounds(a) == ToolRounds(b) && Cutoff(a) == Cutoff(b)
  {
    if a != [] {
      assert Cleared(a[|a| - 1]) == Cleared(b[|b| - 1]);
      SameRounds(a[..|a| - 1], b[..|b| - 1]);
    }
  }

  lemma {:induction false} SameOwed(a: seq<Message>, b: seq<Message>)
    requires SameShape(a, b)
    ensures Owed(a) == Owed(b)
  {
    if a != [] {
      assert Cleared(a[|a| - 1]) == Cleared(b[|b| - 1]);
      SameOwed(a[..|a| - 1], b[..|b| - 1]);
    }
  }

  lemma TrimTwice(ms: seq<Message>, out: seq<Message>, again: seq<Message>)
    requires IsTrimmed(ms, out) && IsTrimmed(out, again) && Cutoff(out) == Cutoff(ms)
    ensures again == out
  {
    hide Cutoff;
    forall i | 0 <= i < |out| ensures again[i] == out[i] {
    }
  }

  lemma TrimShape(ms: seq<Message>, out: seq<Message>)
    requires IsTrimmed(ms, out)
    ensures SameShape(ms, out) && forall i :: Cutoff(ms) <= i < |ms| ==> out[i] == ms[i]
  {
    hide Cutoff;
  }

  /**
   Trimming keeps the length, every role, id and call, so also what is answered; it leaves the last
   three tool rounds intact; and doing it again changes nothing.
   */
  lemma TrimmingIsSafe(ms: seq<Message>, out: seq<Message>)
    requires IsTrimmed(ms, out)
    ensures SameShape(ms, out) && (Answered(out) <==> Answered(ms))
    ensures forall i :: 0 <= i < |ms| && !ms[i].Tool? ==> out[i] == ms[i]
    ensures var rounds := ToolRounds(ms);
            |rounds| >= RECENT_TOOL_ROUNDS ==>
              forall i :: rounds[|rounds| - RECENT_TOOL_ROUNDS] <= i < |ms| ==> out[i] == ms[i]
    ensures var rounds := ToolRounds(ms);
            if |rounds| <= RECENT_TOOL_ROUNDS then out == ms
            else forall i :: 0 <= i < rounds[|rounds| - RECENT_TOOL_ROUNDS] && i < |ms| && ms[i].Tool? ==> out[i] == Tool(ms[i].id, CLEARED)
    ensures forall again :: IsTrimmed(out, again) ==> again == out
  {
    TrimShape(ms, out);
    SameRounds(ms, out);
    SameOwed(ms, out);
    AnsweredIffNothingOwed(ms);
    AnsweredIffNothingOwed(out);
    forall again | IsTrimmed(out, again) ensures again == out {
      TrimTwice(ms, out, again);
    }
    hide Answered, ToolRounds, Owed, SameShape;
  }
}
