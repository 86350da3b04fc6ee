/**
 The token budget of memory2/eval_public_long_memory.py: trimming a text to its last tokens, and the
 metadata about it.
 */
module TokenTrim {
  import opened Text
  import opened Tokenizer
  import opened CompactLines

  lemma TokensOfCons(first: string, rest: seq<string>, word: CharClass)
    ensures TokensOfAll([first] + rest, word) == Tokens(first, word) + TokensOfAll(rest, word)
  {
    assert ([first] + rest)[1..] == rest;
  }

  lemma TokensOfOne(t: string, word: CharClass)
    ensures TokensOfAll([t], word) == Tokens(t, word)
  {
    assert TokensOfAll([t][1..], word) == [];
  }

  lemma TokensAroundBreak(t: string, n: nat, word: CharClass)
    requires n < |t| && IsSpace(t[n])
    ensures Tokens(t, word) == Tokens(t[..n], word) + Tokens(t[n + 1..], word)
  {
    assert t[..n] + [t[n]] + t[n + 1..] == t;
    NoTokens(t[n], word);
    hide *;
    TokensSplit(t[..n], t[n], t[n + 1..], word);
  }

  lemma {:induction false} TokensOfLines(t: string, word: CharClass)
    ensures TokensOfAll(Lines(t), word) == Tokens(t, word)
    decreases |t|
  {
    var n := FirstBreak(t);
    if t != "" {
      if n < |t| {
        hide *;
        LinesStep(t);
        BreakIsSpace(t);
        TokensAroundBreak(t, n, word);
        TokensOfLines(t[n + 1..], word);
        TokensOfCons(t[..n], Lines(t[n + 1..]), word);
      } else {
        hide *;
        LastLine(t);
        TokensOfOne(t, word);
      }
    }
  }

  lemma {:induction false} TokensOfStripped(lines: seq<string>, word: CharClass)
    ensures TokensOfAll(Stripped(lines), word) == TokensOfAll(lines, word)
  {
    if lines != [] {
      TokensOfStripped(lines[1..], word);
      TokensOfStrip(lines[0], word);
      var k := Stripped(lines[1..]);
      if Strip(lines[0]) != "" {
        assert ([Strip(lines[0])] + k)[1..] == k;
      } else {
        assert Stripped(lines) == k;
        assert Tokens(lines[0], word) == [];
      }
    }
  }

  lemma CompactKeepsTokens(t: string, word: CharClass)
    ensures Tokens(Compact(t), word) == Tokens(t, word)
  {
    TokensOfJoined(Stripped(Lines(t)), '\n', word);
    TokensOfStripped(Lines(t), word);
    TokensOfLines(t, word);
  }

  // ── trimming ───────────────────────────────────────────────────

  function LastN(xs: seq<string>, n: int): seq<string> {
    if n <= 0 then [] else if |xs| <= n then xs else xs[|xs| - n..]
  }

  /** _trim_text_to_token_budget */
  function Trim(t: string, budget: int, word: CharClass): string {
    var compact := Compact(t);
    if budget <= 0 then ""
    else if |Tokens(compact, word)| <= budget then compact
    else Joined(LastN(Tokens(compact, word), budget), ' ')
  }

  /** What is left are the source's last tokens, as many as the budget allows. */
  lemma TrimTokens(t: string, budget: int, word: CharClass)
    ensures Tokens(Trim(t, budget, word), word) == LastN(Tokens(t, word), budget)
    ensures var xs, ys := Tokens(t, word), Tokens(Trim(t, budget, word), word);
            && |ys| == (if budget <= 0 then 0 else if budget < |xs| then budget else |xs|)
            && ys == xs[|xs| - |ys|..]
  {
    CompactKeepsTokens(t, word);
    TokensAreTokens(t, word);
    if 0 < budget < |Tokens(t, word)| {
      TokensRoundTrip(LastN(Tokens(t, word), budget), word);
    }
  }

  /** Within the budget only white space goes: what is left are the source's stripped lines that are not blank. */
  lemma WithinBudget(t: string, budget: int, word: CharClass)
    requires 0 < budget && |Tokens(t, word)| <= budget
    ensures Lines(Trim(t, budget, word)) == Stripped(Lines(t))
  {
    CompactKeepsTokens(t, word);
    StrippedTrimmed(t);
    TrimmedLinesStay(Stripped(Lines(t)));
  }

  lemma {:induction false} JoinedTokensTidy(xs: seq<string>, word: CharClass)
    requires xs != [] && AllTokens(xs, word)
    ensures var s := Joined(xs, ' '); s != "" && !IsSpace(s[0]) && !IsSpace(s[|s| - 1]) && BreakFree(s)
  {
    var first := xs[0];
    assert IsToken(first, word);
    assert forall i :: 0 <= i < |first| ==> !IsSpace(first[i]);
    if |xs| > 1 {
      JoinedTokensTidy(xs[1..], word);
    }
  }

  /** A second trim to the same budget changes nothing. */
  lemma TrimTwice(t: string, budget: int, word: CharClass)
    ensures Trim(Trim(t, budget, word), budget, word) == Trim(t, budget, word)
  {
    var r := Trim(t, budget, word);
    TrimTokens(t, budget, word);
    if budget > 0 {
      CompactKeepsTokens(r, word);
      if |Tokens(t, word)| <= budget {
        CompactKeepsTokens(t, word);
        StrippedTrimmed(t);
        CompactTrimmed(Stripped(Lines(t)));
      } else {
        CompactKeepsTokens(t, word);
        TokensAreTokens(t, word);
        JoinedTokensTidy(LastN(Tokens(t, word), budget), word);
        assert LStrip(r) == r && RStrip(r) == r;
        CompactTrimmed([r]);
      }
    }
  }

  // ── metadata ───────────────────────────────────────────────────

  datatype Metadata = Metadata(sourceCount: nat, renderedCount: nat, applied: bool, reason: string)

  /** _render_token_metadata */
  function RenderTokenMetadata(source: string, rendered: string, budget: int, word: CharClass): Metadata {
    var n := |Tokens(source, word)|;
    var truncated := n > if budget > 0 then budget else 0;
    Metadata(n, |Tokens(rendered, word)|, truncated, if truncated then "token_budget_exceeded" else "")
  }

  /** A reason is given with the flag, and only then. */
  lemma ReasonGivenIff(source: string, rendered: string, budget: int, word: CharClass)
    ensures var m := RenderTokenMetadata(source, rendered, budget, word); m.applied <==> m.reason != ""
  {
    hide Tokens;
  }

  /** In long_context and answer_window modes the flag is set exactly when tokens were cut. */
  lemma TruncationIff(source: string, budget: int, word: CharClass)
    ensures var rendered := Trim(source, budget, word);
            var m := RenderTokenMetadata(source, rendered, budget, word);
            && (m.applied <==> Tokens(rendered, word) != Tokens(source, word))
            && (m.applied <==> m.renderedCount < m.sourceCount)
            && (m.applied ==> m.renderedCount == if budget > 0 then budget else 0)
  {
    TrimTokens(source, budget, word);
  }

  /**
   In compact mode the text is not trimmed, yet the flag is set: exactly when trimming would have
   cut tokens.
   */
  lemma CompactModeFlag(text: string, budget: int, word: CharClass)
    ensures var m := RenderTokenMetadata(text, text, budget, word);
            && m.renderedCount == m.sourceCount
            && (m.applied <==> Tokens(Trim(text, budget, word), word) != Tokens(text, word))
  {
    TrimTokens(text, budget, word);
  }

  /** Two letters in compact mode under a budget of one: reported as truncated, with nothing cut. */
  lemma CompactModeMisreports(word: CharClass)
    ensures RenderTokenMetadata("a b", "a b", 1, word) == Metadata(2, 2, true, "token_budget_exceeded")
  {
    var xs := ["a", "b"];
    assert Joined(xs[1..], ' ') == "b" && Joined(xs, ' ') == "a b";
    TokensRoundTrip(xs, word);
  }
}
