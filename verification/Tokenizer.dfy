/** The rough tokeniser of memory2/eval_public_long_memory.py. */
module Tokenizer {
  import opened Text

  /** Which characters beyond ASCII are word characters or white space. */
  type CharClass = char -> bool

  datatype Kind = Single | Run | Skipped

  predicate RunChar(c: char) {
    'A' <= c <= 'Z' || 'a' <= c <= 'z' || '0' <= c <= '9' || c == '_' || c == '.' || c == '$' || c == '/' || c == '-'
  }

  /** What the pattern makes of a character: a token, part of a run, or nothing. */
  function KindOf(c: char, word: CharClass): Kind {
    if '\U{3400}' <= c <= '\U{9FFF}' then Single
    else if RunChar(c) then Run
    else if IsSpace(c) then Skipped
    else if c < '\U{80}' then Single
    else if word(c) then Skipped else Single
  }

  function RunLength(t: string, word: CharClass): (n: nat)
    ensures n <= |t|
    ensures (t != "" && KindOf(t[0], word) == Run) ==> n > 0
  {
    if t != "" && KindOf(t[0], word) == Run then 1 + RunLength(t[1..], word) else 0
  }

  /** How much of the text the next match, or the next skip, takes. */
  function Head(t: string, word: CharClass): (n: nat)
    requires t != ""
    ensures 1 <= n <= |t|
  {
    if KindOf(t[0], word) == Run then RunLength(t, word) else 1
  }

  /** The match at the front, if it is not skipped. */
  function First(t: string, word: CharClass): seq<string>
    requires t != ""
  {
    if KindOf(t[0], word) == Skipped then [] else [t[..Head(t, word)]]
  }

  /** _rough_tokens */
  function Tokens(t: string, word: CharClass): seq<string>
    decreases |t|
  {
    if t == "" then [] else First(t, word) + Tokens(t[Head(t, word)..], word)
  }

  predicate AllRun(t: string, word: CharClass) {
    forall i :: 0 <= i < |t| ==> KindOf(t[i], word) == Run
  }

  /** One single character, or a run. */
  predicate IsToken(x: string, word: CharClass) {
    x != "" && if |x| == 1 then KindOf(x[0], word) != Skipped else AllRun(x, word)
  }

  predicate AllTokens(xs: seq<string>, word: CharClass) {
    forall i :: 0 <= i < |xs| ==> IsToken(xs[i], word)
  }

  // ── the tokeniser ──────────────────────────────────────────────

  lemma {:induction false} RunLengthSpec(t: string, c: char, rest: string, word: CharClass)
    requires KindOf(c, word) != Run
    ensures RunLength(t + [c] + rest, word) == RunLength(t, word)
    ensures AllRun(t[..RunLength(t, word)], word)
    ensures AllRun(t, word) ==> RunLength(t, word) == |t|
  {
    var all := t + [c] + rest;
    if t != "" && KindOf(t[0], word) == Run {
      RunLengthSpec(t[1..], c, rest, word);
      assert all[1..] == t[1..] + [c] + rest;
      var n := RunLength(t, word);
      assert t[..n] == [t[0]] + t[1..][..n - 1];
    }
  }

  lemma FirstInFront(a: string, c: char, b: string, word: CharClass)
    requires a != "" && KindOf(c, word) == Skipped
    ensures var all := a + [c] + b;
            && Head(all, word) == Head(a, word) && First(all, word) == First(a, word)
            && all[Head(a, word)..] == a[Head(a, word)..] + [c] + b
  {
    var all, n := a + [c] + b, Head(a, word);
    RunLengthSpec(a, c, b, word);
    assert a[0] == all[0] && all[..n] == a[..n];
  }

  /** A skipped character separates. */
  lemma {:induction false} TokensSplit(a: string, c: char, b: string, word: CharClass)
    requires KindOf(c, word) == Skipped
    ensures Tokens(a + [c] + b, word) == Tokens(a, word) + Tokens(b, word)
    decreases |a|
  {
    if a == "" {
      assert (a + [c] + b)[1..] == b;
    } else {
      FirstInFront(a, c, b, word);
      hide KindOf, Head, First;
      var rest := a[Head(a, word)..];
      TokensSplit(rest, c, b, word);
      Associative(First(a, word), Tokens(rest, word), Tokens(b, word));
    }
  }

  lemma TokenAlone(x: string, word: CharClass)
    requires IsToken(x, word)
    ensures Tokens(x, word) == [x]
  {
    RunLengthSpec(x, ' ', "", word);
    if KindOf(x[0], word) == Run {
      assert AllRun(x, word);
      assert x[..|x|] == x && x[|x|..] == "";
    } else {
      assert x[..1] == x && x[1..] == "";
    }
  }

  lemma {:induction false} TokensAreTokens(t: string, word: CharClass)
    ensures AllTokens(Tokens(t, word), word)
    decreases |t|
  {
    if t != "" {
      RunLengthSpec(t, ' ', "", word);
      var n := Head(t, word);
      TokensAreTokens(t[n..], word);
    }
  }

  function TokensOfAll(ps: seq<string>, word: CharClass): seq<string> {
    if ps == [] then [] else Tokens(ps[0], word) + TokensOfAll(ps[1..], word)
  }

  lemma {:induction false} TokensOfJoined(ps: seq<string>, c: char, word: CharClass)
    requires KindOf(c, word) == Skipped
    ensures Tokens(Joined(ps, c), word) == TokensOfAll(ps, word)
  {
    if |ps| == 1 {
      assert TokensOfAll(ps[1..], word) == [];
    } else if ps != [] {
      TokensOfJoined(ps[1..], c, word);
      TokensSplit(ps[0], c, Joined(ps[1..], c), word);
    }
  }

  lemma {:induction false} TokensOfTokens(xs: seq<string>, word: CharClass)
    requires AllTokens(xs, word)
    ensures TokensOfAll(xs, word) == xs
  {
    if xs != [] {
      TokenAlone(xs[0], word);
      TokensOfTokens(xs[1..], word);
    }
  }

  /** Tokenising the space-joined tokens gives the tokens back. */
  lemma TokensRoundTrip(xs: seq<string>, word: CharClass)
    requires AllTokens(xs, word)
    ensures Tokens(Joined(xs, ' '), word) == xs
  {
    TokensOfJoined(xs, ' ', word);
    TokensOfTokens(xs, word);
  }

  // ── white space at the ends does not matter ────────────────────

  lemma {:induction false} TokensOfLStrip(s: string, word: CharClass)
    ensures Tokens(LStrip(s), word) == Tokens(s, word)
  {
    if s != "" && IsSpace(s[0]) {
      TokensOfLStrip(s[1..], word);
    }
  }

  lemma NoTokens(c: char, word: CharClass)
    ensures Tokens("", word) == [] && (IsSpace(c) ==> KindOf(c, word) == Skipped)
  {
  }

  lemma RStripStep(s: string)
    requires s != "" && IsSpace(s[|s| - 1])
    ensures RStrip(s) == RStrip(s[..|s| - 1])
  {
  }

  lemma FrontAndLast(s: string)
    requires s != ""
    ensures s[..|s| - 1] + [s[|s| - 1]] + "" == s
  {
  }

  lemma {:induction false} TokensOfRStrip(s: string, word: CharClass)
    ensures Tokens(RStrip(s), word) == Tokens(s, word)
  {
    if s != "" && IsSpace(s[|s| - 1]) {
      var front, last := s[..|s| - 1], s[|s| - 1];
      RStripStep(s);
      FrontAndLast(s);
      NoTokens(last, word);
      hide *;
      TokensOfRStrip(front, word);
      TokensSplit(front, last, "", word);
      assert Tokens(front, word) + [] == Tokens(front, word);
    }
  }

  lemma TokensOfStrip(s: string, word: CharClass)
    ensures Tokens(Strip(s), word) == Tokens(s, word)
  {
    TokensOfLStrip(s, word);
    TokensOfRStrip(LStrip(s), word);
  }

  /** Prices, paths and names are one token. */
  lemma RunExample(word: CharClass)
    ensures Tokens("$1.5/kg_A-2", word) == ["$1.5/kg_A-2"]
  {
    TokenAlone("$1.5/kg_A-2", word);
    hide Tokens;
  }

  /** Each Chinese character and each mark is a token, whatever stands next to it. */
  lemma SingleToken(c: char, rest: string, word: CharClass)
    requires '\U{3400}' <= c <= '\U{9FFF}' || c == ',' || c == '(' || c == '+'
    ensures Tokens([c] + rest, word) == [[c]] + Tokens(rest, word)
  {
    assert ([c] + rest)[..1] == [c] && ([c] + rest)[1..] == rest;
  }
}
