/** Sequence and text helpers shared by the models: options, stripping, joining, searching. */
module Text {

  datatype Option<+T> = None | Some(value: T)

  /** The ASCII characters Python's str.strip and str.isspace treat as white space. */
  predicate IsSpace(c: char) {
    c == ' ' || '\t' <= c <= '\r' || '\U{1C}' <= c <= '\U{1F}'
  }

  /** Where str.splitlines breaks a line; all of these are white space. */
  predicate LineBreak(c: char) {
    '\n' <= c <= '\r' || '\U{1C}' <= c <= '\U{1E}'
  }

  predicate IsDigit(c: char) {
    '0' <= c <= '9'
  }

  predicate Blank(s: string) {
    forall i :: 0 <= i < |s| ==> IsSpace(s[i])
  }

  function LStrip(s: string): string {
    if s != "" && IsSpace(s[0]) then LStrip(s[1..]) else s
  }

  function RStrip(s: string): string {
    if s != "" && IsSpace(s[|s| - 1]) then RStrip(s[..|s| - 1]) else s
  }

  function Strip(s: string): string {
    RStrip(LStrip(s))
  }

  /** lstrip drops white space only, and all of it. */
  lemma {:induction false} LStripSpec(s: string)
    ensures var r := LStrip(s);
            && |r| <= |s| && r == s[|s| - |r|..]
            && Blank(s[..|s| - |r|])
            && (r != "" ==> !IsSpace(r[0]))
  {
    if s != "" && IsSpace(s[0]) {
      LStripSpec(s[1..]);
      var r := LStrip(s);
      assert s[..|s| - |r|] == [s[0]] + s[1..][..|s| - 1 - |r|];
    }
  }

  /** rstrip drops white space only, and all of it. */
  lemma {:induction false} RStripSpec(s: string)
    ensures var r := RStrip(s);
            && |r| <= |s| && r == s[..|r|]
            && Blank(s[|r|..])
            && (r != "" ==> !IsSpace(r[|r| - 1]))
  {
    if s != "" && IsSpace(s[|s| - 1]) {
      RStripSpec(s[..|s| - 1]);
      var r := RStrip(s);
      assert s[|r|..] == s[..|s| - 1][|r|..] + [s[|s| - 1]];
    }
  }

  /** strip cuts out s[StripFrom(s)..StripTo(s)]. */
  function StripFrom(s: string): (n: nat)
    ensures n <= |s|
  {
    LStripSpec(s);
    |s| - |LStrip(s)|
  }

  function StripTo(s: string): (n: nat)
    ensures StripFrom(s) <= n <= |s|
  {
    LStripSpec(s);
    RStripSpec(LStrip(s));
    StripFrom(s) + |Strip(s)|
  }

  lemma StripBounds(s: string)
    ensures var a, b := StripFrom(s), StripTo(s);
            && s[a..b] == Strip(s)
            && (forall i :: 0 <= i < a ==> IsSpace(s[i])) && (forall i :: b <= i < |s| ==> IsSpace(s[i]))
  {
    var a, b, l := StripFrom(s), StripTo(s), LStrip(s);
    LStripSpec(s);
    RStripSpec(l);
    assert forall i :: 0 <= i < a ==> s[..a][i] == s[i];
    assert forall i :: b <= i < |s| ==> l[b - a..][i - b] == s[i];
  }

  lemma RStripBlank(s: string)
    ensures RStrip(s) == "" <==> Blank(s)
  {
    RStripSpec(s);
    var r := RStrip(s);
    assert r == "" ==> s[|r|..] == s;
    assert r != "" ==> !IsSpace(s[|r| - 1]);
  }

  lemma LStripBlank(s: string)
    ensures LStrip(s) == "" <==> Blank(s)
    ensures Blank(LStrip(s)) <==> Blank(s)
  {
    LStripSpec(s);
    var l := LStrip(s);
    assert l == "" ==> s[..|s| - |l|] == s;
    assert l != "" ==> !IsSpace(s[|s| - |l|]);
  }

  lemma StripBlank(s: string)
    ensures Strip(s) == "" <==> Blank(s)
  {
    LStripBlank(s);
    RStripBlank(LStrip(s));
  }

  // ── sequences ──────────────────────────────────────────────────

  lemma Associative<T>(a: seq<T>, b: seq<T>, c: seq<T>)
    ensures (a + b) + c == a + (b + c)
  {
  }

  lemma FrontLast<T>(s: seq<T>)
    requires s != []
    ensures s == s[..|s| - 1] + [s[|s| - 1]]
  {
  }

  lemma SnocFront<T>(s: seq<T>, e: T)
    ensures s <= s + [e] && (s + [e])[..|s|] == s && (s + [e])[|s|] == e && |s + [e]| == |s| + 1
    ensures s[..|s|] == s && forall k :: 0 <= k <= |s| ==> (s + [e])[..k] == s[..k]
    ensures forall k :: 0 <= k < |s| ==> (s + [e])[k] == s[k]
  {
  }

  lemma TakeStep<T>(s: seq<T>, i: nat)
    requires i < |s|
    ensures s[..i + 1] == s[..i] + [s[i]] && s[..|s|] == s
  {
  }

  // ── joining ────────────────────────────────────────────────────

  /** c.join(ps) */
  function Joined(ps: seq<string>, c: char): string {
    if ps == [] then "" else if |ps| == 1 then ps[0] else ps[0] + [c] + Joined(ps[1..], c)
  }

  // ── substring search ───────────────────────────────────────────

  predicate OccursAt<T(==)>(s: seq<T>, m: seq<T>, i: nat) {
    i + |m| <= |s| && s[i..i + |m|] == m
  }

  /** Python's `m in s`. */
  predicate Contains<T(==)>(s: seq<T>, m: seq<T>) {
    exists i: nat :: i <= |s| && OccursAt(s, m, i)
  }

  /** How many positions of s the word m starts at. */
  function Occurrences(s: string, m: string): nat {
    if s == "" then 0
    else (if m <= s then 1 else 0) + Occurrences(s[1..], m)
  }

  lemma OccursInRest(s: string, m: string, i: nat)
    requires s != "" && m != ""
    ensures OccursAt(s, m, i + 1) <==> OccursAt(s[1..], m, i)
    ensures OccursAt(s, m, 0) <==> m <= s
  {
    assert i + 1 + |m| <= |s| ==> s[i + 1..i + 1 + |m|] == s[1..][i..i + |m|];
    assert |m| <= |s| ==> s[0..|m|] == s[..|m|];
  }

  lemma {:induction false} ContainsIffOccurrences(s: string, m: string)
    requires m != ""
    ensures Contains(s, m) <==> Occurrences(s, m) > 0
  {
    if s != "" {
      ContainsIffOccurrences(s[1..], m);
      OccursInRest(s, m, 0);
      hide OccursAt;
      if Contains(s[1..], m) {
        var i: nat :| i <= |s[1..]| && OccursAt(s[1..], m, i);
        OccursInRest(s, m, i);
      }
      if Contains(s, m) && !(m <= s) {
        var i: nat :| i <= |s| && OccursAt(s, m, i);
        OccursInRest(s, m, i - 1);
      }
    }
  }

  predicate NewlineFree(s: string) {
    '\n' !in s
  }

  /** Text written by whole lines: empty, or ending in a newline. */
  predicate LineEnded(s: string) {
    s == "" || s[|s| - 1] == '\n'
  }

  /** A word without newlines cannot straddle the end of a line, so its occurrences add up. */
  lemma {:induction false} OccurrencesAdd(a: string, b: string, m: string)
    requires m != "" && NewlineFree(m) && LineEnded(a)
    ensures Occurrences(a + b, m) == Occurrences(a, m) + Occurrences(b, m)
  {
    if a == "" {
      assert a + b == b;
    } else {
      assert (a + b)[1..] == a[1..] + b;
      OccurrencesAdd(a[1..], b, m);
      if |m| <= |a| {
        assert (a + b)[..|m|] == a[..|m|];
        assert m <= a + b <==> m <= a;
      } else {
        assert (a + b)[|a| - 1] == '\n';
      }
    }
  }

  lemma {:induction false} NoOccurrenceBeyondLength(s: string, m: string)
    requires |s| < |m|
    ensures Occurrences(s, m) == 0
  {
    if s != "" {
      NoOccurrenceBeyondLength(s[1..], m);
    }
  }

  /** A line consisting of the word alone holds it exactly once. */
  lemma OccurrencesOwnLine(m: string)
    requires m != "" && NewlineFree(m)
    ensures Occurrences(m + "\n", m) == 1
  {
    var line := m + "\n";
    assert line[1..] == m[1..] + "\n";
    assert line[1..][|m| - 1] == '\n';
    assert Occurrences(line, m) == 1 + Occurrences(line[1..], m);
    assert |line[1..][1..]| < |m|;
    NoOccurrenceBeyondLength(line[1..][1..], m);
  }
}
