/**
 Text whose characters remember where in the document they come from.

 doc_rag/chunker.py only ever slices, strips and joins text, so the chunker can be followed on
 located characters: what it decides depends on Chars(t) alone, and where each character ends up
 can be read off its location.  Line breaks inserted by a join are located on line 0.
 */
module ChunkText {
  import opened Text

  datatype Ch = Ch(c: char, line: nat, col: nat)
  type Located = seq<Ch>

  const NL := Ch('\n', 0, 0)

  function Chars(t: Located): string {
    seq(|t|, i requires 0 <= i < |t| => t[i].c)
  }

  /** str.strip, applied to the characters. */
  function StripText(t: Located): Located {
    var s := Chars(t);
    t[StripFrom(s)..StripTo(s)]
  }

  predicate Visible(x: Ch) {
    !IsSpace(x.c)
  }

  lemma StripTextKeeps(t: Located)
    ensures forall x :: x in StripText(t) ==> x in t
    ensures forall x :: x in t && Visible(x) ==> x in StripText(t)
    ensures |StripText(t)| <= |t|
    ensures Chars(StripText(t)) == Strip(Chars(t))
  {
    hide StripFrom, StripTo, Strip, IsSpace;
    var s := Chars(t);
    var a, b := StripFrom(s), StripTo(s);
    StripBounds(s);
    assert Chars(StripText(t)) == s[a..b];
    forall x | x in t && Visible(x) ensures x in StripText(t) {
      var i :| 0 <= i < |t| && t[i] == x;
      assert s[i] == x.c;
      assert StripText(t)[i - a] == x;
    }
  }

  lemma StripTextShorter(t: Located)
    ensures |StripText(t)| <= |t|
  {
  }

  lemma StripTextEmptyIff(t: Located)
    ensures StripText(t) == [] <==> Blank(Chars(t))
    ensures Blank(Chars(t)) <==> forall x :: x in t ==> !Visible(x)
  {
    StripBlank(Chars(t));
    StripTextKeeps(t);
    assert |StripText(t)| == |Chars(StripText(t))|;
    if forall x :: x in t ==> !Visible(x) {
      assert forall i :: 0 <= i < |t| ==> t[i] in t;
    }
    forall x | x in t && Visible(x) ensures !Blank(Chars(t)) {
      var i :| 0 <= i < |t| && t[i] == x;
      assert Chars(t)[i] == x.c;
    }
  }

  // ── document order ─────────────────────────────────────────────

  predicate Before(x: Ch, y: Ch) {
    x.line < y.line || (x.line == y.line && x.col < y.col)
  }

  predicate Inserted(x: Ch) {
    x.line == 0
  }

  /** The characters taken from the document stand in document order, none of them twice. */
  predicate InOrder(t: Located) {
    forall i, j :: 0 <= i < j < |t| && !Inserted(t[i]) && !Inserted(t[j]) ==> Before(t[i], t[j])
  }

  /** Everything taken from the document in a stands before everything in b. */
  predicate AllBefore(a: Located, b: Located) {
    forall i, j :: 0 <= i < |a| && 0 <= j < |b| && !Inserted(a[i]) && !Inserted(b[j]) ==> Before(a[i], b[j])
  }

  predicate PiecesInOrder(ps: seq<Located>) {
    && (forall k :: 0 <= k < |ps| ==> InOrder(ps[k]))
    && (forall k, m :: 0 <= k < m < |ps| ==> AllBefore(ps[k], ps[m]))
  }

  lemma SliceInOrder(t: Located, a: nat, b: nat)
    requires a <= b <= |t| && InOrder(t)
    ensures InOrder(t[a..b])
  {
    var s := t[a..b];
    forall i, j | 0 <= i < j < |s| && !Inserted(s[i]) && !Inserted(s[j]) ensures Before(s[i], s[j]) {
      assert s[i] == t[a + i] && s[j] == t[a + j];
    }
  }

  lemma StripInOrder(t: Located)
    requires InOrder(t)
    ensures InOrder(StripText(t))
  {
    SliceInOrder(t, StripFrom(Chars(t)), StripTo(Chars(t)));
  }

  // ── joining ────────────────────────────────────────────────────

  /** sep.join(ps) */
  function Join(ps: seq<Located>, sep: Located): Located {
    if ps == [] then []
    else if |ps| == 1 then ps[0]
    else Join(ps[..|ps| - 1], sep) + sep + ps[|ps| - 1]
  }

  predicate SeparatorOk(sep: Located) {
    forall i :: 0 <= i < |sep| ==> Inserted(sep[i]) && !Visible(sep[i])
  }

  lemma {:induction false} JoinHolds(ps: seq<Located>, sep: Located, k: nat)
    requires k < |ps|
    ensures forall x :: x in ps[k] ==> x in Join(ps, sep)
  {
    if |ps| > 1 && k < |ps| - 1 {
      JoinHolds(ps[..|ps| - 1], sep, k);
    }
  }

  lemma {:induction false} JoinOnlyHolds(ps: seq<Located>, sep: Located, x: Ch)
    requires x in Join(ps, sep) && x !in sep
    ensures InSome(ps, x)
  {
    if |ps| > 1 && x !in ps[|ps| - 1] {
      JoinOnlyHolds(ps[..|ps| - 1], sep, x);
      var k :| 0 <= k < |ps| - 1 && x in ps[..|ps| - 1][k];
      assert x in ps[k];
    } else if |ps| == 1 {
      assert x in ps[0];
    }
  }

  lemma AppendInOrder(a: Located, sep: Located, b: Located)
    requires InOrder(a) && InOrder(b) && AllBefore(a, b) && SeparatorOk(sep)
    ensures InOrder(a + sep + b)
  {
    var s := a + sep + b;
    var n, m := |a|, |a| + |sep|;
    assert forall i :: n <= i < m ==> s[i] == sep[i - n];
    forall i, j | 0 <= i < j < |s| && !Inserted(s[i]) && !Inserted(s[j]) ensures Before(s[i], s[j]) {
      if i >= m {
        assert s[i] == b[i - m] && s[j] == b[j - m];
      } else if j >= m {
        assert s[i] == a[i] && s[j] == b[j - m];
      } else {
        assert s[i] == a[i] && s[j] == a[j];
      }
    }
  }

  lemma {:induction false} JoinInOrder(ps: seq<Located>, sep: Located)
    requires PiecesInOrder(ps) && SeparatorOk(sep)
    ensures InOrder(Join(ps, sep))
  {
    if |ps| > 1 {
      var front, last := ps[..|ps| - 1], ps[|ps| - 1];
      JoinInOrder(front, sep);
      JoinBefore(front, sep, last);
      AppendInOrder(Join(front, sep), sep, last);
    }
  }

  lemma JoinBefore(ps: seq<Located>, sep: Located, b: Located)
    requires SeparatorOk(sep) && forall k :: 0 <= k < |ps| ==> AllBefore(ps[k], b)
    ensures AllBefore(Join(ps, sep), b)
  {
    var t := Join(ps, sep);
    forall i, j | 0 <= i < |t| && 0 <= j < |b| && !Inserted(t[i]) && !Inserted(b[j]) ensures Before(t[i], b[j]) {
      assert t[i] !in sep;
      JoinOnlyHolds(ps, sep, t[i]);
      var k :| 0 <= k < |ps| && t[i] in ps[k];
      var m :| 0 <= m < |ps[k]| && ps[k][m] == t[i];
    }
  }

  // ── lengths ────────────────────────────────────────────────────

  function TotalLength(ps: seq<Located>): nat {
    if ps == [] then 0 else TotalLength(ps[..|ps| - 1]) + |ps[|ps| - 1]|
  }

  lemma {:induction false} JoinLength(ps: seq<Located>, sep: Located)
    requires ps != []
    ensures |Join(ps, sep)| == TotalLength(ps) + (|ps| - 1) * |sep|
  {
    if |ps| > 1 {
      JoinLength(ps[..|ps| - 1], sep);
    } else {
      assert TotalLength(ps[..0]) == 0;
    }
  }

  // ── lines ──────────────────────────────────────────────────────

  /** The length of the first line. */
  function FirstBreak(t: Located): (n: nat)
    ensures n <= |t| && (n < |t| ==> LineBreak(t[n].c))
    ensures forall i :: 0 <= i < n ==> !LineBreak(t[i].c)
  {
    if t == [] || LineBreak(t[0].c) then 0 else 1 + FirstBreak(t[1..])
  }

  /** str.splitlines, for text in which a carriage return is never followed by a newline. */
  function SplitLines(t: Located): seq<Located>
    decreases |t|
  {
    if t == [] then []
    else
      var n := FirstBreak(t);
      [t[..n]] + if n < |t| then SplitLines(t[n + 1..]) else []
  }

  predicate InSome(ps: seq<Located>, x: Ch) {
    exists k :: 0 <= k < |ps| && x in ps[k]
  }

  /** Splitting loses nothing visible. */
  lemma {:induction false} SplitLinesCovers(t: Located, x: Ch)
    requires x in t && Visible(x)
    ensures InSome(SplitLines(t), x)
    decreases |t|
  {
    var n, ps := FirstBreak(t), SplitLines(t);
    assert ps[0] == t[..n];
    if x !in t[..n] {
      assert n < |t| by { assert t[..|t|] == t; }
      assert t == t[..n] + [t[n]] + t[n + 1..];
      assert !Visible(t[n]);
      SplitLinesCovers(t[n + 1..], x);
      assert ps[1..] == SplitLines(t[n + 1..]);
      var k :| 0 <= k < |ps[1..]| && x in ps[1..][k];
      assert x in ps[k + 1];
    }
  }

  lemma {:induction false} SplitLinesWithin(t: Located, k: nat)
    requires k < |SplitLines(t)|
    ensures forall x :: x in SplitLines(t)[k] ==> x in t
    decreases |t|
  {
    var n := FirstBreak(t);
    var rest := if n < |t| then SplitLines(t[n + 1..]) else [];
    assert SplitLines(t) == [t[..n]] + rest;
    hide FirstBreak, SplitLines;
    if k > 0 {
      SplitLinesWithin(t[n + 1..], k - 1);
    }
  }

  lemma FirstBeforeRest(t: Located, n: nat, piece: Located)
    requires InOrder(t) && n <= |t| && forall x :: x in piece ==> x in t[n..]
    ensures AllBefore(t[..n], piece)
  {
    forall i, j | 0 <= i < n && 0 <= j < |piece| && !Inserted(t[..n][i]) && !Inserted(piece[j])
      ensures Before(t[..n][i], piece[j])
    {
      assert piece[j] in t[n..];
      var m :| 0 <= m < |t| - n && t[n..][m] == piece[j];
      assert t[n + m] == piece[j];
    }
  }

  lemma PrependInOrder(first: Located, ps: seq<Located>)
    requires InOrder(first) && PiecesInOrder(ps) && forall k :: 0 <= k < |ps| ==> AllBefore(first, ps[k])
    ensures PiecesInOrder([first] + ps)
  {
    hide InOrder, AllBefore;
    var all := [first] + ps;
    assert forall k :: 1 <= k < |all| ==> all[k] == ps[k - 1];
  }

  lemma RestAfter(t: Located, n: nat)
    requires InOrder(t) && n < |t|
    ensures InOrder(t[..n]) && InOrder(t[n + 1..]) && forall x :: x in t[n + 1..] ==> x in t[n..]
  {
    SliceInOrder(t, 0, n);
    SliceInOrder(t, n + 1, |t|);
    hide InOrder;
    assert t[0..n] == t[..n] && t[n + 1..|t|] == t[n + 1..] && t[n..] == [t[n]] + t[n + 1..];
  }

  lemma {:induction false} SplitLinesInOrder(t: Located)
    requires InOrder(t)
    ensures PiecesInOrder(SplitLines(t))
    decreases |t|
  {
    if t != [] {
      var n := FirstBreak(t);
      if n < |t| {
        var rest := t[n + 1..];
        RestAfter(t, n);
        SplitLinesInOrder(rest);
        assert SplitLines(t) == [t[..n]] + SplitLines(rest);
        hide InOrder, PiecesInOrder, AllBefore, SplitLines, FirstBreak;
        forall k | 0 <= k < |SplitLines(rest)| ensures AllBefore(t[..n], SplitLines(rest)[k]) {
          SplitLinesWithin(rest, k);
          FirstBeforeRest(t, n, SplitLines(rest)[k]);
        }
        PrependInOrder(t[..n], SplitLines(rest));
      } else {
        assert t[..n] == t;
      }
    }
  }
}
