/** The marker line of agent/memory.py: how it is built from a source_ref and a kind. */
module Markers {
  import opened Text

  const MARKER_PREFIX := "<!-- consolidation:"
  const MARKER_SUFFIX := " -->"

  datatype Key = Key(src: string, kind: string)

  /** Newlines become spaces. */
  function Flat(s: string): (r: string) {
    if s == "" then "" else [if s[0] == '\n' then ' ' else s[0]] + Flat(s[1..])
  }

  function Wrap(src: string, kind: string): string {
    MARKER_PREFIX + src + ":" + kind + MARKER_SUFFIX
  }

  function Marker(sourceRef: string, kind: string): string {
    Wrap(Strip(Flat(sourceRef)), Strip(Flat(kind)))
  }

  /** The primary key of consolidation_writes. */
  function IndexKey(sourceRef: string, kind: string): Key {
    Key(Strip(sourceRef), Strip(kind))
  }

  // ── the marker depends on the index key alone ──────────────────

  lemma {:induction false} FlatAt(s: string)
    ensures |Flat(s)| == |s|
    ensures forall i :: 0 <= i < |s| ==> Flat(s)[i] == if s[i] == '\n' then ' ' else s[i]
  {
    if s != "" {
      FlatAt(s[1..]);
    }
  }

  lemma FlatSlice(s: string, lo: nat, hi: nat)
    requires lo <= hi <= |s|
    ensures |Flat(s)| == |s| && Flat(s)[lo..hi] == Flat(s[lo..hi])
  {
    FlatAt(s);
    FlatAt(s[lo..hi]);
  }

  lemma {:induction false} LStripFlat(s: string)
    ensures LStrip(Flat(s)) == Flat(LStrip(s))
  {
    if s != "" {
      LStripFlat(s[1..]);
      assert Flat(s)[1..] == Flat(s[1..]);
    }
  }

  lemma {:induction false} RStripFlat(s: string)
    ensures RStrip(Flat(s)) == Flat(RStrip(s))
  {
    FlatAt(s);
    if s != "" {
      RStripFlat(s[..|s| - 1]);
      FlatSlice(s, 0, |s| - 1);
    }
  }

  lemma StripIdempotent(s: string)
    ensures Strip(Strip(s)) == Strip(s)
  {
    var l := LStrip(s);
    LStripSpec(s);
    RStripSpec(l);
    if Strip(s) != "" {
      assert Strip(s)[0] == l[0];
    }
  }

  lemma StripFlat(s: string)
    ensures Strip(Flat(s)) == Flat(Strip(s))
  {
    LStripFlat(s);
    RStripFlat(LStrip(s));
  }

  /** The code builds the marker from the raw arguments and the index key from the stripped ones; they agree. */
  lemma MarkerFollowsKey(sourceRef: string, kind: string)
    ensures var k := IndexKey(sourceRef, kind);
            Marker(sourceRef, kind) == Marker(k.src, k.kind)
  {
    StripFlat(sourceRef);
    StripFlat(Strip(sourceRef));
    StripIdempotent(sourceRef);
    StripFlat(kind);
    StripFlat(Strip(kind));
    StripIdempotent(kind);
  }

  lemma StripKeepsNewlineFree(s: string)
    requires NewlineFree(s)
    ensures NewlineFree(Strip(s))
  {
    var l := LStrip(s);
    LStripSpec(s);
    RStripSpec(l);
    assert forall i :: 0 <= i < |l| ==> l[i] in s;
    assert forall i :: 0 <= i < |Strip(s)| ==> Strip(s)[i] in l;
  }

  /** A marker never breaks the line it stands on. */
  lemma MarkerNewlineFree(sourceRef: string, kind: string)
    ensures NewlineFree(Marker(sourceRef, kind)) && |Marker(sourceRef, kind)| > 1
  {
    FlatAt(sourceRef);
    FlatAt(kind);
    StripKeepsNewlineFree(Flat(sourceRef));
    StripKeepsNewlineFree(Flat(kind));
    assert NewlineFree(MARKER_PREFIX) && NewlineFree(MARKER_SUFFIX);
  }

  // ── when markers are told apart ────────────────────────────────

  predicate Without(s: string, bad: string) {
    forall i :: 0 <= i < |s| ==> s[i] !in bad
  }

  /** In a marker '<' opens the line and '>' ends it, and plain keys bring neither. */
  lemma OnlyBrackets(s: string, t: string, i: nat)
    requires Without(s, "<>") && Without(t, "<>") && i <= |Wrap(s, t)|
    ensures (Wrap(s, t) + "\n")[i] == '<' ==> i == 0
    ensures (Wrap(s, t) + "\n")[i] == '>' ==> i == |Wrap(s, t)| - 1
  {
    var a := Wrap(s, t);
    if i < |MARKER_PREFIX| {
      assert (a + "\n")[i] == MARKER_PREFIX[i];
    } else if i < |MARKER_PREFIX| + |s| {
      assert (a + "\n")[i] == s[i - |MARKER_PREFIX|];
    } else if i == |MARKER_PREFIX| + |s| {
      assert (a + "\n")[i] == ':';
    } else if i < |a| - |MARKER_SUFFIX| {
      assert (a + "\n")[i] == t[i - |MARKER_PREFIX| - |s| - 1];
    } else if i < |a| {
      assert (a + "\n")[i] == MARKER_SUFFIX[i - (|a| - |MARKER_SUFFIX|)];
    }
  }

  /** What stands between the fixed ends of a marker. */
  function Colon(s: string, t: string): string {
    s + ":" + t
  }

  lemma WrapInjective(s: string, t: string, u: string, v: string)
    ensures Wrap(s, t) == Wrap(u, v) <==> Colon(s, t) == Colon(u, v)
  {
    assert Wrap(s, t) == MARKER_PREFIX + Colon(s, t) + MARKER_SUFFIX;
    assert Wrap(u, v) == MARKER_PREFIX + Colon(u, v) + MARKER_SUFFIX;
    assert Wrap(s, t)[|MARKER_PREFIX|..|Wrap(s, t)| - |MARKER_SUFFIX|] == Colon(s, t);
    assert Wrap(u, v)[|MARKER_PREFIX|..|Wrap(u, v)| - |MARKER_SUFFIX|] == Colon(u, v);
  }

  /** The same for an index key: newlines have become blanks. */
  function Label(k: Key): string {
    Colon(Flat(k.src), Flat(k.kind))
  }

  lemma MarkerOfKey(sourceRef: string, kind: string)
    ensures var k := IndexKey(sourceRef, kind); Marker(sourceRef, kind) == Wrap(Flat(k.src), Flat(k.kind))
  {
    StripFlat(sourceRef);
    StripFlat(kind);
  }

  /** Two calls carry one marker if and only if the labels of their index keys coincide. */
  lemma MarkersEqualIff(sourceRef: string, kind: string, sourceRef': string, kind': string)
    ensures Marker(sourceRef, kind) == Marker(sourceRef', kind')
       <==> Label(IndexKey(sourceRef, kind)) == Label(IndexKey(sourceRef', kind'))
  {
    MarkerOfKey(sourceRef, kind);
    MarkerOfKey(sourceRef', kind');
    hide Wrap, Marker, Colon, Flat, Strip;
    var k, k' := IndexKey(sourceRef, kind), IndexKey(sourceRef', kind');
    WrapInjective(Flat(k.src), Flat(k.kind), Flat(k'.src), Flat(k'.kind));
  }

  lemma FlatAround(s: string, c: char, w: string)
    ensures Flat(s + [c] + w) == Flat(s) + [if c == '\n' then ' ' else c] + Flat(w)
  {
    FlatAt(s + [c] + w);
    FlatAt(s);
    FlatAt(w);
  }

  /** Different keys share labels in two ways: the colon is not escaped ... */
  lemma ColonShared(s: string, w: string, t: string)
    ensures var j, k := Key(s + ":" + w, t), Key(s, w + ":" + t); Label(j) == Label(k) && j != k
  {
    FlatAround(s, ':', w);
    FlatAround(w, ':', t);
    hide Flat;
    assert Flat(s) + ":" + Flat(w) + ":" + Flat(t) == Flat(s) + ":" + (Flat(w) + ":" + Flat(t));
  }

  /** ... and a newline reads as a blank. */
  lemma NewlineShared(s: string, w: string, t: string)
    ensures var j, k := Key(s + "\n" + w, t), Key(s + " " + w, t); Label(j) == Label(k) && j != k
  {
    FlatAround(s, '\n', w);
    FlatAround(s, ' ', w);
    hide Flat;
    assert (s + "\n" + w)[|s|] != (s + " " + w)[|s|];
  }

  lemma MarkerClean(s: string, t: string)
    requires NewlineFree(s) && NewlineFree(t) && Strip(s) == s && Strip(t) == t
    ensures Marker(s, t) == Wrap(s, t)
  {
    FlatAt(s);
    FlatAt(t);
    assert Flat(s) == s && Flat(t) == t;
  }

  lemma StripClean(s: string)
    requires s != "" && !IsSpace(s[0]) && !IsSpace(s[|s| - 1])
    ensures Strip(s) == s
  {
  }

  /** A marker of texts without angle brackets occurs in another's line only as the whole line. */
  lemma WholeLineOnly(s: string, t: string, u: string, v: string)
    requires Without(s, "<>") && Without(t, "<>")
    ensures Contains(Wrap(s, t) + "\n", Wrap(u, v)) <==> Wrap(s, t) == Wrap(u, v)
  {
    var a, m := Wrap(s, t), Wrap(u, v);
    assert (a + "\n")[0..|a|] == a;
    assert a == m ==> OccursAt(a + "\n", m, 0);
    if Contains(a + "\n", m) {
      var i: nat :| i <= |a + "\n"| && OccursAt(a + "\n", m, i);
      assert (a + "\n")[i..i + |m|][0] == m[0] == MARKER_PREFIX[0];
      assert (a + "\n")[i..i + |m|][|m| - 1] == m[|m| - 1] == MARKER_SUFFIX[3];
      OnlyBrackets(s, t, i);
      OnlyBrackets(s, t, i + |m| - 1);
      assert a == (a + "\n")[..|a|] == m;
    }
  }

  /** With angle brackets labels do not decide: one key's source may hold another's whole marker. */
  lemma NestedMarker(u: string, v: string, t: string)
    ensures Contains(Wrap(Wrap(u, v), t) + "\n", Wrap(u, v)) && Colon(Wrap(u, v), t) != Colon(u, v)
  {
    var m, line := Wrap(u, v), Wrap(Wrap(u, v), t) + "\n";
    var n := |MARKER_PREFIX|;
    assert line[n..n + |m|] == m;
    assert OccursAt(line, m, n);
    assert |Colon(m, t)| > |Colon(u, v)|;
  }

  // ── kinds that tell any sources apart ──────────────────────────

  /** t is some text, a colon and v. */
  predicate ColonEnds(t: string, v: string) {
    |v| < |t| && t[|t| - |v| - 1..] == ":" + v
  }

  lemma ColonSplit(s: string, t: string, u: string, v: string)
    requires Colon(s, t) == Colon(u, v) && |v| <= |t|
    ensures (s == u && t == v) || ColonEnds(t, v)
  {
    var x, y := Colon(s, t), Colon(u, v);
    var n := |t| - |v|;
    assert t == x[|s| + 1..] && ":" + v == y[|u|..];
    if n == 0 {
      assert s == x[..|s|] && u == y[..|u|] && v == y[|u| + 1..];
    } else {
      assert t[n - 1..] == x[|s| + n..];
    }
  }

  /** Two kinds tell all sources apart if and only if neither ends in a colon and the other. */
  lemma KindsTellApartIff(t: string, v: string)
    ensures (forall s, u :: Colon(s, t) == Colon(u, v) ==> s == u && t == v) <==> !ColonEnds(t, v) && !ColonEnds(v, t)
  {
    if !ColonEnds(t, v) && !ColonEnds(v, t) {
      forall s, u | Colon(s, t) == Colon(u, v) ensures s == u && t == v {
        if |v| <= |t| {
          ColonSplit(s, t, u, v);
        } else {
          ColonSplit(u, v, s, t);
        }
      }
    } else if ColonEnds(t, v) {
      OneLabel(t, v);
    } else {
      OneLabel(v, t);
    }
  }

  lemma OneLabel(t: string, v: string)
    requires ColonEnds(t, v)
    ensures Colon("a", t) == Colon("a:" + t[..|t| - |v| - 1], v)
  {
    var w := t[..|t| - |v| - 1];
    assert t == w + (":" + v);
    assert "a" + ":" + (w + (":" + v)) == ("a:" + w) + ":" + v;
  }

  /** YYYY-MM-DD */
  predicate IsDateText(d: string) {
    |d| == 10 && forall i :: 0 <= i < 10 ==> if i == 4 || i == 7 then d[i] == '-' else IsDigit(d[i])
  }

  predicate NamedKind(kind: string) {
    kind == "history_entry" || kind == "pending_items" || kind == "candidate" || kind == "pending" || kind == "journal"
  }

  /** The kinds that callers pass or leave as defaults. */
  predicate UsedKind(kind: string) {
    NamedKind(kind) || (|kind| == 18 && kind[..8] == "journal:" && IsDateText(kind[8..]))
  }

  lemma NamedKindPlain(kind: string)
    requires NamedKind(kind)
    ensures |kind| < 18 && |kind| != 10 && Without(kind, "<>:\n")
  {
    if kind == "history_entry" {
    } else if kind == "pending_items" {
    } else if kind == "candidate" {
    } else if kind == "pending" {
    }
  }

  lemma JournalKindPlain(kind: string)
    requires |kind| == 18 && kind[..8] == "journal:" && IsDateText(kind[8..])
    ensures Without(kind, "<>\n") && forall i :: 0 <= i < 18 ==> (kind[i] == ':' <==> i == 7)
  {
    forall i | 0 <= i < 18 ensures kind[i] !in "<>\n" && (kind[i] == ':' <==> i == 7) {
      if i < 8 {
        assert kind[i] == "journal:"[i];
      } else {
        assert kind[i] == kind[8..][i - 8];
      }
    }
  }

  lemma UsedKindsTellApart(t: string, v: string)
    requires UsedKind(t) && UsedKind(v)
    ensures !ColonEnds(t, v) && Without(t, "<>\n")
  {
    hide NamedKind, IsDateText;
    if NamedKind(t) {
      NamedKindPlain(t);
    } else {
      JournalKindPlain(t);
    }
    if NamedKind(v) {
      NamedKindPlain(v);
    }
    assert |v| < |t| ==> t[|t| - |v| - 1] == t[|t| - |v| - 1..][0];
  }
}
