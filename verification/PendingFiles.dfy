/**
 The PENDING.md two-phase commit of agent/memory.py.

 An operation is specified by the disk states it passes through, one per atomic file effect
 (append, rename, unlink, write_text, touch).  A crash keeps a prefix of them, so an operation
 that survives `effects` file effects leaves the state of that index.
 */
module PendingFiles {
  import opened Text
  import MarkerStripping

  /** One remembered line. */
  datatype Fact = Fact(line: string)

  /** `archived` stands for what commits have handed over to MEMORY.md, as lines. */
  datatype World = World(pending: Option<string>, snapshot: Option<string>, archived: seq<Fact>)

  /** Append covers append_pending and the write of append_pending_once, whose marker is its first line. */
  datatype Op = Append(facts: string) | Snapshot | Commit | Rollback | Restart

  function Content(f: Option<string>): string {
    if f.Some? then f.value else ""
  }

  // ── lines ──────────────────────────────────────────────────────

  /** The end of the first line: the index of the first newline, or the length. */
  function LineEnd(t: string): (n: nat)
    ensures n <= |t| && (n < |t| ==> t[n] == '\n')
  {
    if t == "" || t[0] == '\n' then 0 else 1 + LineEnd(t[1..])
  }

  function FirstLine(t: string): string {
    t[..LineEnd(t)]
  }

  function Rest(t: string): string {
    if LineEnd(t) < |t| then t[LineEnd(t) + 1..] else ""
  }

  function Keep(line: string): seq<Fact> {
    if Blank(line) then [] else [Fact(line)]
  }

  /** The lines of a text that are not white space only. */
  function FactLines(t: string): seq<Fact>
    decreases |t|
  {
    if t == "" then [] else Keep(FirstLine(t)) + FactLines(Rest(t))
  }

  lemma {:induction false} LineEndAdd(a: string, b: string)
    requires LineEnd(a) < |a|
    ensures LineEnd(a + b) == LineEnd(a)
  {
    if a[0] != '\n' {
      assert (a + b)[1..] == a[1..] + b;
      LineEndAdd(a[1..], b);
    }
  }

  lemma {:induction false} LineEndFound(a: string)
    requires a != "" && LineEnded(a)
    ensures LineEnd(a) < |a|
  {
    if a[0] != '\n' {
      LineEndFound(a[1..]);
    }
  }

  lemma FirstLineAdd(a: string, b: string)
    requires a != "" && LineEnded(a)
    ensures FirstLine(a + b) == FirstLine(a) && Rest(a + b) == Rest(a) + b
    ensures LineEnded(Rest(a)) && |Rest(a)| < |a| && a + b != ""
  {
    LineEndFound(a);
    LineEndAdd(a, b);
    hide LineEnd;
  }

  lemma FactLinesStep(t: string)
    requires t != ""
    ensures FactLines(t) == Keep(FirstLine(t)) + FactLines(Rest(t))
  {
    hide Keep, FirstLine, Rest;
  }

  /** Lines never glue: text ending in a newline can be continued without touching its lines. */
  lemma {:induction false} FactLinesAdd(a: string, b: string)
    requires LineEnded(a)
    ensures FactLines(a + b) == FactLines(a) + FactLines(b)
    decreases |a|
  {
    if a == "" {
      assert a + b == b && FactLines("") == [];
      hide *;
      assert [] + FactLines(b) == FactLines(b);
    } else {
      hide *;
      FirstLineAdd(a, b);
      FactLinesStep(a);
      FactLinesStep(a + b);
      FactLinesAdd(Rest(a), b);
      Associative(Keep(FirstLine(a)), FactLines(Rest(a)), FactLines(b));
    }
  }

  lemma BlankParts(t: string, n: nat)
    requires n < |t| && Blank(t[..n]) && IsSpace(t[n]) && Blank(t[n + 1..])
    ensures Blank(t)
  {
    hide IsSpace;
    forall i | 0 <= i < |t| ensures IsSpace(t[i]) {
      if i < n {
        assert t[..n][i] == t[i];
      } else if i > n {
        assert t[n + 1..][i - n - 1] == t[i];
      }
    }
  }

  lemma NotOneLine(t: string)
    requires !Blank(t) && Blank(FirstLine(t))
    ensures LineEnd(t) < |t|
  {
    assert t[..|t|] == t;
  }

  lemma RestNotBlank(t: string)
    requires !Blank(t) && Blank(FirstLine(t)) && LineEnd(t) < |t|
    ensures !Blank(Rest(t))
  {
    assert IsSpace(t[LineEnd(t)]);
    hide Blank, LineEnd, IsSpace;
    if Blank(Rest(t)) {
      BlankParts(t, LineEnd(t));
    }
  }

  lemma {:induction false} FactLinesSome(t: string)
    requires !Blank(t)
    ensures FactLines(t) != []
    decreases |t|
  {
    if Blank(FirstLine(t)) {
      NotOneLine(t);
      RestNotBlank(t);
      hide Blank, LineEnd, FirstLine;
      FactLinesSome(Rest(t));
    }
  }

  lemma {:induction false} NoLineEnd(a: string)
    requires LineEnd(a) == |a|
    ensures LineEnd(a + "\n") == |a|
  {
    if a != "" {
      assert (a + "\n")[1..] == a[1..] + "\n";
      NoLineEnd(a[1..]);
    }
  }

  lemma {:induction false} FactLinesFinalNewline(t: string)
    ensures FactLines(t + "\n") == FactLines(t)
    decreases |t|
  {
    if LineEnd(t) < |t| {
      LineEndAdd(t, "\n");
      assert FirstLine(t + "\n") == FirstLine(t) && Rest(t + "\n") == Rest(t) + "\n";
      FactLinesFinalNewline(Rest(t));
    } else {
      NoLineEnd(t);
      assert FirstLine(t + "\n") == FirstLine(t) && Rest(t + "\n") == "" == Rest(t);
    }
  }

  // ── operations as sequences of disk states ─────────────────────

  /** The older snapshot goes in front of what has been appended since. */
  function Merged(snap: string, new_: string): string {
    if Blank(new_) then snap else RStrip(snap) + "\n" + new_
  }

  function RollbackStates(w: World): seq<World> {
    if w.snapshot.None? then [w]
    else
      var merged := w.(pending := Some(Merged(w.snapshot.value, Content(w.pending))));
      [w, merged, merged.(snapshot := None)]
  }

  function Last(s: seq<World>): World requires s != [] {
    s[|s| - 1]
  }

  function States(w: World, op: Op): (s: seq<World>)
    ensures s != [] && s[0] == w
  {
    match op
    case Append(facts) =>
      if Blank(facts) then [w] else [w, w.(pending := Some(Content(w.pending) + RStrip(facts) + "\n"))]
    case Snapshot =>
      var s := RollbackStates(w);
      if Content(Last(s).pending) == "" then s
      else s + [Last(s).(pending := None, snapshot := Last(s).pending)]
    case Commit =>
      var s := [w] + if w.snapshot.None? then []
                     else [w.(snapshot := None, archived := w.archived + FactLines(w.snapshot.value))];
      s + if w.pending.Some? then [] else [Last(s).(pending := Some(""))]
    case Rollback => RollbackStates(w)
    case Restart =>
      if w.pending.Some? then RollbackStates(w) else [w] + RollbackStates(w.(pending := Some("")))
  }

  /** The disk after an operation of which at most `effects` file effects took place. */
  function Reached(w: World, op: Op, effects: nat): World {
    var s := States(w, op);
    s[if effects < |s| then effects else |s| - 1]
  }

  // ── the code ───────────────────────────────────────────────────

  class MemoryStore {
    var pending: Option<string>
    var snapshot: Option<string>
    ghost var archived: seq<Fact>
    var effects: nat  // how many more file effects happen before the power fails

    constructor (pending: Option<string>, snapshot: Option<string>, ghost archived: seq<Fact>, effects: nat)
      ensures Now() == World(pending, snapshot, archived) && this.effects == effects
    {
      this.pending, this.snapshot, this.archived, this.effects := pending, snapshot, archived, effects;
    }

    ghost function Now(): World reads this {
      World(pending, snapshot, archived)
    }

    /** What every operation promises about state, remaining effects and completion. */
    twostate predicate Did(op: Op, ok: bool) reads this {
      var n := |States(old(Now()), op)| - 1;
      && Now() == Reached(old(Now()), op, old(effects))
      && ok == (old(effects) >= n)
      && effects == (if ok then old(effects) - n else 0)
    }

    method AppendPending(facts: string) returns (ok: bool)
      modifies this
      ensures Did(Append(facts), ok)
      ensures snapshot == old(snapshot) && archived == old(archived)
      ensures pending == if ok && !Blank(facts) then Some(Content(old(pending)) + RStrip(facts) + "\n") else old(pending)
    {
      if Blank(facts) {
        return true;
      }
      if effects == 0 {
        return false;
      }
      pending, effects := Some(Content(pending) + RStrip(facts) + "\n"), effects - 1;
      return true;
    }

    method RollbackPendingSnapshot() returns (ok: bool)
      modifies this
      ensures Did(Rollback, ok)
      ensures archived == old(archived) && (old(snapshot).None? ==> pending == old(pending))
      ensures ok ==> snapshot.None?
      ensures ok && old(snapshot).Some? ==>
        var snap, newer := old(snapshot).value, Content(old(pending));
        pending == Some(if Blank(newer) then snap else RStrip(snap) + "\n" + newer)
    {
      if snapshot.None? {
        return true;
      }
      var snapText := snapshot.value;
      var newText := if pending.Some? then pending.value else "";
      var merged := if Blank(newText) then snapText else RStrip(snapText) + "\n" + newText;
      if effects == 0 {
        return false;
      }
      pending, effects := Some(merged), effects - 1;
      if effects == 0 {
        return false;
      }
      snapshot, effects := None, effects - 1;
      return true;
    }

    method SnapshotPending() returns (ok: bool, content: string)
      modifies this
      ensures Did(Snapshot, ok)
      ensures ok ==> content == MarkerStripping.StripMarkers(Content(snapshot))
      ensures ok ==> (snapshot.None? <==> Content(snapshot) == "") && Content(pending) == ""
    {
      content := "";
      assert MarkerStripping.StripMarkers("") == "";
      hide MarkerStripping.StripMarkers;
      ok := RollbackPendingSnapshot();
      if !ok || pending.None? || pending.value == "" {
        return;
      }
      if effects == 0 {
        return false, "";
      }
      snapshot, pending, effects := pending, None, effects - 1;
      content := MarkerStripping.StripMarkers(snapshot.value);
    }

    method CommitPendingSnapshot() returns (ok: bool)
      modifies this
      ensures Did(Commit, ok)
      ensures ok ==> snapshot.None? && pending == Some(Content(old(pending)))
      ensures ok && old(snapshot).Some? ==> archived == old(archived) + FactLines(old(snapshot).value)
    {
      if snapshot.Some? {
        if effects == 0 {
          return false;
        }
        archived := archived + FactLines(snapshot.value);
        snapshot, effects := None, effects - 1;
      }
      if pending.None? {
        if effects == 0 {
          return false;
        }
        pending, effects := Some(""), effects - 1;
      }
      return true;
    }

    /** The constructor run over the files a dead process left behind. */
    method RestartOverFiles() returns (ok: bool)
      modifies this
      ensures Did(Restart, ok)
      ensures ok ==> pending.Some? && snapshot.None?
    {
      if pending.None? {
        if effects == 0 {
          return false;
        }
        pending, effects := Some(""), effects - 1;
      }
      ok := RollbackPendingSnapshot();
    }
  }

  // ── what is kept ───────────────────────────────────────────────

  /** Empty, or whole lines of which the last is not blank. */
  predicate Tidy(t: string) {
    t == "" || (|t| > 1 && t[|t| - 1] == '\n' && !IsSpace(t[|t| - 2]))
  }

  predicate Wellkept(w: World) {
    && Tidy(Content(w.pending))
    && (w.snapshot.Some? ==> Tidy(w.snapshot.value) && w.snapshot.value != "")
  }

  /** Everything ever handed over, then the snapshot, then the pending lines. */
  function Total(w: World): seq<Fact> {
    w.archived + FactLines(Content(w.snapshot)) + FactLines(Content(w.pending))
  }

  /** The crash falls between writing the merge and unlinking the snapshot. */
  predicate CutInMerge(w: World, op: Op, effects: nat) {
    && w.snapshot.Some? && (op.Snapshot? || op.Rollback? || op.Restart?)
    && effects == if op.Restart? && w.pending.None? then 2 else 1
  }

  /** The lines an append puts on disk. */
  function Added(op: Op, effects: nat): seq<Fact> {
    if op.Append? && effects > 0 then FactLines(RStrip(op.facts)) else []
  }

  lemma TidyMerge(snap: string, new_: string)
    requires Tidy(snap) && snap != "" && Tidy(new_)
    ensures Merged(snap, new_) == snap + new_
    ensures Tidy(snap + new_) && LineEnded(snap)
  {
    assert RStrip(snap) == RStrip(snap[..|snap| - 1]) == snap[..|snap| - 1];
    assert snap[..|snap| - 1] + "\n" == snap;
    assert new_ != "" ==> !IsSpace(new_[|new_| - 2]);
    assert snap + "" == snap;
  }

  // ── one operation ──────────────────────────────────────────────

  lemma NoFactLines()
    ensures FactLines("") == []
  {
  }

  /** The three parts of Total, of which file effects only ever move or repeat whole stretches. */
  lemma TotalParts(w: World, snap: seq<Fact>, new_: seq<Fact>)
    requires FactLines(Content(w.snapshot)) == snap && FactLines(Content(w.pending)) == new_
    ensures Total(w) == w.archived + snap + new_
    ensures snap == [] ==> Total(w) == w.archived + new_
    ensures new_ == [] ==> Total(w) == w.archived + snap
  {
    hide FactLines;
    assert w.archived + [] == w.archived && w.archived + snap + [] == w.archived + snap;
  }

  lemma MergeKeepsLines(w: World)
    requires Wellkept(w) && w.snapshot.Some?
    ensures var snap, new_ := w.snapshot.value, Content(w.pending);
            && Tidy(Merged(snap, new_))
            && FactLines(Merged(snap, new_)) == FactLines(snap) + FactLines(new_)
            && FactLines(snap) != []
  {
    var snap, new_ := w.snapshot.value, Content(w.pending);
    TidyMerge(snap, new_);
    FactLinesAdd(snap, new_);
    assert !IsSpace(snap[|snap| - 2]);
    FactLinesSome(snap);
  }

  /** Where the rollback of w stands after its file effects, in terms of lines. */
  lemma RollbackTotals(w: World)
    requires Wellkept(w)
    ensures forall i :: 0 <= i < |RollbackStates(w)| ==> Wellkept(RollbackStates(w)[i])
    ensures Total(Last(RollbackStates(w))) == Total(w)
    ensures w.snapshot.Some? ==>
              && FactLines(w.snapshot.value) != []
              && Total(RollbackStates(w)[1])
                 == w.archived + FactLines(w.snapshot.value) + (FactLines(w.snapshot.value) + FactLines(Content(w.pending)))
  {
    if w.snapshot.Some? {
      MergeKeepsLines(w);
      var a, b, c := w.archived, FactLines(w.snapshot.value), FactLines(Content(w.pending));
      TotalParts(w, b, c);
      TotalParts(RollbackStates(w)[1], b, b + c);
      TotalParts(RollbackStates(w)[2], [], b + c);
      Associative(a, b, c);
    }
  }

  lemma AppendTotals(w: World, facts: string)
    requires Wellkept(w) && !Blank(facts)
    ensures var e := Last(States(w, Append(facts)));
            && Wellkept(e) && Total(e) == Total(w) + FactLines(RStrip(facts))
            && FactLines(Content(e.pending)) == FactLines(Content(w.pending)) + FactLines(RStrip(facts))
  {
    hide FactLines;
    var e := Last(States(w, Append(facts)));
    var t, r := Content(w.pending), RStrip(facts);
    RStripSpec(facts);
    RStripBlank(facts);
    Associative(t, r, "\n");
    FactLinesAdd(t, r + "\n");
    FactLinesFinalNewline(r);
    var snap := FactLines(Content(w.snapshot));
    TotalParts(w, snap, FactLines(t));
    TotalParts(e, snap, FactLines(t) + FactLines(r));
    Associative(w.archived + snap, FactLines(t), FactLines(r));
    assert Tidy(t + r + "\n");
  }

  lemma CommitTotals(w: World, effects: nat)
    requires Wellkept(w)
    ensures var e := Reached(w, Commit, effects); Wellkept(e) && Total(e) == Total(w)
  {
    hide FactLines;
    NoFactLines();
    var e := Reached(w, Commit, effects);
    var snap, new_ := FactLines(Content(w.snapshot)), FactLines(Content(w.pending));
    TotalParts(w, snap, new_);
    TotalParts(e, if e.snapshot.None? then [] else snap, new_);
  }

  lemma SnapshotTotals(w: World)
    requires Wellkept(w)
    ensures var e := Last(States(w, Snapshot)); Wellkept(e) && Total(e) == Total(w)
  {
    RollbackTotals(w);
    var r, e := Last(RollbackStates(w)), Last(States(w, Snapshot));
    TotalParts(r, [], FactLines(Content(r.pending)));
    if e != r {
      TotalParts(e, FactLines(Content(r.pending)), []);
    }
    hide Total, FactLines;
  }

  /** What a rollback cut after some of its effects leaves, stated on the lines. */
  ghost predicate Kept(w: World, e: World, cut: bool, added: seq<Fact>) {
    && Wellkept(e)
    && (cut ==> w.snapshot.Some? && FactLines(w.snapshot.value) != [])
    && (cut ==> var s := FactLines(w.snapshot.value);
                Total(e) == w.archived + s + (s + FactLines(Content(w.pending))))
    && (!cut ==> Total(e) == Total(w) + added)
  }

  lemma RollbackKept(w: World, effects: nat)
    requires Wellkept(w)
    ensures Kept(w, Reached(w, Rollback, effects), CutInMerge(w, Rollback, effects), [])
  {
    hide FactLines, Total, Wellkept;
    RollbackTotals(w);
  }

  /** A restart is a rollback, after creating the pending file if there is none. */
  lemma RestartIsRollback(w: World, effects: nat)
    ensures var t := w.(pending := Some(Content(w.pending)));
            && (w.pending.Some? ==> Reached(w, Restart, effects) == Reached(w, Rollback, effects))
            && (w.pending.None? && effects > 0 ==> Reached(w, Restart, effects) == Reached(t, Rollback, effects - 1))
            && (w.pending.None? && effects == 0 ==> Reached(w, Restart, effects) == w)
  {
    hide Merged;
  }

  lemma RestartKept(w: World, effects: nat)
    requires Wellkept(w)
    ensures Kept(w, Reached(w, Restart, effects), CutInMerge(w, Restart, effects), [])
  {
    var t := w.(pending := Some(Content(w.pending)));
    RestartIsRollback(w, effects);
    assert Wellkept(t) && Total(t) == Total(w) by { hide FactLines; }
    if w.pending.Some? {
      hide FactLines, Total, Wellkept, Reached;
      RollbackKept(w, effects);
    } else if effects > 0 {
      hide FactLines, Total, Wellkept, Reached;
      RollbackKept(t, effects - 1);
    } else {
      hide FactLines, Total, Wellkept, Reached;
      assert Total(w) + [] == Total(w);
    }
  }

  lemma SnapshotKept(w: World, effects: nat)
    requires Wellkept(w)
    ensures Kept(w, Reached(w, Snapshot, effects), CutInMerge(w, Snapshot, effects), [])
  {
    hide FactLines, Total, Wellkept;
    RollbackTotals(w);
    SnapshotTotals(w);
  }

  /**
   One operation under any crash: the lines on record stay exactly what they were, plus what an
   append added, except that a crash inside the merge repeats the snapshot's lines, once.
   */
  lemma StepTotals(w: World, op: Op, effects: nat)
    requires Wellkept(w)
    ensures Kept(w, Reached(w, op, effects), CutInMerge(w, op, effects), Added(op, effects))
  {
    hide FactLines, Total, Wellkept;
    match op
    case Append(facts) =>
      RStripBlank(facts);
      NoFactLines();
      if !Blank(facts) {
        AppendTotals(w, facts);
      }
    case Commit => CommitTotals(w, effects);
    case Rollback => RollbackKept(w, effects);
    case Restart => RestartKept(w, effects);
    case Snapshot => SnapshotKept(w, effects);
  }

  // ── runs ───────────────────────────────────────────────────────

  datatype Event = Event(op: Op, effects: nat)

  function Run(es: seq<Event>): World {
    if es == [] then World(None, None, [])
    else Reached(Run(es[..|es| - 1]), es[|es| - 1].op, es[|es| - 1].effects)
  }

  /** All lines ever put on disk by appends, in order. */
  function AllAdded(es: seq<Event>): seq<Fact> {
    if es == [] then [] else AllAdded(es[..|es| - 1]) + Added(es[|es| - 1].op, es[|es| - 1].effects)
  }

  ghost predicate CutAt(es: seq<Event>, i: nat)
    requires i < |es|
  {
    CutInMerge(Run(es[..i]), es[i].op, es[i].effects)
  }

  ghost predicate MergeWasCut(es: seq<Event>) {
    exists i :: 0 <= i < |es| && CutAt(es, i)
  }

  predicate Subsequence<T(==)>(a: seq<T>, b: seq<T>) {
    a == [] || (b != [] && ((a[0] == b[0] && Subsequence(a[1..], b[1..])) || Subsequence(a, b[1..])))
  }

  lemma {:induction false} SubsequenceExtend<T>(a: seq<T>, b: seq<T>, c: seq<T>)
    requires Subsequence(a, b)
    ensures Subsequence(a + c, b + c)
  {
    if b == [] {
      assert a + c == c && b + c == c;
      SubsequenceSelf(c);
    } else {
      assert (b + c)[1..] == b[1..] + c;
      if a == [] {
        SubsequenceExtend(a, b[1..], c);
      } else {
        assert (a + c)[1..] == a[1..] + c;
        if a[0] == b[0] && Subsequence(a[1..], b[1..]) {
          SubsequenceExtend(a[1..], b[1..], c);
        } else {
          SubsequenceExtend(a, b[1..], c);
        }
      }
    }
  }

  lemma {:induction false} SubsequenceSelf<T>(c: seq<T>)
    ensures Subsequence(c, c)
  {
    if c != [] {
      SubsequenceSelf(c[1..]);
    }
  }

  /** Repeating a stretch in the middle keeps a subsequence one. */
  lemma {:induction false} SubsequenceInsert<T>(a: seq<T>, x: seq<T>, y: seq<T>, z: seq<T>)
    requires Subsequence(a, x + z)
    ensures Subsequence(a, x + y + z)
    decreases |x| + |y|
  {
    if x == [] {
      assert x + z == z && x + y + z == y + z;
      if y == [] {
        assert y + z == z;
      } else {
        assert (y + z)[1..] == y[1..] + z;
        SubsequenceInsert(a, [], y[1..], z);
        assert [] + y[1..] + z == y[1..] + z;
      }
    } else if a != [] {
      assert (x + z)[1..] == x[1..] + z && (x + y + z)[1..] == x[1..] + y + z;
      if a[0] == (x + z)[0] && Subsequence(a[1..], (x + z)[1..]) {
        SubsequenceInsert(a[1..], x[1..], y, z);
      } else {
        SubsequenceInsert(a, x[1..], y, z);
      }
    }
  }

  lemma FreshDisk()
    ensures Wellkept(World(None, None, [])) && Total(World(None, None, [])) == []
  {
  }

  /** The claim of NeverLosesAFact, for lines `total` on record after `added` were appended. */
  ghost predicate Safe(added: seq<Fact>, total: seq<Fact>, cut: bool) {
    && Subsequence(added, total) && |added| <= |total|
    && (total == added <==> !cut)
  }

  lemma SafeAppend(added: seq<Fact>, total: seq<Fact>, cut: bool, more: seq<Fact>)
    requires Safe(added, total, cut)
    ensures Safe(added + more, total + more, cut)
  {
    SubsequenceExtend(added, total, more);
    SameTail(total, added, more);
  }

  lemma SafeRepeat(added: seq<Fact>, total: seq<Fact>, cut: bool, a: seq<Fact>, s: seq<Fact>, n: seq<Fact>)
    requires Safe(added, total, cut) && total == a + s + n && s != []
    ensures Safe(added, a + s + (s + n), true)
  {
    SubsequenceInsert(added, a + s, s, n);
    Associative(a + s, s, n);
  }

  lemma RunStep(es: seq<Event>)
    requires es != []
    ensures var front, last := es[..|es| - 1], es[|es| - 1];
            && Run(es) == Reached(Run(front), last.op, last.effects)
            && AllAdded(es) == AllAdded(front) + Added(last.op, last.effects)
  {
    hide Reached, Added;
  }

  /** One more operation keeps the claim. */
  lemma StepSafe(w: World, op: Op, effects: nat, added: seq<Fact>, cut: bool)
    requires Wellkept(w) && Safe(added, Total(w), cut)
    ensures var e := Reached(w, op, effects);
            Wellkept(e) && Safe(added + Added(op, effects), Total(e), cut || CutInMerge(w, op, effects))
  {
    hide FactLines, Wellkept, Reached, Total, Safe;
    StepTotals(w, op, effects);
    if CutInMerge(w, op, effects) {
      var s, n := FactLines(w.snapshot.value), FactLines(Content(w.pending));
      TotalParts(w, s, n);
      SafeRepeat(added, Total(w), cut, w.archived, s, n);
      assert added + Added(op, effects) == added;
    } else {
      SafeAppend(added, Total(w), cut, Added(op, effects));
    }
  }

  /**
   No fact is ever lost: over every run of operations, crashes and restarts, the lines archived,
   snapshotted and pending contain all appended lines in order; and they are exactly the appended
   lines, with nothing repeated, if and only if no crash fell inside a merge.
   */
  lemma {:induction false} NeverLosesAFact(es: seq<Event>)
    ensures Wellkept(Run(es))
    ensures Safe(AllAdded(es), Total(Run(es)), MergeWasCut(es))
  {
    FreshDisk();
    if es != [] {
      hide *;
      var front, last := es[..|es| - 1], es[|es| - 1];
      NeverLosesAFact(front);
      RunStep(es);
      CutHistory(es);
      StepSafe(Run(front), last.op, last.effects, AllAdded(front), MergeWasCut(front));
    }
  }

  /** Such a crash: one line appended, a snapshot, and a rollback cut before the unlink; the line is there twice. */
  lemma CutMergeRepeats()
    ensures var w := Run([Event(Append("a"), 1), Event(Snapshot, 1), Event(Rollback, 1)]);
            w == World(Some("a\n"), Some("a\n"), []) && Total(w) == [Fact("a"), Fact("a")]
  {
    var es := [Event(Append("a"), 1), Event(Snapshot, 1), Event(Rollback, 1)];
    assert es[..2] == [Event(Append("a"), 1), Event(Snapshot, 1)] && es[..2][..1] == [Event(Append("a"), 1)];
    assert [Event(Append("a"), 1)][..0] == [];
    assert RStrip("a") == "a" && !Blank("a");
    var first := Run([Event(Append("a"), 1)]);
    assert first == World(Some("a\n"), None, []) by {
      assert "" + "a" + "\n" == "a\n";
    }
    assert Run(es[..2]) == World(None, Some("a\n"), []);
    assert Run(es) == World(Some("a\n"), Some("a\n"), []);
    assert LineEnd("a\n") == 1 by {
      assert "a\n"[1..] == "\n";
    }
    assert FirstLine("a\n") == "a" && Rest("a\n") == "";
    FactLinesStep("a\n");
    NoFactLines();
  }

  lemma CutAtFront(es: seq<Event>, i: nat)
    requires i < |es| - 1
    ensures CutAt(es[..|es| - 1], i) <==> CutAt(es, i)
  {
    hide Run, CutInMerge;
    assert es[..|es| - 1][..i] == es[..i];
  }

  lemma CutHistory(es: seq<Event>)
    requires es != []
    ensures var front, last := es[..|es| - 1], es[|es| - 1];
            MergeWasCut(es) <==> MergeWasCut(front) || CutInMerge(Run(front), last.op, last.effects)
  {
    var front, last := es[..|es| - 1], es[|es| - 1];
    hide Run, CutInMerge;
    assert CutAt(es, |es| - 1) <==> CutInMerge(Run(front), last.op, last.effects);
    assert |front| == |es| - 1;
    hide CutAt;
    if MergeWasCut(es) {
      var i: nat :| i < |es| && CutAt(es, i);
      if i < |front| {
        CutAtFront(es, i);
        assert CutAt(front, i);
      }
    }
    if MergeWasCut(front) {
      var i: nat :| i < |front| && CutAt(front, i);
      CutAtFront(es, i);
      assert CutAt(es, i);
    }
  }

  lemma SameTail<T>(a: seq<T>, b: seq<T>, c: seq<T>)
    ensures a + c == b + c <==> a == b
  {
    if a + c == b + c {
      assert |a| == |b|;
      assert a == (a + c)[..|a|] && b == (b + c)[..|b|];
    }
  }

  // ── the two phases ─────────────────────────────────────────────

  function Complete(w: World, op: Op): World {
    Last(States(w, op))
  }

  function AppendAll(w: World, facts: seq<Fact>): World {
    if facts == [] then w else Complete(AppendAll(w, facts[..|facts| - 1]), Append(facts[|facts| - 1].line))
  }

  function LinesOf(facts: seq<Fact>): seq<Fact> {
    if facts == [] then [] else LinesOf(facts[..|facts| - 1]) + FactLines(RStrip(facts[|facts| - 1].line))
  }

  /** e is w with `lines` appended to the pending ones. */
  ghost predicate Grown(w: World, e: World, lines: seq<Fact>) {
    && Wellkept(e) && e.snapshot == w.snapshot && e.archived == w.archived
    && FactLines(Content(e.pending)) == FactLines(Content(w.pending)) + lines
  }

  lemma AppendGrows(w: World, f: string)
    requires Wellkept(w)
    ensures Grown(w, Complete(w, Append(f)), FactLines(RStrip(f)))
  {
    hide FactLines;
    NoFactLines();
    RStripBlank(f);
    if !Blank(f) {
      AppendTotals(w, f);
    }
  }

  lemma {:induction false} AppendAllGrows(w: World, facts: seq<Fact>)
    requires Wellkept(w)
    ensures Grown(w, AppendAll(w, facts), LinesOf(facts))
  {
    hide FactLines, Complete;
    if facts != [] {
      var f, e := facts[|facts| - 1].line, AppendAll(w, facts[..|facts| - 1]);
      AppendAllGrows(w, facts[..|facts| - 1]);
      AppendGrows(e, f);
      Associative(FactLines(Content(w.pending)), LinesOf(facts[..|facts| - 1]), FactLines(RStrip(f)));
    }
  }

  /** A completed snapshot holds every line on record and leaves no pending file behind. */
  lemma SnapshotTakesAll(w: World)
    requires Wellkept(w)
    ensures var s, kept := Complete(w, Snapshot), FactLines(Content(w.snapshot)) + FactLines(Content(w.pending));
            && Wellkept(s) && s.archived == w.archived && Content(s.pending) == ""
            && FactLines(Content(s.snapshot)) == kept && Total(w) == w.archived + kept
  {
    hide FactLines;
    NoFactLines();
    SnapshotTotals(w);
    var s, kept := Complete(w, Snapshot), FactLines(Content(w.snapshot)) + FactLines(Content(w.pending));
    assert s.archived == w.archived && Content(s.pending) == "";
    Associative(w.archived, FactLines(Content(w.snapshot)), FactLines(Content(w.pending)));
    TotalParts(s, FactLines(Content(s.snapshot)), []);
    SamePrefix(w.archived, kept, FactLines(Content(s.snapshot)));
  }

  /** A completed rollback moves the snapshot in front of the pending lines. */
  lemma RollbackRestores(w: World)
    requires Wellkept(w)
    ensures var e := Complete(w, Rollback);
            && e.snapshot == None && e.archived == w.archived
            && FactLines(Content(e.pending)) == FactLines(Content(w.snapshot)) + FactLines(Content(w.pending))
  {
    hide FactLines;
    NoFactLines();
    if w.snapshot.Some? {
      MergeKeepsLines(w);
    }
  }

  /**
   Isolation of the two phases: facts appended while a snapshot is out are neither archived by the
   commit nor mixed into the snapshot; a rollback puts the snapshot back in front of them.
   */
  lemma TwoPhases(w: World, facts: seq<Fact>)
    requires Wellkept(w)
    ensures var kept := FactLines(Content(w.snapshot)) + FactLines(Content(w.pending));
            var mid := AppendAll(Complete(w, Snapshot), facts);
            var done, undone := Complete(mid, Commit), Complete(mid, Rollback);
            && FactLines(Content(mid.snapshot)) == kept
            && done.snapshot == None && done.pending.Some?
            && done.archived == w.archived + kept && FactLines(Content(done.pending)) == LinesOf(facts)
            && undone.snapshot == None && undone.archived == w.archived
            && FactLines(Content(undone.pending)) == kept + LinesOf(facts)
  {
    hide FactLines, AppendAll, LinesOf;
    NoFactLines();
    var s := Complete(w, Snapshot);
    SnapshotTakesAll(w);
    AppendAllGrows(s, facts);
    CommitTakesSnapshot(AppendAll(s, facts));
    RollbackRestores(AppendAll(s, facts));
    hide Complete, Wellkept, Total;
  }

  /** A completed commit archives the snapshot and leaves what is pending. */
  lemma CommitTakesSnapshot(w: World)
    ensures var e := Complete(w, Commit);
            && e.snapshot == None && e.pending == Some(Content(w.pending))
            && e.archived == w.archived + (if w.snapshot.Some? then FactLines(w.snapshot.value) else [])
  {
    hide FactLines;
  }

  lemma SamePrefix<T>(a: seq<T>, b: seq<T>, c: seq<T>)
    requires a + b == a + c
    ensures b == c
  {
    assert b == (a + b)[|a|..] && c == (a + c)[|a|..];
  }

  /** Whatever the operation and wherever it is cut, a live snapshot is never replaced by another. */
  lemma SnapshotNeverOverwritten(w: World, op: Op, i: nat)
    requires i + 1 < |States(w, op)|
    ensures var s := States(w, op);
            s[i].snapshot.Some? ==> s[i + 1].snapshot.None? || s[i + 1].snapshot == s[i].snapshot
    ensures States(w, op)[i].archived <= States(w, op)[i + 1].archived
  {
  }
}
