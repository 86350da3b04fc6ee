/**
 Where the idempotent append of agent/memory.py stops being exactly-once: what each condition of
 the guarantee is for, shown by the runs that break without it.
 */
module AppendLimits {
  import opened Text
  import opened Markers
  import opened AppendOnce

  // ── what a returned call leaves, without any condition ─────────

  ghost predicate PayloadsKept(d: Disk) {
    forall k :: k in d.rows ==> d.rows[k].payload != ""
  }

  lemma {:induction false} RunKeepsPayloads(es: seq<Event>)
    ensures PayloadsKept(Run(es))
  {
    if es != [] {
      RunKeepsPayloads(es[..|es| - 1]);
      hide Run, AppendTo, Written, PlainText;
    }
  }

  lemma RecordHasMarker(before: string, marker: string, payload: string, trailing: bool)
    ensures Contains(before + Record(marker, payload, trailing), marker)
  {
    var s := before + Record(marker, payload, trailing);
    assert s[|before|..|before| + |marker|] == marker;
    assert OccursAt(s, marker, |before|);
  }

  /**
   At least once, whatever the keys, markers and texts, and whatever happened before: a call that
   returns leaves its key in the index and its marker in its file.
   */
  lemma ReturnedCallMarks(es: seq<Event>, c: Call)
    requires Wellformed(c)
    ensures var d := Run(es + [Once(c, NoCrash)]);
            c.key in d.rows && Contains(FileText(d, c.target), c.marker)
  {
    var d, all := Run(es), es + [Once(c, NoCrash)];
    assert all[..|es|] == es;
    assert Run(all) == CallEffect(d, c, NoCrash);
    RunKeepsPayloads(es);
    hide Run, Contains, Record;
    match Decide(d, c)
    case Restore(row) => RecordHasMarker(FileText(d, c.target), c.marker, row.payload, row.trailing);
    case Fresh => RecordHasMarker(FileText(d, c.target), c.marker, c.text, c.trailing);
    case Backfill => TailWithinFile(FileText(d, c.target), c.marker);
    case Done =>
  }

  // ── markers written by someone else ────────────────────────────

  /**
   A call whose key is not indexed is always indexed, and it writes nothing if and only if the
   scanned tail already holds its marker, whoever wrote it.
   */
  lemma UnindexedCallWritesNothingIff(d: Disk, c: Call)
    requires Wellformed(c) && c.key !in d.rows
    ensures var e := CallEffect(d, c, NoCrash);
            && e.rows == d.rows[c.key := Row(c.text, c.trailing)]
            && (e.files == d.files <==> Contains(Tail(FileText(d, c.target)), c.marker))
            && (e.files != d.files ==> FileText(e, c.target) == FileText(d, c.target) + Record(c.marker, c.text, c.trailing))
  {
    if !Contains(Tail(FileText(d, c.target)), c.marker) {
      assert |FileText(CallEffect(d, c, NoCrash), c.target)| > |FileText(d, c.target)|;
    }
  }

  /**
   If the first record of a file holds the marker of a second key, the second call takes it for its
   own: the key is indexed, and its payload is never written.
   */
  lemma ForeignMarkerLosesPayload(c1: Call, c2: Call)
    requires Wellformed(c1) && Wellformed(c2) && c1.target == c2.target && c1.key != c2.key
    requires c1.marker != "" && Contains(Record(c1.marker, c1.text, c1.trailing), c2.marker)
    requires |Record(c1.marker, c1.text, c1.trailing)| <= TAIL_BYTES
    ensures var d := Run([Once(c1, NoCrash), Once(c2, NoCrash)]);
            && d.files == map[c1.target := Record(c1.marker, c1.text, c1.trailing)]
            && c2.key in d.rows && d.rows[c2.key].payload == c2.text
  {
    var es, r := [Once(c1, NoCrash), Once(c2, NoCrash)], Record(c1.marker, c1.text, c1.trailing);
    assert es[..1] == [Once(c1, NoCrash)] && es[..1][..0] == [];
    var d0, d1 := Run([]), Run(es[..1]);
    assert d1 == CallEffect(d0, c1, NoCrash) && Run(es) == CallEffect(d1, c2, NoCrash);
    hide Record;
    assert FileText(d0, c1.target) == "" && Tail("") == "";
    UnindexedCallWritesNothingIff(d0, c1);
    assert d1.files == map[c1.target := "" + r] && "" + r == r;
    assert Tail(FileText(d1, c1.target)) == r;
    UnindexedCallWritesNothingIff(d1, c2);
  }

  /** Two keys with one marker, as "a:b" with "c" and "a" with "b:c". */
  lemma CollisionLosesPayload(c1: Call, c2: Call)
    requires Wellformed(c1) && Wellformed(c2) && c1.target == c2.target
    requires c1.key != c2.key && c1.marker == c2.marker != ""
    requires |Record(c1.marker, c1.text, c1.trailing)| <= TAIL_BYTES
    ensures var d := Run([Once(c1, NoCrash), Once(c2, NoCrash)]);
            && d.files == map[c1.target := Record(c1.marker, c1.text, c1.trailing)]
            && c2.key in d.rows && d.rows[c2.key].payload == c2.text
  {
    var r := Record(c1.marker, c1.text, c1.trailing);
    RecordHasMarker("", c1.marker, c1.text, c1.trailing);
    assert "" + r == r;
    ForeignMarkerLosesPayload(c1, c2);
  }

  /** Two keys with markers of their own, the first payload being the second one's marker. */
  lemma QuotedMarkerLosesPayload(target: Path, src: string, quoted: string, kind: string, text: string)
    requires Strip(src) != "" && Strip(quoted) != "" && Strip(kind) != "" && text != ""
    requires Strip(src) != Strip(quoted) && |Marker(src, kind)| + |Marker(quoted, kind)| + 2 <= TAIL_BYTES
    ensures var c2 := MakeCall(target, text, quoted, kind, false);
            var c1 := MakeCall(target, c2.marker, src, kind, false);
            var d := Run([Once(c1, NoCrash), Once(c2, NoCrash)]);
            && d.files == map[target := c1.marker + "\n" + c2.marker + "\n"]
            && c2.key in d.rows && d.rows[c2.key].payload == text
  {
    var c2 := MakeCall(target, text, quoted, kind, false);
    var c1 := MakeCall(target, c2.marker, src, kind, false);
    var r := Record(c1.marker, c1.text, false);
    MarkerNewlineFree(src, kind);
    MarkerNewlineFree(quoted, kind);
    assert RStrip(c2.marker) == c2.marker;
    var front := c1.marker + "\n";
    assert r == front + c2.marker + "\n" == c1.marker + "\n" + c2.marker + "\n";
    assert r[|front|..|front| + |c2.marker|] == c2.marker;
    assert OccursAt(r, c2.marker, |front|);
    hide Marker, Run, Record, RStrip, Strip;
    ForeignMarkerLosesPayload(c1, c2);
  }

  // ── a record outside the tail ──────────────────────────────────

  lemma NoBracketNoMarker(text: string, marker: string)
    requires '<' !in text && marker != "" && marker[0] == '<'
    ensures !Contains(text, marker) && Occurrences(text, marker) == 0
  {
    ContainsIffOccurrences(text, marker);
    forall i: nat | i + |marker| <= |text| ensures !OccursAt(text, marker, i) {
      assert text[i..i + |marker|][0] == text[i] != marker[0];
    }
  }

  lemma RStripLacks(text: string, c: char)
    requires c !in text
    ensures c !in RStrip(text)
  {
    RStripSpec(text);
  }

  /** The one key of such a run. */
  function Alone(c: Call): map<Key, Home> {
    map[c.key := Home(c.target, c.marker)]
  }

  lemma AloneAdmits(c: Call, text: string)
    requires Wellformed(c) && c.marker != "" && c.marker[0] == '<' && NewlineFree(c.marker) && |c.marker| > 1
    requires '<' !in c.text && '<' !in text
    ensures Separated(Alone(c)) && Inv(Alone(c), Disk(map[], map[]))
    ensures Admissible(Alone(c), Plain(c.target, text))
    ensures forall crash :: Admissible(Alone(c), Once(c, crash))
  {
    RStripLacks(c.text, '<');
    RStripLacks(text, '<');
    NoBracketNoMarker(RStrip(c.text) + "\n", c.marker);
    NoBracketNoMarker(PlainText(text), c.marker);
    hide Occurrences, RStrip;
    assert forall p :: FileText(Disk(map[], map[]), p) == "";
    assert Occurrences("", c.marker) == 0 by {
      NoOccurrenceBeyondLength("", c.marker);
    }
  }

  /**
   A call dies between its write and its COMMIT, a plain append of a tail's length follows, and the
   retry writes the record a second time.  Neither text holds a '<'.
   */
  lemma SecondRecordRun(target: Path, payload: string, src: string, kind: string, trailing: bool, text: string)
    requires Strip(src) != "" && Strip(kind) != "" && payload != "" && '<' !in payload && '<' !in text
    requires |PlainText(text)| >= TAIL_BYTES
    ensures var c := MakeCall(target, payload, src, kind, trailing);
            Records(Run([Once(c, BeforeCommit), Plain(target, text), Once(c, NoCrash)]), target, c.marker) == 2
  {
    var c := MakeCall(target, payload, src, kind, trailing);
    var homes := Alone(c);
    MarkerNewlineFree(src, kind);
    assert c.marker[0] == MARKER_PREFIX[0];
    hide Marker, Occurrences;
    AloneAdmits(c, text);
    var d0 := Disk(map[], map[]);
    var d1 := Step(d0, Once(c, BeforeCommit));
    var d2 := Step(d1, Plain(target, text));
    ThreeSteps(Once(c, BeforeCommit), Plain(target, text), Once(c, NoCrash));
    EmptyTail(d0, c);
    StepKeepsInv(homes, d0, Once(c, BeforeCommit));
    StepKeepsInv(homes, d1, Plain(target, text));
    OutOfTail(d1, c, text);
    hide Step, Inv, Separated, Admissible, FileText;
    MarkedAfterCrash(d0, c);
    StepGrows(d1, Plain(target, text), target);
    ContainsInLonger(FileText(d1, target), FileText(d2, target), c.marker);
    SecondRecordIff(homes, d2, c, NoCrash);
  }

  lemma ThreeSteps(a: Event, b: Event, c: Event)
    ensures Run([a, b, c]) == Step(Step(Step(Disk(map[], map[]), a), b), c)
  {
    hide Step;
    assert [a, b, c][..2] == [a, b] && [a, b][..1] == [a] && [a][..0] == [];
    assert Run([a]) == Step(Run([]), a);
    assert Run([a, b]) == Step(Run([a]), b);
  }

  lemma EmptyTail(d: Disk, c: Call)
    requires d == Disk(map[], map[]) && c.marker != ""
    ensures OrphanInTail(d, c) && Decide(d, c) == if Wellformed(c) then Fresh else Ignore
  {
    assert FileText(d, c.target) == "";
  }

  lemma MarkedAfterCrash(d: Disk, c: Call)
    requires d == Disk(map[], map[]) && Wellformed(c) && c.marker != ""
    ensures var e := Step(d, Once(c, BeforeCommit));
            Contains(FileText(e, c.target), c.marker) && c.key !in e.rows && e.rows == map[]
  {
    EmptyTail(d, c);
    RecordHasMarker(FileText(d, c.target), c.marker, c.text, c.trailing);
    hide Contains, Record, Decide;
  }

  /** After a plain append of a tail's length, the tail is a piece of that append. */
  lemma OutOfTail(d: Disk, c: Call, text: string)
    requires c.marker != "" && c.marker[0] == '<' && '<' !in text && |PlainText(text)| >= TAIL_BYTES
    ensures var e := Step(d, Plain(c.target, text));
            e.rows == d.rows && !Contains(Tail(FileText(e, c.target)), c.marker)
  {
    var e, t := Step(d, Plain(c.target, text)), PlainText(text);
    var all := FileText(e, c.target);
    RStripLacks(text, '<');
    assert all == FileText(d, c.target) + t;
    assert forall i :: |all| - TAIL_BYTES <= i < |all| ==> all[i] in t;
    hide PlainText, FileText, Step, Contains;
    assert '<' !in Tail(all);
    NoBracketNoMarker(Tail(all), c.marker);
  }

  // ── a file without its marker ──────────────────────────────────

  /**
   The index key leaves out the file, so for an indexed key the call writes exactly when its
   target lacks the marker (a second file, or PENDING.md after a snapshot), and what it then
   writes is the payload of the first call, never its own.
   */
  lemma IndexedCallRewritesIff(d: Disk, c: Call)
    requires Wellformed(c) && c.key in d.rows && d.rows[c.key].payload != ""
    ensures var row, e := d.rows[c.key], CallEffect(d, c, NoCrash);
            && e.rows == d.rows
            && (e.files != d.files <==> !Contains(FileText(d, c.target), c.marker))
            && (e.files != d.files ==>
                  FileText(e, c.target) == FileText(d, c.target) + Record(c.marker, row.payload, row.trailing))
  {
    var row := d.rows[c.key];
    if !Contains(FileText(d, c.target), c.marker) {
      assert |FileText(CallEffect(d, c, NoCrash), c.target)| > |FileText(d, c.target)|;
    }
  }

  /** The text leaves the file, as PENDING.md does when it is renamed for a snapshot. */
  function MovedAway(d: Disk, from: Path, to: Path): Disk {
    Disk((d.files - {from})[to := FileText(d, from)], d.rows)
  }

  /** A marked append to PENDING.md, a snapshot, and a retry of the append: the payload stands in both files. */
  lemma SnapshotThenRetryRepeats(c: Call, snapshot: Path)
    requires Wellformed(c) && c.marker != "" && snapshot != c.target
    ensures var r := Record(c.marker, c.text, c.trailing);
            var e := CallEffect(MovedAway(Run([Once(c, NoCrash)]), c.target, snapshot), c, NoCrash);
            e.files == map[snapshot := r, c.target := r]
  {
    var d0, r := Disk(map[], map[]), Record(c.marker, c.text, c.trailing);
    assert [Once(c, NoCrash)][..0] == [];
    assert Run([Once(c, NoCrash)]) == CallEffect(d0, c, NoCrash);
    EmptyTail(d0, c);
    UnindexedCallWritesNothingIff(d0, c);
    var d := CallEffect(d0, c, NoCrash);
    hide Record, Run, Decide, Contains;
    assert "" + r == r;
    assert d.files == map[c.target := r];
    var m := MovedAway(d, c.target, snapshot);
    assert m.files == map[snapshot := r];
    NotInEmpty(c.marker);
    IndexedCallRewritesIff(m, c);
  }

  lemma NotInEmpty(marker: string)
    requires marker != ""
    ensures !Contains("", marker)
  {
  }

  /**
   One key with a second file: the first record is written there too, and the second payload
   nowhere, although the marker is unique, in the tail, and quoted by no text.
   */
  lemma SecondFileRepeatsAndLoses(c: Call, other: Path, text: string)
    requires Wellformed(c) && c.marker != "" && other != c.target && text != ""
    ensures var r := Record(c.marker, c.text, c.trailing);
            Run([Once(c, NoCrash), Once(c.(target := other, text := text), NoCrash)])
            == Disk(map[c.target := r, other := r], map[c.key := Row(c.text, c.trailing)])
  {
    var c' := c.(target := other, text := text);
    var d0, r := Disk(map[], map[]), Record(c.marker, c.text, c.trailing);
    TwoSteps(Once(c, NoCrash), Once(c', NoCrash));
    EmptyTail(d0, c);
    UnindexedCallWritesNothingIff(d0, c);
    NotInEmpty(c.marker);
    hide Record, Run, Decide, Contains, Written, CallEffect;
    var d := CallEffect(d0, c, NoCrash);
    assert "" + r == r;
    OnlyTarget(d0, c);
    assert d.files == map[c.target := r] && d.rows == map[c.key := Row(c.text, c.trailing)];
    IndexedCallRewritesIff(d, c');
    OnlyTarget(d, c');
  }

  lemma TwoSteps(a: Event, b: Event)
    ensures Run([a, b]) == Step(Step(Disk(map[], map[]), a), b)
  {
    hide Step;
    assert [a, b][..1] == [a] && [a][..0] == [];
    assert Run([a]) == Step(Run([]), a);
  }

  /** A call changes no other file than its target. */
  lemma OnlyTarget(d: Disk, c: Call)
    ensures var e := CallEffect(d, c, NoCrash);
            && (forall p :: p != c.target ==> (p in e.files <==> p in d.files) && (p in d.files ==> e.files[p] == d.files[p]))
            && (e.files != d.files ==> c.target in e.files)
  {
    hide Written;
  }
}
