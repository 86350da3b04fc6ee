/**
 The idempotent append of agent/memory.py: a marker line and its payload go into a text file,
 a row goes into the consolidation_writes table, and a retry repairs whichever half a crash
 left undone.

 Characters stand for the bytes of the UTF-8 files.  One open-append-close, and one COMMIT,
 are the atomic effects; a crash can fall before or between them.
 */
module AppendOnce {
  import opened Text
  import opened MarkerSearch
  import opened Markers

  const TAIL_BYTES: nat := 1024 * 1024

  type Path = string
  datatype Row = Row(payload: string, trailing: bool)
  datatype Disk = Disk(files: map<Path, string>, rows: map<Key, Row>)

  /** One call, with the index key and the marker computed from its source_ref and kind. */
  datatype Call = Call(target: Path, text: string, key: Key, marker: string, trailing: bool)
  /** A crash after COMMIT leaves the disk of a normal return, so it is NoCrash here. */
  datatype Crash = NoCrash | BeforeWrite | BeforeCommit
  datatype Outcome = Crashed | Returned(written: bool)

  // ── what one call is specified to do ───────────────────────────

  datatype Decision =
    | Ignore                       // an empty source_ref, kind or payload
    | Done                         // indexed, and the marker is in the file
    | Restore(row: Row)            // indexed, but the marker is gone from the file
    | Backfill                     // the file holds the marker, the index row is missing
    | Fresh

  function FileText(d: Disk, p: Path): string {
    if p in d.files then d.files[p] else ""
  }

  function Tail(s: string): string {
    Suffix(s, TAIL_BYTES)
  }

  function MakeCall(target: Path, text: string, sourceRef: string, kind: string, trailing: bool): Call {
    Call(target, text, IndexKey(sourceRef, kind), Marker(sourceRef, kind), trailing)
  }

  predicate Wellformed(c: Call) {
    c.key.src != "" && c.key.kind != "" && c.text != ""
  }

  function Decide(d: Disk, c: Call): Decision {
    var marker := c.marker;
    var text := FileText(d, c.target);
    if !Wellformed(c) then Ignore
    else if c.key in d.rows then
      if Contains(text, marker) || d.rows[c.key].payload == "" then Done
      else Restore(d.rows[c.key])
    else if Contains(Tail(text), marker) then Backfill
    else Fresh
  }

  function Record(marker: string, payload: string, trailing: bool): string {
    marker + "\n" + RStrip(payload) + "\n" + if trailing then "\n" else ""
  }

  /** The text appended by the decision; "" when nothing is written. */
  function Written(d: Disk, c: Call): string {
    var marker := c.marker;
    match Decide(d, c)
    case Restore(row) => Record(marker, row.payload, row.trailing)
    case Fresh => Record(marker, c.text, c.trailing)
    case _ => ""
  }

  predicate Inserts(d: Disk, c: Call) {
    Decide(d, c).Backfill? || Decide(d, c).Fresh?
  }

  function AppendTo(files: map<Path, string>, p: Path, t: string): map<Path, string> {
    if t == "" then files else files[p := (if p in files then files[p] else "") + t]
  }

  /** The disk after one call, cut off where the crash says. */
  function CallEffect(d: Disk, c: Call, crash: Crash): Disk {
    Disk(if crash.BeforeWrite? then d.files else AppendTo(d.files, c.target, Written(d, c)),
         if crash.NoCrash? && Inserts(d, c) then d.rows[c.key := Row(c.text, c.trailing)] else d.rows)
  }

  lemma IgnoredEffect(d: Disk, c: Call, crash: Crash)
    requires !Wellformed(c)
    ensures !Decide(d, c).Fresh? && CallEffect(d, c, crash) == d
  {
  }

  /** A call whose key is indexed, given whether the file holds the marker. */
  lemma IndexedEffect(d: Disk, c: Call, crash: Crash)
    requires Wellformed(c) && c.key in d.rows
    ensures var row, found := d.rows[c.key], Contains(FileText(d, c.target), c.marker);
            var t := if found || row.payload == "" || crash == BeforeWrite then "" else Record(c.marker, row.payload, row.trailing);
            !Decide(d, c).Fresh? && CallEffect(d, c, crash) == Disk(AppendTo(d.files, c.target, t), d.rows)
  {
    hide Contains, Record;
  }

  /** A call whose key is not indexed, given whether the tail holds the marker. */
  lemma UnindexedEffect(d: Disk, c: Call, crash: Crash)
    requires Wellformed(c) && c.key !in d.rows
    ensures var orphaned := Contains(Tail(FileText(d, c.target)), c.marker);
            var t := if orphaned || crash == BeforeWrite then "" else Record(c.marker, c.text, c.trailing);
            var rows := if crash == NoCrash then d.rows[c.key := Row(c.text, c.trailing)] else d.rows;
            (Decide(d, c).Fresh? <==> !orphaned) && CallEffect(d, c, crash) == Disk(AppendTo(d.files, c.target, t), rows)
  {
    hide Contains, Record;
  }

  // ── the code ───────────────────────────────────────────────────

  class MemoryStore {
    var files: map<Path, string>
    var rows: map<Key, Row>

    ghost function State(): Disk reads this {
      Disk(files, rows)
    }

    constructor ()
      ensures State() == Disk(map[], map[])
    {
      files, rows := map[], map[];
    }

    method TailContainsMarker(path: Path, marker: string) returns (found: bool)
      ensures found <==> path in files && files[path] != "" && Contains(Tail(files[path]), marker)
    {
      if path !in files {
        return false;
      }
      var size := |files[path]|;
      var take := if size < TAIL_BYTES then size else TAIL_BYTES;
      if take <= 0 {
        return false;
      }
      return Contains(files[path][size - take..], marker);
    }

    method Append(target: Path, text: string)
      modifies this`files
      ensures files == AppendTo(old(files), target, text)
    {
      if text != "" {
        files := files[target := (if target in files then files[target] else "") + text];
      }
    }

    method AppendOnceWithIndex(target: Path, text: string, sourceRef: string, kind: string,
                               trailing: bool, crash: Crash)
      returns (outcome: Outcome)
      modifies this
      ensures var c := MakeCall(target, text, sourceRef, kind, trailing);
              && State() == CallEffect(old(State()), c, crash)
              && outcome == (if Wellformed(c) && !crash.NoCrash? then Crashed
                             else Returned(Decide(old(State()), c).Fresh?))
      ensures outcome == Returned(true) ==>
        && target in files && Key(Strip(sourceRef), Strip(kind)) in rows
        && files[target] == old(FileText(State(), target)) + Marker(sourceRef, kind) + "\n" + RStrip(text) + "\n"
                            + (if trailing then "\n" else "")
        && rows[Key(Strip(sourceRef), Strip(kind))] == Row(text, trailing)
    {
      ghost var c := MakeCall(target, text, sourceRef, kind, trailing);
      MarkerNewlineFree(sourceRef, kind);
      var marker := Marker(sourceRef, kind);
      assert !Contains("", marker) && Tail("") == "";
      hide Strip, Flat, Marker, Contains, RStrip, Tail, Record, CallEffect, Decide, Written, Inserts;
      var src, kd := Strip(sourceRef), Strip(kind);
      if src == "" || kd == "" || text == "" {
        IgnoredEffect(State(), c, crash);
        return Returned(false);
      }
      if Key(src, kd) in rows {
        IndexedEffect(State(), c, crash);
        var existing := rows[Key(src, kd)];
        var found := false;
        if target in files {
          found := FileContainsMarker(ReadChunks(files[target], 1024 * 1024), marker);
        }
        assert !found ==> !Contains(FileText(State(), target), marker);
        if !found && existing.payload != "" {
          if crash == BeforeWrite {
            return Crashed;
          }
          Append(target, Record(marker, existing.payload, existing.trailing));
        }
        return if crash == NoCrash then Returned(false) else Crashed;
      }
      UnindexedEffect(State(), c, crash);
      var orphaned := TailContainsMarker(target, marker);
      assert orphaned <==> Contains(Tail(FileText(State(), target)), marker);
      if orphaned {
        if crash != NoCrash {
          return Crashed;
        }
        rows := rows[Key(src, kd) := Row(text, trailing)];
        return Returned(false);
      }
      if crash == BeforeWrite {
        return Crashed;
      }
      RecordText(old(FileText(State(), target)), marker, text, trailing);
      Append(target, Record(marker, text, trailing));
      if crash == BeforeCommit {
        return Crashed;
      }
      rows := rows[Key(src, kd) := Row(text, trailing)];
      return Returned(true);
    }
  }

  lemma RecordText(before: string, marker: string, payload: string, trailing: bool)
    ensures before + Record(marker, payload, trailing)
         == before + marker + "\n" + RStrip(payload) + "\n" + if trailing then "\n" else ""
    ensures Record(marker, payload, trailing) != ""
  {
  }

  /**
   Every text written is a marker line, the right-stripped payload and the blank line asked for: of
   the call when it is fresh, of the index row when the file has lost the record.  Nothing else changes.
   */
  lemma WritesRecord(d: Disk, c: Call, crash: Crash, p: Path)
    ensures var e, was := CallEffect(d, c, crash), FileText(d, c.target);
            && (p != c.target ==> FileText(e, p) == FileText(d, p))
            && FileText(e, c.target) ==
                 match Decide(d, c) {
                   case Fresh =>
                     if crash == BeforeWrite then was
                     else was + c.marker + "\n" + RStrip(c.text) + "\n" + if c.trailing then "\n" else ""
                   case Restore(row) =>
                     if crash == BeforeWrite then was
                     else was + c.marker + "\n" + RStrip(row.payload) + "\n" + if row.trailing then "\n" else ""
                   case _ => was
                 }
  {
    hide RStrip, Record, Decide;
    var was := FileText(d, c.target);
    match Decide(d, c)
    case Fresh => RecordText(was, c.marker, c.text, c.trailing);
    case Restore(row) => RecordText(was, c.marker, row.payload, row.trailing);
    case _ =>
  }

  // ── runs ───────────────────────────────────────────────────────

  /** Plain is append_history, append_journal without a source_ref, and a journal's first line. */
  datatype Event = Once(call: Call, crash: Crash) | Plain(target: Path, text: string)

  function PlainText(text: string): string {
    RStrip(text) + "\n\n"
  }

  function Step(d: Disk, e: Event): Disk {
    match e
    case Once(c, crash) => CallEffect(d, c, crash)
    case Plain(p, text) => Disk(AppendTo(d.files, p, PlainText(text)), d.rows)
  }

  function Run(es: seq<Event>): Disk {
    if es == [] then Disk(map[], map[]) else Step(Run(es[..|es| - 1]), es[|es| - 1])
  }

  /** Where the records of a key go, and the marker they carry. */
  datatype Home = Home(file: Path, marker: string)

  /** Markers are single lines, and none hides inside another key's marker line. */
  ghost predicate Separated(homes: map<Key, Home>) {
    && (forall k :: k in homes ==> NewlineFree(homes[k].marker) && |homes[k].marker| > 1)
    && (forall j, k :: j in homes && k in homes && j != k
                       ==> Occurrences(homes[j].marker + "\n", homes[k].marker) == 0)
  }

  ghost predicate FreeOfMarkers(text: string, homes: map<Key, Home>) {
    forall k :: k in homes ==> Occurrences(text, homes[k].marker) == 0
  }

  /** Each key has one home file, and the texts written contain no marker of a key in use. */
  ghost predicate Admissible(homes: map<Key, Home>, e: Event) {
    match e
    case Once(c, _) =>
      Wellformed(c) ==>
        && c.key in homes && homes[c.key] == Home(c.target, c.marker)
        && FreeOfMarkers(RStrip(c.text) + "\n", homes)
    case Plain(p, text) => FreeOfMarkers(PlainText(text), homes)
  }

  /** A record the index does not know of still lies within the scanned tail. */
  predicate OrphanInTail(d: Disk, c: Call) {
    var text := FileText(d, c.target);
    c.key !in d.rows && Contains(text, c.marker) ==> Contains(Tail(text), c.marker)
  }

  ghost predicate OrphansReachable(es: seq<Event>) {
    forall i :: 0 <= i < |es| && es[i].Once? && Wellformed(es[i].call)
                ==> OrphanInTail(Run(es[..i]), es[i].call)
  }

  function Records(d: Disk, p: Path, marker: string): nat {
    Occurrences(FileText(d, p), marker)
  }

  ghost predicate Inv(homes: map<Key, Home>, d: Disk) {
    && (forall p :: LineEnded(FileText(d, p)))
    && (forall k, p :: k in homes && p != homes[k].file ==> Records(d, p, homes[k].marker) == 0)
    && (forall k :: k in homes ==> Records(d, homes[k].file, homes[k].marker) <= 1)
    && (forall k :: k in d.rows ==> k in homes && Records(d, homes[k].file, homes[k].marker) == 1)
  }

  /** A record contributes one occurrence of its own marker and none of any other. */
  lemma RecordOccurrences(homes: map<Key, Home>, k: Key, j: Key, payload: string, trailing: bool)
    requires k in homes && j in homes && Separated(homes)
    requires FreeOfMarkers(RStrip(payload) + "\n", homes)
    ensures Occurrences(Record(homes[k].marker, payload, trailing), homes[j].marker) == if j == k then 1 else 0
    ensures LineEnded(Record(homes[k].marker, payload, trailing))
  {
    var m := homes[j].marker;
    var own, body, blank := homes[k].marker + "\n", RStrip(payload) + "\n", if trailing then "\n" else "";
    assert Record(homes[k].marker, payload, trailing) == own + (body + blank);
    OccurrencesAdd(own, body + blank, m);
    OccurrencesAdd(body, blank, m);
    OccurrencesOwnLine(homes[k].marker);
    NoOccurrenceBeyondLength(blank, m);
  }

  /** Appending line-ended text adds up occurrences in the target and leaves other files alone. */
  lemma AppendCounts(d: Disk, p: Path, t: string, rows: map<Key, Row>, m: string, q: Path)
    requires LineEnded(FileText(d, p)) && LineEnded(t) && m != "" && NewlineFree(m)
    ensures var e := Disk(AppendTo(d.files, p, t), rows);
            && Records(e, q, m) == Records(d, q, m) + (if p == q then Occurrences(t, m) else 0)
            && (LineEnded(FileText(d, q)) ==> LineEnded(FileText(e, q)))
  {
    OccurrencesAdd(FileText(d, p), t, m);
    assert FileText(d, p) + "" == FileText(d, p);
  }

  lemma TailWithinFile(s: string, m: string)
    requires Contains(Tail(s), m)
    ensures Contains(s, m)
  {
    var i: nat :| i <= |Tail(s)| && OccursAt(Tail(s), m, i);
    var off := |s| - |Tail(s)|;
    assert s[off + i..off + i + |m|] == Tail(s)[i..i + |m|];
    assert OccursAt(s, m, off + i);
  }

  /** A fresh write happens exactly when neither index nor tail knows the key. */
  lemma FreshIff(homes: map<Key, Home>, d: Disk, c: Call, crash: Crash)
    requires Separated(homes) && Inv(homes, d) && Wellformed(c) && Admissible(homes, Once(c, crash))
    ensures var n := Records(d, c.target, c.marker);
            && (Decide(d, c).Fresh? <==> c.key !in d.rows && (n == 0 || !OrphanInTail(d, c)))
            && (n == 0 ==> OrphanInTail(d, c))
            && !Decide(d, c).Restore?
  {
    var text := FileText(d, c.target);
    ContainsIffOccurrences(text, c.marker);
    if Contains(Tail(text), c.marker) {
      TailWithinFile(text, c.marker);
    }
  }

  /** What one call does to the number of marked records, wherever the crash falls. */
  lemma CallCounts(homes: map<Key, Home>, d: Disk, c: Call, crash: Crash, k: Key, p: Path)
    requires Separated(homes) && Inv(homes, d) && Wellformed(c) && Admissible(homes, Once(c, crash))
    requires k in homes
    ensures var e := CallEffect(d, c, crash);
            && LineEnded(FileText(e, p))
            && Records(e, p, homes[k].marker) == Records(d, p, homes[k].marker)
                 + if k == c.key && p == c.target && !crash.BeforeWrite? && Decide(d, c).Fresh? then 1 else 0
  {
    FreshIff(homes, d, c, crash);
    var t := if crash.BeforeWrite? then "" else Written(d, c);
    WrittenIs(d, c);
    HomeOf(homes, d, c, crash, k);
    RecordOccurrences(homes, c.key, k, c.text, c.trailing);
    hide Separated, Inv, Admissible, Decide, Record, Written, Records, FileText, LineEnded, Occurrences, AppendTo, OrphanInTail;
    NoOccurrences(homes[k].marker);
    AppendCounts(d, c.target, t, CallEffect(d, c, crash).rows, homes[k].marker, p);
    assert LineEnded(FileText(d, p)) && LineEnded(FileText(d, c.target)) by {
      AllLineEnded(homes, d, p);
      AllLineEnded(homes, d, c.target);
    }
  }

  lemma AllLineEnded(homes: map<Key, Home>, d: Disk, p: Path)
    requires Inv(homes, d)
    ensures LineEnded(FileText(d, p))
  {
  }

  lemma NoOccurrences(m: string)
    requires m != ""
    ensures Occurrences("", m) == 0 && LineEnded("")
  {
  }

  lemma HomeOf(homes: map<Key, Home>, d: Disk, c: Call, crash: Crash, k: Key)
    requires Separated(homes) && Wellformed(c) && Admissible(homes, Once(c, crash)) && k in homes
    ensures c.key in homes && homes[c.key] == Home(c.target, c.marker) && FreeOfMarkers(RStrip(c.text) + "\n", homes)
    ensures homes[k].marker != "" && NewlineFree(homes[k].marker)
  {
  }

  /** Without a restore, only a fresh call writes, and then its own record. */
  lemma WrittenIs(d: Disk, c: Call)
    ensures Decide(d, c).Fresh? ==> Written(d, c) == Record(c.marker, c.text, c.trailing) != ""
    ensures !Decide(d, c).Fresh? && !Decide(d, c).Restore? ==> Written(d, c) == ""
  {
  }

  /** Only a key with a record in its file gets its index row back. */
  lemma BackfillHasRecord(homes: map<Key, Home>, d: Disk, c: Call, crash: Crash)
    requires Inv(homes, d) && Wellformed(c) && Admissible(homes, Once(c, crash))
    ensures Decide(d, c).Backfill? ==> Records(d, c.target, c.marker) == 1
  {
    if Decide(d, c).Backfill? {
      TailWithinFile(FileText(d, c.target), c.marker);
      ContainsIffOccurrences(FileText(d, c.target), c.marker);
      hide Contains, Occurrences, FileText;
      assert Records(d, homes[c.key].file, homes[c.key].marker) <= 1;
    }
  }

  lemma CallKeepsInv(homes: map<Key, Home>, d: Disk, c: Call, crash: Crash)
    requires Separated(homes) && Inv(homes, d) && Wellformed(c) && Admissible(homes, Once(c, crash))
    requires OrphanInTail(d, c)
    ensures Inv(homes, CallEffect(d, c, crash))
  {
    var e := CallEffect(d, c, crash);
    hide RStrip, Occurrences, Contains, Tail, Written, AppendTo, NewlineFree, FreeOfMarkers;
    FreshIff(homes, d, c, crash);
    BackfillHasRecord(homes, d, c, crash);
    assert c.key in homes && homes[c.key] == Home(c.target, c.marker);
    assert e.rows == if crash.NoCrash? && Inserts(d, c) then d.rows[c.key := Row(c.text, c.trailing)] else d.rows;
    var added := !crash.BeforeWrite? && Decide(d, c).Fresh?;
    forall k, p | k in homes
      ensures LineEnded(FileText(e, p))
      ensures Records(e, p, homes[k].marker) == Records(d, p, homes[k].marker) + if k == c.key && p == c.target && added then 1 else 0
    {
      CallCounts(homes, d, c, crash, k, p);
    }
    assert Records(e, c.target, c.marker) == Records(d, c.target, c.marker) + if added then 1 else 0;
    hide CallEffect, Records, FileText, LineEnded, Admissible, Separated, OrphanInTail, Decide, Inv;
    forall p ensures LineEnded(FileText(e, p)) {
      assert c.key in homes;
    }
    RecordsKeepInv(homes, d, e, c.key, added);
  }

  /** The invariant survives adding one record of a key that has none, and rows of keys that have one. */
  lemma RecordsKeepInv(homes: map<Key, Home>, d: Disk, e: Disk, key: Key, added: bool)
    requires Inv(homes, d) && key in homes && forall p :: LineEnded(FileText(e, p))
    requires added ==> key !in d.rows && Records(d, homes[key].file, homes[key].marker) == 0
    requires forall k, p :: k in homes ==>
      Records(e, p, homes[k].marker) == Records(d, p, homes[k].marker) + (if k == key && p == homes[key].file && added then 1 else 0)
    requires forall k :: k in e.rows ==> k in d.rows || (k == key && Records(e, homes[key].file, homes[key].marker) == 1)
    ensures Inv(homes, e)
  {
    hide Records, FileText, LineEnded;
  }

  lemma PlainKeepsInv(homes: map<Key, Home>, d: Disk, p: Path, text: string)
    requires Separated(homes) && Inv(homes, d) && Admissible(homes, Plain(p, text))
    ensures Inv(homes, Step(d, Plain(p, text)))
  {
    var e := Step(d, Plain(p, text));
    forall k, q | k in homes ensures Records(e, q, homes[k].marker) == Records(d, q, homes[k].marker)
    {
      AppendCounts(d, p, PlainText(text), d.rows, homes[k].marker, q);
    }
    forall q ensures LineEnded(FileText(e, q))
    {
      AppendCounts(d, p, PlainText(text), d.rows, "x", q);
    }
  }

  lemma StepKeepsInv(homes: map<Key, Home>, d: Disk, e: Event)
    requires Separated(homes) && Inv(homes, d) && Admissible(homes, e)
    requires e.Once? && Wellformed(e.call) ==> OrphanInTail(d, e.call)
    ensures Inv(homes, Step(d, e)) && d.rows.Keys <= Step(d, e).rows.Keys
    ensures e.Once? && Wellformed(e.call) && e.crash.NoCrash? ==> e.call.key in Step(d, e).rows
  {
    match e
    case Once(c, crash) =>
      if Wellformed(c) {
        CallKeepsInv(homes, d, c, crash);
        FreshIff(homes, d, c, crash);
      }
    case Plain(p, text) => PlainKeepsInv(homes, d, p, text);
  }

  ghost predicate Orderly(homes: map<Key, Home>, es: seq<Event>) {
    && Separated(homes)
    && (forall i :: 0 <= i < |es| ==> Admissible(homes, es[i]))
    && OrphansReachable(es)
  }

  /** The event is a call for the key that returned normally. */
  predicate ReturnedFor(e: Event, k: Key) {
    e.Once? && Wellformed(e.call) && e.call.key == k && e.crash.NoCrash?
  }

  lemma {:induction false} RunKeepsInv(homes: map<Key, Home>, es: seq<Event>, n: nat)
    requires Orderly(homes, es) && n <= |es|
    ensures Inv(homes, Run(es[..n]))
    ensures forall i, k :: 0 <= i < n && ReturnedFor(es[i], k) ==> k in Run(es[..n]).rows
  {
    if n > 0 {
      hide *;
      var d, e := Run(es[..n - 1]), es[n - 1];
      RunKeepsInv(homes, es, n - 1);
      OrderlyAt(homes, es, n - 1);
      StepKeepsInv(homes, d, e);
      forall i, k | 0 <= i < n && ReturnedFor(es[i], k) ensures k in Run(es[..n]).rows {
        if i == n - 1 {
          ReturnedIs(e, k);
        } else {
          assert k in d.rows.Keys;
        }
      }
    } else {
      assert es[..n] == [];
    }
  }

  lemma ReturnedIs(e: Event, k: Key)
    requires ReturnedFor(e, k)
    ensures e.Once? && Wellformed(e.call) && e.crash.NoCrash? && e.call.key == k
  {
  }

  lemma OrderlyAt(homes: map<Key, Home>, es: seq<Event>, i: nat)
    requires Orderly(homes, es) && i < |es|
    ensures Separated(homes) && Admissible(homes, es[i])
    ensures es[i].Once? && Wellformed(es[i].call) ==> OrphanInTail(Run(es[..i]), es[i].call)
    ensures Run(es[..i + 1]) == Step(Run(es[..i]), es[i])
  {
    assert es[..i + 1][..i] == es[..i];
    hide Step, Separated, Admissible, OrphanInTail;
  }

  /** Files only grow. */
  lemma StepGrows(d: Disk, e: Event, p: Path)
    ensures FileText(d, p) <= FileText(Step(d, e), p)
  {
  }

  lemma ContainsInLonger(s: string, t: string, m: string)
    requires s <= t && Contains(s, m)
    ensures Contains(t, m)
  {
    var i: nat :| i <= |s| && OccursAt(s, m, i);
    assert t[i..i + |m|] == s[i..i + |m|];
    assert OccursAt(t, m, i);
  }

  /** The file holds the whole record, marker and payload, of the call. */
  predicate Holds(d: Disk, h: Home, c: Call) {
    Contains(FileText(d, h.file), Record(h.marker, c.text, c.trailing))
  }

  ghost predicate Stored(homes: map<Key, Home>, es: seq<Event>, n: nat, k: Key)
    requires n <= |es| && k in homes
  {
    exists i :: 0 <= i < n && es[i].Once? && es[i].call.key == k && Holds(Run(es[..n]), homes[k], es[i].call)
  }

  /** If a step makes the first marked record of a key, it is a call for that key and writes it whole. */
  lemma FirstRecordHeld(homes: map<Key, Home>, d: Disk, e: Event, k: Key)
    requires Separated(homes) && Inv(homes, d) && Admissible(homes, e) && k in homes
    requires Records(d, homes[k].file, homes[k].marker) == 0
    requires Records(Step(d, e), homes[k].file, homes[k].marker) > 0
    ensures e.Once? && e.call.key == k && Holds(Step(d, e), homes[k], e.call)
  {
    var h := homes[k];
    match e
    case Plain(p, text) => AppendCounts(d, p, PlainText(text), d.rows, h.marker, h.file);
    case Once(c, crash) =>
      if Wellformed(c) {
        CallCounts(homes, d, c, crash, k, h.file);
        FreshHolds(d, c, crash);
        hide Records, CallEffect, Holds, Separated, Inv, Decide;
      }
  }

  lemma FreshHolds(d: Disk, c: Call, crash: Crash)
    requires Decide(d, c).Fresh? && !crash.BeforeWrite?
    ensures Holds(CallEffect(d, c, crash), Home(c.target, c.marker), c)
  {
    var before, r := FileText(d, c.target), Record(c.marker, c.text, c.trailing);
    assert FileText(CallEffect(d, c, crash), c.target) == before + r;
    hide Decide, CallEffect, FileText, Record;
    assert (before + r)[|before|..|before| + |r|] == r;
    assert OccursAt(before + r, r, |before|);
  }

  /** A counted marker always comes with the payload written beside it. */
  lemma {:induction false} MarkedMeansStored(homes: map<Key, Home>, es: seq<Event>, n: nat, k: Key)
    requires Orderly(homes, es) && n <= |es| && k in homes
    requires Records(Run(es[..n]), homes[k].file, homes[k].marker) > 0
    ensures Stored(homes, es, n, k)
  {
    var h := homes[k];
    var d, e := Run(es[..n - 1]), es[n - 1];
    assert es[..n][..n - 1] == es[..n - 1];
    RunKeepsInv(homes, es, n - 1);
    if Records(d, h.file, h.marker) > 0 {
      MarkedMeansStored(homes, es, n - 1, k);
      var i :| 0 <= i < n - 1 && es[i].Once? && es[i].call.key == k && Holds(d, h, es[i].call);
      StepGrows(d, e, h.file);
      ContainsInLonger(FileText(d, h.file), FileText(Step(d, e), h.file),
                       Record(h.marker, es[i].call.text, es[i].call.trailing));
      assert Holds(Run(es[..n]), h, es[i].call);
    } else {
      FirstRecordHeld(homes, d, e, k);
      assert Holds(Run(es[..n]), h, es[n - 1].call);
    }
  }

  /**
   Exactly once: over every run of calls, crashes and retries, a key has at most one marked
   record on the whole disk; exactly one, in its home file, as soon as any call for it has
   returned normally; an index row is never ahead of the file; and the marker stands beside the
   whole payload of one of the key's calls.
   */
  lemma ExactlyOnce(homes: map<Key, Home>, es: seq<Event>, k: Key)
    requires Orderly(homes, es) && k in homes
    ensures var d, h := Run(es), homes[k];
            && (forall p :: p != h.file ==> Records(d, p, h.marker) == 0)
            && Records(d, h.file, h.marker) <= 1
            && (k in d.rows ==> Records(d, h.file, h.marker) == 1)
            && ((exists i :: 0 <= i < |es| && ReturnedFor(es[i], k))
                ==> k in d.rows && Records(d, h.file, h.marker) == 1)
            && (Records(d, h.file, h.marker) == 1 ==> Stored(homes, es, |es|, k))
  {
    RunKeepsInv(homes, es, |es|);
    assert es[..|es|] == es;
    if Records(Run(es), homes[k].file, homes[k].marker) == 1 {
      MarkedMeansStored(homes, es, |es|, k);
    }
  }

  /**
   The tail window is what exactly-once rests on: a call leaves two records precisely when
   the index does not know the key and the file's record lies outside the scanned tail.
   */
  lemma SecondRecordIff(homes: map<Key, Home>, d: Disk, c: Call, crash: Crash)
    requires Separated(homes) && Inv(homes, d) && Wellformed(c) && Admissible(homes, Once(c, crash))
    ensures Records(CallEffect(d, c, crash), c.target, c.marker) == 2
            <==> !crash.BeforeWrite? && !OrphanInTail(d, c)
  {
    CallCounts(homes, d, c, crash, c.key, c.target);
    FreshIff(homes, d, c, crash);
  }

  /** An orphaned marker stays findable while it and all text after it fit in the tail. */
  lemma OrphanStaysInTail(text: string, marker: string, before: string, rest: string)
    requires text == before + marker + rest
    requires |marker| + |rest| <= TAIL_BYTES
    ensures Contains(Tail(text), marker)
  {
    var at := |before| - (|text| - |Tail(text)|);
    assert text[|before|..|before| + |marker|] == marker;
    assert Tail(text)[at..at + |marker|] == text[|before|..|before| + |marker|];
    assert OccursAt(Tail(text), marker, at);
  }

  /** A record just written is found by the tail scan. */
  lemma RecordInTail(before: string, marker: string, payload: string, trailing: bool)
    requires |Record(marker, payload, trailing)| <= TAIL_BYTES
    ensures Contains(Tail(before + Record(marker, payload, trailing)), marker)
  {
    var rest := "\n" + RStrip(payload) + "\n" + if trailing then "\n" else "";
    assert before + Record(marker, payload, trailing) == before + marker + rest;
    OrphanStaysInTail(before + marker + rest, marker, before, rest);
  }

  /** Retrying straight after a crash between write and COMMIT: the row appears, the file stays. */
  lemma RetryAfterCrash(d: Disk, c: Call)
    requires Wellformed(c) && Decide(d, c).Fresh?
    requires |Record(c.marker, c.text, c.trailing)| <= TAIL_BYTES
    ensures CallEffect(CallEffect(d, c, BeforeCommit), c, NoCrash) == CallEffect(d, c, NoCrash)
  {
    var e := CallEffect(d, c, BeforeCommit);
    RecordInTail(FileText(d, c.target), c.marker, c.text, c.trailing);
    assert Written(d, c) != "";
    assert Decide(e, c).Backfill?;
    assert Written(e, c) == "";
  }

  // ── where the guarantee starts and ends ────────────────────────

  /** The homes of index keys: stripped, and with the markers the code builds for them. */
  ghost predicate KeyMarkers(homes: map<Key, Home>) {
    forall k :: k in homes ==>
      && IndexKey(k.src, k.kind) == k && homes[k].marker == Marker(k.src, k.kind)
      && Without(Flat(k.src), "<>") && Without(Flat(k.kind), "<>")
  }

  ghost predicate LabelsDiffer(homes: map<Key, Home>) {
    forall j, k :: j in homes && k in homes && j != k ==> Label(j) != Label(k)
  }

  lemma SeparatedPair(j: Key, k: Key)
    requires IndexKey(j.src, j.kind) == j && IndexKey(k.src, k.kind) == k
    requires Without(Flat(j.src), "<>") && Without(Flat(j.kind), "<>")
    ensures Occurrences(Marker(j.src, j.kind) + "\n", Marker(k.src, k.kind)) == 0 <==> Label(j) != Label(k)
  {
    MarkerOfKey(j.src, j.kind);
    MarkerOfKey(k.src, k.kind);
    MarkersEqualIff(j.src, j.kind, k.src, k.kind);
    MarkerNewlineFree(k.src, k.kind);
    hide Marker, Label, Wrap, Without, Occurrences, Contains;
    WholeLineOnly(Flat(j.src), Flat(j.kind), Flat(k.src), Flat(k.kind));
    ContainsIffOccurrences(Marker(j.src, j.kind) + "\n", Marker(k.src, k.kind));
  }

  /**
   Markers tell keys without angle brackets apart if and only if the labels do: source and kind,
   joined by a colon, with newlines read as blanks.
   */
  lemma SeparatedIff(homes: map<Key, Home>)
    requires KeyMarkers(homes)
    ensures Separated(homes) <==> LabelsDiffer(homes)
  {
    hide Marker, Label, Without, Flat, Strip, Occurrences;
    forall k | k in homes ensures NewlineFree(homes[k].marker) && |homes[k].marker| > 1 {
      MarkerNewlineFree(k.src, k.kind);
    }
    forall j, k | j in homes && k in homes && j != k
      ensures Occurrences(homes[j].marker + "\n", homes[k].marker) == 0 <==> Label(j) != Label(k)
    {
      SeparatedPair(j, k);
    }
  }

  /** The kinds in use meet it, for all sources without angle brackets and newlines. */
  lemma UsedKeysSeparated(homes: map<Key, Home>)
    requires forall k :: k in homes ==>
               && IndexKey(k.src, k.kind) == k && homes[k].marker == Marker(k.src, k.kind)
               && Without(k.src, "<>\n") && UsedKind(k.kind)
    ensures Separated(homes)
  {
    hide Marker, Label, Strip, UsedKind, ColonEnds;
    forall k | k in homes
      ensures Without(Flat(k.src), "<>") && Without(Flat(k.kind), "<>") && Flat(k.src) == k.src && Flat(k.kind) == k.kind
    {
      UsedKindsTellApart(k.kind, k.kind);
      FlatAt(k.src);
      FlatAt(k.kind);
    }
    forall j, k | j in homes && k in homes && j != k ensures Label(j) != Label(k) {
      UsedKindsTellApart(j.kind, k.kind);
      UsedKindsTellApart(k.kind, j.kind);
      KindsTellApartIff(j.kind, k.kind);
      LabelIs(j);
      LabelIs(k);
    }
    SeparatedIff(homes);
  }

  lemma LabelIs(k: Key)
    requires Flat(k.src) == k.src && Flat(k.kind) == k.kind
    ensures Label(k) == Colon(k.src, k.kind)
  {
  }
}
