/**
 The cron parser and the fallback search of agent/scheduler.py:111-173.  A field is a comma list of
 parts; a part is `*`, a number or a range, with an optional step.
 */
module Cron {
  import opened Clock
  import opened Text

  // ── numbers and splitting ──────────────────────────────────────

  predicate AllDigits(s: string) {
    forall i :: 0 <= i < |s| ==> IsDigit(s[i])
  }

  function DigitsValue(s: string): (n: nat)
    requires AllDigits(s)
  {
    if s == "" then 0 else 10 * DigitsValue(s[..|s| - 1]) + (s[|s| - 1] as int - '0' as int)
  }

  /** int(s): an optional sign and at least one digit, in white space. */
  function ParseInt(s: string): Option<int> {
    var t := Strip(s);
    var digits := if t != "" && (t[0] == '-' || t[0] == '+') then t[1..] else t;
    if digits == "" || !AllDigits(digits) then None
    else
      var n: int := DigitsValue(digits);
      Some(if t[0] == '-' then -n else n)
  }

  /** The position of the first c, or the length. */
  function FirstIndex(s: string, c: char): (i: nat)
    ensures i <= |s| && c !in s[..i] && (i < |s| ==> s[i] == c)
  {
    if s == "" || s[0] == c then 0
    else
      var i := 1 + FirstIndex(s[1..], c);
      assert s[..i] == [s[0]] + s[1..][..i - 1];
      i
  }

  function Split(s: string, c: char): (parts: seq<string>)
    ensures parts != []
  {
    var i := FirstIndex(s, c);
    if i == |s| then [s] else [s[..i]] + Split(s[i + 1..], c)
  }

  lemma {:induction false} FirstIndexAt(a: string, c: char, b: string)
    requires c !in a
    ensures FirstIndex(a + [c] + b, c) == |a| && FirstIndex(a, c) == |a|
  {
    if a != "" {
      FirstIndexAt(a[1..], c, b);
      assert (a + [c] + b)[1..] == a[1..] + [c] + b;
    }
  }

  lemma SplitFirst(a: string, c: char, rest: string)
    requires FirstIndex(a + [c] + rest, c) == |a|
    ensures Split(a + [c] + rest, c) == [a] + Split(rest, c)
  {
    var s := a + [c] + rest;
    hide FirstIndex;
    assert s[..|a|] == a && s[|a| + 1..] == rest;
  }

  /** split undoes join, for pieces without the separator. */
  lemma {:induction false} SplitJoined(parts: seq<string>, c: char)
    requires parts != [] && forall i :: 0 <= i < |parts| ==> c !in parts[i]
    ensures Split(Joined(parts, c), c) == parts
  {
    var s := Joined(parts, c);
    if |parts| == 1 {
      FirstIndexAt(s, c, "");
      assert Split(s, c) == [s];
    } else {
      var rest := Joined(parts[1..], c);
      SplitJoined(parts[1..], c);
      FirstIndexAt(parts[0], c, rest);
      assert s == parts[0] + [c] + rest;
      SplitFirst(parts[0], c, rest);
      hide Split, Joined, FirstIndex;
      assert parts == [parts[0]] + parts[1..];
    }
  }

  /** s.split(): the runs of characters that are not white space */
  function Words(s: string): seq<string> {
    var t := LStrip(s);
    var n := WordEnd(t);
    if t == "" then []
    else
      LStripSpec(s);
      [t[..n]] + Words(t[n..])
  }

  /** The position of the first white space, or the length. */
  function WordEnd(s: string): (n: nat)
    ensures n <= |s| && (s != "" && !IsSpace(s[0]) ==> n > 0)
  {
    if s == "" || IsSpace(s[0]) then 0 else 1 + WordEnd(s[1..])
  }

  predicate IsWord(s: string) {
    s != "" && forall i :: 0 <= i < |s| ==> !IsSpace(s[i])
  }

  lemma {:induction false} WordEndAt(w: string, rest: string)
    requires (forall i :: 0 <= i < |w| ==> !IsSpace(w[i])) && (rest != "" ==> IsSpace(rest[0]))
    ensures WordEnd(w + rest) == |w|
  {
    if w == "" {
      assert w + rest == rest;
    } else {
      WordEndAt(w[1..], rest);
      assert (w + rest)[1..] == w[1..] + rest;
    }
  }

  lemma WordsFirst(w: string, rest: string)
    requires IsWord(w) && (rest != "" ==> IsSpace(rest[0]))
    ensures Words(w + rest) == [w] + Words(rest)
  {
    var s := w + rest;
    WordEndAt(w, rest);
    assert s[0] == w[0];
    hide WordEnd;
    assert LStrip(s) == s && s[..|w|] == w && s[|w|..] == rest;
  }

  lemma WordsSkip(s: string)
    ensures Words(" " + s) == Words(s)
  {
    assert (" " + s)[1..] == s;
    assert LStrip(" " + s) == LStrip(s);
  }

  /** Splitting at white space undoes joining words with blanks. */
  lemma {:induction false} WordsJoined(words: seq<string>)
    requires forall i :: 0 <= i < |words| ==> IsWord(words[i])
    ensures Words(Joined(words, ' ')) == words
  {
    if |words| == 1 {
      WordsFirst(words[0], "");
      assert words[0] + "" == words[0];
      hide IsWord;
      assert words == [words[0]];
    } else if |words| > 1 {
      var rest := Joined(words[1..], ' ');
      WordsJoined(words[1..]);
      WordsSkip(rest);
      WordsFirst(words[0], " " + rest);
      assert Joined(words, ' ') == words[0] + (" " + rest);
      hide Words, Joined, IsWord;
      assert words == [words[0]] + words[1..];
    }
  }

  // ── one part ───────────────────────────────────────────────────

  datatype Range = Range(start: int, end: int, step: int)

  function Nth(r: Range, k: nat): int {
    r.start + k * r.step
  }

  /** The values a stepped range stands for. */
  ghost predicate InRange(v: int, r: Range) {
    v <= r.end && exists k: nat :: v == Nth(r, k)
  }

  /** Before the first '/', and the number after it, 1 if there is none. */
  function StepOf(part: string): Option<int> {
    if '/' in part then ParseInt(part[Cut(part, '/') + 1..]) else Some(1)
  }

  function BaseOf(part: string): string {
    if '/' in part then part[..Cut(part, '/')] else part
  }

  function Cut(s: string, c: char): (i: nat)
    requires c in s
    ensures i < |s| && s[i] == c && c !in s[..i]
  {
    var i := FirstIndex(s, c);
    assert s[..|s|] == s;
    i
  }

  function LowOf(base: string, minimum: int): Option<int> {
    if base == "*" then Some(minimum)
    else if '-' in base then ParseInt(base[..Cut(base, '-')])
    else ParseInt(base)
  }

  function HighOf(base: string, maximum: int): Option<int> {
    if base == "*" then Some(maximum)
    else if '-' in base then ParseInt(base[Cut(base, '-') + 1..])
    else ParseInt(base)
  }

  /** The range a part denotes; None where the code raises. */
  function RangeOf(part: string, minimum: int, maximum: int): (r: Option<Range>)
    ensures r.Some? ==> minimum <= r.value.start <= r.value.end <= maximum && r.value.step > 0
  {
    var step, low, high := StepOf(part), LowOf(BaseOf(part), minimum), HighOf(BaseOf(part), maximum);
    if step.None? || low.None? || high.None? || step.value <= 0 then None
    else if low.value < minimum || high.value > maximum || low.value > high.value then None
    else Some(Range(low.value, high.value, step.value))
  }

  // ── decimal text and the notation of a range ───────────────────

  function Decimal(n: nat): (s: string)
    ensures s != "" && AllDigits(s)
  {
    (if n < 10 then "" else Decimal(n / 10)) + [(n % 10 + '0' as int) as char]
  }

  lemma {:induction false} DecimalValue(n: nat)
    ensures DigitsValue(Decimal(n)) == n
  {
    var s := Decimal(n);
    if n >= 10 {
      DecimalValue(n / 10);
      assert s[..|s| - 1] == Decimal(n / 10);
    }
  }

  lemma StripSpaceless(s: string)
    requires forall i :: 0 <= i < |s| ==> !IsSpace(s[i])
    ensures Strip(s) == s
  {
    LStripSpec(s);
    RStripSpec(s);
  }

  lemma DecimalParses(n: nat)
    ensures ParseInt(Decimal(n)) == Some(n)
  {
    StripSpaceless(Decimal(n));
    DecimalValue(n);
  }

  lemma DigitsLack(s: string, c: char)
    requires AllDigits(s) && !IsDigit(c)
    ensures c !in s
  {
  }

  lemma CutAt(a: string, c: char, b: string)
    requires c !in a
    ensures var s := a + [c] + b; c in s && Cut(s, c) == |a| && s[..|a|] == a && s[|a| + 1..] == b
  {
    FirstIndexAt(a, c, b);
    assert (a + [c] + b)[|a|] == c;
  }

  lemma BaseNotation(low: nat, high: nat, minimum: int, maximum: int)
    ensures var base := Decimal(low) + "-" + Decimal(high);
            '/' !in base && LowOf(base, minimum) == Some(low) && HighOf(base, maximum) == Some(high)
  {
    var a, b := Decimal(low), Decimal(high);
    DecimalParses(low);
    DecimalParses(high);
    hide ParseInt, Decimal;
    DigitsLack(a, '-');
    DigitsLack(a, '/');
    DigitsLack(b, '/');
    CutAt(a, '-', b);
    assert (a + "-" + b)[|a|] == '-';
  }

  /** Writing a range in cron notation and reading it gives the range back. */
  lemma RangeNotation(low: nat, high: nat, step: nat, minimum: int, maximum: int)
    requires minimum <= low <= high <= maximum && step > 0
    ensures RangeOf(Decimal(low) + "-" + Decimal(high) + "/" + Decimal(step), minimum, maximum) == Some(Range(low, high, step))
  {
    hide LowOf, HighOf, ParseInt, Decimal;
    var base := Decimal(low) + "-" + Decimal(high);
    BaseNotation(low, high, minimum, maximum);
    DecimalParses(step);
    CutAt(base, '/', Decimal(step));
  }

  // ── one field ──────────────────────────────────────────────────

  /** The parts that are not blank. */
  function PartsOf(field: string): seq<string> {
    NonEmpty(Split(field, ','))
  }

  function NonEmpty(raw: seq<string>): seq<string> {
    if raw == [] then []
    else
      var part := Strip(raw[|raw| - 1]);
      NonEmpty(raw[..|raw| - 1]) + if part == "" then [] else [part]
  }

  lemma {:induction false} NthIncreases(r: Range, k: nat, m: nat)
    requires r.step > 0
    ensures Nth(r, k + 1) == Nth(r, k) + r.step
    ensures k < m ==> Nth(r, k) < Nth(r, m)
    ensures Nth(r, k) >= r.start
    decreases k + m
  {
    assert Nth(r, k + 1) == Nth(r, k) + r.step;
    hide Nth;
    if k < m {
      NthIncreases(r, k, m - 1);
      NthIncreases(r, m - 1, 0);
    }
    if k == 0 {
      NthZero(r);
    } else {
      NthIncreases(r, k - 1, 0);
    }
  }

  /** set(range(start, end + 1, step)) */
  method RangeSet(r: Range) returns (values: set<int>)
    requires r.step > 0
    ensures forall v :: v in values <==> InRange(v, r)
  {
    values := {};
    var v := r.start;
    ghost var n: nat := 0;
    hide Nth;
    NthZero(r);
    while v <= r.end
      invariant v == Nth(r, n)
      invariant forall u :: u in values <==> u <= r.end && exists k: nat :: k < n && u == Nth(r, k)
      decreases r.end - v
    {
      NthIncreases(r, n, n);
      values := values + {v};
      v := v + r.step;
      n := n + 1;
    }
    forall k: nat | Nth(r, k) <= r.end ensures k < n {
      if k >= n {
        NthIncreases(r, n, k);
      }
    }
  }

  lemma NthZero(r: Range)
    ensures Nth(r, 0) == r.start
  {
  }

  ghost predicate PartOk(part: string, minimum: int, maximum: int) {
    RangeOf(part, minimum, maximum).Some?
  }

  /** v belongs to one of the parts. */
  ghost predicate InParts(v: int, parts: seq<string>, minimum: int, maximum: int) {
    exists i :: 0 <= i < |parts| && InPart(v, parts[i], minimum, maximum)
  }

  ghost predicate InPart(v: int, part: string, minimum: int, maximum: int) {
    var r := RangeOf(part, minimum, maximum);
    r.Some? && InRange(v, r.value)
  }

  /** What the code accepts: at least one part, and every part a range within bounds. */
  ghost predicate FieldOk(field: string, minimum: int, maximum: int) {
    && PartsOf(field) != []
    && forall i :: 0 <= i < |PartsOf(field)| ==> PartOk(PartsOf(field)[i], minimum, maximum)
  }

  /** The union of the stepped ranges of a field's parts. */
  ghost function FieldSet(field: string, minimum: int, maximum: int): set<int> {
    set v | minimum <= v <= maximum && InParts(v, PartsOf(field), minimum, maximum)
  }

  lemma InPartsSnoc(v: int, parts: seq<string>, part: string, minimum: int, maximum: int)
    ensures InParts(v, parts + [part], minimum, maximum)
       <==> InParts(v, parts, minimum, maximum) || InPart(v, part, minimum, maximum)
  {
    hide InPart;
    var all := parts + [part];
    assert all[|parts|] == part;
    assert forall i :: 0 <= i < |parts| ==> all[i] == parts[i];
  }

  lemma {:induction false} PartsGrow(raw: seq<string>, n: nat)
    requires n <= |raw|
    ensures NonEmpty(raw[..n]) <= NonEmpty(raw)
    ensures n < |raw| ==> NonEmpty(raw[..n + 1]) == NonEmpty(raw[..n]) + if Strip(raw[n]) == "" then [] else [Strip(raw[n])]
    decreases |raw| - n
  {
    if n < |raw| {
      assert raw[..n + 1][..n] == raw[..n];
      assert NonEmpty(raw[..n + 1]) == NonEmpty(raw[..n]) + if Strip(raw[n]) == "" then [] else [Strip(raw[n])];
      hide Strip, NonEmpty;
      PartsGrow(raw, n + 1);
    } else {
      assert raw[..n] == raw;
    }
  }

  /** A part lies within bounds and is not empty. */
  lemma PartBounds(part: string, minimum: int, maximum: int)
    requires PartOk(part, minimum, maximum)
    ensures forall v :: InPart(v, part, minimum, maximum) ==> minimum <= v <= maximum
    ensures exists v :: InPart(v, part, minimum, maximum)
    ensures forall v :: InPart(v, part, minimum, maximum) <==> InRange(v, RangeOf(part, minimum, maximum).value)
  {
    var r := RangeOf(part, minimum, maximum).value;
    NthZero(r);
    hide RangeOf, Nth;
    assert InRange(r.start, r);
    assert InPart(r.start, part, minimum, maximum);
    forall k: nat ensures Nth(r, k) >= r.start {
      NthIncreases(r, k, k);
    }
  }

  /** The body of the loop over the parts, up to the update of the set. */
  method ParsePart(text: string, minimum: int, maximum: int) returns (r: Option<Range>)
    ensures r == RangeOf(text, minimum, maximum)
  {
    hide ParseInt;
    var part, step := text, 1;
    if '/' in part {
      var cut := Cut(part, '/');
      var stepNumber := ParseInt(part[cut + 1..]);
      part := part[..cut];
      if stepNumber.None? || stepNumber.value <= 0 {
        return None;
      }
      step := stepNumber.value;
    }
    var low, high: Option<int>;
    if part == "*" {
      low, high := Some(minimum), Some(maximum);
    } else if '-' in part {
      var cut := Cut(part, '-');
      low, high := ParseInt(part[..cut]), ParseInt(part[cut + 1..]);
    } else {
      low := ParseInt(part);
      high := low;
    }
    if low.None? || high.None? || low.value < minimum || high.value > maximum || low.value > high.value {
      return None;
    }
    return Some(Range(low.value, high.value, step));
  }

  /** The set of a field; None where the code raises ValueError. */
  method ParseCronField(field: string, minimum: int, maximum: int) returns (r: Option<set<int>>)
    ensures r.Some? <==> FieldOk(field, minimum, maximum)
    ensures r.Some? ==> r.value == FieldSet(field, minimum, maximum) && r.value != {}
    ensures r.Some? ==> forall v :: v in r.value ==> minimum <= v <= maximum
  {
    var values: set<int> := {};
    var raw := Split(field, ',');
    ghost var parts: seq<string> := [];
    hide InRange, Strip, InParts, InPart, ParseInt, Split, NonEmpty, Cut;
    NoParts(minimum, maximum);
    for i := 0 to |raw|
      invariant parts == NonEmpty(raw[..i])
      invariant forall k :: 0 <= k < |parts| ==> PartOk(parts[k], minimum, maximum)
      invariant forall v :: v in values <==> InParts(v, parts, minimum, maximum)
      invariant forall v :: v in values ==> minimum <= v <= maximum
      invariant parts == [] <==> values == {}
    {
      var part := Strip(raw[i]);
      PartsGrow(raw, i);
      PartsGrow(raw, i + 1);
      if part == "" {
        continue;
      }
      var range := ParsePart(part, minimum, maximum);
      if range.None? {
        assert PartsOf(field)[|parts|] == part;
        return None;
      }
      var more := RangeSet(range.value);
      PartBounds(part, minimum, maximum);
      forall v ensures InParts(v, parts + [part], minimum, maximum) <==> v in values + more {
        InPartsSnoc(v, parts, part, minimum, maximum);
      }
      values := values + more;
      parts := parts + [part];
    }
    assert raw[..|raw|] == raw;
    r := if values == {} then None else Some(values);
  }

  lemma NoParts(minimum: int, maximum: int)
    ensures NonEmpty([]) == [] && forall v :: !InParts(v, [], minimum, maximum)
  {
  }

  // ── day of week ────────────────────────────────────────────────

  /** s.replace(a, b) for single characters */
  function Replace(s: string, a: char, b: char): (t: string)
    ensures |t| == |s| && forall i :: 0 <= i < |s| ==> t[i] == if s[i] == a then b else s[i]
  {
    seq(|s|, i requires 0 <= i < |s| => if s[i] == a then b else s[i])
  }

  function DayOfWeek(field: string): string {
    Replace(field, '7', '0')
  }

  lemma OnePart(field: string, minimum: int, maximum: int)
    requires field != "" && ',' !in field && forall i :: 0 <= i < |field| ==> !IsSpace(field[i])
    ensures FieldOk(field, minimum, maximum) <==> PartOk(field, minimum, maximum)
    ensures FieldSet(field, minimum, maximum) == set v | minimum <= v <= maximum && InPart(v, field, minimum, maximum)
  {
    StripSpaceless(field);
    assert Split(field, ',') == [field];
    assert NonEmpty([field]) == [field] by {
      assert [field][..0] == [];
    }
    hide PartOk, InPart, Strip;
    assert PartsOf(field) == [field];
  }

  lemma SevenIsZero(first: nat)
    requires first <= 7
    ensures DayOfWeek(Decimal(first) + "-7") == Decimal(if first == 7 then 0 else first) + "-" + Decimal(0)
  {
    assert |Decimal(first)| == 1;
  }

  lemma BaseIsPart(low: nat, high: nat, minimum: int, maximum: int)
    ensures RangeOf(Decimal(low) + "-" + Decimal(high), minimum, maximum)
         == if minimum <= low <= high <= maximum then Some(Range(low, high, 1)) else None
  {
    BaseNotation(low, high, minimum, maximum);
    hide LowOf, HighOf, Decimal;
  }

  lemma SpacelessBase(low: nat, high: nat)
    ensures var s := Decimal(low) + "-" + Decimal(high);
            s != "" && ',' !in s && forall i :: 0 <= i < |s| ==> !IsSpace(s[i])
  {
    hide Decimal;
  }

  lemma UnitRange(v: int, low: nat, high: nat)
    ensures InRange(v, Range(low, high, 1)) <==> low <= v <= high
  {
    if low <= v {
      assert v == Nth(Range(low, high, 1), v - low);
    }
  }

  lemma SpacelessNumber(n: nat)
    ensures var s := Decimal(n);
            s != "" && '/' !in s && '-' !in s && ',' !in s && s != "*" && forall i :: 0 <= i < |s| ==> !IsSpace(s[i])
  {
    hide Decimal;
    assert IsDigit(Decimal(n)[0]);
  }

  lemma NumberIsPart(n: nat, minimum: int, maximum: int)
    ensures RangeOf(Decimal(n), minimum, maximum) == if minimum <= n <= maximum then Some(Range(n, n, 1)) else None
  {
    SpacelessNumber(n);
    DecimalParses(n);
    hide Decimal, ParseInt;
  }

  predicate Between(v: int, low: int, high: int) {
    low <= v <= high
  }

  function Interval(low: int, high: int): (s: set<int>)
    ensures forall v :: v in s <==> low <= v <= high
  {
    set v | low <= v <= high && Between(v, low, high)
  }

  /** A spaceless field that denotes a range of step one: every value in it. */
  lemma UnitField(field: string, low: nat, high: nat, minimum: int, maximum: int)
    requires field != "" && ',' !in field && forall i :: 0 <= i < |field| ==> !IsSpace(field[i])
    requires RangeOf(field, minimum, maximum) == Some(Range(low, high, 1)) && minimum <= low && high <= maximum
    ensures FieldOk(field, minimum, maximum)
    ensures FieldSet(field, minimum, maximum) == Interval(low, high)
  {
    OnePart(field, minimum, maximum);
    hide FieldOk, FieldSet, RangeOf, InRange;
    forall v ensures InRange(v, Range(low, high, 1)) <==> low <= v <= high {
      UnitRange(v, low, high);
    }
    assert FieldSet(field, minimum, maximum) == Interval(low, high);
  }

  lemma BadField(field: string, minimum: int, maximum: int)
    requires field != "" && ',' !in field && forall i :: 0 <= i < |field| ==> !IsSpace(field[i])
    requires RangeOf(field, minimum, maximum) == None
    ensures !FieldOk(field, minimum, maximum)
  {
    OnePart(field, minimum, maximum);
    hide FieldOk, FieldSet, RangeOf, InRange;
  }

  /** A field that is one number: accepted iff within bounds, and then that value alone. */
  lemma PlainNumber(n: nat, minimum: int, maximum: int)
    ensures FieldOk(Decimal(n), minimum, maximum) <==> minimum <= n <= maximum
    ensures minimum <= n <= maximum ==> FieldSet(Decimal(n), minimum, maximum) == {n}
  {
    SpacelessNumber(n);
    hide *;
    NumberIsPart(n, minimum, maximum);
    if minimum <= n <= maximum {
      UnitField(Decimal(n), n, n, minimum, maximum);
      assert FieldSet(Decimal(n), minimum, maximum) == {n};
    } else {
      BadField(Decimal(n), minimum, maximum);
    }
  }

  /** A field that is one plain range: accepted iff within bounds, and then every value in it. */
  lemma PlainRange(low: nat, high: nat, minimum: int, maximum: int)
    ensures var field := Decimal(low) + "-" + Decimal(high);
            && (FieldOk(field, minimum, maximum) <==> minimum <= low <= high <= maximum)
            && (minimum <= low <= high <= maximum ==>
              forall v :: v in FieldSet(field, minimum, maximum) <==> low <= v <= high)
  {
    hide *;
    var field := Decimal(low) + "-" + Decimal(high);
    BaseIsPart(low, high, minimum, maximum);
    SpacelessBase(low, high);
    if minimum <= low <= high <= maximum {
      UnitField(field, low, high, minimum, maximum);
    } else {
      BadField(field, minimum, maximum);
    }
  }

  /** A star: every value within bounds. */
  lemma Star(minimum: nat, maximum: nat)
    requires minimum <= maximum
    ensures FieldOk("*", minimum, maximum)
    ensures forall v :: v in FieldSet("*", minimum, maximum) <==> minimum <= v <= maximum
  {
    assert RangeOf("*", minimum, maximum) == Some(Range(minimum, maximum, 1));
    assert !IsSpace('*');
    hide *;
    UnitField("*", minimum, maximum, minimum, maximum);
  }

  /**
   Sunday may be written 7, but only as text: a range may end in 7 only if it starts with 0 or 7,
   and is then Sunday alone.  So `5-7` (Friday to Sunday) is refused.
   */
  lemma SevenEndsRangeIff(first: nat)
    requires first <= 7
    ensures var field := DayOfWeek(Decimal(first) + "-7");
            && (FieldOk(field, 0, 6) <==> first == 0 || first == 7)
            && (FieldOk(field, 0, 6) ==> forall v :: v in FieldSet(field, 0, 6) <==> v == 0)
  {
    hide *;
    var low := if first == 7 then 0 else first;
    SevenIsZero(first);
    PlainRange(low, 0, 0, 6);
  }

  lemma DayOfWeekStep(text: string)
    ensures DayOfWeek("*/" + text) == "*/" + Replace(text, '7', '0')
  {
  }

  /** Some digit is none of the two. */
  predicate HasOther(s: string, c: char, d: char) {
    exists i :: 0 <= i < |s| && s[i] != c && s[i] != d
  }

  lemma {:induction false} DigitsPositive(s: string)
    requires AllDigits(s)
    ensures DigitsValue(s) > 0 <==> HasOther(s, '0', '0')
  {
    if s != "" {
      var front := s[..|s| - 1];
      DigitsPositive(front);
      assert HasOther(s, '0', '0') <==> HasOther(front, '0', '0') || s[|s| - 1] != '0' by {
        assert forall i :: 0 <= i < |front| ==> front[i] == s[i];
      }
    }
  }

  lemma ReplacedDigits(s: string)
    requires AllDigits(s)
    ensures var t := Replace(s, '7', '0'); AllDigits(t) && (HasOther(t, '0', '0') <==> HasOther(s, '0', '7'))
  {
    var t := Replace(s, '7', '0');
    assert forall i :: 0 <= i < |s| ==> (t[i] != '0' <==> s[i] != '0' && s[i] != '7');
  }

  lemma DigitsParse(s: string)
    requires s != "" && AllDigits(s)
    ensures ParseInt(s) == Some(DigitsValue(s))
  {
    StripSpaceless(s);
    hide DigitsValue;
  }

  lemma SpacelessStep(digits: string)
    requires AllDigits(digits)
    ensures var s := "*/" + digits; s != "" && ',' !in s && forall i :: 0 <= i < |s| ==> !IsSpace(s[i])
  {
    var s := "*/" + digits;
    forall i | 0 <= i < |s| ensures !IsSpace(s[i]) && s[i] != ',' {
      if i >= 2 {
        assert s[i] == digits[i - 2];
      }
    }
  }

  lemma StepParts(digits: string)
    requires digits != "" && AllDigits(digits)
    ensures StepOf("*/" + digits) == Some(DigitsValue(digits)) && BaseOf("*/" + digits) == "*"
  {
    var star, field := "*", "*/" + digits;
    assert field == star + ['/'] + digits && '/' !in star;
    DigitsParse(digits);
    hide ParseInt, DigitsValue, Cut, AllDigits;
    CutAt(star, '/', digits);
  }

  /** A stepped star is a field as soon as its step is positive. */
  lemma SteppedStar(digits: string, minimum: int, maximum: int)
    requires digits != "" && AllDigits(digits) && minimum <= maximum
    ensures FieldOk("*/" + digits, minimum, maximum) <==> DigitsValue(digits) > 0
  {
    var field := "*/" + digits;
    hide StepOf, BaseOf, FieldOk, FieldSet, DigitsValue, ParseInt, AllDigits;
    SpacelessStep(digits);
    StepParts(digits);
    OnePart(field, minimum, maximum);
  }

  /**
   The replacement reaches steps too: every positive step is a valid one, but as a day-of-week field
   it is refused when its digits are all 0 and 7, as in the step 7 of every seventh day.
   */
  lemma SevenAsStepIff(step: nat)
    requires step > 0
    ensures FieldOk("*/" + Decimal(step), 0, 6)
    ensures FieldOk(DayOfWeek("*/" + Decimal(step)), 0, 6) <==> HasOther(Decimal(step), '0', '7')
  {
    var s := Decimal(step);
    hide *;
    DecimalValue(step);
    DayOfWeekStep(s);
    ReplacedDigits(s);
    SteppedStar(s, 0, 6);
    SteppedStar(Replace(s, '7', '0'), 0, 6);
    DigitsPositive(Replace(s, '7', '0'));
  }

  // ── the search ─────────────────────────────────────────────────

  /** The local calendar: the day of the month and the month of a day counted from 1970-01-01. */
  datatype Calendar = Calendar(dayOf: int -> int, monthOf: int -> int)

  datatype Fields = Fields(second: set<int>, minute: set<int>, hour: set<int>, dom: set<int>, month: set<int>, dow: set<int>)

  /** cron day of week of a day number, Sunday being 0 */
  function CronDow(day: int): int {
    (day + 4) % 7
  }

  /** 1970-01-01 was a Thursday, and every day is followed by the next day of the week. */
  lemma WeekDays(day: int)
    ensures CronDow(0) == 4 && 0 <= CronDow(day) <= 6 && CronDow(day + 1) == (CronDow(day) + 1) % 7
  {
  }

  /** A local second matches when all six of its fields do: day of month AND day of week. */
  predicate Matches(f: Fields, cal: Calendar, t: int) {
    && t % 60 in f.second
    && t / 60 % 60 in f.minute
    && t / 3600 % 24 in f.hour
    && cal.dayOf(t / DAY) in f.dom
    && cal.monthOf(t / DAY) in f.month
    && CronDow(t / DAY) in f.dow
  }

  /** Where the fields of an expression start: five fields have no seconds. */
  function From(parts: seq<string>): nat {
    if |parts| == 6 then 1 else 0
  }

  /** What the code accepts as an expression. */
  ghost predicate CronOk(parts: seq<string>) {
    && (|parts| == 5 || |parts| == 6)
    && var i := From(parts);
    && (|parts| == 6 ==> FieldOk(parts[0], 0, 59))
    && FieldOk(parts[i], 0, 59) && FieldOk(parts[i + 1], 0, 23) && FieldOk(parts[i + 2], 1, 31)
    && FieldOk(parts[i + 3], 1, 12) && FieldOk(DayOfWeek(parts[i + 4]), 0, 6)
  }

  ghost function FieldsOf(parts: seq<string>): Fields
    requires CronOk(parts)
  {
    var i := From(parts);
    Fields(if |parts| == 6 then FieldSet(parts[0], 0, 59) else {0},
           FieldSet(parts[i], 0, 59), FieldSet(parts[i + 1], 0, 23), FieldSet(parts[i + 2], 1, 31),
           FieldSet(parts[i + 3], 1, 12), FieldSet(DayOfWeek(parts[i + 4]), 0, 6))
  }

  method ParseFields(parts: seq<string>) returns (r: Option<Fields>)
    ensures r.Some? <==> CronOk(parts)
    ensures r.Some? ==> r.value == FieldsOf(parts)
  {
    hide FieldOk, FieldSet, Replace;
    var second := Some({0});
    if |parts| == 6 {
      second := ParseCronField(parts[0], 0, 59);
    } else if |parts| != 5 {
      return None;
    }
    var i := From(parts);
    var minute := ParseCronField(parts[i], 0, 59);
    var hour := ParseCronField(parts[i + 1], 0, 23);
    var dom := ParseCronField(parts[i + 2], 1, 31);
    var month := ParseCronField(parts[i + 3], 1, 12);
    var dow := ParseCronField(DayOfWeek(parts[i + 4]), 0, 6);
    if second.None? || minute.None? || hour.None? || dom.None? || month.None? || dow.None? {
      return None;
    }
    return Some(Fields(second.value, minute.value, hour.value, dom.value, month.value, dow.value));
  }

  lemma SixFields(parts: seq<string>)
    requires |parts| == 6
    ensures CronOk(parts) <==>
      FieldOk(parts[0], 0, 59) && FieldOk(parts[1], 0, 59) && FieldOk(parts[2], 0, 23) && FieldOk(parts[3], 1, 31)
      && FieldOk(parts[4], 1, 12) && FieldOk(DayOfWeek(parts[5]), 0, 6)
    ensures var fields := Fields(FieldSet(parts[0], 0, 59), FieldSet(parts[1], 0, 59), FieldSet(parts[2], 0, 23),
                                 FieldSet(parts[3], 1, 31), FieldSet(parts[4], 1, 12), FieldSet(DayOfWeek(parts[5]), 0, 6));
            CronOk(parts) ==> FieldsOf(parts) == fields
  {
    hide FieldOk, FieldSet, Replace;
  }

  /** A day of the week is read as itself, and 7 as Sunday. */
  lemma WeekDayDigit(w: nat)
    requires w <= 7
    ensures DayOfWeek(Decimal(w)) == Decimal(if w == 7 then 0 else w)
  {
    SevenIsZero(w);
    assert Decimal(w) == [(w + '0' as int) as char];
    assert |Replace(Decimal(w), '7', '0')| == 1;
  }

  /** Clock and calendar show these numbers; day 0 being a Thursday, four days after a Sunday. */
  predicate ReadsAs(cal: Calendar, t: int, second: nat, minute: nat, hour: nat, day: nat, month: nat, week: nat) {
    && t % DAY == 3600 * hour + 60 * minute + second
    && cal.dayOf(t / DAY) == day && cal.monthOf(t / DAY) == month && (t / DAY + 4 - week) % 7 == 0
  }

  /** Six numbers, second first: the moments that read so, by day of month and of week alike. */
  lemma SixNumbers(parts: seq<string>, second: nat, minute: nat, hour: nat, day: nat, month: nat, week: nat, cal: Calendar, t: int)
    requires second <= 59 && minute <= 59 && hour <= 23 && 1 <= day <= 31 && 1 <= month <= 12 && week <= 7
    requires |parts| == 6 && parts[0] == Decimal(second) && parts[1] == Decimal(minute) && parts[2] == Decimal(hour)
    requires parts[3] == Decimal(day) && parts[4] == Decimal(month) && parts[5] == Decimal(week)
    ensures CronOk(parts)
    ensures Matches(FieldsOf(parts), cal, t) <==> ReadsAs(cal, t, second, minute, hour, day, month, week)
  {
    hide ReadsAs, FieldOk, FieldSet, Decimal, Replace, DayOfWeek, CronOk, FieldsOf, Matches;
    SixFieldSets(parts, second, minute, hour, day, month, week);
    MatchesExactly(FieldsOf(parts), second, minute, hour, day, month, week, cal, t);
  }

  lemma SixFieldSets(parts: seq<string>, second: nat, minute: nat, hour: nat, day: nat, month: nat, week: nat)
    requires second <= 59 && minute <= 59 && hour <= 23 && 1 <= day <= 31 && 1 <= month <= 12 && week <= 7
    requires |parts| == 6 && parts[0] == Decimal(second) && parts[1] == Decimal(minute) && parts[2] == Decimal(hour)
    requires parts[3] == Decimal(day) && parts[4] == Decimal(month) && parts[5] == Decimal(week)
    ensures CronOk(parts)
    ensures FieldsOf(parts) == Fields({second}, {minute}, {hour}, {day}, {month}, {if week == 7 then 0 else week})
  {
    hide *;
    PlainNumber(second, 0, 59);
    PlainNumber(minute, 0, 59);
    PlainNumber(hour, 0, 23);
    PlainNumber(day, 1, 31);
    PlainNumber(month, 1, 12);
    WeekDayDigit(week);
    PlainNumber(if week == 7 then 0 else week, 0, 6);
    SixFields(parts);
  }

  lemma MatchesExactly(f: Fields, second: nat, minute: nat, hour: nat, day: nat, month: nat, week: nat, cal: Calendar, t: int)
    requires second <= 59 && minute <= 59 && hour <= 23 && week <= 7
    requires f == Fields({second}, {minute}, {hour}, {day}, {month}, {if week == 7 then 0 else week})
    ensures Matches(f, cal, t) <==> ReadsAs(cal, t, second, minute, hour, day, month, week)
  {
    ClockReads(t, second, minute, hour);
    var d := t / DAY;
    assert (d + 4) % 7 == (if week == 7 then 0 else week) <==> (d + 4 - week) % 7 == 0;
  }

  lemma ClockReads(t: int, second: nat, minute: nat, hour: nat)
    requires second <= 59 && minute <= 59 && hour <= 23
    ensures t % DAY == 3600 * hour + 60 * minute + second <==> t % 60 == second && t / 60 % 60 == minute && t / 3600 % 24 == hour
  {
    var m, h := t / 60, t / 3600;
    assert h == m / 60 && t / DAY == h / 24;
    assert t % DAY == 3600 * (h % 24) + 60 * (m % 60) + t % 60;
  }

  /** The grid the search walks: minutes for five fields, seconds for six. */
  function StepSeconds(parts: seq<string>): (n: nat)
    ensures n > 0
  {
    if |parts| == 6 then 1 else MINUTE
  }

  /** The k-th grid point after a time; local, in seconds. */
  function Point(parts: seq<string>, after: int, k: nat): int {
    var now := after / SECOND;
    if |parts| == 6 then now + 1 + k else now - now % MINUTE + MINUTE + k * MINUTE
  }

  /** Every matching whole second after the time is a grid point. */
  lemma MatchIsPoint(parts: seq<string>, cal: Calendar, after: int, t: int) returns (k: nat)
    requires CronOk(parts) && Matches(FieldsOf(parts), cal, t) && t * SECOND > after
    ensures t == Point(parts, after, k)
  {
    hide FieldSet, FieldOk;
    var now := after / SECOND;
    assert t > now;
    if |parts| == 6 {
      k := t - now - 1;
    } else {
      assert t % 60 == 0;
      k := t / MINUTE - now / MINUTE - 1;
    }
  }

  lemma PointsIncrease(parts: seq<string>, after: int, k: nat)
    ensures Point(parts, after, k + 1) == Point(parts, after, k) + StepSeconds(parts)
    ensures Point(parts, after, k) * SECOND > after
  {
  }

  lemma PointsOrdered(parts: seq<string>, after: int, k: nat, m: nat)
    ensures k <= m <==> Point(parts, after, k) <= Point(parts, after, m)
  {
  }

  /** 366 days of grid points */
  function Points(parts: seq<string>): nat {
    366 * 24 * 60 * if |parts| == 6 then 60 else 1
  }

  /** They reach 366 days ahead of the first. */
  lemma PointsSpan(parts: seq<string>, after: int)
    ensures Point(parts, after, Points(parts)) == Point(parts, after, 0) + 366 * DAY
  {
  }

  /**
   What the search promises: the least whole second strictly after the given local time (in
   microseconds) whose every field is in its set; none, for valid fields, exactly when none of the
   first 366 days' grid points matches.
   */
  ghost predicate IsNextFire(parts: seq<string>, cal: Calendar, after: int, r: Option<int>) {
    && (r.Some? ==>
      && CronOk(parts) && r.value * SECOND > after && Matches(FieldsOf(parts), cal, r.value)
      && forall t :: Matches(FieldsOf(parts), cal, t) && t * SECOND > after ==> r.value <= t)
    && (r.None? <==> CronOk(parts) ==> NoneMatches(parts, cal, after, Points(parts)))
  }

  /** None of the first n grid points matches. */
  ghost predicate NoneMatches(parts: seq<string>, cal: Calendar, after: int, n: nat)
    requires CronOk(parts)
  {
    forall k :: 0 <= k < n ==> !Matches(FieldsOf(parts), cal, Point(parts, after, k))
  }

  /** The first matching grid point is the least match of all. */
  lemma FirstPointIsNext(parts: seq<string>, cal: Calendar, after: int, n: nat)
    requires CronOk(parts) && n < Points(parts) && NoneMatches(parts, cal, after, n)
    requires Matches(FieldsOf(parts), cal, Point(parts, after, n))
    ensures IsNextFire(parts, cal, after, Some(Point(parts, after, n)))
  {
    hide CronOk, FieldsOf, Matches, Point, Points;
    var r := Point(parts, after, n);
    PointsIncrease(parts, after, n);
    forall t | Matches(FieldsOf(parts), cal, t) && t * SECOND > after ensures r <= t {
      var k := MatchIsPoint(parts, cal, after, t);
      PointsOrdered(parts, after, n, k);
    }
  }

  method NextCronFireFallback(expr: string, cal: Calendar, after: int) returns (r: Option<int>)
    ensures IsNextFire(Words(expr), cal, after, r)
  {
    hide CronOk, FieldsOf, Matches, Point, Points, Words;
    var parts := Words(expr);
    var f := ParseFields(parts);
    if f.None? {
      return None;
    }
    var step := StepSeconds(parts);
    var now := after / SECOND;
    var current := now - now % step;
    if current * SECOND <= after {
      current := current + step;
    }
    PointZero(parts, after);
    var i := 0;
    while i < Points(parts)
      invariant 0 <= i <= Points(parts) && current == Point(parts, after, i)
      invariant NoneMatches(parts, cal, after, i)
    {
      PointsIncrease(parts, after, i);
      if Matches(f.value, cal, current) {
        FirstPointIsNext(parts, cal, after, i);
        return Some(current);
      }
      current := current + step;
      i := i + 1;
    }
    return None;
  }

  /** The search as a function, from the k-th grid point on. */
  ghost function Search(f: Fields, cal: Calendar, parts: seq<string>, after: int, k: nat): Option<int>
    decreases Points(parts) - k
  {
    if k >= Points(parts) then None
    else if Matches(f, cal, Point(parts, after, k)) then Some(Point(parts, after, k))
    else Search(f, cal, parts, after, k + 1)
  }

  lemma {:induction false} SearchIsNext(parts: seq<string>, cal: Calendar, after: int, k: nat)
    requires CronOk(parts) && k <= Points(parts) && NoneMatches(parts, cal, after, k)
    ensures IsNextFire(parts, cal, after, Search(FieldsOf(parts), cal, parts, after, k))
    decreases Points(parts) - k
  {
    hide CronOk, FieldsOf, Matches, Point, Points;
    if k < Points(parts) {
      if Matches(FieldsOf(parts), cal, Point(parts, after, k)) {
        FirstPointIsNext(parts, cal, after, k);
      } else {
        SearchIsNext(parts, cal, after, k + 1);
      }
    }
  }

  /** What the fallback answers; None where it raises. */
  ghost function Fallback(expr: string, cal: Calendar, after: int): Option<int> {
    var parts := Words(expr);
    if CronOk(parts) then Search(FieldsOf(parts), cal, parts, after, 0) else None
  }

  lemma FallbackIsNext(expr: string, cal: Calendar, after: int)
    ensures IsNextFire(Words(expr), cal, after, Fallback(expr, cal, after))
  {
    hide CronOk, FieldsOf, Matches, Point, Points, Words, Search;
    var parts := Words(expr);
    if CronOk(parts) {
      SearchIsNext(parts, cal, after, 0);
    }
  }

  /** The promise leaves one answer, so the loop answers what the function says. */
  lemma NextFireUnique(parts: seq<string>, cal: Calendar, after: int, r: Option<int>, q: Option<int>)
    requires IsNextFire(parts, cal, after, r) && IsNextFire(parts, cal, after, q)
    ensures r == q
  {
    hide CronOk, FieldsOf, Matches, NoneMatches, Points;
  }

  lemma PointZero(parts: seq<string>, after: int)
    ensures var now := after / SECOND;
            Point(parts, after, 0) == now - now % StepSeconds(parts) + StepSeconds(parts)
  {
  }
}
