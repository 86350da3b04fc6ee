/** Scanning a file for a consolidation marker without holding all of it (agent/memory.py). */
module MarkerSearch {
  import opened Text

  function Concat<T>(chunks: seq<seq<T>>): seq<T> {
    if chunks == [] then [] else Concat(chunks[..|chunks| - 1]) + chunks[|chunks| - 1]
  }

  /** The last k elements, or everything when there are fewer: Python's s[-k:] for k > 0. */
  function Suffix<T>(s: seq<T>, k: nat): seq<T> {
    if |s| <= k then s else s[|s| - k..]
  }

  /** Once the bytes read so far do not hold the needle, only |needle| - 1 of them still matter. */
  lemma CarryIsEnough<T>(seen: seq<T>, chunk: seq<T>, needle: seq<T>)
    requires needle != [] && !Contains(seen, needle)
    ensures Contains(Suffix(seen, |needle| - 1) + chunk, needle) <==> Contains(seen + chunk, needle)
  {
    var carry := Suffix(seen, |needle| - 1);
    var cut := |seen| - |carry|;
    assert (seen + chunk)[cut..] == carry + chunk;
    if Contains(carry + chunk, needle) {
      var i: nat :| i <= |carry + chunk| && OccursAt(carry + chunk, needle, i);
      assert (seen + chunk)[cut + i..cut + i + |needle|] == (carry + chunk)[i..i + |needle|];
      assert OccursAt(seen + chunk, needle, cut + i);
    }
    if Contains(seen + chunk, needle) {
      var i: nat :| i <= |seen + chunk| && OccursAt(seen + chunk, needle, i);
      if i < cut {
        assert (seen + chunk)[i..i + |needle|] == seen[i..i + |needle|];
        assert OccursAt(seen, needle, i);
      } else {
        assert (carry + chunk)[i - cut..i - cut + |needle|] == (seen + chunk)[i..i + |needle|];
        assert OccursAt(carry + chunk, needle, i - cut);
      }
    }
  }

  lemma SuffixOfSuffix<T>(s: seq<T>, t: seq<T>, k: nat)
    ensures Suffix(Suffix(s, k) + t, k) == Suffix(s + t, k)
  {
    if |s| > k && |t| < k {
      assert (s[|s| - k..] + t)[|t|..] == (s + t)[|s| + |t| - k..];
    } else if |s| > k {
      assert (s[|s| - k..] + t)[|t|..] == (s + t)[|s| + |t| - k..];
    }
  }

  lemma SuffixNone<T>(s: seq<T>)
    ensures Suffix(s, 0) == []
  {
  }

  /** The chunked loop answers for the whole file, however the reads happen to cut it. */
  method FileContainsMarker<T(==)>(chunks: seq<seq<T>>, needle: seq<T>) returns (found: bool)
    ensures found <==> needle != [] && Contains(Concat(chunks), needle)
  {
    if needle == [] {
      return false;
    }
    var carry: seq<T> := [];
    var n := 0;
    NothingRead(chunks, needle);
    hide *;
    while n < |chunks|
      invariant 0 <= n <= |chunks|
      invariant !Contains(Concat(chunks[..n]), needle)
      invariant carry == Suffix(Concat(chunks[..n]), |needle| - 1)
    {
      ReadStep(chunks, n, needle);
      var data := carry + chunks[n];
      if Contains(data, needle) {
        ContainsPrefix(chunks, n + 1, needle);
        return true;
      }
      SuffixNone(data);
      carry := if |needle| > 1 then Suffix(data, |needle| - 1) else [];
      n := n + 1;
    }
    assert chunks[..n] == chunks;
    return false;
  }

  lemma NothingRead<T>(chunks: seq<seq<T>>, needle: seq<T>)
    requires needle != []
    ensures !Contains(Concat(chunks[..0]), needle) && Suffix(Concat(chunks[..0]), |needle| - 1) == []
  {
  }

  lemma ConcatStep<T>(chunks: seq<seq<T>>, n: nat)
    requires n < |chunks|
    ensures Concat(chunks[..n + 1]) == Concat(chunks[..n]) + chunks[n]
  {
    assert chunks[..n + 1][..n] == chunks[..n];
  }

  /** One more chunk: the carry and the chunk tell what everything read so far would tell. */
  lemma ReadStep<T>(chunks: seq<seq<T>>, n: nat, needle: seq<T>)
    requires n < |chunks| && needle != [] && !Contains(Concat(chunks[..n]), needle)
    ensures var data := Suffix(Concat(chunks[..n]), |needle| - 1) + chunks[n];
            && (Contains(data, needle) <==> Contains(Concat(chunks[..n + 1]), needle))
            && Suffix(data, |needle| - 1) == Suffix(Concat(chunks[..n + 1]), |needle| - 1)
  {
    ConcatStep(chunks, n);
    hide *;
    var seen := Concat(chunks[..n]);
    CarryIsEnough(seen, chunks[n], needle);
    SuffixOfSuffix(seen, chunks[n], |needle| - 1);
  }

  lemma {:induction false} ContainsPrefix<T>(chunks: seq<seq<T>>, n: nat, needle: seq<T>)
    requires n <= |chunks| && Contains(Concat(chunks[..n]), needle)
    ensures Contains(Concat(chunks), needle)
    decreases |chunks|
  {
    if n == |chunks| {
      assert chunks[..n] == chunks;
    } else {
      var front := chunks[..|chunks| - 1];
      assert front[..n] == chunks[..n];
      ContainsPrefix(front, n, needle);
      var i: nat :| i <= |Concat(front)| && OccursAt(Concat(front), needle, i);
      assert OccursAt(Concat(chunks), needle, i);
    }
  }

  lemma {:induction false} ConcatFront<T>(first: seq<T>, rest: seq<seq<T>>)
    ensures Concat([first] + rest) == first + Concat(rest)
  {
    if rest == [] {
      assert ([first] + rest)[..0] == [];
    } else {
      assert ([first] + rest)[..|rest|] == [first] + rest[..|rest| - 1];
      ConcatFront(first, rest[..|rest| - 1]);
    }
  }

  /** Reading a file in blocks of `size`, as `iter(lambda: f.read(size), b"")` does. */
  function ReadChunks<T>(content: seq<T>, size: nat): (chunks: seq<seq<T>>)
    requires size > 0
    ensures Concat(chunks) == content
    ensures forall i :: 0 <= i < |chunks| ==> 0 < |chunks[i]| <= size
  {
    if content == [] then []
    else
      var take := if |content| < size then |content| else size;
      ConcatFront(content[..take], ReadChunks(content[take..], size));
      [content[..take]] + ReadChunks(content[take..], size)
  }
}
