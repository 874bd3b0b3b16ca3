/** Searching and reading a list of segments as if it were their concatenation
    (go/shm/stripe.go Viewer, rust/src/stripe.rs Viewer). */
module Segments {
  import opened Layout

  function Concat(segs: seq<seq<Byte>>): (f: seq<Byte>)
  {
    if segs == [] then [] else Concat(segs[..|segs| - 1]) + segs[|segs| - 1]
  }

  /** What `View` builds: no segment is empty, and each offset is where its segment
      starts in the concatenation. */
  predicate Segmented(segs: seq<seq<Byte>>, offsets: seq<int>)
  {
    && |offsets| == |segs|
    && (forall i :: 0 <= i < |segs| ==> segs[i] != [] && offsets[i] == |Concat(segs[..i])|)
  }

  predicate Occurs(f: seq<Byte>, target: seq<Byte>, k: int)
  {
    0 <= k && k + |target| <= |f| && f[k..k + |target|] == target
  }

  // ---------- The concatenation ----------

  lemma {:induction false} ConcatPrefix(segs: seq<seq<Byte>>, i: nat)
    requires i <= |segs|
    ensures Concat(segs[..i]) <= Concat(segs)
    decreases |segs|
  {
    if i < |segs| {
      var front := segs[..|segs| - 1];
      ConcatPrefix(front, i);
      assert front[..i] == segs[..i];
    } else {
      assert segs[..i] == segs;
    }
  }

  /** Segment `i` occupies its place in the concatenation. */
  lemma ConcatAt(segs: seq<seq<Byte>>, i: nat)
    requires i < |segs|
    ensures var at := |Concat(segs[..i])|;
      at + |segs[i]| == |Concat(segs[..i + 1])| <= |Concat(segs)|
      && Concat(segs)[at..at + |segs[i]|] == segs[i]
  {
    var next := segs[..i + 1];
    assert next[..|next| - 1] == segs[..i] && next[|next| - 1] == segs[i];
    ConcatPrefix(segs, i + 1);
    assert Concat(segs)[..|Concat(next)|] == Concat(next);
  }

  /** Byte `x` of segment `i`, and where the next segment starts. */
  lemma ByteOfSegment(segs: seq<seq<Byte>>, offsets: seq<int>, i: nat, x: nat)
    requires Segmented(segs, offsets) && i < |segs| && x < |segs[i]|
    ensures 0 <= offsets[i] && offsets[i] + x < |Concat(segs)| && Concat(segs)[offsets[i] + x] == segs[i][x]
  {
    hide Concat;
    ConcatAt(segs, i);
    assert Concat(segs)[offsets[i]..offsets[i] + |segs[i]|][x] == Concat(segs)[offsets[i] + x];
  }

  lemma NextSegment(segs: seq<seq<Byte>>, offsets: seq<int>, i: nat)
    requires Segmented(segs, offsets) && i < |segs|
    ensures offsets[i] + |segs[i]| == if i + 1 < |segs| then offsets[i + 1] else |Concat(segs)|
  {
    ConcatAt(segs, i);
    if i + 1 == |segs| { assert segs[..i + 1] == segs; }
  }

  // ---------- The search ----------

  /** `bytes.IndexByte`: the first place of `b` in `seg` from `start` on, or -1. */
  method IndexByte(seg: seq<Byte>, start: nat, b: Byte) returns (k: int)
    requires start <= |seg|
    ensures k == -1 ==> forall x :: start <= x < |seg| ==> seg[x] != b
    ensures k != -1 ==> 0 <= k && start + k < |seg| && seg[start + k] == b
    ensures k != -1 ==> forall x :: start <= x < start + k ==> seg[x] != b
  {
    for i := start to |seg|
      invariant forall x :: start <= x < i ==> seg[x] != b
    {
      if seg[i] == b { return i - start; }
    }
    return -1;
  }

  /** Compares byte by byte across segment borders. */
  method MatchAcross(segs: seq<seq<Byte>>, offsets: seq<int>, segIdx: nat, pos: nat, target: seq<Byte>)
    returns (matches: bool)
    requires Segmented(segs, offsets) && segIdx < |segs| && pos < |segs[segIdx]|
    ensures matches <==> Occurs(Concat(segs), target, offsets[segIdx] + pos)
  {
    hide Concat, Occurs;
    ghost var f, base := Concat(segs), offsets[segIdx] + pos;
    var curr, off := segIdx, pos;
    ByteOfSegment(segs, offsets, segIdx, pos);
    for i := 0 to |target|
      invariant curr < |segs| && 0 <= off <= |segs[curr]| && offsets[curr] + off == base + i
      invariant base + i <= |f| && MatchedSoFar(f, target, base, i)
    {
      NextSegment(segs, offsets, curr);
      if off >= |segs[curr]| {
        curr, off := curr + 1, 0;
        if curr >= |segs| {
          TooShort(f, target, base);
          return false;
        }
      }
      ByteOfSegment(segs, offsets, curr, off);
      if segs[curr][off] != target[i] {
        Mismatch(f, target, base, i);
        return false;
      }
      off := off + 1;
    }
    AllMatched(f, target, base);
    return true;
  }

  predicate MatchedSoFar(f: seq<Byte>, target: seq<Byte>, k: int, n: nat)
  {
    0 <= k && n <= |target| && k + n <= |f| && forall x :: 0 <= x < n ==> f[k + x] == target[x]
  }

  lemma AllMatched(f: seq<Byte>, target: seq<Byte>, k: int)
    requires MatchedSoFar(f, target, k, |target|)
    ensures Occurs(f, target, k)
  {}

  lemma TooShort(f: seq<Byte>, target: seq<Byte>, k: int)
    requires |f| < k + |target|
    ensures !Occurs(f, target, k)
  {}

  lemma Mismatch(f: seq<Byte>, target: seq<Byte>, k: int, i: nat)
    requires 0 <= k && i < |target| && k + i < |f| && f[k + i] != target[i]
    ensures !Occurs(f, target, k)
  {
    if k + |target| <= |f| { assert f[k..k + |target|][i] == f[k + i]; }
  }

  /** An occurrence that ends inside its segment. */
  lemma OccursInside(segs: seq<seq<Byte>>, offsets: seq<int>, i: nat, x: nat, target: seq<Byte>)
    requires Segmented(segs, offsets) && i < |segs| && x + |target| <= |segs[i]|
    ensures Occurs(Concat(segs), target, offsets[i] + x) <==> segs[i][x..x + |target|] == target
  {
    hide Concat;
    ConcatAt(segs, i);
    SliceOfSlice(Concat(segs), offsets[i], |segs[i]|, x, |target|);
  }

  lemma SliceOfSlice(f: seq<Byte>, at: nat, n: nat, x: nat, m: nat)
    requires at + n <= |f| && x + m <= n
    ensures f[at..at + n][x..x + m] == f[at + x..at + x + m]
  {
    var a, b := f[at..at + n][x..x + m], f[at + x..at + x + m];
    assert forall k :: 0 <= k < m ==> a[k] == f[at..at + n][x + k] == b[k];
  }

  /** The first occurrence of `target` in the concatenation, or -1 if there is none. */
  method Index(segs: seq<seq<Byte>>, offsets: seq<int>, target: seq<Byte>) returns (r: int)
    requires Segmented(segs, offsets)
    ensures r == -1 || Occurs(Concat(segs), target, r)
    ensures forall k :: 0 <= k && (r == -1 || k < r) ==> !Occurs(Concat(segs), target, k)
  {
    if target == [] { return 0; }
    hide Concat;
    ghost var f := Concat(segs);
    for i := 0 to |segs|
      invariant forall k :: 0 <= k < (if i < |segs| then offsets[i] else |f|) ==> !Occurs(f, target, k)
    {
      var seg := segs[i];
      NextSegment(segs, offsets, i);
      var start := 0;
      while start < |seg|
        invariant 0 <= start <= |seg|
        invariant forall k :: 0 <= k < offsets[i] + start ==> !Occurs(f, target, k)
        decreases |seg| - start
      {
        var p := IndexByte(seg, start, target[0]);
        SkippedBytes(segs, offsets, i, start, if p == -1 then |seg| else start + p, target);
        if p == -1 {
          start := |seg|;
          break;
        }
        var m := start + p;
        start := m + 1;
        if m + |target| <= |seg| {
          OccursInside(segs, offsets, i, m, target);
          if seg[m..m + |target|] == target { return offsets[i] + m; }
        } else {
          var across := MatchAcross(segs, offsets, i, m, target);
          if across { return offsets[i] + m; }
        }
      }
    }
    forall k | |f| <= k ensures !Occurs(f, target, k) { TooShort(f, target, k); }
    return -1;
  }

  /** Where the first byte differs, nothing occurs. */
  lemma SkippedBytes(segs: seq<seq<Byte>>, offsets: seq<int>, i: nat, from: nat, to: nat, target: seq<Byte>)
    requires Segmented(segs, offsets) && i < |segs| && from <= to <= |segs[i]| && target != []
    requires forall x :: from <= x < to ==> segs[i][x] != target[0]
    ensures forall k :: offsets[i] + from <= k < offsets[i] + to ==> !Occurs(Concat(segs), target, k)
  {
    forall k | offsets[i] + from <= k < offsets[i] + to ensures !Occurs(Concat(segs), target, k) {
      ByteOfSegment(segs, offsets, i, k - offsets[i]);
      Mismatch(Concat(segs), target, k, 0);
    }
  }

  // ---------- Reading by offset ----------

  /** `slices.BinarySearch`: the first index whose element is not below `x`. */
  method BinarySearch(s: seq<int>, x: int) returns (idx: nat)
    requires forall i, j :: 0 <= i < j < |s| ==> s[i] < s[j]
    ensures idx <= |s|
    ensures forall i :: 0 <= i < idx ==> s[i] < x
    ensures forall i :: idx <= i < |s| ==> x <= s[i]
  {
    var low, high := 0, |s|;
    while low < high
      invariant 0 <= low <= high <= |s|
      invariant forall i :: 0 <= i < low ==> s[i] < x
      invariant forall i :: high <= i < |s| ==> x <= s[i]
    {
      var mid := (low + high) / 2;
      if s[mid] < x { low := mid + 1; } else { high := mid; }
    }
    return low;
  }

  lemma {:induction false} OffsetsGrow(segs: seq<seq<Byte>>, offsets: seq<int>, i: nat, j: nat)
    requires Segmented(segs, offsets) && i < j < |segs|
    ensures offsets[i] + |segs[i]| <= offsets[j]
    decreases j - i
  {
    hide Concat;
    NextSegment(segs, offsets, i);
    if i + 1 < j { OffsetsGrow(segs, offsets, i + 1, j); }
  }

  /** The segment that holds byte `offset` of the concatenation, and where in it. */
  method FindSegment(segs: seq<seq<Byte>>, offsets: seq<int>, offset: int) returns (idx: nat, inner: nat)
    requires Segmented(segs, offsets) && 0 <= offset < |Concat(segs)|
    ensures idx < |segs| && inner < |segs[idx]| && offsets[idx] + inner == offset
    ensures segs[idx][inner] == Concat(segs)[offset]
  {
    hide Concat;
    SomeSegment(segs);
    FirstOffset(segs, offsets);
    forall i, j | 0 <= i < j < |offsets| ensures offsets[i] < offsets[j] { OffsetsGrow(segs, offsets, i, j); }
    idx := BinarySearch(offsets, offset);
    if idx > 0 && (idx == |offsets| || offsets[idx] > offset) { idx := idx - 1; }
    NextSegment(segs, offsets, idx);
    inner := offset - offsets[idx];
    ByteOfSegment(segs, offsets, idx, inner);
  }

  lemma SomeSegment(segs: seq<seq<Byte>>)
    ensures segs == [] ==> Concat(segs) == []
  {}

  lemma FirstOffset(segs: seq<seq<Byte>>, offsets: seq<int>)
    requires Segmented(segs, offsets)
    ensures segs != [] ==> offsets[0] == 0
  {}

  method Compare(segs: seq<seq<Byte>>, offsets: seq<int>, length: nat, data: seq<Byte>) returns (same: bool)
    requires Segmented(segs, offsets) && length == |Concat(segs)|
    ensures same <==> data == Concat(segs)
  {
    hide Concat;
    ghost var f := Concat(segs);
    FirstOffset(segs, offsets);
    SomeSegment(segs);
    if |data| != length { return false; }
    for i := 0 to |segs|
      invariant var done := if i < |segs| then offsets[i] else |f|; 0 <= done <= |f| && data[..done] == f[..done]
    {
      NextSegment(segs, offsets, i);
      ConcatAt(segs, i);
      var start := offsets[i];
      if segs[i] != data[start..start + |segs[i]|] {
        assert f[start..start + |segs[i]|] != data[start..start + |segs[i]|];
        return false;
      }
    }
    return true;
  }
}
