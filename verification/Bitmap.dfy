/** The allocator's bitmap as a value: 32-bit words, and the order in which a
    circular scan over them offers the free blocks (go/shm/bus.go). */
module Bitmap {
  import opened Layout

  /** A 32-bit word, lowest bit first; a set bit is a used block. */
  type Word = w: seq<bool> | |w| == 32 witness seq(32, i => false)

  const ZERO: Word := seq(32, i => false)

  function Not(w: Word): (r: Word) { seq(32, i requires 0 <= i < 32 => !w[i]) }

  predicate NonZero(w: Word) { exists b :: 0 <= b < 32 && w[b] }

  /** The positions of the set bits of `w` below `n`, lowest first. */
  function Ones(w: Word, n: nat): (s: seq<nat>)
    requires n <= |w|
  {
    if n == 0 then [] else Ones(w, n - 1) + (if w[n - 1] then [n - 1] else [])
  }

  function FreeBits(w: Word): (s: seq<nat>) { Ones(Not(w), |w|) }

  function Shift(s: seq<nat>, base: nat): (r: seq<nat>)
  {
    seq(|s|, i requires 0 <= i < |s| => base + s[i])
  }

  function Range(low: nat, high: nat): (r: seq<nat>)
    requires low <= high
  {
    seq(high - low, i requires 0 <= i => low + i)
  }

  predicate Used(bm: seq<Word>, a: nat)
    requires a < 32 * |bm|
  {
    bm[a / 32][a % 32]
  }

  function FreeIn(bm: seq<Word>, i: nat): (s: seq<nat>)
    requires i < |bm|
  {
    Shift(FreeBits(bm[i]), 32 * i)
  }

  /** Word number `t` in the visiting order that begins at word `start`. */
  function Visit(start: nat, t: nat, n: nat): (w: nat)
    requires start < n && t < n
    ensures w < n
  {
    if start + t < n then start + t else start + t - n
  }

  /** The free blocks met by visiting `n` words circularly from word `start`. */
  function Scan(bm: seq<Word>, start: nat, n: nat): (s: seq<nat>)
    requires start < |bm| && n <= |bm|
  {
    if n == 0 then [] else Scan(bm, start, n - 1) + FreeIn(bm, Visit(start, n - 1, |bm|))
  }

  /** How many blocks of the first `n` words are free. */
  function FreeCount(bm: seq<Word>, n: nat): (c: nat)
    requires n <= |bm|
  {
    if n == 0 then 0 else FreeCount(bm, n - 1) + |FreeBits(bm[n - 1])|
  }

  /** `bm` is `before` with exactly the blocks of `taken` added. */
  predicate Marked(bm: seq<Word>, before: seq<Word>, taken: seq<nat>)
  {
    && |bm| == |before|
    && forall a :: 0 <= a < 32 * |bm| ==> (Used(bm, a) <==> Used(before, a) || a in taken)
  }

  predicate NoDuplicates(s: seq<nat>)
  {
    forall i, j :: 0 <= i < j < |s| ==> s[i] != s[j]
  }

  function Zeros(n: nat): (z: seq<Word>) { seq(n, i => ZERO) }

  // ---------- One word ----------

  lemma {:induction false} OnesMember(w: Word, n: nat, b: nat)
    requires n <= |w|
    ensures b in Ones(w, n) <==> b < n && w[b]
  {
    if n > 0 { OnesMember(w, n - 1, b); }
  }

  lemma {:induction false} OnesDistinct(w: Word, n: nat)
    requires n <= |w|
    ensures NoDuplicates(Ones(w, n))
  {
    if n > 0 {
      OnesDistinct(w, n - 1);
      OnesMember(w, n - 1, n - 1);
    }
  }

  /** Taking the lowest set bit off a word takes the head off its list of bits. */
  lemma {:induction false} LowestFirst(w: Word, n: nat, b: nat)
    requires b < n <= |w| && w[b] && forall k :: 0 <= k < b ==> !w[k]
    ensures Ones(w, n) == [b] + Ones(w[b := false], n)
  {
    if n == b + 1 {
      OnesOfNone(w, b);
      OnesOfNone(w[b := false], n);
    } else {
      LowestFirst(w, n - 1, b);
    }
  }

  lemma {:induction false} OnesOfNone(w: Word, n: nat)
    requires n <= |w| && forall k :: 0 <= k < n ==> !w[k]
    ensures Ones(w, n) == []
  {
    if n > 0 { OnesOfNone(w, n - 1); }
  }

  lemma {:induction false} OnesOfAll(w: Word, n: nat)
    requires n <= |w| && forall k :: 0 <= k < n ==> w[k]
    ensures Ones(w, n) == Range(0, n)
  {
    if n > 0 { OnesOfAll(w, n - 1); }
  }

  lemma ShiftMember(s: seq<nat>, base: nat, a: nat)
    ensures a in Shift(s, base) <==> a >= base && a - base in s
  {
    if a >= base && a - base in s {
      var k :| 0 <= k < |s| && s[k] == a - base;
      assert Shift(s, base)[k] == a;
    }
  }

  lemma FreeInMember(bm: seq<Word>, i: nat, a: nat)
    requires i < |bm|
    ensures a in FreeIn(bm, i) <==> a / 32 == i && !bm[i][a % 32]
  {
    ShiftMember(FreeBits(bm[i]), 32 * i, a);
    if a >= 32 * i { OnesMember(Not(bm[i]), |bm[i]|, a - 32 * i); }
  }

  lemma FreeInDistinct(bm: seq<Word>, i: nat)
    requires i < |bm|
    ensures NoDuplicates(FreeIn(bm, i))
  {
    OnesDistinct(Not(bm[i]), |bm[i]|);
  }

  // ---------- The circular scan ----------

  /** The place of word `w` in the visiting order that begins at `start`. */
  function Turn(w: nat, start: nat, n: nat): (t: nat)
    requires w < n && start < n
    ensures t < n && Visit(start, t, n) == w
  {
    if w >= start then w - start else w + n - start
  }

  /** The code's `(start + t) % n`. */
  lemma VisitIsModulo(start: nat, t: nat, n: nat)
    requires start < n && t < n
    ensures Visit(start, t, n) == (start + t) % n
  {
    if start + t < n { Quotient(start + t, n, 0, start + t); }
    else { Quotient(start + t, n, 1, start + t - n); }
  }

  lemma Quotient(x: nat, n: nat, q: nat, r: nat)
    requires r < n && x == q * n + r
    ensures x / n == q && x % n == r
  {
    var q', r' := x / n, x % n;
    assert x == q' * n + r';
    if q' < q { Times(q' + 1, q, n); } else if q < q' { Times(q + 1, q', n); }
  }

  lemma Times(a: nat, b: nat, n: nat)
    requires a <= b
    ensures a * n <= b * n
  {}

  lemma {:induction false} ScanMember(bm: seq<Word>, start: nat, n: nat, a: nat)
    requires start < |bm| && n <= |bm|
    ensures a in Scan(bm, start, n) <==>
      a < 32 * |bm| && !Used(bm, a) && Turn(a / 32, start, |bm|) < n
  {
    if n > 0 {
      ScanMember(bm, start, n - 1, a);
      FreeInMember(bm, Visit(start, n - 1, |bm|), a);
    }
  }

  lemma {:induction false} ScanDistinct(bm: seq<Word>, start: nat, n: nat)
    requires start < |bm| && n <= |bm|
    ensures NoDuplicates(Scan(bm, start, n))
  {
    if n > 0 {
      ScanDistinct(bm, start, n - 1);
      var w := Visit(start, n - 1, |bm|);
      FreeInDistinct(bm, w);
      var s, f := Scan(bm, start, n - 1), FreeIn(bm, w);
      forall i, j | 0 <= i < |s| && 0 <= j < |f| ensures s[i] != f[j] {
        assert s[i] in s && f[j] in f;
        ScanMember(bm, start, n - 1, s[i]);
        FreeInMember(bm, w, f[j]);
      }
    }
  }

  lemma {:induction false} ScanPrefix(bm: seq<Word>, start: nat, m: nat, n: nat)
    requires start < |bm| && m <= n <= |bm|
    ensures Scan(bm, start, m) <= Scan(bm, start, n)
  {
    if m < n { ScanPrefix(bm, start, m, n - 1); }
  }

  /** A full circle offers every free block once, wherever it starts. */
  lemma ScanLength(bm: seq<Word>, start: nat)
    requires start < |bm|
    ensures |Scan(bm, start, |bm|)| == FreeCount(bm, |bm|)
  {
    ScanLengthUpTo(bm, start, |bm| - start);
    ScanLengthWrapped(bm, start, start);
  }

  lemma {:induction false} ScanLengthUpTo(bm: seq<Word>, start: nat, n: nat)
    requires start < |bm| && start + n <= |bm|
    ensures |Scan(bm, start, n)| + FreeCount(bm, start) == FreeCount(bm, start + n)
  {
    if n > 0 { ScanLengthUpTo(bm, start, n - 1); }
  }

  lemma {:induction false} ScanLengthWrapped(bm: seq<Word>, start: nat, n: nat)
    requires start < |bm| && n <= start
    requires |Scan(bm, start, |bm| - start)| + FreeCount(bm, start) == FreeCount(bm, |bm|)
    ensures |Scan(bm, start, |bm| - start + n)| + FreeCount(bm, start)
         == FreeCount(bm, |bm|) + FreeCount(bm, n)
  {
    if n > 0 { ScanLengthWrapped(bm, start, n - 1); }
  }

  // ---------- A chunk appended to a full bitmap ----------

  predicate Full(bm: seq<Word>)
  {
    forall a :: 0 <= a < 32 * |bm| ==> Used(bm, a)
  }

  lemma FullWordOffersNothing(bm: seq<Word>, i: nat)
    requires i < |bm| && forall b :: 0 <= b < 32 ==> bm[i][b]
    ensures FreeIn(bm, i) == []
  {
    var f := FreeIn(bm, i);
    if f != [] {
      assert f[0] in f;
      FreeInMember(bm, i, f[0]);
    }
  }

  lemma ZeroWordOffersAll(bm: seq<Word>, i: nat)
    requires i < |bm| && bm[i] == ZERO
    ensures FreeIn(bm, i) == Range(32 * i, 32 * i + 32)
  {
    OnesOfAll(Not(bm[i]), |bm[i]|);
  }

  /** After growth the scan offers the new chunk's blocks in ascending order. */
  lemma {:induction false} ScanFreshChunk(full: seq<Word>, start: nat, n: nat)
    requires start < |full| && Full(full) && n <= |full| + WORDS_PER_CHUNK
    ensures var bm, size := full + Zeros(WORDS_PER_CHUNK), |full|;
      Scan(bm, start, n) ==
        Range(32 * size,
              if start + n <= size then 32 * size
              else if start + n <= size + WORDS_PER_CHUNK then 32 * (start + n)
              else 32 * (size + WORDS_PER_CHUNK))
  {
    var bm, size := full + Zeros(WORDS_PER_CHUNK), |full|;
    if n > 0 {
      ScanFreshChunk(full, start, n - 1);
      var w := Visit(start, n - 1, |bm|);
      if size <= w {
        ZeroWordOffersAll(bm, w);
        assert w == start + n - 1;
      } else {
        forall b | 0 <= b < 32 ensures bm[w][b] { assert Used(full, 32 * w + b); }
        FullWordOffersNothing(bm, w);
        assert start + n - 1 < size || start + n - 1 >= |bm|;
      }
    }
  }

  // ---------- Counting free blocks ----------

  function FreeSet(bm: seq<Word>): (r: set<nat>)
  {
    set a: nat | a < 32 * |bm| && !Used(bm, a)
  }

  function Elements(s: seq<nat>): (r: set<nat>) { set a | a in s }

  lemma {:induction false} DistinctSize(s: seq<nat>)
    requires NoDuplicates(s)
    ensures |Elements(s)| == |s|
  {
    if s != [] {
      var front, last := s[..|s| - 1], s[|s| - 1];
      DistinctSize(front);
      assert Elements(s) == Elements(front) + {last};
    }
  }

  /** The count is the size of the set of free blocks. */
  lemma FreeCountIsSize(bm: seq<Word>)
    requires |bm| > 0
    ensures FreeCount(bm, |bm|) == |FreeSet(bm)|
  {
    var s := Scan(bm, 0, |bm|);
    ScanLength(bm, 0);
    ScanDistinct(bm, 0, |bm|);
    DistinctSize(s);
    forall a: nat ensures a in Elements(s) <==> a in FreeSet(bm) {
      if a < 32 * |bm| { ScanMember(bm, 0, |bm|, a); }
      if a in s { ScanMember(bm, 0, |bm|, a); }
    }
    assert Elements(s) == FreeSet(bm);
  }

  /** Marking blocks that were free takes exactly as many from the count. */
  lemma MarkedCount(bm: seq<Word>, before: seq<Word>, taken: seq<nat>)
    requires |before| > 0 && Marked(bm, before, taken) && NoDuplicates(taken)
    requires forall a :: a in taken ==> a < 32 * |before| && !Used(before, a)
    ensures FreeCount(bm, |bm|) == FreeCount(before, |before|) - |taken|
  {
    FreeCountIsSize(bm);
    FreeCountIsSize(before);
    DistinctSize(taken);
    assert Elements(taken) <= FreeSet(before);
    assert FreeSet(bm) == FreeSet(before) - Elements(taken);
  }
}
