/** Shared memory seen through a list of 4096-byte windows: however the windows are
    scattered over the chunks, they are one flat array of bytes. */
module Memory {
  import opened Layout

  /** A block's window into the memory of its chunk. */
  datatype Slice = Slice(data: array<Byte>, off: nat)

  /** Every window lies inside its chunk on a block boundary, and no two are the same. */
  ghost predicate ValidSlices(blocks: seq<Slice>)
  {
    && (forall i :: 0 <= i < |blocks| ==>
          blocks[i].off % BLOCK_SIZE == 0 && blocks[i].off + BLOCK_SIZE <= blocks[i].data.Length)
    && forall i, j :: 0 <= i < j < |blocks| ==> blocks[i] != blocks[j]
  }

  ghost function Arrays(blocks: seq<Slice>): (s: set<array<Byte>>)
    ensures forall i :: 0 <= i < |blocks| ==> blocks[i].data in s
  {
    set i | 0 <= i < |blocks| :: blocks[i].data
  }

  /** The flat array: byte `p` is byte `p % 4096` of window `p / 4096`. */
  ghost function Flat(blocks: seq<Slice>): (f: seq<Byte>)
    requires ValidSlices(blocks)
    reads Arrays(blocks)
    ensures |f| == BLOCK_SIZE * |blocks|
  {
    seq(BLOCK_SIZE * |blocks|, p requires 0 <= p < BLOCK_SIZE * |blocks| reads Arrays(blocks) =>
      blocks[p / BLOCK_SIZE].data[blocks[p / BLOCK_SIZE].off + p % BLOCK_SIZE])
  }

  /** `f` with the bytes from `at` on replaced by `src`. */
  function Splice(f: seq<Byte>, at: nat, src: seq<Byte>): (r: seq<Byte>)
    requires at + |src| <= |f|
    ensures |r| == |f|
  {
    f[..at] + src + f[at + |src|..]
  }

  lemma SpliceTwice(f: seq<Byte>, at: nat, a: seq<Byte>, b: seq<Byte>)
    requires at + |a| + |b| <= |f|
    ensures Splice(Splice(f, at, a), at + |a|, b) == Splice(f, at, a + b)
  {}

  /** No window of `blocks` covers byte `x` of `data`. */
  ghost predicate Outside(blocks: seq<Slice>, data: array<Byte>, x: nat)
  {
    forall i :: 0 <= i < |blocks| && blocks[i].data == data ==>
      x < blocks[i].off || blocks[i].off + BLOCK_SIZE <= x
  }

  /** Windows added at the end leave the flat bytes before them alone. */
  lemma FlatPrefix(a: seq<Slice>, b: seq<Slice>)
    requires ValidSlices(a) && ValidSlices(a + b)
    ensures Flat(a + b)[..BLOCK_SIZE * |a|] == Flat(a)
  {
    var f, g := Flat(a + b)[..BLOCK_SIZE * |a|], Flat(a);
    forall p | 0 <= p < |g| ensures f[p] == g[p] {
      assert (a + b)[p / BLOCK_SIZE] == a[p / BLOCK_SIZE];
    }
  }

  /** The bytes of the chunks, as a value. */
  ghost function Snapshot(chunks: seq<array<Byte>>): (mem: seq<seq<Byte>>)
    reads chunks
    ensures |mem| == |chunks| && forall k :: 0 <= k < |chunks| ==> mem[k] == chunks[k][..]
  {
    seq(|chunks|, k requires 0 <= k < |chunks| reads chunks => chunks[k][..])
  }

  /** From `mem0` to `mem` no byte of an old chunk outside the windows changed. */
  ghost predicate OnlyIn(mem0: seq<seq<Byte>>, mem: seq<seq<Byte>>, chunks: seq<array<Byte>>, blocks: seq<Slice>)
  {
    && |mem0| <= |mem| == |chunks|
    && (forall k :: 0 <= k < |mem0| ==> |mem0[k]| == |mem[k]|)
    && forall k, x :: 0 <= k < |mem0| && 0 <= x < |mem0[k]| && Outside(blocks, chunks[k], x) ==> mem[k][x] == mem0[k][x]
  }

  lemma OutsideShorter(blocks: seq<Slice>, more: seq<Slice>, data: array<Byte>, x: nat)
    requires blocks <= more && Outside(more, data, x)
    ensures Outside(blocks, data, x)
  {
    assert forall i :: 0 <= i < |blocks| ==> blocks[i] == more[i];
  }

  /** One change after another, within windows that only grow. */
  lemma OnlyInTwice(mem0: seq<seq<Byte>>, mem1: seq<seq<Byte>>, mem2: seq<seq<Byte>>, chunks1: seq<array<Byte>>,
                    chunks2: seq<array<Byte>>, blocks1: seq<Slice>, blocks2: seq<Slice>)
    requires OnlyIn(mem0, mem1, chunks1, blocks1) && OnlyIn(mem1, mem2, chunks2, blocks2)
    requires chunks1 <= chunks2 && blocks1 <= blocks2
    ensures OnlyIn(mem0, mem2, chunks2, blocks2)
  {
    forall k, x | 0 <= k < |mem0| && 0 <= x < |mem0[k]| && Outside(blocks2, chunks2[k], x)
      ensures mem2[k][x] == mem0[k][x]
    {
      OutsideShorter(blocks1, blocks2, chunks2[k], x);
    }
  }

  lemma Locate(b: nat, inner: nat)
    requires inner < BLOCK_SIZE
    ensures (BLOCK_SIZE * b + inner) / BLOCK_SIZE == b && (BLOCK_SIZE * b + inner) % BLOCK_SIZE == inner
  {}

  /** Distinct aligned windows into one array do not overlap. */
  lemma WindowsApart(a: nat, b: nat)
    requires a % BLOCK_SIZE == 0 && b % BLOCK_SIZE == 0 && a != b
    ensures a + BLOCK_SIZE <= b || b + BLOCK_SIZE <= a
  {}

  /** Stores one byte at the memory of flat byte `p`. */
  method Poke(ghost blocks: seq<Slice>, ghost p: nat, data: array<Byte>, x: nat, val: Byte)
    requires ValidSlices(blocks) && p < BLOCK_SIZE * |blocks|
    requires data == blocks[p / BLOCK_SIZE].data && x == blocks[p / BLOCK_SIZE].off + p % BLOCK_SIZE
    modifies data
    ensures Flat(blocks) == Splice(old(Flat(blocks)), p, [val])
    ensures forall y :: 0 <= y < data.Length && y != x ==> data[y] == old(data[y])
    ensures forall y :: 0 <= y < data.Length && Outside(blocks, data, y) ==> data[y] == old(data[y])
  {
    data[x] := val;
    ghost var f := Splice(old(Flat(blocks)), p, [val]);
    forall q | 0 <= q < |f| ensures Flat(blocks)[q] == f[q] {
      var a, b := q / BLOCK_SIZE, p / BLOCK_SIZE;
      if blocks[a].data == data && a != b { WindowsApart(blocks[a].off, blocks[b].off); }
    }
  }

  /** Copies `src` to the memory of block `b` from byte `inner` on. */
  method CopyTo(ghost blocks: seq<Slice>, ghost b: nat, ghost inner: nat, data: array<Byte>, base: nat, src: seq<Byte>)
    requires ValidSlices(blocks) && b < |blocks| && inner + |src| <= BLOCK_SIZE
    requires data == blocks[b].data && base == blocks[b].off + inner
    modifies data
    ensures Flat(blocks) == Splice(old(Flat(blocks)), BLOCK_SIZE * b + inner, src)
    ensures forall x :: 0 <= x < data.Length && Outside(blocks, data, x) ==> data[x] == old(data[x])
    ensures forall x :: 0 <= x < data.Length && !(base <= x < base + |src|) ==> data[x] == old(data[x])
  {
    forall i | 0 <= i < |src| { data[base + i] := src[i]; }
    ghost var f := Splice(old(Flat(blocks)), BLOCK_SIZE * b + inner, src);
    forall p | 0 <= p < |f| ensures Flat(blocks)[p] == f[p] {
      var q, r := p / BLOCK_SIZE, p % BLOCK_SIZE;
      assert p == BLOCK_SIZE * q + r;
      if blocks[q].data == data && q != b {
        WindowsApart(blocks[q].off, blocks[b].off);
      }
    }
  }

  method CopyIn(blocks: seq<Slice>, b: nat, inner: nat, src: seq<Byte>)
    requires ValidSlices(blocks) && b < |blocks| && inner + |src| <= BLOCK_SIZE
    modifies blocks[b].data
    ensures Flat(blocks) == Splice(old(Flat(blocks)), BLOCK_SIZE * b + inner, src)
    ensures forall x :: 0 <= x < blocks[b].data.Length && Outside(blocks, blocks[b].data, x) ==>
      blocks[b].data[x] == old(blocks[b].data[x])
  {
    CopyTo(blocks, b, inner, blocks[b].data, blocks[b].off + inner, src);
  }
}

/** Reading and writing a stripe (go/shm/stripe.go): block 0 is the header, the user's
    bytes are the flat array behind it. */
module StripeModel {
  import opened Layout
  import opened Memory
  import Header

  datatype Err = Nil | NegativeOffset | Eof | CapacityExceeded | NoSpace

  /** How many of `len` bytes at offset `off` lie below `cap`. */
  function Fitting(len: nat, off: nat, cap: nat): (n: nat)
    ensures n <= len && (n > 0 ==> off + n <= cap) && (off + len <= cap ==> n == len)
    ensures n < len ==> off + n >= cap
  {
    if off >= cap then 0 else if off + len <= cap then len else cap - off
  }

  class Stripe {
    var sequence: seq<int>
    var blockCount: nat
    var blocks: seq<Slice>
    var dataLen: nat

    ghost predicate Valid()
      reads this
    {
      1 <= |blocks| <= 65536 && ValidSlices(blocks) && dataLen < WRAP
    }

    constructor (sequence: seq<int>, blockCount: nat, blocks: seq<Slice>, dataLen: nat)
      ensures this.sequence == sequence && this.blockCount == blockCount
      ensures this.blocks == blocks && this.dataLen == dataLen
    {
      this.sequence, this.blockCount, this.blocks, this.dataLen := sequence, blockCount, blocks, dataLen;
    }

    function Capacity(): (c: int)
      reads this
    {
      BLOCK_SIZE * (|blocks| - 1)
    }

    ghost function HeaderBytes(): (h: seq<Byte>)
      requires Valid()
      reads this, Arrays(blocks)
      ensures |h| == BLOCK_SIZE
    {
      Flat(blocks)[..BLOCK_SIZE]
    }

    ghost function User(): (u: seq<Byte>)
      requires Valid()
      reads this, Arrays(blocks)
      ensures |u| == Capacity()
    {
      Flat(blocks)[BLOCK_SIZE..]
    }

    /** Only windows of this stripe were written. */
    twostate predicate OthersUntouched()
      requires blocks == old(blocks)
      reads this, Arrays(blocks)
    {
      forall d, x :: d in Arrays(blocks) && 0 <= x < d.Length && Outside(blocks, d, x) ==>
        d[x] == old(d[x])
    }

    method UpdateDataLen(newLen: nat)
      requires Valid() && newLen < WRAP
      modifies `dataLen, blocks[0].data
      ensures Valid() && dataLen == newLen
      ensures User() == old(User())
      ensures HeaderBytes() == Splice(old(HeaderBytes()), 0, Header.Put32(newLen))
      ensures OthersUntouched()
    {
      SpliceFront(Flat(blocks), BLOCK_SIZE, Header.Put32(newLen));
      CopyIn(blocks, 0, 0, Header.Put32(newLen));
      dataLen := newLen;
    }

    method Truncate(newLen: nat)
      requires Valid() && newLen < WRAP
      modifies `dataLen, blocks[0].data
      ensures Valid() && User() == old(User()) && OthersUntouched()
      ensures dataLen == if newLen <= old(dataLen) then newLen else old(dataLen)
      ensures HeaderBytes() ==
        if newLen <= old(dataLen) then Splice(old(HeaderBytes()), 0, Header.Put32(newLen)) else old(HeaderBytes())
    {
      if newLen > dataLen { return; }
      UpdateDataLen(newLen);
    }

    /** The copy loop of WriteAt: whole windows at a time, as far as the blocks go. */
    method WriteBlocks(p: seq<Byte>, start: nat) returns (n: nat)
      requires Valid()
      modifies Arrays(blocks)
      ensures n == Fitting(|p|, start, Capacity())
      ensures n > 0 ==> Flat(blocks) == Splice(old(Flat(blocks)), BLOCK_SIZE + start, p[..n])
      ensures n == 0 ==> Flat(blocks) == old(Flat(blocks))
      ensures OthersUntouched()
    {
      hide Flat, Splice, Outside;
      n := 0;
      var off := start + BLOCK_SIZE;
      ghost var flat := Flat(blocks);
      while n < |p|
        invariant n <= |p| && off == start + BLOCK_SIZE + n
        invariant n > 0 ==> off <= BLOCK_SIZE * |blocks| && Flat(blocks) == Splice(flat, BLOCK_SIZE + start, p[..n])
        invariant n == 0 ==> Flat(blocks) == flat
        invariant n == |p| || n == 0 || off % BLOCK_SIZE == 0
        invariant OthersUntouched()
      {
        var bIdx := off / BLOCK_SIZE;
        if bIdx >= |blocks| { break; }
        var innerOff := off % BLOCK_SIZE;
        var copyLen := BLOCK_SIZE - innerOff;
        if copyLen > |p| - n { copyLen := |p| - n; }
        CopyIn(blocks, bIdx, innerOff, p[n..n + copyLen]);
        SpliceMore(flat, BLOCK_SIZE + start, p, n, copyLen);
        n, off := n + copyLen, off + copyLen;
      }
    }

    /** Writes the prefix of `p` that fits, and nothing else of the user's bytes or of
        the header but the data length, which becomes the furthest byte written. */
    method WriteAt(p: seq<Byte>, off: int) returns (n: nat, err: Err)
      requires Valid()
      modifies `dataLen, Arrays(blocks)
      ensures Valid() && OthersUntouched()
      ensures off < 0 ==> n == 0 && err == NegativeOffset
      ensures off >= 0 ==> n == Fitting(|p|, off, Capacity()) && err == if n == |p| then Nil else CapacityExceeded
      ensures n == 0 ==> User() == old(User()) && HeaderBytes() == old(HeaderBytes()) && dataLen == old(dataLen)
      ensures n > 0 ==>
        && 0 <= off && off + n <= Capacity() && User() == Splice(old(User()), off, p[..n])
        && dataLen == (if off + n > old(dataLen) then off + n else old(dataLen))
        && HeaderBytes() ==
           if off + n > old(dataLen) then Splice(old(HeaderBytes()), 0, Header.Put32(off + n)) else old(HeaderBytes())
    {
      hide Flat, Splice, Outside, ValidSlices, Header.Put32;
      if off < 0 { return 0, NegativeOffset; }
      n := WriteBlocks(p, off);
      err := if n == |p| then Nil else CapacityExceeded;
      if n > 0 {
        SpliceBehind(old(Flat(blocks)), BLOCK_SIZE, off, p[..n]);
        var newEnd := (off + n) % WRAP;
        if newEnd > dataLen { UpdateDataLen(newEnd); }
      }
    }

    /** The copy loop of ReadAt: whole windows at a time, as far as the blocks go. */
    method ReadBlocks(p: array<Byte>, off: nat, want: nat) returns (n: nat)
      requires Valid() && p !in Arrays(blocks) && want <= p.Length
      modifies p
      ensures n == Fitting(want, off, Capacity())
      ensures forall k :: 0 <= k < n ==>
        BLOCK_SIZE + off + k < BLOCK_SIZE * |blocks| && p[k] == Flat(blocks)[BLOCK_SIZE + off + k]
      ensures forall k :: n <= k < p.Length ==> p[k] == old(p[k])
    {
      hide Flat, ValidSlices;
      var remaining, pos := want, off + BLOCK_SIZE;
      ghost var start := pos;
      n := 0;
      while remaining > 0
        invariant remaining >= 0 && n + remaining == want && pos == start + n
        invariant n > 0 ==> pos <= BLOCK_SIZE * |blocks|
        invariant remaining == 0 || n == 0 || pos % BLOCK_SIZE == 0
        invariant forall k :: 0 <= k < n ==> start + k < BLOCK_SIZE * |blocks| && p[k] == Flat(blocks)[start + k]
        invariant forall k :: n <= k < p.Length ==> p[k] == old(p[k])
      {
        var bIdx := pos / BLOCK_SIZE;
        if bIdx >= |blocks| { return; }
        var innerOff := pos % BLOCK_SIZE;
        var copyLen := BLOCK_SIZE - innerOff;
        if copyLen > remaining { copyLen := remaining; }
        CopyOut(blocks, bIdx, innerOff, p, n, copyLen);
        assert BLOCK_SIZE * bIdx + innerOff == start + n;
        n, pos, remaining := n + copyLen, pos + copyLen, remaining - copyLen;
      }
    }

    /** Reads the user's bytes from `off` on, clipped to the data and to the blocks. */
    method ReadAt(p: array<Byte>, off: int) returns (n: nat, err: Err)
      requires Valid() && p !in Arrays(blocks)
      modifies p
      ensures off < 0 ==> n == 0 && err == NegativeOffset
      ensures off >= dataLen ==> n == 0 && err == Eof
      ensures 0 <= off < dataLen ==>
        var want := if off + p.Length > dataLen then dataLen - off else p.Length;
        n == Fitting(want, off, Capacity()) && err == if n == want then Nil else Eof
      ensures n <= p.Length && (n > 0 ==> 0 <= off && off + n <= Capacity() && p[..n] == User()[off..off + n])
      ensures p[n..] == old(p[n..])
    {
      hide Flat, ValidSlices;
      if off < 0 { return 0, NegativeOffset; }
      if off >= dataLen { return 0, Eof; }
      var want := p.Length;
      if off + want > dataLen { want := dataLen - off; }
      n := ReadBlocks(p, off, want);
      err := if n == want then Nil else Eof;
    }

    method ReadByteAt(off: int) returns (b: Byte, err: Err)
      requires Valid()
      ensures err == if off < 0 then NegativeOffset else if off < dataLen && off < Capacity() then Nil else Eof
      ensures err == Nil ==> b == User()[off]
    {
      if off < 0 { return 0, NegativeOffset; }
      if off >= dataLen { return 0, Eof; }
      var pos := off + BLOCK_SIZE;
      var bIdx := pos / BLOCK_SIZE;
      if bIdx >= |blocks| { return 0, Eof; }
      return blocks[bIdx].data[blocks[bIdx].off + pos % BLOCK_SIZE], Nil;
    }

    method WriteByteAt(b: Byte, off: int) returns (err: Err)
      requires Valid()
      modifies `dataLen, Arrays(blocks)
      ensures Valid() && OthersUntouched()
      ensures err == if off < 0 then NegativeOffset else if off < Capacity() then Nil else CapacityExceeded
      ensures err != Nil ==> User() == old(User()) && HeaderBytes() == old(HeaderBytes()) && dataLen == old(dataLen)
      ensures err == Nil ==>
        && User() == Splice(old(User()), off, [b])
        && dataLen == (if off + 1 > old(dataLen) then off + 1 else old(dataLen))
        && HeaderBytes() ==
           if off + 1 > old(dataLen) then Splice(old(HeaderBytes()), 0, Header.Put32(off + 1)) else old(HeaderBytes())
    {
      hide Flat, Splice, Outside, ValidSlices, Header.Put32;
      if off < 0 { return NegativeOffset; }
      var pos := off + BLOCK_SIZE;
      var bIdx := pos / BLOCK_SIZE;
      if bIdx >= |blocks| { return CapacityExceeded; }
      CopyIn(blocks, bIdx, pos % BLOCK_SIZE, [b]);
      SpliceBehind(old(Flat(blocks)), BLOCK_SIZE, off, [b]);
      var newEnd := (pos - BLOCK_SIZE + 1) % WRAP;
      if newEnd > dataLen { UpdateDataLen(newEnd); }
      return Nil;
    }

    /** Writes the header block: the counters and as many entries as fit. */
    method UpdateStripeHeader()
      requires Valid()
      modifies blocks[0].data
      ensures User() == old(User()) && OthersUntouched()
      ensures Header.Holds(HeaderBytes(), dataLen, blockCount, sequence)
    {
      hide Flat, Splice, Outside, ValidSlices, Header.Put32, Header.Put16, Header.U16;
      PutCounters();
      for i := 0 to |sequence|
        invariant i <= Header.CAPACITY
        invariant User() == old(User()) && OthersUntouched()
        invariant Header.HoldsUpTo(HeaderBytes(), dataLen, blockCount, sequence, i)
      {
        var off := 8 + i * 2;
        if off + 2 > BLOCK_SIZE { break; }
        ghost var before := Flat(blocks);
        CopyIn(blocks, 0, off, Header.Put16(Header.U16(sequence[i])));
        SpliceHead(before, BLOCK_SIZE, off, Header.Put16(Header.U16(sequence[i])));
        Header.HoldsNext(before[..BLOCK_SIZE], HeaderBytes(), dataLen, blockCount, sequence, i);
      }
    }

    method PutCounters()
      requires Valid()
      modifies blocks[0].data
      ensures User() == old(User()) && OthersUntouched()
      ensures Header.HoldsUpTo(HeaderBytes(), dataLen, blockCount, sequence, 0)
    {
      hide Flat, Outside, ValidSlices;
      var counters := Header.Put32(dataLen) + Header.Put16(blockCount) + Header.Put16(|sequence|);
      SpliceHead(Flat(blocks), BLOCK_SIZE, 0, counters);
      CopyIn(blocks, 0, 0, counters);
      ghost var h := HeaderBytes();
      assert h[0..8] == counters && h[0..4] == h[0..8][0..4] && h[4..6] == h[0..8][4..6] && h[6..8] == h[0..8][6..8];
    }
  }

  /** Copies `len` bytes of block `b` from byte `inner` on into `p` from `at` on. */
  method CopyOut(blocks: seq<Slice>, b: nat, inner: nat, p: array<Byte>, at: nat, len: nat)
    requires ValidSlices(blocks) && b < |blocks| && inner + len <= BLOCK_SIZE
    requires at + len <= p.Length && p !in Arrays(blocks)
    modifies p
    ensures forall k :: at <= k < at + len ==>
      p[k] == Flat(blocks)[BLOCK_SIZE * b + inner + (k - at)]
    ensures forall k :: 0 <= k < p.Length && !(at <= k < at + len) ==> p[k] == old(p[k])
  {
    var data, base := blocks[b].data, blocks[b].off + inner;
    forall i | 0 <= i < len { p[at + i] := data[base + i]; }
    forall k | at <= k < at + len ensures p[k] == Flat(blocks)[BLOCK_SIZE * b + inner + (k - at)] {
      Locate(b, inner + (k - at));
    }
  }

  lemma SpliceMore(f: seq<Byte>, at: nat, p: seq<Byte>, n: nat, m: nat)
    requires n + m <= |p| && at + n + m <= |f|
    ensures Splice(if n == 0 then f else Splice(f, at, p[..n]), at + n, p[n..n + m]) == Splice(f, at, p[..n + m])
  {
    assert p[..n + m] == p[..n] + p[n..n + m];
    if n > 0 { SpliceTwice(f, at, p[..n], p[n..n + m]); }
  }

  lemma SpliceFront(f: seq<Byte>, k: nat, src: seq<Byte>)
    requires |src| <= k <= |f|
    ensures Splice(f, 0, src)[..k] == Splice(f[..k], 0, src) && Splice(f, 0, src)[k..] == f[k..]
  {}

  lemma SpliceBehind(f: seq<Byte>, skip: nat, at: nat, src: seq<Byte>)
    requires skip + at + |src| <= |f|
    ensures Splice(f, skip + at, src)[skip..] == Splice(f[skip..], at, src)
    ensures Splice(f, skip + at, src)[..skip] == f[..skip]
  {}

  lemma SpliceHead(f: seq<Byte>, k: nat, at: nat, src: seq<Byte>)
    requires at + |src| <= k <= |f|
    ensures var g := Splice(f, at, src);
      g[k..] == f[k..] && |g[..k]| == k && g[..k][..at] == f[..k][..at] && g[..k][at..at + |src|] == src
  {}
}
