/** The sequence that names the blocks of a stripe: a negative value announces a
    chunk, each non-negative value after it is a block of that chunk
    (go/shm/bus.go, go/shm/protocol.go). */
module Codec {
  import opened Layout

  datatype Block = Block(chunk: int, idx: int)

  predicate ValidBlock(b: Block)
  {
    -32768 <= b.chunk < 0 && 0 <= b.idx < BLOCKS_PER_CHUNK
  }

  predicate ValidBlocks(bs: seq<Block>)
  {
    forall b :: b in bs ==> ValidBlock(b)
  }

  /** The global bit index of a block; chunk ids are the complements of chunk numbers. */
  function BlockAddress(b: Block): (a: int)
  {
    (-1 - b.chunk) * BLOCKS_PER_CHUNK + b.idx
  }

  function ParseBlockAddress(a: nat): (b: Block)
  {
    Block(-1 - a / BLOCKS_PER_CHUNK, a % BLOCKS_PER_CHUNK)
  }

  lemma AddressRoundTrip(a: nat, b: Block)
    ensures BlockAddress(ParseBlockAddress(a)) == a
    ensures ValidBlock(b) ==> BlockAddress(b) >= 0 && ParseBlockAddress(BlockAddress(b)) == b
  {}

  // ---------- Encoding and decoding ----------

  function EncodeFrom(last: int, bs: seq<Block>): (s: seq<int>)
    decreases |bs|
  {
    if bs == [] then []
    else
      (if bs[0].chunk != last then [bs[0].chunk] else []) + [bs[0].idx]
      + EncodeFrom(bs[0].chunk, bs[1..])
  }

  function DecodeFrom(last: int, s: seq<int>): (bs: seq<Block>)
    decreases |s|
  {
    if s == [] then []
    else if s[0] < 0 then DecodeFrom(s[0], s[1..])
    else [Block(last, s[0])] + DecodeFrom(last, s[1..])
  }

  function Encode(bs: seq<Block>): (s: seq<int>) { EncodeFrom(0, bs) }
  function Decode(s: seq<int>): (bs: seq<Block>) { DecodeFrom(0, s) }

  /** The chunk in force after a sequence. */
  function MarkerAfter(last: int, s: seq<int>): (m: int)
    decreases |s|
  {
    if s == [] then last
    else MarkerAfter(if s[0] < 0 then s[0] else last, s[1..])
  }

  function LastChunk(last: int, bs: seq<Block>): (m: int)
  {
    if bs == [] then last else bs[|bs| - 1].chunk
  }

  lemma {:induction false} DecodeEncodeFrom(last: int, bs: seq<Block>)
    requires ValidBlocks(bs)
    ensures DecodeFrom(last, EncodeFrom(last, bs)) == bs
    ensures MarkerAfter(last, EncodeFrom(last, bs)) == LastChunk(last, bs)
    ensures |bs| <= |EncodeFrom(last, bs)| <= 2 * |bs|
    ensures forall v :: v in EncodeFrom(last, bs) ==> -32768 <= v < BLOCKS_PER_CHUNK
    decreases |bs|
  {
    if bs != [] {
      var b, rest := bs[0], bs[1..];
      var tail := EncodeFrom(b.chunk, rest);
      DecodeEncodeFrom(b.chunk, rest);
      assert ValidBlock(b);
      if b.chunk != last {
        assert EncodeFrom(last, bs) == [b.chunk] + ([b.idx] + tail);
        assert (([b.chunk] + ([b.idx] + tail))[1..]) == [b.idx] + tail;
      } else {
        assert EncodeFrom(last, bs) == [b.idx] + tail;
      }
      assert ([b.idx] + tail)[1..] == tail;
      assert LastChunk(last, bs) == LastChunk(b.chunk, rest);
    }
  }

  /** Decoding undoes encoding, and `n` blocks take at most `2n` entries. */
  lemma DecodeEncode(bs: seq<Block>)
    requires ValidBlocks(bs)
    ensures Decode(Encode(bs)) == bs
    ensures MarkerAfter(0, Encode(bs)) == LastChunk(0, bs)
    ensures |bs| <= |Encode(bs)| <= 2 * |bs|
    ensures forall v :: v in Encode(bs) ==> -32768 <= v < BLOCKS_PER_CHUNK
  {
    DecodeEncodeFrom(0, bs);
  }

  lemma {:induction false} EncodeFromAppend(last: int, a: seq<Block>, b: seq<Block>)
    ensures EncodeFrom(last, a + b) == EncodeFrom(last, a) + EncodeFrom(LastChunk(last, a), b)
    decreases |a|
  {
    if a == [] {
      assert a + b == b;
    } else {
      EncodeFromAppend(a[0].chunk, a[1..], b);
      assert (a + b)[1..] == a[1..] + b;
      assert LastChunk(last, a) == LastChunk(a[0].chunk, a[1..]);
    }
  }

  lemma {:induction false} DecodeFromAppend(last: int, s: seq<int>, t: seq<int>)
    ensures DecodeFrom(last, s + t) == DecodeFrom(last, s) + DecodeFrom(MarkerAfter(last, s), t)
    ensures MarkerAfter(last, s + t) == MarkerAfter(MarkerAfter(last, s), t)
    decreases |s|
  {
    if s == [] {
      assert s + t == t;
    } else {
      DecodeFromAppend(if s[0] < 0 then s[0] else last, s[1..], t);
      assert (s + t)[1..] == s[1..] + t;
    }
  }

  /** Growing an encoded stripe by a batch gives the encoding of the whole list. */
  lemma GrowEncoding(a: seq<Block>, b: seq<Block>)
    requires ValidBlocks(a)
    ensures Encode(a + b) == Encode(a) + EncodeFrom(MarkerAfter(0, Encode(a)), b)
  {
    DecodeEncode(a);
    EncodeFromAppend(0, a, b);
  }

  /** The loop that appends one block at a time. */
  lemma EncodeSnoc(last: int, bs: seq<Block>, b: Block)
    ensures EncodeFrom(last, bs + [b]) ==
      EncodeFrom(last, bs) + (if b.chunk != LastChunk(last, bs) then [b.chunk] else []) + [b.idx]
  {
    EncodeFromAppend(last, bs, [b]);
    assert EncodeFrom(LastChunk(last, bs), [b]) ==
      (if b.chunk != LastChunk(last, bs) then [b.chunk] else []) + [b.idx];
  }

  /** The blocks that a longer sequence names beyond a prefix of it. */
  function Added(s: seq<int>, t: seq<int>): (bs: seq<Block>)
    requires s <= t
  {
    DecodeFrom(MarkerAfter(0, s), t[|s|..])
  }

  /** A sequence longer than its prefix: the entries past `|s|` name exactly the
      blocks that were appended, whichever chunk is in force. */
  lemma DecodeSuffix(s: seq<int>, t: seq<int>)
    requires s <= t
    ensures Decode(t) == Decode(s) + Added(s, t)
    ensures Decode(s) <= Decode(t)
  {
    assert t == s + t[|s|..];
    DecodeFromAppend(0, s, t[|s|..]);
  }

  lemma AddedTwice(s: seq<int>, t: seq<int>, u: seq<int>)
    requires s <= t <= u
    ensures Added(s, u) == Added(s, t) + Added(t, u)
  {
    hide DecodeFrom;
    DecodeSuffix(s, t);
    DecodeSuffix(t, u);
    DecodeSuffix(s, u);
    assert Added(s, u) == Decode(u)[|Decode(s)|..];
    assert Added(s, t) + Added(t, u) == Decode(u)[|Decode(s)|..];
  }

  lemma AddedNothing(s: seq<int>)
    ensures Added(s, s) == []
  {}
}

/** The header block: data length, block count and block sequence as little-endian
    bytes at the start of a stripe's first block (go/shm/protocol.go). */
module Header {
  import opened Layout

  /** Sequence entries that fit behind the eight bytes of counters. */
  const CAPACITY := 2044

  datatype Meta = Meta(dataLen: nat, blockCount: nat, sequence: seq<int>)

  function U16(v: int): (u: nat) { v % 65536 }
  function S16(u: nat): (v: int) { if u < 32768 then u else u - 65536 }
  predicate Int16(v: int) { -32768 <= v < 32768 }

  function Put16(v: nat): (b: seq<Byte>)
    ensures |b| == 2
  {
    [v % 256, v / 256 % 256]
  }
  function Put32(v: nat): (b: seq<Byte>)
    ensures |b| == 4
  {
    Put16(v % 65536) + Put16(v / 65536)
  }
  function Get16(b: seq<Byte>, at: nat): (v: nat)
    requires at + 2 <= |b|
  {
    var low: int, high: int := b[at], b[at + 1];
    low + 256 * high
  }
  function Get32(b: seq<Byte>, at: nat): (v: nat)
    requires at + 4 <= |b|
  {
    Get16(b, at) + 65536 * Get16(b, at + 2)
  }

  function Decode(b: seq<Byte>): (m: Meta)
    requires |b| == BLOCK_SIZE
  {
    Meta(Get32(b, 0), Get16(b, 4),
         seq(Get16(b, 6), i requires 0 <= i =>
           if 8 + 2 * i + 2 <= BLOCK_SIZE then S16(Get16(b, 8 + 2 * i)) else 0))
  }

  lemma PutGet16(v: nat)
    ensures |Put16(v)| == 2 && Get16(Put16(v), 0) == v % 65536
  {}

  lemma PutGet32(v: nat)
    requires v < WRAP
    ensures |Put32(v)| == 4 && Get32(Put32(v), 0) == v
  {
    PutGet16(v % 65536);
    PutGet16(v / 65536);
  }

  lemma SignedRoundTrip(v: int)
    requires Int16(v)
    ensures S16(U16(v) % 65536) == v
  {}

  /** Block bytes `b` hold the header (dataLen, count, s) with the first `n` entries. */
  predicate HoldsUpTo(b: seq<Byte>, dataLen: nat, count: nat, s: seq<int>, n: nat)
  {
    && |b| == BLOCK_SIZE && n <= |s| && n <= CAPACITY
    && b[0..4] == Put32(dataLen) && b[4..6] == Put16(count) && b[6..8] == Put16(|s|)
    && forall i :: 0 <= i < n ==> b[8 + 2 * i..8 + 2 * i + 2] == Put16(U16(s[i]))
  }

  /** ... and all entries that fit. */
  predicate Holds(b: seq<Byte>, dataLen: nat, count: nat, s: seq<int>)
  {
    HoldsUpTo(b, dataLen, count, s, if |s| < CAPACITY then |s| else CAPACITY)
  }

  lemma SliceGet16(b: seq<Byte>, at: nat, v: nat)
    requires at + 2 <= |b| && b[at..at + 2] == Put16(v)
    ensures Get16(b, at) == v % 65536
  {
    PutGet16(v);
    assert b[at..at + 2][0] == b[at] && b[at..at + 2][1] == b[at + 1];
  }

  lemma SliceGet32(b: seq<Byte>, v: nat)
    requires 4 <= |b| && b[0..4] == Put32(v) && v < WRAP
    ensures Get32(b, 0) == v
  {
    PutGet32(v);
    assert b[0..4][0] == b[0] && b[0..4][1] == b[1] && b[0..4][2] == b[2] && b[0..4][3] == b[3];
  }

  /** What a reader gets back: the counters exactly, the entries that fit exactly,
      and zeros for the entries that did not. */
  lemma HeldIsDecoded(b: seq<Byte>, dataLen: nat, count: nat, s: seq<int>)
    requires Holds(b, dataLen, count, s) && dataLen < WRAP && count < 65536 && |s| < 65536
    requires forall i :: 0 <= i < |s| ==> Int16(s[i])
    ensures Decode(b).dataLen == dataLen && Decode(b).blockCount == count
    ensures |Decode(b).sequence| == |s|
    ensures forall i :: 0 <= i < |s| ==> Decode(b).sequence[i] == if i < CAPACITY then s[i] else 0
  {
    SliceGet32(b, dataLen);
    SliceGet16(b, 4, count);
    SliceGet16(b, 6, |s|);
    forall i | 0 <= i < |s| ensures Decode(b).sequence[i] == if i < CAPACITY then s[i] else 0 {
      if i < CAPACITY {
        SliceGet16(b, 8 + 2 * i, U16(s[i]));
        SignedRoundTrip(s[i]);
      }
    }
  }

  /** The header round-trips exactly when every entry past the 2044th is zero. */
  lemma RoundTripIff(b: seq<Byte>, dataLen: nat, count: nat, s: seq<int>)
    requires Holds(b, dataLen, count, s) && dataLen < WRAP && count < 65536 && |s| < 65536
    requires forall i :: 0 <= i < |s| ==> Int16(s[i])
    ensures Decode(b) == Meta(dataLen, count, s) <==> forall i :: CAPACITY <= i < |s| ==> s[i] == 0
  {
    HeldIsDecoded(b, dataLen, count, s);
    if forall i :: CAPACITY <= i < |s| ==> s[i] == 0 {
      assert Decode(b).sequence == s;
    }
  }

  /** Writing the next entry, or the data length alone, keeps what is there. */
  lemma HoldsNext(b: seq<Byte>, b': seq<Byte>, dataLen: nat, count: nat, s: seq<int>, n: nat)
    requires HoldsUpTo(b, dataLen, count, s, n) && n < |s| && n < CAPACITY && |b'| == |b|
    requires b'[..8 + 2 * n] == b[..8 + 2 * n] && b'[8 + 2 * n..8 + 2 * n + 2] == Put16(U16(s[n]))
    ensures HoldsUpTo(b', dataLen, count, s, n + 1)
  {
    var m := 8 + 2 * n;
    assert b'[0..4] == b'[..m][0..4] && b'[4..6] == b'[..m][4..6] && b'[6..8] == b'[..m][6..8];
    assert b[0..4] == b[..m][0..4] && b[4..6] == b[..m][4..6] && b[6..8] == b[..m][6..8];
    forall i | 0 <= i < n ensures b'[8 + 2 * i..8 + 2 * i + 2] == Put16(U16(s[i])) {
      var k := 8 + 2 * i;
      assert b'[k..k + 2] == b'[..m][k..k + 2] && b[k..k + 2] == b[..m][k..k + 2];
    }
  }

  lemma HoldsNewLength(b: seq<Byte>, b': seq<Byte>, dataLen: nat, newLen: nat, count: nat, s: seq<int>)
    requires Holds(b, dataLen, count, s) && |b'| == |b| && b'[0..4] == Put32(newLen) && b'[4..] == b[4..]
    ensures Holds(b', newLen, count, s)
  {
    assert b'[4..6] == b'[4..][0..2] && b'[6..8] == b'[4..][2..4];
    assert b[4..6] == b[4..][0..2] && b[6..8] == b[4..][2..4];
    var n := if |s| < CAPACITY then |s| else CAPACITY;
    forall i | 0 <= i < n ensures b'[8 + 2 * i..8 + 2 * i + 2] == Put16(U16(s[i])) {
      var k := 8 + 2 * i;
      assert b'[k..k + 2] == b'[4..][k - 4..k - 2] && b[k..k + 2] == b[4..][k - 4..k - 2];
    }
  }

  lemma GetPut16(b: seq<Byte>, at: nat)
    requires at + 2 <= |b|
    ensures Put16(Get16(b, at)) == b[at..at + 2] && Get16(b, at) < 65536
  {
    var low: int, high: int := b[at], b[at + 1];
    assert (low + 256 * high) % 256 == low && (low + 256 * high) / 256 == high;
  }

  lemma GetPut32(b: seq<Byte>)
    requires 4 <= |b|
    ensures Put32(Get32(b, 0)) == b[0..4] && Get32(b, 0) < WRAP
  {
    GetPut16(b, 0);
    GetPut16(b, 2);
    var low, high := Get16(b, 0), Get16(b, 2);
    assert (low + 65536 * high) % 65536 == low && (low + 65536 * high) / 65536 == high;
    assert b[0..4] == b[0..2] + b[2..4];
  }

  /** Every block whose sequence length fits holds exactly what it decodes to. */
  lemma DecodedIsHeld(b: seq<Byte>)
    requires |b| == BLOCK_SIZE && |Decode(b).sequence| <= CAPACITY
    ensures var m := Decode(b); Holds(b, m.dataLen, m.blockCount, m.sequence)
    ensures forall i :: 0 <= i < |Decode(b).sequence| ==> Int16(Decode(b).sequence[i])
  {
    hide Put16, Put32, Get32;
    var m := Decode(b);
    GetPut32(b);
    GetPut16(b, 4);
    GetPut16(b, 6);
    forall i | 0 <= i < |m.sequence|
      ensures b[8 + 2 * i..8 + 2 * i + 2] == Put16(U16(m.sequence[i])) && Int16(m.sequence[i])
    {
      GetPut16(b, 8 + 2 * i);
    }
  }
}
