/** Stripes on the bus (go/shm/bus.go, go/hub/conn.go, go/hub/hub.go): allocation,
    growth and the header that every process decodes. */
module HubModel {
  import opened Layout
  import opened Bitmap
  import opened Codec
  import opened Memory
  import opened StripeModel
  import opened BusModel
  import Header

  function SliceOf(chunks: seq<array<Byte>>, b: Block): (r: Slice)
    requires ValidBlock(b) && -1 - b.chunk < |chunks|
  {
    Slice(chunks[-1 - b.chunk], BLOCK_SIZE * b.idx)
  }

  predicate InChunks(bs: seq<Block>, n: nat)
  {
    forall i :: 0 <= i < |bs| ==> ValidBlock(bs[i]) && -1 - bs[i].chunk < n
  }

  /** The windows of a block list. */
  function Slices(chunks: seq<array<Byte>>, bs: seq<Block>): (r: seq<Slice>)
    requires InChunks(bs, |chunks|)
    ensures |r| == |bs| && forall i :: 0 <= i < |bs| ==> r[i] == SliceOf(chunks, bs[i])
  {
    if bs == [] then [] else Slices(chunks, bs[..|bs| - 1]) + [SliceOf(chunks, bs[|bs| - 1])]
  }

  predicate DistinctBlocks(bs: seq<Block>)
  {
    forall i, j :: 0 <= i < j < |bs| ==> bs[i] != bs[j]
  }

  /** Every block of the list is marked used in the bitmap. */
  predicate AllUsed(bm: seq<Word>, bs: seq<Block>)
  {
    forall i :: 0 <= i < |bs| ==>
      ValidBlock(bs[i]) && 0 <= BlockAddress(bs[i]) < 32 * |bm| && Used(bm, BlockAddress(bs[i]))
  }

  ghost predicate ValidChunks(chunks: seq<array<Byte>>)
  {
    && (forall i :: 0 <= i < |chunks| ==> chunks[i].Length == CHUNK_SIZE)
    && forall i, j :: 0 <= i < j < |chunks| ==> chunks[i] != chunks[j]
  }

  lemma UsedInChunks(bm: seq<Word>, bs: seq<Block>, n: nat)
    requires AllUsed(bm, bs) && |bm| == WORDS_PER_CHUNK * n
    ensures InChunks(bs, n)
  {}

  /** Distinct blocks have distinct windows. */
  lemma SlicesValid(chunks: seq<array<Byte>>, bs: seq<Block>)
    requires ValidChunks(chunks) && InChunks(bs, |chunks|) && DistinctBlocks(bs)
    ensures ValidSlices(Slices(chunks, bs))
  {
    hide Slices;
    var r := Slices(chunks, bs);
    forall i, j | 0 <= i < j < |bs| ensures r[i] != r[j] {
      assert bs[i] != bs[j];
      assert r[i] == SliceOf(chunks, bs[i]) && r[j] == SliceOf(chunks, bs[j]);
    }
    forall i | 0 <= i < |bs|
      ensures r[i].off % BLOCK_SIZE == 0 && r[i].off + BLOCK_SIZE <= r[i].data.Length
    {
      assert r[i] == SliceOf(chunks, bs[i]);
    }
  }

  lemma SlicesAppend(chunks: seq<array<Byte>>, chunks': seq<array<Byte>>, a: seq<Block>, b: seq<Block>)
    requires chunks <= chunks' && InChunks(a, |chunks|) && InChunks(b, |chunks'|)
    ensures InChunks(a + b, |chunks'|)
    ensures Slices(chunks', a + b) == Slices(chunks, a) + Slices(chunks', b)
  {
    hide Slices;
    var l, r := Slices(chunks', a + b), Slices(chunks, a) + Slices(chunks', b);
    forall i | 0 <= i < |l| ensures l[i] == r[i] {
      assert l[i] == SliceOf(chunks', (a + b)[i]);
    }
  }

  /** The sequence is the encoding of distinct used blocks, and `blocks` their windows. */
  ghost predicate Listed(bm: seq<Word>, chunks: seq<array<Byte>>, sequence: seq<int>, blockCount: nat,
                         blocks: seq<Slice>)
  {
    var bs := Decode(sequence);
    && AllUsed(bm, bs) && DistinctBlocks(bs) && InChunks(bs, |chunks|)
    && sequence == Encode(bs) && blockCount == |bs| && blocks == Slices(chunks, bs)
  }

  /** The stripe's fields, its header block and the bitmap agree: the sequence is the
      encoding of the stripe's blocks, the windows are those blocks', the blocks are
      marked used, the data fits, and the header holds exactly these fields. */
  ghost predicate Represents(bus: Bus, s: Stripe)
    reads bus, bus.bitmap, s, Arrays(s.blocks)
  {
    && bus.Valid() && s.Valid()
    && Listed(bus.bitmap[..], bus.chunks, s.sequence, s.blockCount, s.blocks)
    && s.dataLen <= s.Capacity()
    && Header.Holds(s.HeaderBytes(), s.dataLen, s.blockCount, s.sequence)
  }

  /** What another process decodes from the header of a stripe of at most 1022 blocks. */
  lemma HeaderDecodes(bus: Bus, s: Stripe)
    requires Represents(bus, s) && (|s.blocks| <= 1022 || (|s.sequence| <= Header.CAPACITY && |s.blocks| < 65536))
    ensures Header.Decode(s.HeaderBytes()) == Header.Meta(s.dataLen, |s.blocks|, s.sequence)
    ensures Decode(Header.Decode(s.HeaderBytes()).sequence) == Decode(s.sequence)
    ensures s.blocks == Slices(bus.chunks, Decode(s.sequence))
  {
    hide Flat, Slices, ValidSlices;
    var bs := Decode(s.sequence);
    assert ValidBlocks(bs);
    DecodeEncode(bs);
    assert forall i :: 0 <= i < |s.sequence| ==> s.sequence[i] in s.sequence;
    Header.RoundTripIff(s.HeaderBytes(), s.dataLen, |bs|, s.sequence);
  }

  /** The loop that appends blocks to a sequence, with a marker at each change of chunk. */
  method AppendToSequence(sequence: seq<int>, blocks: seq<Block>, last: int) returns (r: seq<int>)
    ensures r == sequence + EncodeFrom(last, blocks)
  {
    r := sequence;
    var chunkID := last;
    for i := 0 to |blocks|
      invariant chunkID == LastChunk(last, blocks[..i]) && r == sequence + EncodeFrom(last, blocks[..i])
    {
      EncodeSnoc(last, blocks[..i], blocks[i]);
      assert blocks[..i + 1] == blocks[..i] + [blocks[i]];
      if blocks[i].chunk != chunkID {
        r := r + [blocks[i].chunk];
        chunkID := blocks[i].chunk;
      }
      r := r + [blocks[i].idx];
    }
    assert blocks[..|blocks|] == blocks;
  }

  /** The backward scan for the chunk in force at the end of a sequence. */
  method LastMarker(sequence: seq<int>) returns (m: int)
    ensures m == MarkerAfter(0, sequence)
  {
    var i := |sequence|;
    while i > 0
      invariant 0 <= i <= |sequence|
      invariant forall k :: i <= k < |sequence| ==> sequence[k] >= 0
    {
      i := i - 1;
      if sequence[i] < 0 {
        MarkerIsLastNegative(0, sequence, i);
        return sequence[i];
      }
    }
    NoMarker(0, sequence);
    return 0;
  }

  lemma {:induction false} NoMarker(last: int, s: seq<int>)
    requires forall k :: 0 <= k < |s| ==> s[k] >= 0
    ensures MarkerAfter(last, s) == last
    decreases |s|
  {
    if s != [] { NoMarker(last, s[1..]); }
  }

  lemma MarkerIsLastNegative(last: int, s: seq<int>, i: nat)
    requires i < |s| && s[i] < 0 && forall k :: i < k < |s| ==> s[k] >= 0
    ensures MarkerAfter(last, s) == s[i]
  {
    assert s == s[..i] + s[i..];
    DecodeFromAppend(last, s[..i], s[i..]);
    NoMarker(s[i], s[i..][1..]);
  }

  // ---------- No more distinct blocks than bits ----------

  lemma {:induction false} DistinctBounded(s: seq<nat>, n: nat)
    requires NoDuplicates(s) && forall a :: a in s ==> a < n
    ensures |s| <= n
  {
    if s != [] {
      assert s[0] in s;
      if n - 1 in s {
        var k :| 0 <= k < |s| && s[k] == n - 1;
        var rest := s[..k] + s[k + 1..];
        forall a | a in rest ensures a < n - 1 { assert a in s; }
        DistinctBounded(rest, n - 1);
      } else {
        DistinctBounded(s, n - 1);
      }
    }
  }

  lemma BlocksBounded(bm: seq<Word>, bs: seq<Block>)
    requires AllUsed(bm, bs) && DistinctBlocks(bs)
    ensures |bs| <= 32 * |bm|
  {
    var s := seq(|bs|, i requires 0 <= i < |bs| => BlockAddress(bs[i]));
    forall i, j | 0 <= i < j < |s| ensures s[i] != s[j] {
      AddressRoundTrip(0, bs[i]);
      AddressRoundTrip(0, bs[j]);
    }
    DistinctBounded(s, 32 * |bm|);
  }

  // ---------- What an operation on one stripe leaves alone ----------

  /** The bus as a value: bitmap, chunks and the bytes of the chunks. */
  datatype BusView = BusView(bm: seq<Word>, chunks: seq<array<Byte>>, mem: seq<seq<Byte>>)

  ghost function Look(bus: Bus): (v: BusView)
    reads bus, bus.bitmap, bus.chunks
  {
    BusView(bus.bitmap[..], bus.chunks, Snapshot(bus.chunks))
  }

  function RoomIn(v: BusView, supply: nat): (r: nat) { Room(v.bm, |v.chunks|, supply) }

  /** From `v0` to `v` exactly the blocks of `added` were drawn, and no byte outside the
      windows of `blocks` changed. */
  ghost predicate Confined(v0: BusView, v: BusView, supply: nat, added: seq<Block>, blocks: seq<Slice>)
  {
    && v0.chunks <= v.chunks && Drew(v.bm, |v.chunks|, v0.bm, |v0.chunks|, supply, added)
    && OnlyIn(v0.mem, v.mem, v.chunks, blocks)
  }

  /** How many chunks the operating system is still willing to create. */
  function Left(v0: BusView, v: BusView, supply: nat): (r: nat)
  {
    var grown := |v.chunks| - |v0.chunks|;
    if 0 <= grown <= supply then supply - grown else 0
  }

  lemma ConfinedTwice(v0: BusView, v1: BusView, v2: BusView, supply: nat, a: seq<Block>, b: seq<Block>,
                      blocks1: seq<Slice>, blocks2: seq<Slice>)
    requires Confined(v0, v1, supply, a, blocks1) && Confined(v1, v2, Left(v0, v1, supply), b, blocks2) &&
      blocks1 <= blocks2
    ensures Confined(v0, v2, supply, a + b, blocks2) && Left(v0, v2, supply) == Left(v1, v2, Left(v0, v1, supply))
  {
    hide Took, Room, OnlyIn;
    DrewTwice(v2.bm, |v2.chunks|, v1.bm, |v1.chunks|, v0.bm, |v0.chunks|, supply, a, b);
    OnlyInTwice(v0.mem, v1.mem, v2.mem, v1.chunks, v2.chunks, blocks1, blocks2);
  }

  /** A change of bytes only. */
  lemma ConfinedWrite(v0: BusView, v: BusView, supply: nat, blocks: seq<Slice>)
    requires v.bm == v0.bm && v.chunks == v0.chunks && OnlyIn(v0.mem, v.mem, v.chunks, blocks)
    ensures Confined(v0, v, supply, [], blocks)
  {
    DrewNothing(v.bm, |v.chunks|, supply);
  }

  lemma ConfinedRoom(v0: BusView, v: BusView, supply: nat, added: seq<Block>, blocks: seq<Slice>)
    requires Confined(v0, v, supply, added, blocks)
    ensures RoomIn(v, Left(v0, v, supply)) == RoomIn(v0, supply) - |added|
  {
    hide Took, OnlyIn;
  }

  // ---------- Growing a stripe ----------

  lemma AllUsedLater(bm: seq<Word>, bm0: seq<Word>, bs: seq<Block>)
    requires AllUsed(bm0, bs) && |bm0| <= |bm|
    requires forall a :: 0 <= a < 32 * |bm0| && Used(bm0, a) ==> Used(bm, a)
    ensures AllUsed(bm, bs)
  {}

  /** The list of a grown stripe: the old blocks followed by those just allocated. */
  lemma ListedGrows(bm: seq<Word>, bm0: seq<Word>, chunks: seq<array<Byte>>, chunks0: seq<array<Byte>>,
                    sequence: seq<int>, blockCount: nat, blocks: seq<Slice>, more: seq<Block>)
    requires Listed(bm0, chunks0, sequence, blockCount, blocks) && chunks0 <= chunks
    requires |bm| == WORDS_PER_CHUNK * |chunks| && |bm0| <= |bm| && ValidChunks(chunks)
    requires forall a :: 0 <= a < 32 * |bm0| && Used(bm0, a) ==> Used(bm, a)
    requires AllUsed(bm, more) && DistinctBlocks(more)
    requires forall i :: 0 <= i < |more| && BlockAddress(more[i]) < 32 * |bm0| ==> !Used(bm0, BlockAddress(more[i]))
    ensures InChunks(more, |chunks|)
    ensures Listed(bm, chunks, sequence + EncodeFrom(MarkerAfter(0, sequence), more),
                   blockCount + |more|, blocks + Slices(chunks, more))
    ensures ValidSlices(blocks + Slices(chunks, more))
    ensures blockCount + |more| == |blocks + Slices(chunks, more)| <= 32 * |bm|
  {
    hide Slices, Encode, DecodeFrom;
    var bs := Decode(sequence);
    var all := bs + more;
    AllUsedLater(bm, bm0, bs);
    UsedInChunks(bm, more, |chunks|);
    assert DistinctBlocks(all) by {
      forall i, j | 0 <= i < j < |all| ensures all[i] != all[j] {
        if i < |bs| <= j { assert all[j] == more[j - |bs|]; }
      }
    }
    assert AllUsed(bm, all);
    GrowEncoding(bs, more);
    DecodeEncode(all);
    SlicesAppend(chunks0, chunks, bs, more);
    SlicesValid(chunks, all);
    BlocksBounded(bm, all);
  }

  lemma TookKeepsUsed(bm: seq<Word>, bm0: seq<Word>, more: seq<Block>)
    requires Took(bm, bm0, more)
    ensures |bm0| <= |bm| && forall a :: 0 <= a < 32 * |bm0| && Used(bm0, a) ==> Used(bm, a)
  {
    forall a | 0 <= a < 32 * |bm0| && Used(bm0, a) ensures Used(bm, a) { assert UsedIn(bm0, a); }
  }

  /** Drawing blocks and adding chunks keeps every stripe listed. */
  lemma ListedKept(bm: seq<Word>, bm0: seq<Word>, more: seq<Block>, chunks: seq<array<Byte>>, chunks0: seq<array<Byte>>,
                   sequence: seq<int>, blockCount: nat, blocks: seq<Slice>)
    requires Listed(bm0, chunks0, sequence, blockCount, blocks) && chunks0 <= chunks && Took(bm, bm0, more)
    ensures Listed(bm, chunks, sequence, blockCount, blocks)
  {
    hide Encode, DecodeFrom, Took;
    TookKeepsUsed(bm, bm0, more);
    AllUsedLater(bm, bm0, Decode(sequence));
    SlicesAppend(chunks0, chunks, Decode(sequence), []);
    assert Decode(sequence) + [] == Decode(sequence);
  }

  /** The fields of `s` extended by the blocks of `more` would be a well-listed stripe. */
  ghost predicate CanExtend(bus: Bus, s: Stripe, more: seq<Block>)
    reads bus, bus.bitmap, s
  {
    && InChunks(more, |bus.chunks|)
    && Listed(bus.bitmap[..], bus.chunks, s.sequence + EncodeFrom(MarkerAfter(0, s.sequence), more),
              s.blockCount + |more|, s.blocks + Slices(bus.chunks, more))
    && ValidSlices(s.blocks + Slices(bus.chunks, more))
    && s.blockCount + |more| == |s.blocks + Slices(bus.chunks, more)| <= 65536
  }

  /** The allocation on behalf of a stripe; the stripe itself is not touched yet. */
  method AllocFor(bus: Bus, s: Stripe, count: nat, supply: nat) returns (ok: bool, more: seq<Block>)
    requires Represents(bus, s)
    modifies bus, bus.bitmap
    ensures bus.Valid() && old(bus.chunks) <= bus.chunks && fresh(bus.chunks[|old(bus.chunks)|..])
    ensures bus.bitmap == old(bus.bitmap) || fresh(bus.bitmap)
    ensures ok <==> 1 <= count <= Room(old(bus.bitmap[..]), |old(bus.chunks)|, supply)
    ensures Drew(bus.bitmap[..], |bus.chunks|, old(bus.bitmap[..]), |old(bus.chunks)|, supply, more)
    ensures Flat(s.blocks) == old(Flat(s.blocks))
    ensures !ok ==> Represents(bus, s) && more == []
    ensures ok ==> |more| == count && CanExtend(bus, s, more)
  {
    hide ValidSlices, Slices, Listed, Offer, Acquired, Header.Holds, EncodeFrom, Room, Took;
    ghost var bm0, start, chunks0 := bus.bitmap[..], bus.lastSearchPos, bus.chunks;
    ok, more := bus.AllocBlocks(count, supply);
    ghost var grown := |bus.chunks| - |chunks0|;
    if !ok {
      ListedKept(bus.bitmap[..], bm0, [], bus.chunks, chunks0, s.sequence, s.blockCount, s.blocks);
    } else {
      AllocatedBlocks(bus.bitmap[..], bm0, start, grown, count, First(count, Offer(bm0, start, grown)),
                      bus.lastSearchPos);
      ListedGrows(bus.bitmap[..], bm0, bus.chunks, chunks0, s.sequence, s.blockCount, s.blocks, more);
    }
  }

  /** A write that stays within a stripe's windows, seen over all chunks. */
  lemma UntouchedIsOnlyIn(mem0: seq<seq<Byte>>, chunks: seq<array<Byte>>, blocks: seq<Slice>)
    requires |mem0| == |chunks|
    requires forall k :: 0 <= k < |chunks| ==> |mem0[k]| == chunks[k].Length
    requires forall k, x :: 0 <= k < |chunks| && 0 <= x < chunks[k].Length && Outside(blocks, chunks[k], x) ==>
      chunks[k][x] == mem0[k][x]
    ensures OnlyIn(mem0, Snapshot(chunks), chunks, blocks)
  {
    hide Outside;
    var mem := Snapshot(chunks);
    forall k, x | 0 <= k < |mem0| && 0 <= x < |mem0[k]| && Outside(blocks, chunks[k], x)
      ensures mem[k][x] == mem0[k][x]
    {
      assert mem[k] == chunks[k][..];
    }
  }

  /** Appends the blocks to the stripe and rewrites its header. */
  method Extend(bus: Bus, s: Stripe, more: seq<Block>)
    requires bus.Valid() && s.Valid() && s.dataLen <= s.Capacity() && CanExtend(bus, s, more)
    modifies s, s.blocks[0].data
    ensures Represents(bus, s) && s.dataLen == old(s.dataLen)
    ensures |s.blocks| == |old(s.blocks)| + |more|
    ensures old(s.blocks) <= s.blocks && old(s.sequence) <= s.sequence && Added(old(s.sequence), s.sequence) == more
    ensures s.User()[..old(s.Capacity())] == old(s.User())
    ensures OnlyIn(old(Snapshot(bus.chunks)), Snapshot(bus.chunks), bus.chunks, s.blocks)
  {
    hide ValidSlices, Slices, Listed, Header.Holds, Outside, EncodeFrom, DecodeFrom, OnlyIn;
    var last := LastMarker(s.sequence);
    var sequence := AppendToSequence(s.sequence, more, last);
    AddedIs(s.sequence, more);
    var added := Slices(bus.chunks, more);
    FlatPrefix(s.blocks, added);
    ghost var before, mem0 := Flat(s.blocks + added), Snapshot(bus.chunks);
    assert before[BLOCK_SIZE..][..BLOCK_SIZE * (|s.blocks| - 1)] == before[..BLOCK_SIZE * |s.blocks|][BLOCK_SIZE..];
    s.sequence, s.blocks, s.blockCount := sequence, s.blocks + added, s.blockCount + |more|;
    assert Flat(s.blocks) == before;
    WriteHeader(bus, s, mem0);
  }

  /** Rewrites the header block, with the bytes of all chunks accounted for. */
  method WriteHeader(ghost bus: Bus, s: Stripe, ghost mem0: seq<seq<Byte>>)
    requires bus.Valid() && s.Valid() && mem0 == Snapshot(bus.chunks)
    modifies s.blocks[0].data
    ensures s.User() == old(s.User()) && Header.Holds(s.HeaderBytes(), s.dataLen, s.blockCount, s.sequence)
    ensures OnlyIn(mem0, Snapshot(bus.chunks), bus.chunks, s.blocks)
  {
    hide Flat, ValidSlices, Header.Holds, Outside, OnlyIn;
    s.UpdateStripeHeader();
    forall k, x | 0 <= k < |bus.chunks| && 0 <= x < bus.chunks[k].Length && Outside(s.blocks, bus.chunks[k], x)
      ensures bus.chunks[k][x] == mem0[k][x]
    {
      assert mem0[k][x] == old(bus.chunks[k][x]);
      if bus.chunks[k] == s.blocks[0].data { assert bus.chunks[k] in Arrays(s.blocks); }
    }
    UntouchedIsOnlyIn(mem0, bus.chunks, s.blocks);
  }

  lemma AddedIs(sequence: seq<int>, more: seq<Block>)
    requires ValidBlocks(more)
    ensures Added(sequence, sequence + EncodeFrom(MarkerAfter(0, sequence), more)) == more
  {
    var rest := EncodeFrom(MarkerAfter(0, sequence), more);
    assert (sequence + rest)[|sequence|..] == rest;
    DecodeEncodeFrom(MarkerAfter(0, sequence), more);
  }

  /** Adds `count` freshly allocated blocks to the end of a stripe. On failure nothing of
      the stripe changes; on success its bytes and length stay and its capacity grows. No
      byte outside the stripe's windows changes, and no bit but those of the new blocks. */
  method AllocBlocksForStripe(bus: Bus, s: Stripe, count: nat, supply: nat) returns (ok: bool)
    requires Represents(bus, s)
    modifies bus, bus.bitmap, s, s.blocks[0].data
    ensures Represents(bus, s) && s.dataLen == old(s.dataLen)
    ensures ok <==> 1 <= count <= RoomIn(old(Look(bus)), supply)
    ensures old(bus.chunks) <= bus.chunks && fresh(bus.chunks[|old(bus.chunks)|..])
    ensures bus.bitmap == old(bus.bitmap) || fresh(bus.bitmap)
    ensures !ok ==> s.blocks == old(s.blocks) && s.sequence == old(s.sequence) && Flat(s.blocks) == old(Flat(s.blocks))
    ensures ok ==> |s.blocks| == |old(s.blocks)| + count
    ensures old(s.blocks) <= s.blocks && old(s.sequence) <= s.sequence
    ensures s.User()[..old(s.Capacity())] == old(s.User())
    ensures Confined(old(Look(bus)), Look(bus), supply, Added(old(s.sequence), s.sequence), s.blocks)
  {
    hide Flat, ValidSlices, Slices, Listed, Header.Holds, EncodeFrom, DecodeFrom, Drew, CanExtend, Outside;
    ghost var mem0 := Snapshot(bus.chunks);
    var more;
    ok, more := AllocFor(bus, s, count, supply);
    ghost var mem1, chunks1, blocks1 := Snapshot(bus.chunks), bus.chunks, s.blocks;
    assert OnlyIn(mem0, mem1, chunks1, blocks1) by { assert forall k :: 0 <= k < |mem0| ==> mem0[k] == mem1[k]; }
    if ok {
      Extend(bus, s, more);
      OnlyInTwice(mem0, mem1, Snapshot(bus.chunks), chunks1, bus.chunks, blocks1, s.blocks);
    } else {
      AddedNothing(s.sequence);
    }
  }

  // ---------- Creating and freeing a stripe ----------

  lemma ListedFresh(bm: seq<Word>, chunks: seq<array<Byte>>, bs: seq<Block>)
    requires ValidChunks(chunks) && |bm| == WORDS_PER_CHUNK * |chunks| && AllUsed(bm, bs) && DistinctBlocks(bs)
    ensures InChunks(bs, |chunks|) && Listed(bm, chunks, Encode(bs), |bs|, Slices(chunks, bs))
    ensures ValidSlices(Slices(chunks, bs)) && |bs| <= 32 * |bm|
  {
    UsedInChunks(bm, bs, |chunks|);
    DecodeEncode(bs);
    SlicesValid(chunks, bs);
    BlocksBounded(bm, bs);
  }

  /** Builds the stripe of freshly allocated blocks and writes its header. */
  method NewStripe(bus: Bus, bs: seq<Block>) returns (s: Stripe)
    requires bus.Valid() && AllUsed(bus.bitmap[..], bs) && DistinctBlocks(bs) && bs != []
    modifies bus.chunks
    ensures fresh(s) && Represents(bus, s) && s.dataLen == 0
    ensures Decode(s.sequence) == bs && |s.blocks| == |bs|
    ensures OnlyIn(old(Snapshot(bus.chunks)), Snapshot(bus.chunks), bus.chunks, s.blocks)
  {
    hide Flat, ValidSlices, Slices, Listed, Header.Holds, EncodeFrom, AllUsed, DistinctBlocks, OnlyIn;
    ghost var mem0 := Snapshot(bus.chunks);
    ListedFresh(bus.bitmap[..], bus.chunks, bs);
    assert ValidBlocks(bs) by { UsedAreValid(bus.bitmap[..], bs); }
    DecodeEncode(bs);
    var sequence := AppendToSequence([], bs, 0);
    assert sequence == Encode(bs);
    s := new Stripe(sequence, |bs|, Slices(bus.chunks, bs), 0);
    assert s.blocks[0].data in bus.chunks by { assert s.blocks[0] == SliceOf(bus.chunks, bs[0]); }
    assert Snapshot(bus.chunks) == mem0;
    WriteHeader(bus, s, mem0);
  }

  lemma UsedAreValid(bm: seq<Word>, bs: seq<Block>)
    requires AllUsed(bm, bs)
    ensures ValidBlocks(bs)
  {}

  lemma OldOrNew(chunks: seq<array<Byte>>, all: seq<array<Byte>>)
    requires chunks <= all
    ensures forall i :: 0 <= i < |all| ==>
      (exists k :: 0 <= k < |chunks| && all[i] == chunks[k]) || all[i] in all[|chunks|..]
  {
    assert all == chunks + all[|chunks|..];
  }

  /** The allocation for a new stripe, with what it leaves alone. */
  method DrawBlocks(bus: Bus, count: nat, supply: nat) returns (ok: bool, bs: seq<Block>)
    requires bus.Valid()
    modifies bus, bus.bitmap
    ensures bus.Valid() && old(bus.chunks) <= bus.chunks && fresh(bus.chunks[|old(bus.chunks)|..])
    ensures bus.bitmap == old(bus.bitmap) || fresh(bus.bitmap)
    ensures ok <==> 1 <= count <= Room(old(bus.bitmap[..]), |old(bus.chunks)|, supply)
    ensures Drew(bus.bitmap[..], |bus.chunks|, old(bus.bitmap[..]), |old(bus.chunks)|, supply, bs)
    ensures OnlyIn(old(Snapshot(bus.chunks)), Snapshot(bus.chunks), bus.chunks, [])
    ensures AllUsed(bus.bitmap[..], bs) && DistinctBlocks(bs) && |bs| == if ok then count else 0
    ensures ok ==>
      var bm0, grown := old(bus.bitmap[..]), |bus.chunks| - |old(bus.chunks)|;
      && bs == Blocks(First(count, Offer(bm0, old(bus.lastSearchPos), grown)))
      && (grown > 0 ==> count > |Offer(bm0, old(bus.lastSearchPos), grown - 1)|)
  {
    hide Offer, Marked, First, Blocks, Drew, Room, Outside;
    ghost var bm0, start, chunks0, mem0 := bus.bitmap[..], bus.lastSearchPos, bus.chunks, Snapshot(bus.chunks);
    ok, bs := bus.AllocBlocks(count, supply);
    ghost var mem1, grown := Snapshot(bus.chunks), |bus.chunks| - |chunks0|;
    assert forall k :: 0 <= k < |mem0| ==> mem0[k] == mem1[k];
    if ok {
      AllocatedBlocks(bus.bitmap[..], bm0, start, grown, count, First(count, Offer(bm0, start, grown)),
                      bus.lastSearchPos);
    }
  }

  /** Allocates a stripe of `blockCount` blocks with an empty data part. */
  method AllocStripe(bus: Bus, blockCount: nat, supply: nat) returns (ok: bool, s: Stripe?)
    requires bus.Valid()
    modifies bus, bus.bitmap, bus.chunks
    ensures bus.Valid() && old(bus.chunks) <= bus.chunks && fresh(bus.chunks[|old(bus.chunks)|..])
    ensures bus.bitmap == old(bus.bitmap) || fresh(bus.bitmap)
    ensures ok <==> 1 <= blockCount <= RoomIn(old(Look(bus)), supply)
    ensures ok <==> s != null
    ensures Confined(old(Look(bus)), Look(bus), supply,
                     if s == null then [] else Decode(s.sequence), if s == null then [] else s.blocks)
    ensures ok ==>
      && fresh(s) && Represents(bus, s) && s.dataLen == 0 && |s.blocks| == blockCount
      && var bm0, grown := old(bus.bitmap[..]), |bus.chunks| - |old(bus.chunks)|;
      && Decode(s.sequence) == Blocks(First(blockCount, Offer(bm0, old(bus.lastSearchPos), grown)))
      && (grown > 0 ==> blockCount > |Offer(bm0, old(bus.lastSearchPos), grown - 1)|)
  {
    hide Represents, DecodeFrom, Offer, First, Blocks, Drew, Room, OnlyIn, AllUsed, DistinctBlocks, Snapshot, Confined;
    ghost var v0 := Look(bus);
    var bs;
    ok, bs := DrawBlocks(bus, blockCount, supply);
    ghost var v1 := Look(bus);
    if !ok {
      ConfinedDraw(v0, v1, v1, supply, bs, []);
      return false, null;
    }
    OldOrNew(old(bus.chunks), bus.chunks);
    s := NewStripe(bus, bs);
    ConfinedDraw(v0, v1, Look(bus), supply, bs, s.blocks);
  }

  /** Blocks that were drawn, and then written, or not. */
  lemma ConfinedDraw(v0: BusView, v1: BusView, v: BusView, supply: nat, bs: seq<Block>, blocks: seq<Slice>)
    requires v0.chunks <= v1.chunks && OnlyIn(v0.mem, v1.mem, v1.chunks, []) && v.bm == v1.bm && v.chunks == v1.chunks
    requires Drew(v1.bm, |v1.chunks|, v0.bm, |v0.chunks|, supply, bs)
    requires v.mem == v1.mem || OnlyIn(v1.mem, v.mem, v.chunks, blocks)
    ensures Confined(v0, v, supply, bs, blocks)
  {
    hide Drew;
    if v.mem == v1.mem { assert OnlyIn(v1.mem, v.mem, v.chunks, blocks); }
    OnlyInTwice(v0.mem, v1.mem, v.mem, v1.chunks, v.chunks, [], blocks);
  }

  /** `bm` is `before` with exactly the blocks of the list freed. */
  predicate Released(bm: seq<Word>, before: seq<Word>, bs: seq<Block>)
  {
    && |bm| == |before|
    && forall a :: 0 <= a < 32 * |bm| ==> (Used(bm, a) <==> Used(before, a) && !Holding(bs, a))
  }

  lemma ReleaseOne(bm: seq<Word>, before: seq<Word>, bm0: seq<Word>, bs: seq<Block>, b: Block)
    requires Released(before, bm0, bs) && ValidBlock(b) && Cleared(bm, before, BlockAddress(b))
    ensures Released(bm, bm0, bs + [b])
  {
    forall a | 0 <= a < 32 * |bm| ensures Holding(bs + [b], a) <==> Holding(bs, a) || a == BlockAddress(b) {
      if Holding(bs, a) {
        var i :| 0 <= i < |bs| && ValidBlock(bs[i]) && BlockAddress(bs[i]) == a;
        assert (bs + [b])[i] == bs[i];
      }
      assert (bs + [b])[|bs|] == b;
    }
  }

  /** Decoding one entry more. */
  lemma DecodeSnoc(last: int, s: seq<int>, v: int)
    ensures var m, bs := MarkerAfter(last, s), DecodeFrom(last, s);
      && DecodeFrom(last, s + [v]) == (if v < 0 then bs else bs + [Block(m, v)])
      && MarkerAfter(last, s + [v]) == if v < 0 then v else m
  {
    DecodeFromAppend(last, s, [v]);
    assert [v][1..] == [];
  }

  /** Frees exactly the blocks that the sequence lists. */
  method FreeStripe(bus: Bus, sequence: seq<int>)
    requires ValidBlocks(Decode(sequence))
    modifies bus.bitmap
    ensures Released(bus.bitmap[..], old(bus.bitmap[..]), Decode(sequence))
  {
    hide Released, Cleared, DecodeFrom, MarkerAfter, ValidBlock;
    ghost var bm0 := bus.bitmap[..];
    var chunkID := 0;
    assert sequence[..0] == [];
    NothingReleased(bm0);
    for i := 0 to |sequence|
      invariant chunkID == MarkerAfter(0, sequence[..i])
      invariant Released(bus.bitmap[..], bm0, Decode(sequence[..i]))
    {
      assert sequence[..i + 1] == sequence[..i] + [sequence[i]];
      DecodeSnoc(0, sequence[..i], sequence[i]);
      if sequence[i] < 0 {
        chunkID := sequence[i];
        continue;
      }
      DecodeSuffix(sequence[..i + 1], sequence);
      ghost var before, b := bus.bitmap[..], Block(chunkID, sequence[i]);
      assert ValidBlock(b) by { assert Decode(sequence)[|Decode(sequence[..i])|] == b; }
      bus.FreeBlock(Block(chunkID, sequence[i]));
      ReleaseOne(bus.bitmap[..], before, bm0, Decode(sequence[..i]), b);
    }
    assert sequence[..|sequence|] == sequence;
  }

  lemma NothingReleased(bm: seq<Word>)
    ensures Released(bm, bm, Decode([])) && MarkerAfter(0, []) == 0
  {}

  /** Conservation: freeing what an allocation took gives back the bitmap from before,
      up to the chunks that were added. */
  lemma FreeUndoesAlloc(bm2: seq<Word>, bm1: seq<Word>, bm0: seq<Word>, taken: seq<nat>)
    requires Marked(bm1, bm0, taken) && Released(bm2, bm1, Blocks(taken)) && |bm0| <= WORDS_PER_CHUNK * MAX_CHUNKS
    requires forall a :: a in taken ==> a < 32 * |bm0| && !Used(bm0, a)
    ensures Marked(bm2, bm0, [])
  {
    var bs := Blocks(taken);
    forall a | 0 <= a < 32 * |bm0| ensures Used(bm2, a) <==> Used(bm0, a) {
      if a in taken {
        var i :| 0 <= i < |taken| && taken[i] == a;
        AddressRoundTrip(a, bs[i]);
        assert Holding(bs, a);
      } else if Holding(bs, a) {
        var i :| 0 <= i < |bs| && ValidBlock(bs[i]) && BlockAddress(bs[i]) == a;
        assert taken[i] in taken;
        AddressRoundTrip(taken[i], bs[i]);
      }
    }
  }

  // ---------- One stripe beside another ----------

  predicate Apart(a: seq<Slice>, b: seq<Slice>)
  {
    forall i, j :: 0 <= i < |a| && 0 <= j < |b| ==> a[i] != b[j]
  }

  /** Blocks that were drawn get windows apart from those of every stripe listed before. */
  lemma FreshIsApart(bm: seq<Word>, bm0: seq<Word>, chunks0: seq<array<Byte>>, chunks: seq<array<Byte>>,
                     sequence: seq<int>, blockCount: nat, blocks: seq<Slice>, more: seq<Block>)
    requires Listed(bm0, chunks0, sequence, blockCount, blocks) && chunks0 <= chunks && ValidChunks(chunks)
    requires Took(bm, bm0, more) && InChunks(more, |chunks|)
    ensures Apart(Slices(chunks, more), blocks)
  {
    hide Encode, DecodeFrom, Slices;
    var bs, r := Decode(sequence), Slices(chunks, more);
    forall i, j | 0 <= i < |r| && 0 <= j < |blocks| ensures r[i] != blocks[j] {
      assert blocks[j] == SliceOf(chunks, bs[j]) && r[i] == SliceOf(chunks, more[i]);
      assert UsedIn(bm0, BlockAddress(bs[j])) && !UsedIn(bm0, BlockAddress(more[i]));
      assert bs[j] != more[i];
    }
  }

  /** Freeing one stripe leaves every stripe with windows apart from it listed. */
  lemma ReleaseKeepsOthers(bm: seq<Word>, bm0: seq<Word>, chunks: seq<array<Byte>>, s: seq<int>, n: nat,
                           blocks: seq<Slice>, t: seq<int>, m: nat, others: seq<Slice>)
    requires Listed(bm0, chunks, s, n, blocks) && Listed(bm0, chunks, t, m, others) && Apart(blocks, others)
    requires Released(bm, bm0, Decode(s)) && ValidChunks(chunks)
    ensures Listed(bm, chunks, t, m, others)
  {
    hide Encode, DecodeFrom, Slices;
    var bs, os := Decode(s), Decode(t);
    forall i, j | 0 <= i < |bs| && 0 <= j < |os| ensures BlockAddress(bs[i]) != BlockAddress(os[j]) {
      AddressRoundTrip(0, bs[i]);
      AddressRoundTrip(0, os[j]);
      assert blocks[i] == SliceOf(chunks, bs[i]) && others[j] == SliceOf(chunks, os[j]);
    }
    assert forall j :: 0 <= j < |os| ==> !Holding(bs, BlockAddress(os[j]));
  }

  /** `f` is the flat array of the windows as they are in `mem`. */
  ghost predicate FlatIn(f: seq<Byte>, mem: seq<seq<Byte>>, chunks: seq<array<Byte>>, blocks: seq<Slice>)
  {
    && |f| == BLOCK_SIZE * |blocks| && |mem| == |chunks|
    && forall p, k :: 0 <= p < |f| && 0 <= k < |chunks| && chunks[k] == blocks[p / BLOCK_SIZE].data ==>
         blocks[p / BLOCK_SIZE].off + p % BLOCK_SIZE < |mem[k]|
         && f[p] == mem[k][blocks[p / BLOCK_SIZE].off + p % BLOCK_SIZE]
  }

  lemma FlatInNow(chunks: seq<array<Byte>>, blocks: seq<Slice>)
    requires ValidSlices(blocks)
    ensures FlatIn(Flat(blocks), Snapshot(chunks), chunks, blocks)
  {}

  /** Writing inside one stripe's windows leaves the bytes of every stripe apart from it. */
  lemma WriteKeepsOthers(f: seq<Byte>, mem0: seq<seq<Byte>>, chunks0: seq<array<Byte>>, chunks: seq<array<Byte>>,
                         mine: seq<Slice>, others: seq<Slice>)
    requires ValidSlices(mine) && ValidSlices(others) && Apart(mine, others) && chunks0 <= chunks
    requires FlatIn(f, mem0, chunks0, others) && OnlyIn(mem0, Snapshot(chunks), chunks, mine)
    requires forall j :: 0 <= j < |others| ==> others[j].data in chunks0
    ensures Flat(others) == f
  {
    hide Snapshot;
    var mem := Snapshot(chunks);
    forall p | 0 <= p < BLOCK_SIZE * |others| ensures Flat(others)[p] == f[p] {
      var w := others[p / BLOCK_SIZE];
      var x := w.off + p % BLOCK_SIZE;
      var k :| 0 <= k < |chunks0| && chunks0[k] == w.data;
      OutsideOthers(mine, others, p / BLOCK_SIZE, x);
      assert chunks[k] == w.data && mem[k] == chunks[k][..];
      assert mem[k][x] == mem0[k][x];
    }
  }

  lemma OutsideOthers(mine: seq<Slice>, others: seq<Slice>, j: nat, x: nat)
    requires ValidSlices(mine) && ValidSlices(others) && Apart(mine, others) && j < |others|
    requires others[j].off <= x < others[j].off + BLOCK_SIZE
    ensures Outside(mine, others[j].data, x)
  {
    forall i | 0 <= i < |mine| && mine[i].data == others[j].data
      ensures x < mine[i].off || mine[i].off + BLOCK_SIZE <= x
    {
      assert mine[i] != others[j];
      WindowsApart(mine[i].off, others[j].off);
    }
  }

  /** A stripe apart from the one that was worked on is represented as before. */
  lemma StaysRepresented(bus: Bus, t: Stripe, f: seq<Byte>, mem0: seq<seq<Byte>>, bm0: seq<Word>,
                         chunks0: seq<array<Byte>>, mine: seq<Slice>)
    requires bus.Valid() && t.Valid() && t.dataLen <= t.Capacity() && ValidSlices(mine) && Apart(mine, t.blocks)
    requires chunks0 <= bus.chunks && FlatIn(f, mem0, chunks0, t.blocks)
    requires Listed(bm0, chunks0, t.sequence, t.blockCount, t.blocks)
    requires Listed(bus.bitmap[..], bus.chunks, t.sequence, t.blockCount, t.blocks)
    requires Header.Holds(f[..BLOCK_SIZE], t.dataLen, t.blockCount, t.sequence)
    requires OnlyIn(mem0, Snapshot(bus.chunks), bus.chunks, mine)
    ensures Represents(bus, t) && Flat(t.blocks) == f
  {
    hide Flat, Header.Holds, OnlyIn, FlatIn, ValidSlices;
    InListedChunks(bm0, chunks0, t.sequence, t.blockCount, t.blocks);
    WriteKeepsOthers(f, mem0, chunks0, bus.chunks, mine, t.blocks);
  }

  lemma InListedChunks(bm: seq<Word>, chunks: seq<array<Byte>>, sequence: seq<int>, blockCount: nat, blocks: seq<Slice>)
    requires Listed(bm, chunks, sequence, blockCount, blocks)
    ensures forall j :: 0 <= j < |blocks| ==> blocks[j].data in chunks
  {
    hide Slices, DecodeFrom, Encode;
    var bs := Decode(sequence);
    forall j | 0 <= j < |blocks| ensures blocks[j].data in chunks { assert blocks[j] == SliceOf(chunks, bs[j]); }
  }

  // ---------- The header as the other processes use it ----------

  /** Decodes a header block; entries past the end of the block stay zero. */
  method DecodeHeader(h: Slice) returns (m: Header.Meta)
    requires ValidSlices([h])
    ensures m == Header.Decode(BlockBytes(h))
  {
    ghost var b := BlockBytes(h);
    assert [h][0] == h;
    var dataLen := Header.Get32(h.data[h.off..h.off + BLOCK_SIZE], 0);
    var blkCnt := Header.Get16(h.data[h.off..h.off + BLOCK_SIZE], 4);
    var seqLen := Header.Get16(h.data[h.off..h.off + BLOCK_SIZE], 6);
    var entries := seq(seqLen, i => 0);
    for i := 0 to seqLen
      invariant |entries| == seqLen && i <= Header.CAPACITY
      invariant forall k :: 0 <= k < i ==> entries[k] == Header.Decode(b).sequence[k]
      invariant forall k :: i <= k < seqLen ==> entries[k] == 0
    {
      var off := 8 + i * 2;
      if off + 2 > BLOCK_SIZE { break; }
      entries := entries[i := Header.S16(Header.Get16(h.data[h.off..h.off + BLOCK_SIZE], off))];
    }
    assert entries == Header.Decode(b).sequence;
    m := Header.Meta(dataLen, blkCnt, entries);
  }

  ghost function BlockBytes(h: Slice): (b: seq<Byte>)
    requires ValidSlices([h])
    reads h.data
    ensures |b| == BLOCK_SIZE
  {
    assert [h][0] == h;
    h.data[h.off..h.off + BLOCK_SIZE]
  }

  /** The windows that a sequence names, or none if it names a chunk that is not there. */
  function Windows(chunks: seq<array<Byte>>, sequence: seq<int>): (r: seq<Slice>)
  {
    if InChunks(Decode(sequence), |chunks|) then Slices(chunks, Decode(sequence)) else []
  }

  /** Block bytes `b` at `h` are the header of a stripe: what they decode to lists used
      blocks of which `h` is the first, and the data fits. */
  ghost predicate HeaderOf(bm: seq<Word>, chunks: seq<array<Byte>>, b: seq<Byte>, h: Slice)
    requires |b| == BLOCK_SIZE
  {
    var m := Header.Decode(b); var ws := Windows(chunks, m.sequence);
    && |m.sequence| <= Header.CAPACITY && ws != [] && ws[0] == h
    && Listed(bm, chunks, m.sequence, m.blockCount, ws)
    && m.dataLen <= BLOCK_SIZE * (m.blockCount - 1)
  }

  ghost predicate Shared(bus: Bus, h: Slice)
    reads bus, bus.bitmap, h.data
  {
    bus.Valid() && ValidSlices([h]) && HeaderOf(bus.bitmap[..], bus.chunks, BlockBytes(h), h)
  }

  lemma FirstWindow(blocks: seq<Slice>)
    requires ValidSlices(blocks) && blocks != []
    ensures ValidSlices([blocks[0]]) && Flat(blocks)[..BLOCK_SIZE] == BlockBytes(blocks[0])
  {
    assert [blocks[0]][0] == blocks[0];
    var f, b := Flat(blocks), BlockBytes(blocks[0]);
    forall p | 0 <= p < BLOCK_SIZE ensures f[p] == b[p] { Locate(0, p); }
  }

  /** A stripe whose sequence fits its header can be taken up from the header alone. */
  lemma RepresentsIsShared(bus: Bus, s: Stripe)
    requires Represents(bus, s) && |s.sequence| <= Header.CAPACITY
    ensures Shared(bus, s.blocks[0]) && Windows(bus.chunks, s.sequence) == s.blocks
    ensures Header.Decode(BlockBytes(s.blocks[0])) == Header.Meta(s.dataLen, s.blockCount, s.sequence)
  {
    hide Flat, Slices, Header.Holds, Header.Decode;
    assert |s.blocks| < 65536 by {
      DecodeEncode(Decode(s.sequence));
      assert |Decode(s.sequence)| <= |s.sequence|;
    }
    HeaderDecodes(bus, s);
    FirstWindow(s.blocks);
  }

  /** The converse: a stripe built from a shared header represents it. */
  lemma SharedIsRepresented(bus: Bus, s: Stripe, m: Header.Meta)
    requires s.blocks != [] && Shared(bus, s.blocks[0]) && m == Header.Decode(BlockBytes(s.blocks[0]))
    requires s.sequence == m.sequence && s.blockCount == m.blockCount && s.dataLen == m.dataLen
    requires s.blocks == Windows(bus.chunks, m.sequence)
    ensures Represents(bus, s)
  {
    hide Flat, Slices, Header.Holds, Header.Decode;
    SharedIsValid(bus, m.sequence, m.blockCount);
    FirstWindow(s.blocks);
    Header.DecodedIsHeld(BlockBytes(s.blocks[0]));
  }

  lemma SharedIsValid(bus: Bus, sequence: seq<int>, blockCount: nat)
    requires bus.Valid() && Windows(bus.chunks, sequence) != []
    requires Listed(bus.bitmap[..], bus.chunks, sequence, blockCount, Windows(bus.chunks, sequence))
    ensures ValidSlices(Windows(bus.chunks, sequence)) && blockCount == |Windows(bus.chunks, sequence)| <= 65536
  {
    hide DecodeFrom, Encode, Slices;
    SlicesValid(bus.chunks, Decode(sequence));
    BlocksBounded(bus.bitmap[..], Decode(sequence));
  }

  /** Freeing a stripe's blocks gives exactly their number back to the room. */
  lemma ReleasedRoom(bm: seq<Word>, bm0: seq<Word>, bs: seq<Block>, n: nat, supply: nat)
    requires Released(bm, bm0, bs) && AllUsed(bm0, bs) && DistinctBlocks(bs) && |bm0| > 0
    ensures Room(bm, n, supply) == Room(bm0, n, supply) + |bs|
  {
    hide FreeCount;
    var addresses: seq<nat> := seq(|bs|, i requires 0 <= i < |bs| => BlockAddress(bs[i]));
    forall i, j | 0 <= i < j < |bs| ensures addresses[i] != addresses[j] {
      AddressRoundTrip(0, bs[i]);
      AddressRoundTrip(0, bs[j]);
    }
    forall a | 0 <= a < 32 * |bm| ensures Holding(bs, a) <==> a in addresses {
      if Holding(bs, a) {
        var i :| 0 <= i < |bs| && ValidBlock(bs[i]) && BlockAddress(bs[i]) == a;
        assert addresses[i] == a;
      }
      if a in addresses {
        var i :| 0 <= i < |addresses| && addresses[i] == a;
        assert ValidBlock(bs[i]);
      }
    }
    forall a | a in addresses ensures a < 32 * |bm0| && Used(bm0, a) {
      var i :| 0 <= i < |addresses| && addresses[i] == a;
      assert BlockAddress(bs[i]) == a;
    }
    MarkedCount(bm0, bm, addresses);
  }
}
