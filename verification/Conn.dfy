/** A stripe travelling between the hub and its nodes (go/hub/conn.go, go/hub/hub.go,
    go/node/node.go): writing and growing it on the hub, taking it up from its header
    on a node, growing it on a node's behalf, and taking it back. */
module ConnModel {
  import opened Layout
  import opened Bitmap
  import opened Codec
  import opened Memory
  import opened StripeModel
  import opened BusModel
  import opened HubModel
  import Header

  // ---------- Walking a sequence ----------

  lemma PrefixInChunks(last: int, sequence: seq<int>, i: nat, n: nat)
    requires i <= |sequence| && InChunks(DecodeFrom(last, sequence), n)
    ensures InChunks(DecodeFrom(last, sequence[..i]), n)
  {
    assert sequence == sequence[..i] + sequence[i..];
    DecodeFromAppend(last, sequence[..i], sequence[i..]);
    var a, bs := DecodeFrom(last, sequence[..i]), DecodeFrom(last, sequence);
    assert forall k :: 0 <= k < |a| ==> a[k] == bs[k];
  }

  lemma OneMoreWindow(chunks: seq<array<Byte>>, bs: seq<Block>, b: Block)
    requires InChunks(bs + [b], |chunks|)
    ensures InChunks(bs, |chunks|) && ValidBlock(b) && -1 - b.chunk < |chunks|
    ensures Slices(chunks, bs + [b]) == Slices(chunks, bs) + [SliceOf(chunks, b)]
  {
    var all := bs + [b];
    assert all[|bs|] == b && all[..|bs|] == bs;
    assert forall i :: 0 <= i < |bs| ==> bs[i] == all[i];
  }

  /** One more entry of the walk: a marker changes the chunk, a block adds its window. */
  lemma WalkNext(chunks: seq<array<Byte>>, last: int, sequence: seq<int>, i: nat)
    requires i < |sequence| && InChunks(DecodeFrom(last, sequence), |chunks|)
    ensures InChunks(DecodeFrom(last, sequence[..i]), |chunks|) &&
      InChunks(DecodeFrom(last, sequence[..i + 1]), |chunks|)
    ensures var m, v := MarkerAfter(last, sequence[..i]), sequence[i];
      var bs, next := DecodeFrom(last, sequence[..i]), DecodeFrom(last, sequence[..i + 1]);
      && MarkerAfter(last, sequence[..i + 1]) == (if v < 0 then v else m)
      && (v < 0 ==> next == bs)
      && (v >= 0 ==> ValidBlock(Block(m, v)) && -1 - m < |chunks| && next == bs + [Block(m, v)])
      && (v >= 0 ==> Slices(chunks, next) == Slices(chunks, bs) + [SliceOf(chunks, Block(m, v))])
  {
    hide Slices, DecodeFrom, MarkerAfter, InChunks, ValidBlock;
    PrefixInChunks(last, sequence, i, |chunks|);
    PrefixInChunks(last, sequence, i + 1, |chunks|);
    assert sequence[..i + 1] == sequence[..i] + [sequence[i]];
    DecodeSnoc(last, sequence[..i], sequence[i]);
    if sequence[i] >= 0 {
      OneMoreWindow(chunks, DecodeFrom(last, sequence[..i]), Block(MarkerAfter(last, sequence[..i]), sequence[i]));
    }
  }

  /** The encoding of a block list names its first chunk first, so a walk may start with
      any chunk in force. */
  lemma AnyFirstChunk(last: int, sequence: seq<int>)
    requires sequence == Encode(Decode(sequence)) && ValidBlocks(Decode(sequence)) && Decode(sequence) != []
    ensures DecodeFrom(last, sequence) == Decode(sequence)
  {
    var bs := Decode(sequence);
    assert ValidBlock(bs[0]) && sequence == EncodeFrom(0, bs);
    assert sequence[0] == bs[0].chunk;
  }

  /** The blocks of a slot's stripe, collected by a node from its own chunk list. */
  method CollectBlocks(chunks: seq<array<Byte>>, cid: int, sequence: seq<int>) returns (blocks: seq<Slice>)
    requires InChunks(DecodeFrom(cid, sequence), |chunks|)
    ensures blocks == Slices(chunks, DecodeFrom(cid, sequence))
  {
    hide Slices, DecodeFrom, MarkerAfter, InChunks;
    blocks := [];
    var chunkID := cid;
    assert sequence[..0] == [] && DecodeFrom(cid, []) == [] && MarkerAfter(cid, []) == cid by { WalkStart(cid); }
    PrefixInChunks(cid, sequence, 0, |chunks|);
    for i := 0 to |sequence|
      invariant InChunks(DecodeFrom(cid, sequence[..i]), |chunks|)
      invariant chunkID == MarkerAfter(cid, sequence[..i])
      invariant blocks == Slices(chunks, DecodeFrom(cid, sequence[..i]))
    {
      WalkNext(chunks, cid, sequence, i);
      var id := sequence[i];
      if id < 0 {
        chunkID := id;
        continue;
      }
      blocks := blocks + [SliceOf(chunks, Block(chunkID, id))];
    }
    assert sequence[..|sequence|] == sequence;
  }

  lemma WalkStart(last: int)
    ensures DecodeFrom(last, []) == [] && MarkerAfter(last, []) == last
  {}

  lemma SameWindows(chunks: seq<array<Byte>>, all: seq<array<Byte>>, sequence: seq<int>)
    requires chunks <= all && InChunks(Decode(sequence), |chunks|)
    ensures InChunks(Decode(sequence), |all|) && Slices(chunks, Decode(sequence)) == Slices(all, Decode(sequence))
  {
    hide Slices, DecodeFrom;
    SlicesAppend(chunks, all, Decode(sequence), []);
    assert Decode(sequence) + [] == Decode(sequence);
  }

  /** A node takes up a stripe from its header block, with its own list of chunks: the
      result stands for the same bytes as the hub's. */
  method TakeUp(ghost bus: Bus, chunks: seq<array<Byte>>, cid: int, h: Slice) returns (s: Stripe)
    requires Shared(bus, h) && chunks <= bus.chunks
    requires InChunks(Decode(Header.Decode(BlockBytes(h)).sequence), |chunks|)
    ensures fresh(s) && Represents(bus, s) && s.blocks[0] == h
    ensures Header.Decode(BlockBytes(h)) == Header.Meta(s.dataLen, s.blockCount, s.sequence)
    ensures s.blocks == Windows(bus.chunks, s.sequence)
  {
    hide Flat, Slices, Header.Decode, Header.Holds, Encode, DecodeFrom, InChunks, ValidBlock;
    var m := DecodeHeader(h);
    assert ValidBlocks(Decode(m.sequence)) by { UsedAreValid(bus.bitmap[..], Decode(m.sequence)); }
    AnyFirstChunk(cid, m.sequence);
    SameWindows(chunks, bus.chunks, m.sequence);
    var blocks := CollectBlocks(chunks, cid, m.sequence);
    s := new Stripe(m.sequence, m.blockCount, blocks, m.dataLen);
    SharedIsRepresented(bus, s, m);
  }

  /** `u` is `u0`, possibly with more bytes behind. */
  predicate Kept(u: seq<Byte>, u0: seq<Byte>) { |u0| <= |u| && u[..|u0|] == u0 }

  lemma CountIsLength(bus: Bus, s: Stripe)
    requires Represents(bus, s)
    ensures s.blockCount == |s.blocks|
  {}

  /** The hub grows a stripe by two blocks on a node's request, from the header alone.
      `s` is the hub's temporary copy; the grown stripe is in the header block. */
  method HandleExpandRequest(bus: Bus, h: Slice, isOwner: bool, supply: nat, ghost ws: seq<Slice>)
    returns (granted: bool, s: Stripe)
    requires Shared(bus, h) && ValidSlices(ws) && ws == Windows(bus.chunks, Header.Decode(BlockBytes(h)).sequence)
    modifies bus, bus.bitmap, h.data
    ensures fresh(s) && Represents(bus, s) && s.blocks[0] == h
    ensures old(bus.chunks) <= bus.chunks && fresh(bus.chunks[|old(bus.chunks)|..])
    ensures bus.bitmap == old(bus.bitmap) || fresh(bus.bitmap)
    ensures ws <= s.blocks && Kept(s.User(), old(Flat(ws))[BLOCK_SIZE..])
    ensures granted == (isOwner && 2 <= RoomIn(old(Look(bus)), supply))
    ensures var m := old(Header.Decode(BlockBytes(h)));
      && s.dataLen == m.dataLen && s.blockCount == m.blockCount + (if granted then 2 else 0)
      && m.sequence <= s.sequence && (!granted ==> m.sequence == s.sequence)
      && Confined(old(Look(bus)), Look(bus), supply, Added(m.sequence, s.sequence), s.blocks)
    ensures |s.sequence| <= Header.CAPACITY ==>
      Shared(bus, h) && Header.Decode(BlockBytes(h)) == Header.Meta(s.dataLen, s.blockCount, s.sequence)
  {
    hide Slices, Header.Decode, Header.Holds, Encode, DecodeFrom, InChunks, ValidBlock, ValidSlices, Listed, Confined,
         Room;
    ghost var v0 := Look(bus);
    s := TakeUp(bus, bus.chunks, 0, h);
    ghost var sequence0 := s.sequence;
    assert Flat(s.blocks) == old(Flat(ws)) && Look(bus) == v0;
    granted := false;
    if isOwner {
      CountIsLength(bus, s);
      granted := AllocBlocksForStripe(bus, s, 2, supply);
      CountIsLength(bus, s);
    } else {
      AddedNothing(s.sequence);
      Unconfined(v0, supply, s.blocks);
    }
    if granted { RewriteHeader(bus, s, v0, supply, Added(sequence0, s.sequence)); }
    if |s.sequence| <= Header.CAPACITY { RepresentsIsShared(bus, s); }
  }

  lemma Unconfined(v: BusView, supply: nat, blocks: seq<Slice>)
    requires |v.mem| == |v.chunks|
    ensures Confined(v, v, supply, [], blocks)
  {
    DrewNothing(v.bm, |v.chunks|, supply);
  }

  /** The second header write of a granted request changes nothing that counts. */
  method RewriteHeader(ghost bus: Bus, s: Stripe, ghost v0: BusView, ghost supply: nat, ghost added: seq<Block>)
    requires Represents(bus, s) && Confined(v0, Look(bus), supply, added, s.blocks)
    modifies s.blocks[0].data
    ensures Represents(bus, s) && s.User() == old(s.User())
    ensures Confined(v0, Look(bus), supply, added, s.blocks)
  {
    hide Flat, Listed, Header.Holds, ValidSlices, OnlyIn, Drew;
    ghost var v1 := Look(bus);
    WriteHeader(bus, s, v1.mem);
    OnlyInTwice(v0.mem, v1.mem, Snapshot(bus.chunks), v1.chunks, bus.chunks, s.blocks, s.blocks);
  }

  lemma RefreshFacts(bus: Bus, sequence: seq<int>, m: Header.Meta)
    requires sequence <= m.sequence && sequence == Encode(Decode(sequence)) && InChunks(Decode(sequence), |bus.chunks|)
    requires m.sequence == Encode(Decode(m.sequence)) && |Decode(m.sequence)| == m.blockCount
    ensures m.blockCount == |Decode(sequence)| ==> m.sequence == sequence
  {
    hide DecodeFrom, EncodeFrom;
    DecodeSuffix(sequence, m.sequence);
    if m.blockCount == |Decode(sequence)| {
      assert Decode(m.sequence) == Decode(sequence);
    }
  }

  /** The append loop of a refresh: only the entries past the old sequence add blocks. */
  method AppendBlocks(chunks: seq<array<Byte>>, l: nat, sequence: seq<int>, had: seq<Slice>)
    returns (blocks: seq<Slice>)
    requires l <= |sequence| && InChunks(Decode(sequence), |chunks|)
    requires InChunks(Decode(sequence[..l]), |chunks|) && had == Slices(chunks, Decode(sequence[..l]))
    ensures blocks == Slices(chunks, Decode(sequence)) && had <= blocks
  {
    hide Slices, DecodeFrom, MarkerAfter, InChunks;
    blocks := had;
    var last := 0;
    assert sequence[..0] == [] && MarkerAfter(0, []) == 0 by { WalkStart(0); }
    PrefixInChunks(0, sequence, 0, |chunks|);
    for i := 0 to |sequence|
      invariant InChunks(Decode(sequence[..i]), |chunks|)
      invariant last == MarkerAfter(0, sequence[..i])
      invariant had <= blocks
      invariant blocks == if i <= l then had else Slices(chunks, Decode(sequence[..i]))
    {
      WalkNext(chunks, 0, sequence, i);
      var id := sequence[i];
      if id < 0 {
        last := id;
        continue;
      }
      if i < l { continue; }
      blocks := blocks + [SliceOf(chunks, Block(last, id))];
    }
    assert sequence[..|sequence|] == sequence;
  }

  /** The hub takes a stripe back after a node had it: whatever the node wrote and
      however often the stripe grew, its fields again agree with the header. */
  method RefreshStripe(bus: Bus, s: Stripe)
    requires s.blocks != [] && Shared(bus, s.blocks[0])
    requires s.blocks == Windows(bus.chunks, s.sequence) && s.blockCount == |s.blocks|
    requires s.sequence == Encode(Decode(s.sequence)) && s.sequence <= Header.Decode(BlockBytes(s.blocks[0])).sequence
    modifies s
    ensures Represents(bus, s) && old(s.blocks) <= s.blocks
    ensures Header.Decode(BlockBytes(s.blocks[0])) == Header.Meta(s.dataLen, s.blockCount, s.sequence)
  {
    hide Flat, Slices, Header.Decode, Header.Holds, Encode, DecodeFrom, InChunks, ValidSlices;
    var m := DecodeHeader(s.blocks[0]);
    RefreshFacts(bus, s.sequence, m);
    assert m.sequence[..|s.sequence|] == s.sequence;
    if m.blockCount != s.blockCount {
      s.blockCount := m.blockCount;
      s.blocks := AppendBlocks(bus.chunks, |s.sequence|, m.sequence, s.blocks);
      s.sequence := m.sequence;
    }
    s.dataLen := m.dataLen;
    SharedIsRepresented(bus, s, m);
  }

  // ---------- The hub's connection ----------

  /** The fewest blocks, and no fewer than `have`, with room for `needed` user bytes. */
  function BlocksFor(have: nat, needed: int): (r: nat)
    requires have >= 1
    ensures r >= have && needed <= BLOCK_SIZE * (r - 1)
  {
    if needed <= BLOCK_SIZE * (have - 1) then have else 1 + (needed + BLOCK_SIZE - 1) / BLOCK_SIZE
  }

  lemma FewestBlocks(have: nat, needed: int, b: nat)
    requires 1 <= have <= b && needed <= BLOCK_SIZE * (b - 1)
    ensures BlocksFor(have, needed) <= b
  {}

  /** Growing in two steps needs no more than growing at once. */
  lemma BlocksForTwice(have: nat, a: int, b: int)
    requires have >= 1 && a <= b
    ensures BlocksFor(BlocksFor(have, a), b) == BlocksFor(have, b)
  {}

  /** `u` is `u0`, possibly longer, with the bytes from `off` on replaced by `data`. */
  predicate Written(u: seq<Byte>, u0: seq<Byte>, off: nat, data: seq<Byte>)
  {
    && |u0| <= |u| && off + |data| <= |u| && u[off..off + |data|] == data
    && forall p :: 0 <= p < |u0| && !(off <= p < off + |data|) ==> u[p] == u0[p]
  }

  lemma WrittenTwice(u: seq<Byte>, v: seq<Byte>, u0: seq<Byte>, off: nat, a: seq<Byte>, b: seq<Byte>)
    requires Written(v, u0, off, a) && Written(u, v, off + |a|, b)
    ensures Written(u, u0, off, a + b)
  {
    var n := off + |a| + |b|;
    assert u[off..n] == u[off..off + |a|] + u[off + |a|..n];
    assert u[off..off + |a|] == a by {
      forall i | 0 <= i < |a| ensures u[off + i] == a[i] { assert v[off..off + |a|][i] == a[i]; }
    }
  }

  lemma SplicedIsWritten(u: seq<Byte>, v: seq<Byte>, u0: seq<Byte>, off: nat, data: seq<Byte>)
    requires |u0| <= |v| && v[..|u0|] == u0 && off + |data| <= |v| && u == Splice(v, off, data)
    ensures Written(u, u0, off, data)
  {
    forall p | 0 <= p < |u0| && !(off <= p < off + |data|) ensures u[p] == u0[p] {
      assert u[p] == v[p] && v[..|u0|][p] == v[p];
    }
  }

  function Max(a: nat, b: nat): (m: nat) { if a < b then b else a }
  function Min(a: nat, b: nat): (m: nat) { if a < b then a else b }

  /** What a write of `data` at `off` makes of content, length and block count. */
  predicate WriteOutcome(u: seq<Byte>, len: nat, n: nat, u0: seq<Byte>, len0: nat, n0: nat, off: nat, data: seq<Byte>)
  {
    && n0 >= 1 && Written(u, u0, off, data)
    && len == (if data == [] then len0 else Max(len0, off + |data|))
    && n == BlocksFor(n0, off + |data|)
  }

  lemma OutcomeTwice(u: seq<Byte>, len: nat, n: nat, u1: seq<Byte>, len1: nat, n1: nat, u0: seq<Byte>, len0: nat,
                     n0: nat, off: nat, a: seq<Byte>, b: seq<Byte>)
    requires WriteOutcome(u1, len1, n1, u0, len0, n0, off, a) && WriteOutcome(u, len, n, u1, len1, n1, off + |a|, b)
    ensures WriteOutcome(u, len, n, u0, len0, n0, off, a + b)
  {
    hide Written;
    WrittenTwice(u, u1, u0, off, a, b);
    BlocksForTwice(n0, off + |a|, off + |a| + |b|);
  }

  /** Two runs with the same outcome have the same content up to the data length. */
  lemma OutcomeDecides(u: seq<Byte>, v: seq<Byte>, len: nat, len': nat, n: nat, n': nat, u0: seq<Byte>, len0: nat,
                       n0: nat, off: nat, data: seq<Byte>)
    requires WriteOutcome(u, len, n, u0, len0, n0, off, data) && WriteOutcome(v, len', n', u0, len0, n0, off, data)
    requires off <= len0 <= |u0|
    ensures len == len' && n == n' && len <= |u| && len <= |v| && u[..len] == v[..len]
  {
    forall p | 0 <= p < len ensures u[p] == v[p] {
      if off <= p < off + |data| {
        assert u[off..off + |data|][p - off] == u[p] && v[off..off + |data|][p - off] == v[p];
      }
    }
  }

  lemma HeaderAfter(h: seq<Byte>, h0: seq<Byte>, len: nat, len0: nat, count: nat, s: seq<int>)
    requires Header.Holds(h0, len0, count, s)
    requires h == if len > len0 then Splice(h0, 0, Header.Put32(len)) else h0
    ensures Header.Holds(h, Max(len0, len), count, s)
  {
    if len > len0 { Header.HoldsNewLength(h0, h, len0, len, count, s); }
  }

  lemma HeaderShorter(h: seq<Byte>, h0: seq<Byte>, len: nat, len0: nat, count: nat, s: seq<int>)
    requires Header.Holds(h0, len0, count, s)
    requires h == if len <= len0 then Splice(h0, 0, Header.Put32(len)) else h0
    ensures Header.Holds(h, Min(len0, len), count, s)
  {
    if len <= len0 { Header.HoldsNewLength(h0, h, len0, len, count, s); }
  }

  /** A write to a stripe, on the hub or on a node, keeps its representation. */
  method WriteStripe(ghost bus: Bus, s: Stripe, data: seq<Byte>, off: int) returns (n: nat, err: Err)
    requires Represents(bus, s)
    modifies s`dataLen, Arrays(s.blocks)
    ensures Represents(bus, s) && OnlyIn(old(Snapshot(bus.chunks)), Snapshot(bus.chunks), bus.chunks, s.blocks)
    ensures err == if off < 0 then NegativeOffset else if n == |data| then Nil else CapacityExceeded
    ensures n == if off < 0 then 0 else Fitting(|data|, off, s.Capacity())
    ensures n == 0 ==> s.User() == old(s.User()) && s.dataLen == old(s.dataLen)
    ensures n > 0 ==> s.User() == Splice(old(s.User()), off, data[..n]) && s.dataLen == Max(old(s.dataLen), off + n)
  {
    hide Flat, ValidSlices, Listed, Header.Holds, Splice, Outside;
    ghost var h, len, mem0 := s.HeaderBytes(), s.dataLen, Snapshot(bus.chunks);
    n, err := s.WriteAt(data, off);
    forall k, x | 0 <= k < |bus.chunks| && 0 <= x < bus.chunks[k].Length && Outside(s.blocks, bus.chunks[k], x)
      ensures bus.chunks[k][x] == mem0[k][x]
    {
      assert mem0[k][x] == old(bus.chunks[k][x]);
    }
    UntouchedIsOnlyIn(mem0, bus.chunks, s.blocks);
    if n > 0 { HeaderAfter(s.HeaderBytes(), h, off + n, len, s.blockCount, s.sequence); }
  }

  method WriteStripeByte(ghost bus: Bus, s: Stripe, b: Byte, off: int) returns (err: Err)
    requires Represents(bus, s)
    modifies s`dataLen, Arrays(s.blocks)
    ensures Represents(bus, s) && OnlyIn(old(Snapshot(bus.chunks)), Snapshot(bus.chunks), bus.chunks, s.blocks)
    ensures err == if off < 0 then NegativeOffset else if off < s.Capacity() then Nil else CapacityExceeded
    ensures err != Nil ==> s.User() == old(s.User()) && s.dataLen == old(s.dataLen)
    ensures err == Nil ==> s.User() == Splice(old(s.User()), off, [b]) && s.dataLen == Max(old(s.dataLen), off + 1)
  {
    hide Flat, ValidSlices, Listed, Header.Holds, Splice, Outside;
    ghost var h, len, mem0 := s.HeaderBytes(), s.dataLen, Snapshot(bus.chunks);
    err := s.WriteByteAt(b, off);
    forall k, x | 0 <= k < |bus.chunks| && 0 <= x < bus.chunks[k].Length && Outside(s.blocks, bus.chunks[k], x)
      ensures bus.chunks[k][x] == mem0[k][x]
    {
      assert mem0[k][x] == old(bus.chunks[k][x]);
    }
    UntouchedIsOnlyIn(mem0, bus.chunks, s.blocks);
    if err == Nil { HeaderAfter(s.HeaderBytes(), h, off + 1, len, s.blockCount, s.sequence); }
  }

  method TruncateStripe(ghost bus: Bus, s: Stripe, newLen: nat)
    requires Represents(bus, s) && newLen < WRAP
    modifies s`dataLen, s.blocks[0].data
    ensures Represents(bus, s) && OnlyIn(old(Snapshot(bus.chunks)), Snapshot(bus.chunks), bus.chunks, s.blocks)
    ensures s.User() == old(s.User()) && s.dataLen == Min(old(s.dataLen), newLen)
  {
    hide Flat, ValidSlices, Listed, Header.Holds, Splice, Outside;
    ghost var h, len, mem0 := s.HeaderBytes(), s.dataLen, Snapshot(bus.chunks);
    s.Truncate(newLen);
    forall k, x | 0 <= k < |bus.chunks| && 0 <= x < bus.chunks[k].Length && Outside(s.blocks, bus.chunks[k], x)
      ensures bus.chunks[k][x] == mem0[k][x]
    {
      assert mem0[k][x] == old(bus.chunks[k][x]);
      if bus.chunks[k] == s.blocks[0].data { assert bus.chunks[k] in Arrays(s.blocks); }
    }
    UntouchedIsOnlyIn(mem0, bus.chunks, s.blocks);
    HeaderShorter(s.HeaderBytes(), h, newLen, len, s.blockCount, s.sequence);
  }

  /** Enough free or addable blocks to make room for `needed` bytes. */
  ghost predicate Affordable(v: BusView, have: nat, needed: int, supply: nat)
    requires have >= 1
  {
    BlocksFor(have, needed) - have <= RoomIn(v, supply)
  }

  /** A connection's stripe and bus before a series of writes. */
  datatype Start = Start(view: BusView, sequence: seq<int>, blocks: seq<Slice>, user: seq<Byte>, len: nat, off: nat,
                         supply: nat)

  class Conn {
    const bus: Bus
    var stripe: Stripe
    var readOff: nat
    var writeOff: nat

    ghost predicate Valid()
      reads this, bus, bus.bitmap, stripe, Arrays(stripe.blocks)
    {
      Represents(bus, stripe) && writeOff <= stripe.dataLen
    }

    constructor (bus: Bus, stripe: Stripe)
      requires Represents(bus, stripe)
      ensures this.bus == bus && this.stripe == stripe && readOff == writeOff == 0 && Valid()
    {
      hide ValidSlices, Listed, Header.Holds, Slices;
      this.bus, this.stripe := bus, stripe;
      readOff, writeOff := 0, 0;
      new;
      assert Flat(stripe.blocks) == old(Flat(stripe.blocks));
    }

    /** Grows the stripe, if it must, by the fewest blocks that suffice. */
    method EnsureCapacity(needed: int, supply: nat) returns (ok: bool)
      requires Valid()
      modifies bus, bus.bitmap, stripe, stripe.blocks[0].data
      ensures Valid() && stripe.dataLen == old(stripe.dataLen)
      ensures ok == Affordable(old(Look(bus)), |old(stripe.blocks)|, needed, supply)
      ensures |stripe.blocks| == if ok then BlocksFor(old(|stripe.blocks|), needed) else old(|stripe.blocks|)
      ensures old(stripe.blocks) <= stripe.blocks && old(stripe.sequence) <= stripe.sequence
      ensures old(bus.chunks) <= bus.chunks && fresh(bus.chunks[|old(bus.chunks)|..])
      ensures bus.bitmap == old(bus.bitmap) || fresh(bus.bitmap)
      ensures Kept(stripe.User(), old(stripe.User()))
      ensures forall d :: d in Arrays(stripe.blocks) ==> d in old(bus.chunks) || fresh(d)
      ensures Confined(old(Look(bus)), Look(bus), supply, Added(old(stripe.sequence), stripe.sequence), stripe.blocks)
    {
      hide Flat, ValidSlices, Listed, Header.Holds, Confined, Room;
      CountIsLength(bus, stripe);
      WindowsInChunks(bus, stripe);
      var userCap := (stripe.blockCount - 1) * BLOCK_SIZE;
      if needed <= userCap {
        AddedNothing(stripe.sequence);
        Unconfined(Look(bus), supply, stripe.blocks);
        return true;
      }
      var extra := needed - userCap;
      var blocksNeeded := (extra + BLOCK_SIZE - 1) / BLOCK_SIZE;
      ok := AllocBlocksForStripe(bus, stripe, blocksNeeded, supply);
      WindowsInChunks(bus, stripe);
    }

    /** Writes all of `data` at `off`, growing the stripe as needed, or fails for want of
        blocks or for a negative offset with the content as it was. */
    method WriteAt(data: seq<Byte>, off: int, supply: nat) returns (n: nat, err: Err)
      requires Valid()
      modifies bus, bus.bitmap, bus.chunks, stripe
      ensures Valid()
      ensures err == NoSpace <==> !Affordable(old(Look(bus)), |old(stripe.blocks)|, off + |data|, supply)
      ensures err != NoSpace ==> err == if off < 0 then NegativeOffset else Nil
      ensures err == Nil ==> n == |data| && WriteOutcome(stripe.User(), stripe.dataLen, |stripe.blocks|,
        old(stripe.User()), old(stripe.dataLen), old(|stripe.blocks|), off, data)
      ensures err != Nil ==> n == 0 && stripe.dataLen == old(stripe.dataLen) && Kept(stripe.User(), old(stripe.User()))
      ensures |stripe.blocks| ==
        if err == NoSpace then |old(stripe.blocks)| else BlocksFor(|old(stripe.blocks)|, off + |data|)
      ensures old(stripe.blocks) <= stripe.blocks && old(stripe.sequence) <= stripe.sequence
      ensures old(bus.chunks) <= bus.chunks && fresh(bus.chunks[|old(bus.chunks)|..])
      ensures bus.bitmap == old(bus.bitmap) || fresh(bus.bitmap)
      ensures Confined(old(Look(bus)), Look(bus), supply, Added(old(stripe.sequence), stripe.sequence), stripe.blocks)
    {
      hide Flat, ValidSlices, Listed, Header.Holds, Written, BlocksFor, Confined, Affordable, Added, Snapshot;
      WindowsInChunks(bus, stripe);
      assert stripe.blocks[0].data in Arrays(stripe.blocks);
      ghost var v0, u0 := Look(bus), stripe.User();
      var ok := EnsureCapacity(off + |data|, supply);
      if !ok { return 0, NoSpace; }
      n, err := Fill(data, off, v0, supply, Added(old(stripe.sequence), stripe.sequence), u0);
    }

    /** The write once there is room. */
    method Fill(data: seq<Byte>, off: int, ghost v0: BusView, ghost supply: nat, ghost added: seq<Block>,
                ghost u0: seq<Byte>)
      returns (n: nat, err: Err)
      requires Valid() && off + |data| <= stripe.Capacity() && Kept(stripe.User(), u0)
      requires Confined(v0, Look(bus), supply, added, stripe.blocks)
      modifies stripe`dataLen, Arrays(stripe.blocks)
      ensures Valid() && err == if off < 0 then NegativeOffset else Nil
      ensures err == Nil ==> n == |data| && Written(stripe.User(), u0, off, data)
      ensures err == Nil ==>
        stripe.dataLen == if data == [] then old(stripe.dataLen) else Max(old(stripe.dataLen), off + |data|)
      ensures err != Nil ==> n == 0 && stripe.dataLen == old(stripe.dataLen) && Kept(stripe.User(), u0)
      ensures Confined(v0, Look(bus), supply, added, stripe.blocks)
    {
      hide Flat, ValidSlices, Listed, Header.Holds, Room, Splice, Written, Drew, OnlyIn;
      ghost var grown, v1 := stripe.User(), Look(bus);
      n, err := WriteStripe(bus, stripe, data, off);
      OnlyInTwice(v0.mem, v1.mem, Snapshot(bus.chunks), v1.chunks, bus.chunks, stripe.blocks, stripe.blocks);
      if err == Nil {
        assert data[..n] == data;
        assert stripe.User() == Splice(grown, off, data) by { if n == 0 { SpliceNothing(grown, off); } }
        SplicedIsWritten(stripe.User(), grown, u0, off, data);
      }
    }

    /** Writes at the write position and moves it behind what was written. */
    method Write(data: seq<Byte>, supply: nat) returns (n: nat, err: Err)
      requires Valid()
      modifies this`writeOff, bus, bus.bitmap, bus.chunks, stripe
      ensures Valid()
      ensures err ==
        if Affordable(old(Look(bus)), |old(stripe.blocks)|, old(writeOff) + |data|, supply) then Nil else NoSpace
      ensures err == Nil ==>
        n == |data| && writeOff == old(writeOff) + |data| && WriteOutcome(stripe.User(), stripe.dataLen,
        |stripe.blocks|, old(stripe.User()), old(stripe.dataLen), old(|stripe.blocks|), old(writeOff), data)
      ensures err != Nil ==> n == 0 && writeOff == old(writeOff) && stripe.dataLen == old(stripe.dataLen)
      ensures err != Nil ==> stripe.User() == old(stripe.User())
      ensures old(stripe.sequence) <= stripe.sequence
      ensures Confined(old(Look(bus)), Look(bus), supply, Added(old(stripe.sequence), stripe.sequence), stripe.blocks)
    {
      hide ValidSlices, Listed, Header.Holds, Affordable, Written, BlocksFor, Confined;
      n, err := WriteAt(data, writeOff, supply);
      if err != Nil { return; }
      ghost var flat, v := Flat(stripe.blocks), Look(bus);
      writeOff := writeOff + n;
      assert Flat(stripe.blocks) == flat && Look(bus) == v;
    }

    method WriteByte(b: Byte, supply: nat) returns (err: Err)
      requires Valid()
      modifies this`writeOff, bus, bus.bitmap, bus.chunks, stripe
      ensures Valid()
      ensures err ==
        if Affordable(old(Look(bus)), |old(stripe.blocks)|, old(writeOff) + 1, supply) then Nil else NoSpace
      ensures err == Nil ==> writeOff == old(writeOff) + 1 && WriteOutcome(stripe.User(), stripe.dataLen,
        |stripe.blocks|, old(stripe.User()), old(stripe.dataLen), old(|stripe.blocks|), old(writeOff), [b])
      ensures err != Nil ==> writeOff == old(writeOff) && stripe.dataLen == old(stripe.dataLen)
      ensures err != Nil ==> stripe.User() == old(stripe.User()) && |stripe.blocks| == |old(stripe.blocks)|
      ensures old(stripe.blocks) <= stripe.blocks && old(stripe.sequence) <= stripe.sequence
      ensures old(bus.chunks) <= bus.chunks && fresh(bus.chunks[|old(bus.chunks)|..])
      ensures bus.bitmap == old(bus.bitmap) || fresh(bus.bitmap)
      ensures Confined(old(Look(bus)), Look(bus), supply, Added(old(stripe.sequence), stripe.sequence), stripe.blocks)
    {
      hide ValidSlices, Listed, Header.Holds, Affordable, Written, BlocksFor, Confined;
      err := StoreByte(b, supply);
      if err != Nil { return; }
      ghost var flat, v := Flat(stripe.blocks), Look(bus);
      writeOff := writeOff + 1;
      assert Flat(stripe.blocks) == flat && Look(bus) == v;
    }

    /** A byte at the write position, for which the stripe grows if it must. */
    method StoreByte(b: Byte, supply: nat) returns (err: Err)
      requires Valid()
      modifies bus, bus.bitmap, bus.chunks, stripe
      ensures Valid()
      ensures err == if Affordable(old(Look(bus)), |old(stripe.blocks)|, writeOff + 1, supply) then Nil else NoSpace
      ensures err == Nil ==> stripe.dataLen > writeOff && WriteOutcome(stripe.User(), stripe.dataLen,
        |stripe.blocks|, old(stripe.User()), old(stripe.dataLen), old(|stripe.blocks|), writeOff, [b])
      ensures err != Nil ==> stripe.dataLen == old(stripe.dataLen) && Kept(stripe.User(), old(stripe.User()))
      ensures err != Nil ==> |stripe.blocks| == |old(stripe.blocks)|
      ensures old(stripe.blocks) <= stripe.blocks && old(stripe.sequence) <= stripe.sequence
      ensures old(bus.chunks) <= bus.chunks && fresh(bus.chunks[|old(bus.chunks)|..])
      ensures bus.bitmap == old(bus.bitmap) || fresh(bus.bitmap)
      ensures Confined(old(Look(bus)), Look(bus), supply, Added(old(stripe.sequence), stripe.sequence), stripe.blocks)
    {
      hide Flat, ValidSlices, Listed, Header.Holds, Written, BlocksFor, Confined, Affordable, Added, Snapshot;
      WindowsInChunks(bus, stripe);
      assert stripe.blocks[0].data in Arrays(stripe.blocks);
      ghost var v0, u0 := Look(bus), stripe.User();
      var ok := EnsureCapacity(writeOff + 1, supply);
      if !ok { return NoSpace; }
      FillByte(b, v0, supply, Added(old(stripe.sequence), stripe.sequence), u0);
      err := Nil;
    }

    /** The byte at the write position, once there is room. */
    method FillByte(b: Byte, ghost v0: BusView, ghost supply: nat, ghost added: seq<Block>, ghost u0: seq<Byte>)
      requires Valid() && writeOff < stripe.Capacity() && Kept(stripe.User(), u0)
      requires Confined(v0, Look(bus), supply, added, stripe.blocks)
      modifies stripe`dataLen, Arrays(stripe.blocks)
      ensures Represents(bus, stripe) && Written(stripe.User(), u0, writeOff, [b])
      ensures stripe.dataLen == Max(old(stripe.dataLen), writeOff + 1)
      ensures Confined(v0, Look(bus), supply, added, stripe.blocks)
    {
      hide Flat, ValidSlices, Listed, Header.Holds, Room, Splice, Written, Drew, OnlyIn;
      ghost var grown, v1 := stripe.User(), Look(bus);
      var err := WriteStripeByte(bus, stripe, b, writeOff);
      OnlyInTwice(v0.mem, v1.mem, Snapshot(bus.chunks), v1.chunks, bus.chunks, stripe.blocks, stripe.blocks);
      SplicedIsWritten(stripe.User(), grown, u0, writeOff, [b]);
    }

    /** One WriteByte for each byte has the outcome of a single Write: it succeeds exactly
        when that would, with the same content, length and number of blocks; short of
        blocks, it has written the bytes for which there was room. */
    method WriteByteForEach(data: seq<Byte>, supply: nat) returns (n: nat, err: Err)
      requires Valid()
      modifies this`writeOff, bus, bus.bitmap, bus.chunks, stripe
      ensures Valid() && n <= |data| && writeOff == old(writeOff) + n
      ensures err ==
        if Affordable(old(Look(bus)), |old(stripe.blocks)|, old(writeOff) + |data|, supply) then Nil else NoSpace
      ensures err == Nil ==> n == |data|
      ensures err == NoSpace ==>
        n < |data| && !Affordable(old(Look(bus)), |old(stripe.blocks)|, old(writeOff) + n + 1, supply)
      ensures WriteOutcome(stripe.User(), stripe.dataLen,
        |stripe.blocks|, old(stripe.User()), old(stripe.dataLen), old(|stripe.blocks|), old(writeOff), data[..n])
      ensures old(stripe.sequence) <= stripe.sequence
      ensures Confined(old(Look(bus)), Look(bus), supply, Added(old(stripe.sequence), stripe.sequence), stripe.blocks)
    {
      hide Flat, Listed, ValidSlices, Header.Holds, WriteOutcome, Confined, Affordable, Added, WrittenSoFar;
      ghost var start := Start(Look(bus), stripe.sequence, stripe.blocks, stripe.User(), stripe.dataLen, writeOff,
                               supply);
      BeforeWrites(start);
      ghost var left;
      n, err, left := WriteBytes(data, supply, start);
      SoFar(start, left, data[..n]);
      if err == NoSpace && Affordable(start.view, |start.blocks|, start.off + |data|, supply) {
        MoreIsDearer(start.view, |start.blocks|, start.off + n + 1, start.off + |data|, supply);
      }
      assert n == |data| ==> data[..n] == data;
    }

    /** The loop of those calls. */
    method WriteBytes(data: seq<Byte>, supply: nat, ghost start: Start) returns (n: nat, err: Err, ghost left: nat)
      requires WrittenSoFar(start, supply, []) && supply == start.supply
      modifies this`writeOff, bus, bus.bitmap, bus.chunks, stripe
      ensures n <= |data| && WrittenSoFar(start, left, data[..n])
      ensures err == if n == |data| then Nil else NoSpace
      ensures n < |data| ==> !Affordable(start.view, |start.blocks|, start.off + n + 1, start.supply)
    {
      hide WrittenSoFar, Affordable;
      n, err := 0, Nil;
      var remaining := supply;
      assert data[..0] == [];
      while n < |data|
        invariant n <= |data| && err == Nil && WrittenSoFar(start, remaining, data[..n])
        invariant forall i :: 0 <= i < |bus.chunks| ==> bus.chunks[i] in old(bus.chunks) || fresh(bus.chunks[i])
        invariant bus.bitmap == old(bus.bitmap) || fresh(bus.bitmap)
      {
        err, remaining := WriteNext(data[n], remaining, start, data[..n]);
        if err != Nil { return n, err, remaining; }
        assert data[..n + 1] == data[..n] + [data[n]];
        n := n + 1;
      }
      left := remaining;
    }

    lemma SoFar(start: Start, left: nat, done: seq<Byte>)
      requires WrittenSoFar(start, left, done)
      ensures Valid() && stripe.Valid() && writeOff == start.off + |done| && start.sequence <= stripe.sequence
      ensures WriteOutcome(stripe.User(), stripe.dataLen, |stripe.blocks|,
                           start.user, start.len, |start.blocks|, start.off, done)
      ensures Confined(start.view, Look(bus), start.supply, Added(start.sequence, stripe.sequence), stripe.blocks)
      ensures start.blocks != [] && Affordable(start.view, |start.blocks|, start.off + |done|, start.supply)
    {}

    /** Since `start` the bytes of `done` were written, and `left` chunks can be created. */
    ghost predicate WrittenSoFar(start: Start, left: nat, done: seq<Byte>)
      reads this, bus, bus.bitmap, bus.chunks, stripe, Arrays(stripe.blocks)
    {
      && Valid() && start.blocks != [] && writeOff == start.off + |done|
      && WriteOutcome(stripe.User(), stripe.dataLen, |stripe.blocks|,
                      start.user, start.len, |start.blocks|, start.off, done)
      && start.blocks <= stripe.blocks && start.sequence <= stripe.sequence
      && |Decode(start.sequence)| == |start.blocks|
      && Confined(start.view, Look(bus), start.supply, Added(start.sequence, stripe.sequence), stripe.blocks)
      && left == Left(start.view, Look(bus), start.supply)
      && Affordable(start.view, |start.blocks|, start.off + |done|, start.supply)
    }

    lemma BeforeWrites(start: Start)
      requires Valid()
      requires start == Start(Look(bus), stripe.sequence, stripe.blocks, stripe.User(), stripe.dataLen, writeOff,
                              start.supply)
      ensures WrittenSoFar(start, start.supply, [])
    {
      hide ValidSlices, Header.Holds, Flat, DecodeFrom, Encode, Room;
      NothingWritten(bus, stripe, writeOff);
      AddedNothing(stripe.sequence);
      Unconfined(start.view, start.supply, stripe.blocks);
    }

    /** One more byte; whether it can be afforded now is whether it could at the start. */
    method WriteNext(b: Byte, left: nat, ghost start: Start, ghost done: seq<Byte>) returns (err: Err, left': nat)
      requires WrittenSoFar(start, left, done)
      modifies this`writeOff, bus, bus.bitmap, bus.chunks, stripe
      ensures err ==
        if Affordable(start.view, |start.blocks|, start.off + |done| + 1, start.supply) then Nil else NoSpace
      ensures WrittenSoFar(start, left', if err == Nil then done + [b] else done)
      ensures forall i :: 0 <= i < |bus.chunks| ==> bus.chunks[i] in old(bus.chunks) || fresh(bus.chunks[i])
      ensures bus.bitmap == old(bus.bitmap) || fresh(bus.bitmap)
    {
      hide ValidSlices, Listed, Header.Holds, WriteOutcome, Flat, Confined, Affordable, Room, DecodeFrom;
      ghost var u1, len1, n1, v1 := stripe.User(), stripe.dataLen, |stripe.blocks|, Look(bus);
      ghost var sequence1, blocks1 := stripe.sequence, stripe.blocks;
      var count := |bus.chunks|;
      RoomForWrites(bus, stripe, start.view, start.supply, start.sequence, |start.blocks|);
      OutcomeBlocks(u1, len1, n1, start.user, start.len, |start.blocks|, start.off, done);
      SameAffordable(start.view, v1, |start.blocks|, n1, writeOff, start.supply, left);
      err := WriteByte(b, left);
      OldOrNew(v1.chunks, bus.chunks);
      GrownTwice(start.view, v1, Look(bus), start.supply, start.sequence, sequence1, stripe.sequence, blocks1,
                 stripe.blocks);
      left' := left - (|bus.chunks| - count);
      if err == Nil {
        OutcomeTwice(stripe.User(), stripe.dataLen, |stripe.blocks|, u1, len1, n1,
                     start.user, start.len, |start.blocks|, start.off, done, [b]);
      }
    }

    /** Reads from the read position; what was written there comes back. */
    method Read(p: array<Byte>) returns (n: nat, err: Err)
      requires Valid() && p !in Arrays(stripe.blocks)
      modifies this`readOff, p
      ensures n == if old(readOff) >= stripe.dataLen then 0 else Min(p.Length, stripe.dataLen - old(readOff))
      ensures err == if old(readOff) >= stripe.dataLen then Eof else Nil
      ensures readOff == old(readOff) + n
      ensures n > 0 ==> p[..n] == stripe.User()[old(readOff)..old(readOff) + n]
      ensures p[n..] == old(p[n..])
    {
      n, err := stripe.ReadAt(p, readOff);
      if err != Nil { return; }
      readOff := readOff + n;
    }

    /** Frees exactly the connection's blocks. */
    method Close()
      requires Valid()
      modifies bus.bitmap
      ensures Released(bus.bitmap[..], old(bus.bitmap[..]), Decode(stripe.sequence))
    {
      hide Flat, ValidSlices, Header.Holds, Released, DecodeFrom, EncodeFrom, Slices;
      UsedAreValid(bus.bitmap[..], Decode(stripe.sequence));
      FreeStripe(bus, stripe.sequence);
    }
  }

  /** The room left after some growth of a stripe is less by exactly the blocks added. */
  lemma RoomForWrites(bus: Bus, s: Stripe, v0: BusView, supply: nat, sequence0: seq<int>, n0: nat)
    requires Represents(bus, s) && sequence0 <= s.sequence && n0 >= 1
    requires Confined(v0, Look(bus), supply, Added(sequence0, s.sequence), s.blocks)
    requires |Decode(sequence0)| == n0 || (sequence0 == s.sequence && n0 == |s.blocks|)
    ensures |Decode(sequence0)| == n0 && |Added(sequence0, s.sequence)| == |s.blocks| - n0
    ensures RoomIn(Look(bus), Left(v0, Look(bus), supply)) == RoomIn(v0, supply) - (|s.blocks| - n0)
  {
    hide Flat, ValidSlices, Header.Holds, Room, DecodeFrom, Encode, Took, OnlyIn;
    DecodeSuffix(sequence0, s.sequence);
    ConfinedRoom(v0, Look(bus), supply, Added(sequence0, s.sequence), s.blocks);
  }

  lemma OutcomeBlocks(u: seq<Byte>, len: nat, n: nat, u0: seq<Byte>, len0: nat, n0: nat, off: nat, data: seq<Byte>)
    requires WriteOutcome(u, len, n, u0, len0, n0, off, data)
    ensures n0 >= 1 && n == BlocksFor(n0, off + |data|)
  {}

  /** Whether one more byte can be afforded now is whether it could at the start. */
  lemma SameAffordable(v0: BusView, v1: BusView, n0: nat, n1: nat, needed: nat, supply: nat, left: nat)
    requires n0 >= 1 && n1 == BlocksFor(n0, needed) && RoomIn(v1, left) == RoomIn(v0, supply) - (n1 - n0)
    ensures n1 >= 1 && (Affordable(v1, n1, needed + 1, left) <==> Affordable(v0, n0, needed + 1, supply))
  {
    hide Room;
    BlocksForTwice(n0, needed, needed + 1);
  }

  lemma MoreIsDearer(v: BusView, n: nat, a: nat, b: nat, supply: nat)
    requires n >= 1 && a <= b && Affordable(v, n, b, supply)
    ensures Affordable(v, n, a, supply)
  {
    hide Room;
  }

  lemma NothingWritten(bus: Bus, s: Stripe, off: nat)
    requires Represents(bus, s) && off <= s.dataLen
    ensures WriteOutcome(s.User(), s.dataLen, |s.blocks|, s.User(), s.dataLen, |s.blocks|, off, [])
  {
    hide Flat, ValidSlices, Listed, Header.Holds;
  }

  lemma SpliceNothing(u: seq<Byte>, off: nat)
    requires off <= |u|
    ensures Splice(u, off, []) == u
  {}

  lemma WindowsInChunks(bus: Bus, s: Stripe)
    requires Represents(bus, s)
    ensures forall d :: d in Arrays(s.blocks) ==> d in bus.chunks
  {
    hide Slices, Flat, Header.Holds, Encode, DecodeFrom;
    var bs := Decode(s.sequence);
    forall i | 0 <= i < |s.blocks| ensures s.blocks[i].data in bus.chunks {
      assert s.blocks[i] == SliceOf(bus.chunks, bs[i]);
    }
  }

  // ---------- A whole visit to a node ----------

  /** Listed stripes use at most two entries a block. */
  lemma SequenceFits(bus: Bus, s: Stripe)
    requires Represents(bus, s) && s.blockCount <= 1022
    ensures |s.sequence| <= Header.CAPACITY
  {
    hide Flat, Slices, ValidSlices, Header.Holds;
    UsedAreValid(bus.bitmap[..], Decode(s.sequence));
    DecodeEncode(Decode(s.sequence));
  }

  /** What a handler does to its stripe; a growth is answered by the hub. */
  datatype NodeOp = Store(data: seq<Byte>, off: int) | Cut(len: nat) | Grow

  function Grows(ops: seq<NodeOp>): (n: nat)
  {
    if ops == [] then 0 else Grows(ops[..|ops| - 1]) + if ops[|ops| - 1].Grow? then 1 else 0
  }

  /** The user's bytes, the data length, and how many blocks can still be had. */
  datatype Content = Content(bytes: seq<Byte>, len: nat, room: nat)

  /** One operation on the flat bytes. A growth adds two blocks behind them exactly when
      two can be had; what the new blocks hold is left open. */
  predicate OneOp(a: Content, op: NodeOp, b: Content)
  {
    match op
    case Store(data, off) =>
      var n := if off < 0 then 0 else Fitting(|data|, off, |a.bytes|);
      if n == 0 then b == a
      else b == a.(bytes := Splice(a.bytes, off, data[..n]), len := Max(a.len, off + n))
    case Cut(len) => b == a.(len := Min(a.len, len))
    case Grow =>
      if a.room < 2 then b == a
      else b.len == a.len && b.room == a.room - 2 && |b.bytes| == |a.bytes| + 2 * BLOCK_SIZE && Kept(b.bytes, a.bytes)
  }

  /** A list of operations on the flat bytes, one after the other. */
  predicate Played(trace: seq<Content>, ops: seq<NodeOp>)
  {
    && |trace| == |ops| + 1
    && forall i :: 0 <= i < |ops| ==> OneOp(trace[i], ops[i], trace[i + 1])
  }

  lemma GrowsNext(ops: seq<NodeOp>, i: nat)
    requires i < |ops|
    ensures Grows(ops[..i + 1]) == Grows(ops[..i]) + if ops[i].Grow? then 1 else 0
  {
    assert ops[..i + 1][..i] == ops[..i];
  }

  lemma {:induction false} GrowsUpTo(ops: seq<NodeOp>, i: nat)
    requires i <= |ops|
    ensures Grows(ops[..i]) <= Grows(ops)
    decreases |ops| - i
  {
    if i < |ops| {
      GrowsNext(ops, i);
      GrowsUpTo(ops, i + 1);
    } else {
      assert ops[..i] == ops;
    }
  }

  ghost function ContentOf(bus: Bus, s: Stripe, supply: nat): (c: Content)
    requires Represents(bus, s)
    reads bus, bus.bitmap, bus.chunks, s, Arrays(s.blocks)
  {
    Content(s.User(), s.dataLen, RoomIn(Look(bus), supply))
  }

  /** One operation of a handler; the node reads a grown sequence back from the header. */
  method DoOp(bus: Bus, s: Stripe, op: NodeOp, supply: nat) returns (left: nat)
    requires Represents(bus, s) && |s.blocks| + (if op.Grow? then 2 else 0) <= 1022 && (op.Cut? ==> op.len < WRAP)
    modifies bus, bus.bitmap, bus.chunks, s
    ensures Represents(bus, s) && old(s.blocks) <= s.blocks && old(s.sequence) <= s.sequence
    ensures |s.blocks| <= |old(s.blocks)| + if op.Grow? then 2 else 0
    ensures OneOp(old(ContentOf(bus, s, supply)), op, ContentOf(bus, s, left))
    ensures old(bus.chunks) <= bus.chunks && fresh(bus.chunks[|old(bus.chunks)|..])
    ensures bus.bitmap == old(bus.bitmap) || fresh(bus.bitmap)
    ensures left == Left(old(Look(bus)), Look(bus), supply)
    ensures Confined(old(Look(bus)), Look(bus), supply, Added(old(s.sequence), s.sequence), s.blocks)
  {
    hide ValidSlices, Listed, Header.Holds, Splice, DecodeFrom, Room, Drew, OnlyIn;
    WindowsInChunks(bus, s);
    assert s.blocks[0].data in Arrays(s.blocks);
    ghost var v0 := Look(bus);
    match op {
      case Store(data, off) =>
        var n, err := WriteStripe(bus, s, data, off);
        AddedNothing(s.sequence);
        ConfinedWrite(v0, Look(bus), supply, s.blocks);
        left := supply;
      case Cut(len) =>
        TruncateStripe(bus, s, len);
        AddedNothing(s.sequence);
        ConfinedWrite(v0, Look(bus), supply, s.blocks);
        left := supply;
      case Grow =>
        var grew;
        grew, left := GrowFromNode(bus, s, supply);
    }
  }

  /** Re-reads a stripe from the header that `t`, another process's stripe, has left. */
  method TakeBack(bus: Bus, s: Stripe, ghost t: Stripe, ghost chunks0: seq<array<Byte>>)
    requires s != t && Represents(bus, t) && |t.blocks| <= 1022 && chunks0 <= bus.chunks
    requires s.blocks != [] && s.blocks[0] == t.blocks[0] && s.sequence <= t.sequence && s.blockCount == |s.blocks|
    requires s.sequence == Encode(Decode(s.sequence)) && InChunks(Decode(s.sequence), |chunks0|)
    requires s.blocks == Slices(chunks0, Decode(s.sequence))
    modifies s
    ensures Represents(bus, s) && s.blocks == t.blocks && s.sequence == t.sequence && s.dataLen == t.dataLen
    ensures Look(bus) == old(Look(bus)) && s.User() == old(t.User())
  {
    hide ValidSlices, Listed, Header.Holds, Slices, DecodeFrom, Header.Decode, InChunks, HeaderOf;
    CountIsLength(bus, t);
    SequenceFits(bus, t);
    RepresentsIsShared(bus, t);
    SameWindows(chunks0, bus.chunks, s.sequence);
    ghost var flat, b, v := Flat(t.blocks), BlockBytes(t.blocks[0]), Look(bus);
    RefreshStripe(bus, s);
    assert Flat(t.blocks) == flat && BlockBytes(t.blocks[0]) == b && Look(bus) == v;
    assert s.blocks == t.blocks by {
      assert s.sequence == t.sequence;
      RepresentsIsShared(bus, s);
    }
  }

  /** A growth as the node sees it: its request, the hub's answer, the header re-read. It
      happens exactly when two blocks can be had. */
  method GrowFromNode(bus: Bus, s: Stripe, supply: nat) returns (grew: bool, left: nat)
    requires Represents(bus, s) && |s.blocks| + 2 <= 1022
    modifies bus, bus.bitmap, s, s.blocks[0].data
    ensures Represents(bus, s) && old(s.blocks) <= s.blocks && old(s.sequence) <= s.sequence
    ensures grew <==> 2 <= RoomIn(old(Look(bus)), supply)
    ensures |s.blocks| == |old(s.blocks)| + if grew then 2 else 0
    ensures s.dataLen == old(s.dataLen) && Kept(s.User(), old(s.User()))
    ensures old(bus.chunks) <= bus.chunks && fresh(bus.chunks[|old(bus.chunks)|..])
    ensures bus.bitmap == old(bus.bitmap) || fresh(bus.bitmap)
    ensures left == Left(old(Look(bus)), Look(bus), supply)
    ensures RoomIn(Look(bus), left) == RoomIn(old(Look(bus)), supply) - if grew then 2 else 0
    ensures Confined(old(Look(bus)), Look(bus), supply, Added(old(s.sequence), s.sequence), s.blocks)
  {
    hide ValidSlices, Listed, Header.Holds, Slices, DecodeFrom, Header.Decode, InChunks, HeaderOf, Confined, Room;
    CountIsLength(bus, s);
    SequenceFits(bus, s);
    RepresentsIsShared(bus, s);
    SequenceFacts(bus, s);
    ghost var v0, sequence0 := Look(bus), s.sequence;
    var count := |bus.chunks|;
    var t;
    grew, t := HandleExpandRequest(bus, s.blocks[0], true, supply, s.blocks);
    CountIsLength(bus, t);
    TakeBack(bus, s, t, v0.chunks);
    GrownRoom(bus, s, v0, supply, sequence0, |old(s.blocks)|);
    left := supply - (|bus.chunks| - count);
  }

  /** The room after a growth, and that no more chunks were created than could be. */
  lemma GrownRoom(bus: Bus, s: Stripe, v0: BusView, supply: nat, sequence0: seq<int>, n0: nat)
    requires Represents(bus, s) && sequence0 <= s.sequence && |Decode(sequence0)| == n0
    requires Confined(v0, Look(bus), supply, Added(sequence0, s.sequence), s.blocks)
    ensures var v := Look(bus);
      && 0 <= |v.chunks| - |v0.chunks| <= supply
      && Left(v0, v, supply) == supply - (|v.chunks| - |v0.chunks|)
      && RoomIn(v, Left(v0, v, supply)) == RoomIn(v0, supply) - (|s.blocks| - n0)
  {
    hide Flat, ValidSlices, Header.Holds, Room, DecodeFrom, Encode, Took, OnlyIn;
    DecodeSuffix(sequence0, s.sequence);
    ConfinedRoom(v0, Look(bus), supply, Added(sequence0, s.sequence), s.blocks);
  }

  lemma SequenceFacts(bus: Bus, s: Stripe)
    requires Represents(bus, s)
    ensures InChunks(Decode(s.sequence), |bus.chunks|) && s.sequence == Encode(Decode(s.sequence))
    ensures |Decode(s.sequence)| == |s.blocks| && s.blocks == Slices(bus.chunks, Decode(s.sequence))
  {}

  /** What the operations `done` have made of the stripe that was as `start` notes it. */
  ghost predicate Worked(bus: Bus, s: Stripe, start: Start, left: nat, done: seq<NodeOp>, trace: seq<Content>)
    reads bus, bus.bitmap, bus.chunks, s, Arrays(s.blocks)
  {
    && Represents(bus, s) && start.blocks <= s.blocks && start.sequence <= s.sequence
    && |s.blocks| <= |start.blocks| + 2 * Grows(done)
    && Played(trace, done) && trace[0] == Content(start.user, start.len, RoomIn(start.view, start.supply))
    && trace[|done|] == ContentOf(bus, s, left)
    && start.view.chunks <= bus.chunks && left == Left(start.view, Look(bus), start.supply)
    && Confined(start.view, Look(bus), start.supply, Added(start.sequence, s.sequence), s.blocks)
  }

  lemma BeforeWork(bus: Bus, s: Stripe, start: Start)
    requires Represents(bus, s)
    requires start == Start(Look(bus), s.sequence, s.blocks, s.User(), s.dataLen, start.off, start.supply)
    ensures Worked(bus, s, start, start.supply, [], [ContentOf(bus, s, start.supply)])
  {
    hide Flat, ValidSlices, Listed, Header.Holds, Room, Confined, DecodeFrom;
    AddedNothing(s.sequence);
    Unconfined(Look(bus), start.supply, s.blocks);
  }

  lemma GrowsOne(done: seq<NodeOp>, op: NodeOp)
    ensures Grows(done + [op]) == Grows(done) + if op.Grow? then 1 else 0
  {
    assert (done + [op])[..|done|] == done;
  }

  /** One more operation. */
  method WorkOn(bus: Bus, s: Stripe, op: NodeOp, left: nat, ghost start: Start, ghost done: seq<NodeOp>,
                ghost trace: seq<Content>)
    returns (left': nat, ghost trace': seq<Content>)
    requires Worked(bus, s, start, left, done, trace)
    requires |start.blocks| + 2 * Grows(done + [op]) <= 1022 && (op.Cut? ==> op.len < WRAP)
    modifies bus, bus.bitmap, bus.chunks, s
    ensures Worked(bus, s, start, left', done + [op], trace')
    ensures forall k :: 0 <= k < |bus.chunks| ==> bus.chunks[k] in old(bus.chunks) || fresh(bus.chunks[k])
    ensures bus.bitmap == old(bus.bitmap) || fresh(bus.bitmap)
  {
    hide Represents, ContentOf, Added, Room, OneOp, Grows, Confined;
    GrowsOne(done, op);
    ghost var v1, sequence1, blocks1 := Look(bus), s.sequence, s.blocks;
    left' := DoOp(bus, s, op, left);
    OldOrNew(v1.chunks, bus.chunks);
    GrownTwice(start.view, v1, Look(bus), start.supply, start.sequence, sequence1, s.sequence, blocks1, s.blocks);
    trace' := trace + [ContentOf(bus, s, left')];
  }

  /** A handler's operations, in order. */
  method RunHandler(bus: Bus, s: Stripe, ops: seq<NodeOp>, supply: nat) returns (left: nat, ghost trace: seq<Content>)
    requires Represents(bus, s) && |s.blocks| + 2 * Grows(ops) <= 1022
    requires forall i :: 0 <= i < |ops| && ops[i].Cut? ==> ops[i].len < WRAP
    modifies bus, bus.bitmap, bus.chunks, s
    ensures Represents(bus, s) && old(s.blocks) <= s.blocks && old(s.sequence) <= s.sequence && |s.blocks| <= 1022
    ensures Played(trace, ops) && trace[0] == old(ContentOf(bus, s, supply)) && trace[|ops|] == ContentOf(bus, s, left)
    ensures old(bus.chunks) <= bus.chunks && left == Left(old(Look(bus)), Look(bus), supply)
    ensures forall k :: 0 <= k < |bus.chunks| ==> bus.chunks[k] in old(bus.chunks) || fresh(bus.chunks[k])
    ensures bus.bitmap == old(bus.bitmap) || fresh(bus.bitmap)
    ensures Confined(old(Look(bus)), Look(bus), supply, Added(old(s.sequence), s.sequence), s.blocks)
  {
    hide Flat, ValidSlices, Listed, Header.Holds, Added, Room, Played, Grows, Confined;
    ghost var start := Start(Look(bus), s.sequence, s.blocks, s.User(), s.dataLen, 0, supply);
    BeforeWork(bus, s, start);
    left, trace := WorkAll(bus, s, ops, supply, start, [ContentOf(bus, s, supply)]);
  }

  method WorkAll(bus: Bus, s: Stripe, ops: seq<NodeOp>, supply: nat, ghost start: Start, ghost trace0: seq<Content>)
    returns (left: nat, ghost trace: seq<Content>)
    requires Worked(bus, s, start, supply, [], trace0)
    requires |start.blocks| + 2 * Grows(ops) <= 1022
    requires forall i :: 0 <= i < |ops| && ops[i].Cut? ==> ops[i].len < WRAP
    modifies bus, bus.bitmap, bus.chunks, s
    ensures Worked(bus, s, start, left, ops, trace)
    ensures forall k :: 0 <= k < |bus.chunks| ==> bus.chunks[k] in old(bus.chunks) || fresh(bus.chunks[k])
    ensures bus.bitmap == old(bus.bitmap) || fresh(bus.bitmap)
  {
    hide Worked, Grows;
    left, trace := supply, trace0;
    for i := 0 to |ops|
      invariant Worked(bus, s, start, left, ops[..i], trace)
      invariant forall k :: 0 <= k < |bus.chunks| ==> bus.chunks[k] in old(bus.chunks) || fresh(bus.chunks[k])
      invariant bus.bitmap == old(bus.bitmap) || fresh(bus.bitmap)
    {
      GrowsUpTo(ops, i + 1);
      assert ops[..i] + [ops[i]] == ops[..i + 1];
      left, trace := WorkOn(bus, s, ops[i], left, start, ops[..i], trace);
    }
    assert ops[..|ops|] == ops;
  }

  lemma GrownTwice(v0: BusView, v1: BusView, v: BusView, supply: nat, sequence0: seq<int>, sequence1: seq<int>,
                   sequence: seq<int>, blocks1: seq<Slice>, blocks: seq<Slice>)
    requires sequence0 <= sequence1 <= sequence && blocks1 <= blocks
    requires Confined(v0, v1, supply, Added(sequence0, sequence1), blocks1)
    requires Confined(v1, v, Left(v0, v1, supply), Added(sequence1, sequence), blocks)
    ensures Confined(v0, v, supply, Added(sequence0, sequence), blocks)
    ensures Left(v0, v, supply) == Left(v1, v, Left(v0, v1, supply))
    ensures 0 <= |v.chunks| - |v1.chunks| <= Left(v0, v1, supply)
    ensures Left(v0, v, supply) == Left(v0, v1, supply) - (|v.chunks| - |v1.chunks|)
  {
    hide Took, Room, OnlyIn, DecodeFrom;
    ConfinedTwice(v0, v1, v, supply, Added(sequence0, sequence1), Added(sequence1, sequence), blocks1, blocks);
    AddedTwice(sequence0, sequence1, sequence);
  }

  /** Next, as far as the stripe goes: the node takes the stripe up from its header, its
      handler does whatever it does, and the hub takes it back. The hub's stripe then
      represents what the operations made of the flat bytes, and nothing outside its
      windows has changed. */
  method Visit(bus: Bus, s: Stripe, ops: seq<NodeOp>, supply: nat) returns (left: nat, ghost trace: seq<Content>)
    requires Represents(bus, s) && |s.blocks| + 2 * Grows(ops) <= 1022
    requires forall i :: 0 <= i < |ops| && ops[i].Cut? ==> ops[i].len < WRAP
    modifies bus, bus.bitmap, bus.chunks, s
    ensures Represents(bus, s) && old(s.blocks) <= s.blocks && old(s.sequence) <= s.sequence
    ensures Played(trace, ops) && trace[0] == old(ContentOf(bus, s, supply)) && trace[|ops|] == ContentOf(bus, s, left)
    ensures old(bus.chunks) <= bus.chunks && left == Left(old(Look(bus)), Look(bus), supply)
    ensures forall k :: 0 <= k < |bus.chunks| ==> bus.chunks[k] in old(bus.chunks) || fresh(bus.chunks[k])
    ensures bus.bitmap == old(bus.bitmap) || fresh(bus.bitmap)
    ensures Confined(old(Look(bus)), Look(bus), supply, Added(old(s.sequence), s.sequence), s.blocks)
  {
    hide ValidSlices, Listed, Header.Holds, Slices, DecodeFrom, Header.Decode, InChunks, HeaderOf, Played, Grows,
         Confined, Room;
    CountIsLength(bus, s);
    SequenceFits(bus, s);
    RepresentsIsShared(bus, s);
    SequenceFacts(bus, s);
    ghost var flat0, v0 := Flat(s.blocks), Look(bus);
    var node := TakeUp(bus, bus.chunks, s.sequence[0], s.blocks[0]);
    assert Flat(s.blocks) == flat0 && Look(bus) == v0 && node.blocks == s.blocks;
    left, trace := RunHandler(bus, node, ops, supply);
    TakeBack(bus, s, node, v0.chunks);
  }
}
