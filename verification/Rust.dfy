/** The Rust node's access to a stripe (rust/src/stripe.rs, rust/src/connection.rs): it
    walks the sequence anew for every transfer, with the chunks it has attached by then. */
module RustModel {
  import opened Layout
  import opened Bitmap
  import opened Codec
  import opened Memory
  import opened StripeModel
  import opened ViewerModel
  import opened BusModel
  import opened HubModel
  import opened ConnModel
  import opened RustWalk
  import Header

  // ---------- Transfers ----------

  /** Segment `i` covers the range behind the segments before it. */
  lemma {:induction false} TileCovers(ws: seq<Slice>, segments: seq<Segment>, start: nat, end: nat, i: nat)
    requires ValidSlices(ws) && Tiles(ws, segments, start, end) && i < |segments|
    ensures Covers(ws, segments[i], start + Lengths(segments[..i]))
    ensures start + Lengths(segments[..i]) + segments[i].len <= end
    decreases |segments|
  {
    hide ValidSlices, Covers;
    var front, last := segments[..|segments| - 1], segments[|segments| - 1];
    if i < |front| {
      TileCovers(ws, front, start, end - last.len, i);
      assert front[..i] == segments[..i];
    } else {
      TilesBounds(ws, front, start, end - last.len);
    }
  }

  lemma LengthsNext(segments: seq<Segment>, i: nat)
    requires i < |segments|
    ensures Lengths(segments[..i + 1]) == Lengths(segments[..i]) + segments[i].len
  {
    assert segments[..i + 1][..i] == segments[..i];
  }

  /** Copies consecutive parts of `src` to the segments. */
  method CopyToSegments(ghost ws: seq<Slice>, segments: seq<Segment>, ghost start: nat, ghost end: nat, src: seq<Byte>)
    returns (copied: nat)
    requires ValidSlices(ws) && start <= end <= start + |src| && Tiles(ws, segments, start, end)
    requires start < end ==> end <= BLOCK_SIZE * |ws|
    modifies Arrays(ws)
    ensures copied == end - start
    ensures Flat(ws) == if copied > 0 then Splice(old(Flat(ws)), start, src[..copied]) else old(Flat(ws))
    ensures forall d, x :: d in Arrays(ws) && 0 <= x < d.Length && Outside(ws, d, x) ==> d[x] == old(d[x])
  {
    hide Flat, ValidSlices, Tiles, Splice, Lengths, Outside;
    TilesBounds(ws, segments, start, end);
    copied := 0;
    ghost var flat := Flat(ws);
    NoLengths(segments);
    for i := 0 to |segments|
      invariant copied == Lengths(segments[..i]) && start + copied <= end
      invariant Flat(ws) == if copied > 0 then Splice(flat, start, src[..copied]) else flat
      invariant forall d, x :: d in Arrays(ws) && 0 <= x < d.Length && Outside(ws, d, x) ==> d[x] == old(d[x])
    {
      var g := segments[i];
      TileCovers(ws, segments, start, end, i);
      LengthsNext(segments, i);
      ghost var at := start + copied;
      CopyTo(ws, at / BLOCK_SIZE, at % BLOCK_SIZE, g.data, g.off, src[copied..copied + g.len]);
      SpliceMore(flat, start, src, copied, g.len);
      copied := copied + g.len;
    }
    assert segments[..|segments|] == segments;
  }

  lemma NoLengths(segments: seq<Segment>)
    ensures Lengths(segments[..0]) == 0
  {}

  /** Copies one segment, which covers the flat bytes from `at` on, into `buffer`. */
  method CopySegment(ghost ws: seq<Slice>, g: Segment, ghost at: nat, buffer: array<Byte>, copied: nat)
    requires ValidSlices(ws) && Covers(ws, g, at) && buffer !in Arrays(ws) && copied + g.len <= buffer.Length
    modifies buffer
    ensures Flat(ws) == old(Flat(ws)) && at + g.len <= |Flat(ws)|
    ensures buffer[copied..copied + g.len] == Flat(ws)[at..at + g.len]
    ensures buffer[..copied] == old(buffer[..copied]) && buffer[copied + g.len..] == old(buffer[copied + g.len..])
  {
    hide ValidSlices, Covers;
    CoveredBytes(ws, g, at);
    assert g.data != buffer;
    ghost var part, was := g.data[g.off..g.off + g.len], buffer[..];
    forall k | 0 <= k < g.len { buffer[copied + k] := g.data[g.off + k]; }
    assert forall k :: copied <= k < copied + g.len ==> buffer[k] == part[k - copied];
    assert forall k :: 0 <= k < copied || copied + g.len <= k < |was| ==> buffer[k] == was[k];
    CoveredBytes(ws, g, at);
  }

  /** Copies the segments one after the other into `buffer`. */
  method CopyFromSegments(ghost ws: seq<Slice>, segments: seq<Segment>, ghost start: nat, ghost end: nat,
                          buffer: array<Byte>)
    returns (copied: nat)
    requires ValidSlices(ws) && start <= end <= start + buffer.Length && Tiles(ws, segments, start, end)
    requires (start < end ==> end <= BLOCK_SIZE * |ws|) && buffer !in Arrays(ws)
    modifies buffer
    ensures Flat(ws) == old(Flat(ws))
    ensures copied == end - start && (copied > 0 ==> buffer[..copied] == Flat(ws)[start..end])
    ensures buffer[copied..] == old(buffer[copied..])
  {
    hide Flat, ValidSlices, Tiles, Lengths, Covers;
    TilesBounds(ws, segments, start, end);
    copied := 0;
    ghost var f, b := Flat(ws), buffer[..];
    NoLengths(segments);
    for i := 0 to |segments|
      invariant copied == Lengths(segments[..i]) && start + copied <= end && Flat(ws) == f
      invariant copied > 0 ==> buffer[..copied] == f[start..start + copied]
      invariant buffer[copied..] == b[copied..]
    {
      var g := segments[i];
      TileCovers(ws, segments, start, end, i);
      LengthsNext(segments, i);
      ghost var was := buffer[..];
      CopySegment(ws, g, start + copied, buffer, copied);
      OneMorePart(f, b, was, buffer[..], start, copied, g.len);
      copied := copied + g.len;
    }
    assert segments[..|segments|] == segments;
  }

  lemma OneMorePart(f: seq<Byte>, b: seq<Byte>, was: seq<Byte>, now: seq<Byte>, start: nat, n: nat, len: nat)
    requires n + len <= |b| == |was| == |now| && start + n + len <= |f|
    requires (n > 0 ==> was[..n] == f[start..start + n]) && was[n..] == b[n..]
    requires now[..n] == was[..n] && now[n..n + len] == f[start + n..start + n + len] &&
      now[n + len..] == was[n + len..]
    ensures now[..n + len] == f[start..start + n + len] && now[n + len..] == b[n + len..]
  {
    assert now[..n + len] == now[..n] + now[n..n + len];
    assert f[start..start + n + len] == f[start..start + n] + f[start + n..start + n + len];
    assert now[n + len..] == was[n..][len..];
  }

  // ---------- The stripe of a slot, as the Rust node sees it ----------

  lemma DecodeNewLength(b: seq<Byte>, newLen: nat)
    requires |b| == BLOCK_SIZE && newLen < WRAP
    ensures Header.Decode(Splice(b, 0, Header.Put32(newLen))) == Header.Decode(b).(dataLen := newLen)
  {
    hide Header.Put32;
    var c := Splice(b, 0, Header.Put32(newLen));
    assert c[0..4] == Header.Put32(newLen);
    Header.SliceGet32(c, newLen);
    assert forall i :: 4 <= i < BLOCK_SIZE ==> c[i] == b[i];
    assert Header.Decode(c).sequence == Header.Decode(b).sequence;
  }

  /** `w` is `w0` with the part of `src` that fits written from `at` on, `n` bytes of it. */
  predicate Transferred(n: nat, w: seq<Byte>, w0: seq<Byte>, at: nat, src: seq<Byte>)
  {
    n == Fitting(|src|, at, |w0|) && w == if n > 0 then Splice(w0, at, src[..n]) else w0
  }

  /** `data` is what `f` holds of `want` bytes from `at` on. */
  predicate Found(data: seq<Byte>, want: nat, f: seq<Byte>, at: nat)
  {
    |data| == Fitting(want, at, |f|) && (data != [] ==> data == f[at..at + |data|])
  }

  /** Windows and a place in their flat bytes; `asked` if it is the place that was asked for. */
  datatype Place = Place(blocks: seq<Slice>, at: nat, asked: bool)

  /** A place that a transfer to the stripe with windows `ws` may go to: behind the header
      of all windows, or anywhere in some that are not the header. */
  ghost predicate PlaceIn(ws: seq<Slice>, t: Place)
  {
    && ws != [] && ValidSlices(t.blocks) && (forall i :: 0 <= i < |t.blocks| ==> t.blocks[i] in ws)
    && (t.asked ==> t.blocks == ws && t.at >= BLOCK_SIZE) && (!t.asked ==> ws[0] !in t.blocks)
  }

  lemma InTail(ws: seq<Slice>, w: Slice)
    requires ws != [] && ValidSlices(ws) && w in ws[1..]
    ensures w in ws && w != ws[0]
  {
    var tail := ws[1..];
    var j :| 0 <= j < |tail| && tail[j] == w;
    assert ws[j + 1] == w;
  }

  lemma PlaceArrays(ws: seq<Slice>, t: Place)
    requires PlaceIn(ws, t)
    ensures ValidSlices(t.blocks) && Arrays(t.blocks) <= Arrays(ws)
  {
    forall d | d in Arrays(t.blocks) ensures d in Arrays(ws) {
      var i :| 0 <= i < |t.blocks| && t.blocks[i].data == d;
      assert t.blocks[i] in ws;
    }
  }

  /** No byte of a window lies in other windows. */
  lemma OutsideWindow(blocks: seq<Slice>, w: Slice, x: nat)
    requires ValidSlices(blocks) && w !in blocks && w.off % BLOCK_SIZE == 0 && w.off <= x < w.off + BLOCK_SIZE
    ensures Outside(blocks, w.data, x)
  {
    forall i | 0 <= i < |blocks| && blocks[i].data == w.data
      ensures x < blocks[i].off || blocks[i].off + BLOCK_SIZE <= x
    {
      assert blocks[i] != w;
      WindowsApart(blocks[i].off, w.off);
    }
  }

  /** Copies `src` to a place that was found for it. */
  method CopyWithin(ghost bus: Bus, segments: seq<Segment>, ghost t: Place, src: seq<Byte>) returns (n: nat)
    requires ValidSlices(t.blocks) && Resolved(t.blocks, segments, t.at, |src|)
    modifies Arrays(t.blocks)
    ensures Transferred(n, Flat(t.blocks), old(Flat(t.blocks)), t.at, src) && n <= |src|
    ensures OnlyIn(old(Snapshot(bus.chunks)), Snapshot(bus.chunks), bus.chunks, t.blocks)
  {
    hide Flat, ValidSlices, Tiles, Splice, Outside, OnlyIn;
    ghost var mem0 := Snapshot(bus.chunks);
    n := CopyToSegments(t.blocks, segments, t.at, t.at + Fitting(|src|, t.at, BLOCK_SIZE * |t.blocks|), src);
    forall k, x | 0 <= k < |bus.chunks| && 0 <= x < bus.chunks[k].Length && Outside(t.blocks, bus.chunks[k], x)
      ensures bus.chunks[k][x] == mem0[k][x]
    {
      assert mem0[k][x] == old(bus.chunks[k][x]);
    }
    UntouchedIsOnlyIn(mem0, bus.chunks, t.blocks);
  }

  lemma TransferredBehind(n: nat, w: seq<Byte>, w0: seq<Byte>, at: nat, src: seq<Byte>)
    requires Transferred(n, w, w0, at, src) && BLOCK_SIZE <= at && BLOCK_SIZE <= |w0|
    ensures |w| == |w0| && w[..BLOCK_SIZE] == w0[..BLOCK_SIZE]
    ensures n == Fitting(|src|, at - BLOCK_SIZE, |w0| - BLOCK_SIZE)
    ensures n > 0 ==> w[BLOCK_SIZE..] == Splice(w0[BLOCK_SIZE..], at - BLOCK_SIZE, src[..n])
    ensures n == 0 ==> w[BLOCK_SIZE..] == w0[BLOCK_SIZE..]
  {
    if n > 0 { SpliceBehind(w0, BLOCK_SIZE, at - BLOCK_SIZE, src[..n]); }
  }

  /** A node with the given chunks, for a stripe with the given header block and sequence, has
      attached every chunk that user bytes `offset` to `offset + want` touch. */
  predicate HasOf(chunks: seq<array<Byte>>, h: Slice, sequence: seq<int>, offset: nat, want: nat)
  {
    h.data in chunks && HasRange(Decode(sequence), |chunks|, BLOCK_SIZE + offset, want)
  }

  function ReachOf(chunks: seq<array<Byte>>, h: Slice, sequence: seq<int>, offset: nat): (ws: seq<Slice>)
  {
    var bs := Decode(sequence);
    if h.data in chunks && ValidBlocks(bs) then Reached(chunks, bs, BLOCK_SIZE + offset) else []
  }

  function TargetOf(chunks: seq<array<Byte>>, h: Slice, sequence: seq<int>, ws: seq<Slice>, offset: nat, want: nat)
    : (t: Place)
  {
    if HasOf(chunks, h, sequence, offset, want) then Place(ws, BLOCK_SIZE + offset, true)
    else Place(ReachOf(chunks, h, sequence, offset), offset % BLOCK_SIZE, false)
  }

  class RustStripe {
    const header: Slice
    var chunks: seq<array<Byte>>
    var sequence: seq<int>
    var blockCount: nat
    var dataLen: nat

    constructor (header: Slice, chunks: seq<array<Byte>>)
      ensures this.header == header && this.chunks == chunks && sequence == []
    {
      this.header, this.chunks := header, chunks;
      sequence, blockCount, dataLen := [], 0, 0;
    }

    /** The node has attached the chunk of the header block. */
    predicate HasHeader()
      reads this
    {
      header.data in chunks
    }

    /** The header is that of a stripe with windows `ws`; the node has attached some of the
        bus's chunks, in order. Before it has that of the header it can have read no list. */
    ghost predicate Sees(bus: Bus, ws: seq<Slice>)
      reads this, bus, bus.bitmap, header.data
    {
      && Shared(bus, header) && ValidSlices(ws)
      && ws == Windows(bus.chunks, Header.Decode(BlockBytes(header)).sequence)
      && chunks <= bus.chunks && (HasHeader() || sequence == [])
    }

    /** What the header block decodes to. */
    ghost function Meta(): (m: Header.Meta)
      requires ValidSlices([header])
      reads header.data
    {
      Header.Decode(BlockBytes(header))
    }

    /** The node has attached the chunk of every block that user bytes `offset` to
        `offset + want` touch. */
    ghost predicate Has(offset: nat, want: nat)
      requires ValidSlices([header])
      reads this, header.data
    {
      HasOf(chunks, header, Meta().sequence, offset, want)
    }

    /** The windows that a walk from user byte `offset` on can use. */
    ghost function Reach(offset: nat): (ws: seq<Slice>)
      requires ValidSlices([header])
      reads this, header.data
    {
      ReachOf(chunks, header, Meta().sequence, offset)
    }

    /** Where a transfer of `want` bytes at `offset` goes: to their place behind the header if
        the node has their chunks, and otherwise to the attached blocks from there on. */
    ghost function Target(ws: seq<Slice>, offset: nat, want: nat): (t: Place)
      reads this, header.data
    {
      if ValidSlices([header]) then TargetOf(chunks, header, Meta().sequence, ws, offset, want) else Place([], 0, false)
    }

    lemma SeenFacts(bus: Bus, ws: seq<Slice>)
      requires Sees(bus, ws)
      ensures ValidSlices(ws) && ws != [] && ws[0] == header && ValidSlices([header])
      ensures |Meta().sequence| <= Header.CAPACITY
    {}

    lemma ReachFacts(bus: Bus, ws: seq<Slice>, offset: nat)
      requires Sees(bus, ws)
      ensures ValidSlices(Reach(offset)) && forall i :: 0 <= i < |Reach(offset)| ==> Reach(offset)[i] in ws[1..]
    {
      hide Slices, DecodeFrom, Header.Decode, Encode, Attached;
      SeenFacts(bus, ws);
      var bs := Decode(Meta().sequence);
      UsedAreValid(bus.bitmap[..], bs);
      ReachWithin(chunks, bus.chunks, bs, BLOCK_SIZE + offset);
    }

    lemma TargetFacts(bus: Bus, ws: seq<Slice>, offset: nat, want: nat)
      requires Sees(bus, ws)
      ensures PlaceIn(ws, Target(ws, offset, want))
    {
      hide HasOf, ReachOf;
      SeenFacts(bus, ws);
      ReachFacts(bus, ws, offset);
      var r := Reach(offset);
      forall i | 0 <= i < |r| ensures r[i] in ws && r[i] != ws[0] {
        InTail(ws, r[i]);
      }
    }

    /** Chunks that arrive: the node then has at least the first `upTo` there are. */
    method Attach(bus: Bus, upTo: nat)
      requires chunks <= bus.chunks
      modifies `chunks
      ensures old(chunks) <= chunks <= bus.chunks && |chunks| == Max(|old(chunks)|, Min(upTo, |bus.chunks|))
    {
      chunks := bus.chunks[..Max(|chunks|, Min(upTo, |bus.chunks|))];
    }

    /** Reads the header block again, if the node has its chunk; a sequence that does not fit
        the block would be read on past its end, into memory that is not the header's. */
    method RefreshSequence()
      requires ValidSlices([header]) && |Meta().sequence| <= Header.CAPACITY
      modifies `sequence, `blockCount, `dataLen
      ensures HasHeader() ==> Meta() == Header.Meta(dataLen, blockCount, sequence)
      ensures !HasHeader() ==>
        sequence == old(sequence) && blockCount == old(blockCount) && dataLen == old(dataLen)
    {
      if header.data in chunks {
        var m := DecodeHeader(header);
        sequence, blockCount, dataLen := m.sequence, m.blockCount, m.dataLen;
      }
    }

    /** The list in the header names distinct blocks of the bus, the windows' in order. */
    lemma HeaderBlocks(bus: Bus, ws: seq<Slice>)
      requires Sees(bus, ws)
      ensures var bs := Decode(Meta().sequence);
        && ValidBlocks(bs) && bs == DecodeFrom(-1, Meta().sequence) && bs != [] && DistinctBlocks(bs)
        && InChunks(bs, |bus.chunks|) && ValidChunks(bus.chunks) && ws == Slices(bus.chunks, bs)
    {
      hide Slices, Header.Decode, Encode, DecodeFrom;
      UsedAreValid(bus.bitmap[..], Decode(Meta().sequence));
      AnyFirstChunk(-1, Meta().sequence);
    }

    /** The walk over the list that was just read: it finds the asked-for bytes exactly when
        the node has attached every chunk they touch. */
    method Resolve(ghost bus: Bus, ghost ws: seq<Slice>, offset: nat, want: nat) returns (segments: seq<Segment>)
      requires Sees(bus, ws) && (HasHeader() ==> Meta() == Header.Meta(dataLen, blockCount, sequence))
      ensures Resolved(Reach(offset), segments, offset % BLOCK_SIZE, want)
      ensures HasHeader() ==> (Resolved(ws, segments, BLOCK_SIZE + offset, want) <==> Has(offset, want))
    {
      hide Slices, HeaderOf, Header.Decode, DecodeFrom, Resolved, Reached, HasRange, ValidBlocks, InChunks;
      SeenFacts(bus, ws);
      HeaderBlocks(bus, ws);
      segments := ResolveSegments(chunks, sequence, BLOCK_SIZE + offset, want);
      assert (BLOCK_SIZE + offset) % BLOCK_SIZE == offset % BLOCK_SIZE;
      if HasHeader() {
        ResolvedIff(chunks, bus.chunks, Decode(sequence), segments, BLOCK_SIZE + offset, want);
      } else {
        EmptyReached(chunks, BLOCK_SIZE + offset);
      }
    }

    method Locate(ghost bus: Bus, ghost ws: seq<Slice>, offset: nat, want: nat) returns (segments: seq<Segment>)
      requires Sees(bus, ws)
      modifies `sequence, `blockCount, `dataLen
      ensures Sees(bus, ws) && PlaceIn(ws, Target(ws, offset, want))
      ensures Target(ws, offset, want) == old(Target(ws, offset, want))
      ensures var t := Target(ws, offset, want); Resolved(t.blocks, segments, t.at, want)
    {
      hide Header.Decode, Slices, Resolved, Reached, HasRange, DecodeFrom;
      RefreshSequence();
      segments := Resolve(bus, ws, offset, want);
      TargetFacts(bus, ws, offset, want);
    }

    /** Reads the flat bytes behind the header block that Go reads, if the node has their
        chunks, and otherwise what the attached blocks from there on hold. */
    method ReadData(ghost bus: Bus, ghost ws: seq<Slice>, offset: nat, buffer: array<Byte>) returns (n: nat)
      requires Sees(bus, ws) && buffer !in Arrays(ws)
      modifies `sequence, `blockCount, `dataLen, buffer
      ensures Sees(bus, ws) && PlaceIn(ws, Target(ws, offset, buffer.Length)) && n <= buffer.Length
      ensures Target(ws, offset, buffer.Length) == old(Target(ws, offset, buffer.Length))
      ensures var t := Target(ws, offset, buffer.Length); Found(buffer[..n], buffer.Length, Flat(t.blocks), t.at)
      ensures buffer[n..] == old(buffer[n..])
    {
      hide Header.Decode, Slices, TargetOf, HeaderOf, Tiles, Flat;
      ghost var b := BlockBytes(header);
      var segments := Locate(bus, ws, offset, buffer.Length);
      ghost var t := Target(ws, offset, buffer.Length);
      PlaceArrays(ws, t);
      SeenFacts(bus, ws);
      assert header.data in Arrays(ws);
      ghost var f := Flat(t.blocks);
      n := CopyFromSegments(t.blocks, segments, t.at, t.at + Fitting(buffer.Length, t.at, BLOCK_SIZE * |t.blocks|),
                            buffer);
      assert BlockBytes(header) == b;
    }

    /** Writes what Go would write, the part of `src` that fits, if the node has the chunks of
        its place, and otherwise writes to the attached blocks from there on; and nothing else. */
    method WriteData(ghost bus: Bus, ghost ws: seq<Slice>, offset: nat, src: seq<Byte>) returns (n: nat)
      requires Sees(bus, ws)
      modifies `sequence, `blockCount, `dataLen, Arrays(ws)
      ensures Sees(bus, ws) && PlaceIn(ws, Target(ws, offset, |src|)) && BlockBytes(header) == old(BlockBytes(header))
      ensures Target(ws, offset, |src|) == old(Target(ws, offset, |src|)) && n <= |src|
      ensures var t := Target(ws, offset, |src|);
        && Transferred(n, Flat(t.blocks), old(Flat(t.blocks)), t.at, src)
        && OnlyIn(old(Snapshot(bus.chunks)), Snapshot(bus.chunks), bus.chunks, t.blocks)
    {
      hide HeaderOf, Header.Decode, DecodeFrom, TargetOf, ValidSlices, Resolved, OnlyIn, Transferred;
      ghost var mem := Snapshot(bus.chunks);
      ghost var t := Target(ws, offset, |src|);
      TargetFacts(bus, ws, offset, |src|);
      PlaceArrays(ws, t);
      ghost var f := Flat(t.blocks);
      var segments := Locate(bus, ws, offset, |src|);
      assert Flat(t.blocks) == f && Snapshot(bus.chunks) == mem;
      n := Transfer(bus, ws, segments, t, src);
    }

    method Transfer(ghost bus: Bus, ghost ws: seq<Slice>, segments: seq<Segment>, ghost t: Place, src: seq<Byte>)
      returns (n: nat)
      requires Sees(bus, ws) && PlaceIn(ws, t) && Resolved(t.blocks, segments, t.at, |src|)
      modifies Arrays(ws)
      ensures Sees(bus, ws) && BlockBytes(header) == old(BlockBytes(header)) && n <= |src|
      ensures Transferred(n, Flat(t.blocks), old(Flat(t.blocks)), t.at, src)
      ensures OnlyIn(old(Snapshot(bus.chunks)), Snapshot(bus.chunks), bus.chunks, t.blocks)
    {
      hide HeaderOf, PlaceIn, Flat, ValidSlices, Resolved, Transferred, Header.Decode, DecodeFrom, OnlyIn, FlatIn,
           Snapshot;
      SeenFacts(bus, ws);
      PlaceArrays(ws, t);
      ghost var f, b, mem0 := Flat(t.blocks), BlockBytes(header), Snapshot(bus.chunks);
      WindowsOfBus(bus, ws);
      BeforeTransfer(bus.chunks, ws, t);
      n := CopyWithin(bus, segments, t, src);
      HeaderStays(bus.chunks, ws, t, mem0, f, b, n, src);
    }

    /** Length and block count in the header, or zeros if the node has not its chunk. */
    method GetMeta() returns (dataLen: nat, blockCount: nat)
      requires ValidSlices([header])
      ensures HasHeader() ==> dataLen == Meta().dataLen && blockCount == Meta().blockCount
      ensures !HasHeader() ==> dataLen == blockCount == 0
    {
      if header.data !in chunks { return 0, 0; }
      var m := DecodeHeader(header);
      return m.dataLen, m.blockCount;
    }

    /** A view of the stripe: it exists exactly when the range is not empty and some block from
        it on is attached. It is sound exactly when the node has all of its chunks, and then it
        is the slice that Go's view of the range is. */
    method View(ghost bus: Bus, ghost ws: seq<Slice>, offset: nat, length: nat) returns (v: Viewer?)
      requires Sees(bus, ws)
      modifies `sequence, `blockCount, `dataLen
      ensures Sees(bus, ws) && Meta() == old(Meta())
      ensures var end := ViewEnd(offset, length, Meta().dataLen);
        && (v != null <==> HasHeader() && offset < Meta().dataLen && offset < end && Reach(offset) != [])
        && (v == null && HasHeader() && offset < Meta().dataLen && offset < end ==> !Has(offset, end - offset))
        && (v != null ==>
              && fresh(v) && v.blocks == ws && v.start == BLOCK_SIZE + offset && v.length == end - offset
              && (v.Valid() <==> Has(offset, end - offset))
              && (v.Valid() ==> v.Content() == Flat(ws)[BLOCK_SIZE + offset..BLOCK_SIZE + end]))
    {
      hide HeaderOf, Header.Decode, DecodeFrom, ValidSlices, Tiles, Lengths, HasOf, ReachOf, Flat, Resolved;
      SeenFacts(bus, ws);
      ghost var b := BlockBytes(header);
      RefreshSequence();
      HeaderLists(bus, ws);
      if sequence == [] || offset >= dataLen { return null; }
      var end := ViewEnd(offset, length, dataLen);
      if end <= offset { return null; }
      var segments := Resolve(bus, ws, offset, end - offset);
      ResolvedSome(Reach(offset), segments, offset % BLOCK_SIZE, end - offset);
      if Has(offset, end - offset) { ResolvedSome(ws, segments, BLOCK_SIZE + offset, end - offset); }
      if segments == [] { return null; }
      var offsets := Table(segments);
      v := new Viewer(segments, offsets, end - offset, ws, BLOCK_SIZE + offset);
      assert BlockBytes(header) == b;
      SoundIff(v);
    }

    lemma HeaderLists(bus: Bus, ws: seq<Slice>)
      requires Sees(bus, ws)
      ensures Meta().sequence != [] && Meta().dataLen <= BLOCK_SIZE * (|ws| - 1)
    {
      hide Header.Decode, Slices;
      DataFits(bus, header);
    }

    method UpdateDataLen(ghost bus: Bus, ghost ws: seq<Slice>, newLen: nat)
      requires Sees(bus, ws) && newLen < WRAP && newLen <= BLOCK_SIZE * (|ws| - 1)
      modifies header.data
      ensures Sees(bus, ws) && Meta() == old(Meta()).(dataLen := newLen)
      ensures Flat(ws)[BLOCK_SIZE..] == old(Flat(ws))[BLOCK_SIZE..]
      ensures OnlyIn(old(Snapshot(bus.chunks)), Snapshot(bus.chunks), bus.chunks, [header])
    {
      hide Slices, Header.Decode, Encode, DecodeFrom, InChunks, ValidSlices, ValidBlock, Splice, Header.Put32, OnlyIn;
      ghost var flat, b, mem0 := Flat(ws), BlockBytes(header), Snapshot(bus.chunks);
      FirstWindow(ws);
      CopyTo(ws, 0, 0, header.data, header.off, Header.Put32(newLen));
      SpliceFront(flat, BLOCK_SIZE, Header.Put32(newLen));
      FirstWindow(ws);
      DecodeNewLength(b, newLen);
      forall k, x | 0 <= k < |bus.chunks| && 0 <= x < bus.chunks[k].Length && Outside([header], bus.chunks[k], x)
        ensures bus.chunks[k][x] == mem0[k][x]
      {
        assert mem0[k][x] == old(bus.chunks[k][x]) && [header][0] == header;
      }
      UntouchedIsOnlyIn(mem0, bus.chunks, [header]);
    }

    /** The data length reaches at least to `end`. */
    method ExtendLength(ghost bus: Bus, ghost ws: seq<Slice>, end: nat)
      requires Sees(bus, ws) && end <= BLOCK_SIZE * (|ws| - 1) < WRAP
      modifies header.data
      ensures Sees(bus, ws) && Flat(ws)[BLOCK_SIZE..] == old(Flat(ws))[BLOCK_SIZE..]
      ensures Meta() == old(Meta()).(dataLen := Max(old(Meta()).dataLen, end))
      ensures OnlyIn(old(Snapshot(bus.chunks)), Snapshot(bus.chunks), bus.chunks, [header])
    {
      hide HeaderOf, Header.Decode, DecodeFrom, ValidSlices, OnlyIn;
      ghost var flat, mem := Flat(ws), Snapshot(bus.chunks);
      var m := DecodeHeader(header);
      assert Flat(ws) == flat && Snapshot(bus.chunks) == mem;
      NothingChanged(mem, bus.chunks, [header]);
      if end > m.dataLen { UpdateDataLen(bus, ws, end); }
    }

    /** A transfer and the new data length. */
    method PutAt(ghost bus: Bus, ghost ws: seq<Slice>, pos: nat, buf: seq<Byte>) returns (written: nat)
      requires Sees(bus, ws) && HasHeader() && pos + |buf| <= BLOCK_SIZE * (|ws| - 1) < WRAP
      modifies `sequence, `blockCount, `dataLen, Arrays(ws)
      ensures Sees(bus, ws) && written <= |buf| && PlaceIn(ws, Target(ws, pos, |buf|))
      ensures Target(ws, pos, |buf|) == old(Target(ws, pos, |buf|))
      ensures Meta() == old(Meta()).(dataLen := Max(old(Meta()).dataLen, pos + written))
      ensures Has(pos, |buf|) ==>
        written == |buf| && Flat(ws)[BLOCK_SIZE..] == Splice(old(Flat(ws))[BLOCK_SIZE..], pos, buf)
      ensures !Has(pos, |buf|) ==>
        Transferred(written, Flat(Reach(pos)), old(Flat(Reach(pos))), pos % BLOCK_SIZE, buf)
      ensures OnlyIn(old(Snapshot(bus.chunks)), Snapshot(bus.chunks), bus.chunks,
                     Target(ws, pos, |buf|).blocks + [header])
    {
      hide HeaderOf, Header.Decode, DecodeFrom, Reached, HasRange, ValidSlices, Splice, Flat, BlockBytes, OnlyIn,
           FlatIn, Transferred, Snapshot;
      SeenFacts(bus, ws);
      ghost var t := Target(ws, pos, |buf|);
      TargetFacts(bus, ws, pos, |buf|);
      ghost var f0, mem0 := Flat(t.blocks), Snapshot(bus.chunks);
      written := WriteData(bus, ws, pos, buf);
      ghost var f1, mem1 := Flat(t.blocks), Snapshot(bus.chunks);
      FlatInNow(bus.chunks, t.blocks);
      ExtendLength(bus, ws, pos + written);
      HeaderLast(mem0, mem1, bus.chunks, t.blocks, header);
      PutFacts(bus, ws, pos, buf, written, t, f0, f1, mem1);
    }

    lemma PutFacts(bus: Bus, ws: seq<Slice>, pos: nat, buf: seq<Byte>, n: nat, t: Place, f0: seq<Byte>, f1: seq<Byte>,
                   mem1: seq<seq<Byte>>)
      requires Sees(bus, ws) && t == Target(ws, pos, |buf|) && |f0| == |f1| == BLOCK_SIZE * |t.blocks|
      requires Transferred(n, f1, f0, t.at, buf) && FlatIn(f1, mem1, bus.chunks, t.blocks)
      requires OnlyIn(mem1, Snapshot(bus.chunks), bus.chunks, [header]) && pos + |buf| <= BLOCK_SIZE * (|ws| - 1)
      requires t.blocks == ws ==> Flat(ws)[BLOCK_SIZE..] == f1[BLOCK_SIZE..]
      ensures Has(pos, |buf|) ==> n == |buf| && Flat(ws)[BLOCK_SIZE..] == Splice(f0[BLOCK_SIZE..], pos, buf)
      ensures ValidSlices(Reach(pos))
      ensures !Has(pos, |buf|) ==> Transferred(n, Flat(Reach(pos)), f0, pos % BLOCK_SIZE, buf)
    {
      hide Sees, HasOf, ReachOf, ValidSlices, Splice, Flat, OnlyIn, FlatIn, Transferred, Snapshot;
      SeenFacts(bus, ws);
      ReachFacts(bus, ws, pos);
      if Has(pos, |buf|) {
        BufferSpliced(f0, f1, pos, buf, n);
      } else {
        ReachStays(bus, ws, pos, f1, mem1);
      }
    }

    /** The blocks of a walk hold what they held before the header block changed. */
    lemma ReachStays(bus: Bus, ws: seq<Slice>, pos: nat, f: seq<Byte>, mem: seq<seq<Byte>>)
      requires Sees(bus, ws) && FlatIn(f, mem, bus.chunks, Reach(pos))
      requires OnlyIn(mem, Snapshot(bus.chunks), bus.chunks, [header])
      ensures ValidSlices(Reach(pos)) && Flat(Reach(pos)) == f
    {
      hide ReachOf, FlatIn, OnlyIn, HeaderOf;
      ReachFacts(bus, ws, pos);
      SeenFacts(bus, ws);
      WindowsOfBus(bus, ws);
      var r := Reach(pos);
      forall i | 0 <= i < |r| ensures r[i] != header && r[i].data in bus.chunks {
        InTail(ws, r[i]);
      }
      WriteKeepsOthers(f, mem, bus.chunks, bus.chunks, [header], r);
    }

    lemma WindowsOfBus(bus: Bus, ws: seq<Slice>)
      requires Sees(bus, ws)
      ensures forall i :: 0 <= i < |ws| ==> ws[i].data in bus.chunks
    {
      hide Slices, DecodeFrom, Encode, Header.Decode;
      var bs := Decode(Meta().sequence);
      forall i | 0 <= i < |ws| ensures ws[i].data in bus.chunks { assert ws[i] == SliceOf(bus.chunks, bs[i]); }
    }
  }

  /** A range that begins inside the windows has a segment. */
  lemma ResolvedSome(ws: seq<Slice>, segments: seq<Segment>, start: nat, want: nat)
    requires Resolved(ws, segments, start, want) && want > 0
    ensures segments != [] <==> start < BLOCK_SIZE * |ws|
  {
    hide Tiles;
    TilesLength(ws, segments, start, start + Fitting(want, start, BLOCK_SIZE * |ws|));
    EmptyTiles(ws, segments, start, start + Fitting(want, start, BLOCK_SIZE * |ws|));
  }

  lemma SoundIff(v: Viewer)
    requires ValidSlices(v.blocks) && v.length > 0 && v.start + v.length <= BLOCK_SIZE * |v.blocks|
    requires |v.offsets| == |v.segments|
    requires forall i :: 0 <= i < |v.segments| ==> v.offsets[i] == Lengths(v.segments[..i])
    ensures v.Valid() <==> Resolved(v.blocks, v.segments, v.start, v.length)
  {
    hide Tiles, Lengths, ValidSlices;
  }

  lemma EmptyTiles(ws: seq<Slice>, segments: seq<Segment>, start: nat, end: nat)
    requires Tiles(ws, segments, start, end)
    ensures segments == [] ==> start == end
  {}

  lemma HeaderLast(mem0: seq<seq<Byte>>, mem1: seq<seq<Byte>>, chunks: seq<array<Byte>>, blocks: seq<Slice>, h: Slice)
    requires OnlyIn(mem0, mem1, chunks, blocks) && OnlyIn(mem1, Snapshot(chunks), chunks, [h])
    ensures OnlyIn(mem0, Snapshot(chunks), chunks, blocks + [h])
  {
    OnlyInMore(mem1, Snapshot(chunks), chunks, [h], blocks + [h]);
    OnlyInTwice(mem0, mem1, Snapshot(chunks), chunks, chunks, blocks, blocks + [h]);
  }

  lemma OnlyInMore(mem0: seq<seq<Byte>>, mem: seq<seq<Byte>>, chunks: seq<array<Byte>>, blocks: seq<Slice>,
                   more: seq<Slice>)
    requires OnlyIn(mem0, mem, chunks, blocks) && forall i :: 0 <= i < |blocks| ==> blocks[i] in more
    ensures OnlyIn(mem0, mem, chunks, more)
  {
    forall k, x | 0 <= k < |mem0| && 0 <= x < |mem0[k]| && Outside(more, chunks[k], x) ensures mem[k][x] == mem0[k][x] {
      forall i | 0 <= i < |blocks| && blocks[i].data == chunks[k]
        ensures x < blocks[i].off || blocks[i].off + BLOCK_SIZE <= x
      {
        var j :| 0 <= j < |more| && more[j] == blocks[i];
      }
      assert Outside(blocks, chunks[k], x);
    }
  }

  lemma BeforeTransfer(chunks: seq<array<Byte>>, ws: seq<Slice>, t: Place)
    requires PlaceIn(ws, t) && ValidSlices([ws[0]])
    ensures FlatIn(BlockBytes(ws[0]), Snapshot(chunks), chunks, [ws[0]])
    ensures ws[0] in t.blocks ==>
      |Flat(t.blocks)| >= BLOCK_SIZE && Flat(t.blocks)[..BLOCK_SIZE] == BlockBytes(ws[0])
  {
    hide Flat, FlatIn, ValidSlices;
    OneWindow(ws[0]);
    FlatInNow(chunks, [ws[0]]);
    if ws[0] in t.blocks { FirstWindow(ws); }
  }

  /** No transfer to such a place touches the header block. */
  lemma HeaderStays(chunks: seq<array<Byte>>, ws: seq<Slice>, t: Place, mem0: seq<seq<Byte>>, f: seq<Byte>,
                    b: seq<Byte>, n: nat, src: seq<Byte>)
    requires PlaceIn(ws, t) && ValidSlices([ws[0]]) && ws[0].data in chunks
    requires OnlyIn(mem0, Snapshot(chunks), chunks, t.blocks) && FlatIn(b, mem0, chunks, [ws[0]])
    requires ws[0] in t.blocks ==> |f| >= BLOCK_SIZE && f[..BLOCK_SIZE] == b
    requires Transferred(n, Flat(t.blocks), f, t.at, src)
    ensures BlockBytes(ws[0]) == b
  {
    hide Flat, FlatIn, OnlyIn, Transferred, ValidSlices, Snapshot;
    if ws[0] in t.blocks {
      TransferredBehind(n, Flat(ws), f, t.at, src);
      FirstWindow(ws);
    } else {
      WindowStays(mem0, chunks, t.blocks, ws[0], b);
    }
  }

  /** A window apart from those that were written holds what it held. */
  lemma WindowStays(mem0: seq<seq<Byte>>, chunks: seq<array<Byte>>, blocks: seq<Slice>, w: Slice, b: seq<Byte>)
    requires ValidSlices(blocks) && ValidSlices([w]) && w !in blocks && w.data in chunks
    requires OnlyIn(mem0, Snapshot(chunks), chunks, blocks) && FlatIn(b, mem0, chunks, [w])
    ensures BlockBytes(w) == b
  {
    hide Flat, FlatIn, OnlyIn;
    WriteKeepsOthers(b, mem0, chunks, chunks, blocks, [w]);
    OneWindow(w);
  }

  lemma OneWindow(w: Slice)
    requires ValidSlices([w])
    ensures Flat([w]) == BlockBytes(w)
  {
    hide Flat;
    FirstWindow([w]);
    assert Flat([w])[..BLOCK_SIZE] == Flat([w]);
  }

  lemma NothingChanged(mem: seq<seq<Byte>>, chunks: seq<array<Byte>>, ws: seq<Slice>)
    requires |mem| == |chunks|
    ensures OnlyIn(mem, mem, chunks, ws)
  {}

  /** Both implementations see the same bytes of the same stripe. */
  lemma SameBytes(bus: Bus, s: Stripe, r: RustStripe, ws: seq<Slice>)
    requires Represents(bus, s) && |s.sequence| <= Header.CAPACITY
    requires r.Sees(bus, ws) && r.header == s.blocks[0]
    ensures ws == s.blocks && Flat(ws) == Flat(s.blocks)
  {
    RepresentsIsShared(bus, s);
  }

  // ---------- Writing with growth ----------

  datatype Poll = Pending | Requested | Failed | Ready(n: nat)

  /** How many requests of two blocks each make room for `needed` user bytes. */
  function Expansions(blocks: nat, needed: nat): (k: nat)
    requires blocks >= 1
  {
    var cap := BLOCK_SIZE * (blocks - 1);
    if needed <= cap then 0 else (needed - cap + 2 * BLOCK_SIZE - 1) / (2 * BLOCK_SIZE)
  }

  /** What a connection sees: the bus, its stripe's list, data length and user bytes, and
      the write position. */
  datatype ConnView = ConnView(bus: BusView, sequence: seq<int>, dataLen: nat, user: seq<Byte>, pos: nat)

  ghost function At(bus: Bus, c: ShmConnection, ws: seq<Slice>): (v: ConnView)
    requires c.stripe.Sees(bus, ws)
    reads c, c.stripe, bus, bus.bitmap, bus.chunks, c.stripe.header.data, Arrays(ws)
  {
    WindowCount(bus, c.stripe.header);
    var m := c.stripe.Meta();
    ConnView(Look(bus), m.sequence, m.dataLen, Flat(ws)[BLOCK_SIZE..], c.writePos)
  }

  /** The same, and the bytes of the blocks that a transfer would go to. */
  datatype PollView = PollView(conn: ConnView, place: seq<Byte>)

  /** What became of a poll: nothing changed, or the buffer was written at the write position,
      if the node has the chunks of its place, and otherwise as much of it as they hold to the
      attached blocks from there on. */
  ghost predicate Tried(a: PollView, b: PollView, t: Place, h: Slice, buf: seq<Byte>, r: Poll)
  {
    if !r.Ready? then b == a
    else
      && b.conn.pos == a.conn.pos + r.n && b.conn.sequence == a.conn.sequence
      && b.conn.dataLen == Max(a.conn.dataLen, b.conn.pos) && |b.conn.user| == |a.conn.user|
      && b.conn.bus.bm == a.conn.bus.bm && b.conn.bus.chunks == a.conn.bus.chunks
      && OnlyIn(a.conn.bus.mem, b.conn.bus.mem, b.conn.bus.chunks, t.blocks + [h])
      && if t.asked then
           && r.n == |buf| && a.conn.pos + |buf| <= |a.conn.user|
           && b.conn.user == Splice(a.conn.user, a.conn.pos, buf)
         else Transferred(r.n, b.place, a.place, t.at, buf)
  }

  class ShmConnection {
    const stripe: RustStripe
    var readPos: nat
    var writePos: nat
    var waiting: bool

    constructor (stripe: RustStripe)
      ensures this.stripe == stripe && readPos == writePos == 0 && !waiting
    {
      this.stripe, readPos, writePos, waiting := stripe, 0, 0, false;
    }

    /** How much of `want` bytes there is behind the read position. */
    ghost function Available(want: nat): (n: nat)
      requires ValidSlices([stripe.header])
      reads this, stripe, stripe.header.data
    {
      if stripe.HasHeader() && readPos < stripe.Meta().dataLen then Min(want, stripe.Meta().dataLen - readPos) else 0
    }

    /** One poll of a read: what there is behind the read position, up to `want` bytes, if the
        node has their chunks, and otherwise what the attached blocks from there on hold. */
    method PollRead(ghost bus: Bus, ghost ws: seq<Slice>, want: nat) returns (data: seq<Byte>)
      requires stripe.Sees(bus, ws)
      modifies `readPos, stripe`sequence, stripe`blockCount, stripe`dataLen
      ensures stripe.Sees(bus, ws) && readPos == old(readPos) + |data|
      ensures var n := old(Available(want)); var t := old(stripe.Target(ws, readPos, Available(want)));
        PlaceIn(ws, t) && Found(data, n, Flat(t.blocks), t.at)
    {
      hide HeaderOf, Header.Decode, DecodeFrom, RustStripe.Target, PlaceIn, Found;
      stripe.SeenFacts(bus, ws);
      ghost var t := stripe.Target(ws, readPos, Available(want));
      var n := Ask(want);
      stripe.TargetFacts(bus, ws, readPos, n);
      PlaceArrays(ws, t);
      data := Fetch(bus, ws, n, t);
      ghost var f, b := Flat(t.blocks), BlockBytes(stripe.header);
      readPos := readPos + |data|;
      assert Flat(t.blocks) == f && BlockBytes(stripe.header) == b;
    }

    /** How many bytes a read asks for. */
    method Ask(want: nat) returns (n: nat)
      requires ValidSlices([stripe.header])
      ensures n == Available(want)
    {
      hide Header.Decode;
      var dataLen, blockCount := stripe.GetMeta();
      n := if readPos >= dataLen then 0 else Min(want, dataLen - readPos);
    }

    method Fetch(ghost bus: Bus, ghost ws: seq<Slice>, n: nat, ghost t: Place) returns (data: seq<Byte>)
      requires stripe.Sees(bus, ws) && t == stripe.Target(ws, readPos, n) && PlaceIn(ws, t)
      modifies stripe`sequence, stripe`blockCount, stripe`dataLen
      ensures stripe.Sees(bus, ws) && Found(data, n, Flat(t.blocks), t.at)
    {
      hide HeaderOf, Header.Decode, DecodeFrom, TargetOf, HasOf, ReachOf, ValidSlices, Slices;
      if n == 0 { return []; }
      ghost var b := BlockBytes(stripe.header);
      var buffer := new Byte[n];
      assert BlockBytes(stripe.header) == b;
      var read := stripe.ReadData(bus, ws, readPos, buffer);
      data := buffer[..read];
    }

    /** The node can poll, with `t` as a place in its stripe. */
    ghost predicate Aim(bus: Bus, ws: seq<Slice>, t: Place)
      reads stripe, bus, bus.bitmap, stripe.header.data
    {
      stripe.Sees(bus, ws) && stripe.HasHeader() && PlaceIn(ws, t)
    }

    /** What a poll can change: the connection's view, and the bytes of the blocks of `t`. */
    ghost function Sight(bus: Bus, ws: seq<Slice>, t: Place): (v: PollView)
      requires Aim(bus, ws, t)
      reads this, stripe, bus, bus.bitmap, bus.chunks, stripe.header.data, Arrays(ws), Arrays(t.blocks)
    {
      PollView(At(bus, this, ws), Flat(t.blocks))
    }

    /** The answer that a waiting write has or has not got. */
    method TakeReply(ghost bus: Bus, ghost ws: seq<Slice>, ghost t: Place, ghost buf: seq<Byte>, reply: Option<bool>)
      returns (r: Poll, goOn: bool)
      requires Aim(bus, ws, t) && t == stripe.Target(ws, writePos, |buf|)
      modifies `waiting
      ensures Aim(bus, ws, t) && t == stripe.Target(ws, writePos, |buf|) && Sight(bus, ws, t) == old(Sight(bus, ws, t))
      ensures goOn <==> !old(waiting) || reply == Some(true)
      ensures !goOn ==> (reply == None && r == Pending) || (reply == Some(false) && r == Failed)
      ensures waiting <==> old(waiting) && reply == None
    {
      hide Aim, RustStripe.Target, Sight;
      r, goOn := Pending, true;
      var wait := waiting;
      if waiting {
        match reply {
          case None => goOn := false;
          case Some(granted) =>
            wait := false;
            if !granted { r, goOn := Failed, false; }
        }
      }
      SetWaiting(bus, ws, t, |buf|, wait);
    }

    /** The capacity test, on the block count in the header. */
    method HasRoom(ghost bus: Bus, ghost ws: seq<Slice>, ghost t: Place, len: nat) returns (fits: bool)
      requires Aim(bus, ws, t) && t == stripe.Target(ws, writePos, len)
      ensures Aim(bus, ws, t) && t == stripe.Target(ws, writePos, len) && Sight(bus, ws, t) == old(Sight(bus, ws, t))
      ensures fits <==> writePos + len <= BLOCK_SIZE * (|ws| - 1)
      ensures |ws| <= 65536
    {
      hide HeaderOf, Header.Decode, DecodeFrom, TargetOf, Slices, PlaceIn;
      PlaceArrays(ws, t);
      stripe.SeenFacts(bus, ws);
      ghost var flat, f, b, v := Flat(ws), Flat(t.blocks), BlockBytes(stripe.header), Look(bus);
      var dataLen, blockCount := stripe.GetMeta();
      assert Flat(ws) == flat && Flat(t.blocks) == f && BlockBytes(stripe.header) == b && Look(bus) == v;
      WindowCount(bus, stripe.header);
      var userCap := (blockCount - 1) * BLOCK_SIZE;
      fits := writePos + len <= userCap;
    }

    method SetWaiting(ghost bus: Bus, ghost ws: seq<Slice>, ghost t: Place, ghost len: nat, wait: bool)
      requires Aim(bus, ws, t) && t == stripe.Target(ws, writePos, len)
      modifies `waiting
      ensures Aim(bus, ws, t) && t == stripe.Target(ws, writePos, len) && Sight(bus, ws, t) == old(Sight(bus, ws, t))
      ensures waiting == wait
    {
      hide HeaderOf, Header.Decode, DecodeFrom, TargetOf, Slices, PlaceIn;
      PlaceArrays(ws, t);
      ghost var flat, f, b, v := Flat(ws), Flat(t.blocks), BlockBytes(stripe.header), Look(bus);
      waiting := wait;
      assert Flat(ws) == flat && Flat(t.blocks) == f && BlockBytes(stripe.header) == b && Look(bus) == v;
    }

    /** The write position moves by what was written. */
    method Advance(ghost bus: Bus, ghost ws: seq<Slice>, ghost t: Place, ghost len: nat, n: nat)
      requires Aim(bus, ws, t) && t == stripe.Target(ws, writePos, len)
      modifies `writePos
      ensures Aim(bus, ws, t) && t == stripe.Target(ws, old(writePos), len)
      ensures writePos == old(writePos) + n
      ensures var v := old(Sight(bus, ws, t)); Sight(bus, ws, t) == v.(conn := v.conn.(pos := v.conn.pos + n))
    {
      hide HeaderOf, Header.Decode, DecodeFrom, TargetOf, Slices, PlaceIn;
      PlaceArrays(ws, t);
      ghost var flat, f, b, v := Flat(ws), Flat(t.blocks), BlockBytes(stripe.header), Look(bus);
      writePos := writePos + n;
      assert Flat(ws) == flat && Flat(t.blocks) == f && BlockBytes(stripe.header) == b && Look(bus) == v;
    }

    /** The transfer of the buffer to its place and the new data length. */
    method Put(ghost bus: Bus, ghost ws: seq<Slice>, buf: seq<Byte>, ghost t: Place) returns (written: nat)
      requires Aim(bus, ws, t) && t == stripe.Target(ws, writePos, |buf|)
      requires writePos + |buf| <= BLOCK_SIZE * (|ws| - 1) < WRAP
      modifies stripe`sequence, stripe`blockCount, stripe`dataLen, Arrays(ws)
      ensures Aim(bus, ws, t) && t == stripe.Target(ws, writePos, |buf|)
      ensures var v := Sight(bus, ws, t);
        Tried(old(Sight(bus, ws, t)), v.(conn := v.conn.(pos := v.conn.pos + written)), t, stripe.header, buf,
              Ready(written))
    {
      hide HeaderOf, Header.Decode, DecodeFrom, HasOf, ReachOf, ValidSlices, Splice, OnlyIn, Transferred, PlaceIn, Flat,
           Snapshot;
      WindowCount(bus, stripe.header);
      PlaceArrays(ws, t);
      written := stripe.PutAt(bus, ws, writePos, buf);
    }

    /** The buffer at the write position, which moves by what was written. */
    method WriteAll(ghost bus: Bus, ghost ws: seq<Slice>, buf: seq<Byte>, ghost t: Place) returns (written: nat)
      requires Aim(bus, ws, t) && t == stripe.Target(ws, writePos, |buf|)
      requires writePos + |buf| <= BLOCK_SIZE * (|ws| - 1) < WRAP
      modifies `writePos, stripe`sequence, stripe`blockCount, stripe`dataLen, Arrays(ws)
      ensures Aim(bus, ws, t) && t == stripe.Target(ws, old(writePos), |buf|)
      ensures Tried(old(Sight(bus, ws, t)), Sight(bus, ws, t), t, stripe.header, buf, Ready(written))
    {
      hide Aim, RustStripe.Target, Sight, Tried;
      written := Put(bus, ws, buf, t);
      Advance(bus, ws, t, |buf|, written);
    }

    /** A poll that waits for nothing asks for more blocks or writes the buffer. */
    method Attempt(ghost bus: Bus, ghost ws: seq<Slice>, buf: seq<Byte>, pushed: bool, ghost t: Place) returns (r: Poll)
      requires Aim(bus, ws, t) && t == stripe.Target(ws, writePos, |buf|) && !waiting
      modifies `writePos, `waiting, stripe`sequence, stripe`blockCount, stripe`dataLen, Arrays(ws)
      ensures Aim(bus, ws, t) && t == stripe.Target(ws, old(writePos), |buf|)
      ensures Tried(old(Sight(bus, ws, t)), Sight(bus, ws, t), t, stripe.header, buf, r)
      ensures r.Ready? <==> old(writePos) + |buf| <= BLOCK_SIZE * (|ws| - 1)
      ensures !r.Ready? ==> r == if pushed then Requested else Failed
      ensures waiting <==> r == Requested
    {
      hide Aim, RustStripe.Target, Sight, OnlyIn, Transferred;
      var fits := HasRoom(bus, ws, t, |buf|);
      if fits {
        var written := WriteAll(bus, ws, buf, t);
        return Ready(written);
      }
      if !pushed { return Failed; }
      SetWaiting(bus, ws, t, |buf|, true);
      return Requested;
    }

    /** One poll of a write: it waits for an answer, asks for more blocks, or writes the
        buffer to the place `t`. `reply` is the hub's answer, if it has arrived; `pushed` tells
        whether a request found room in the hub's queue. */
    method PollWrite(ghost bus: Bus, ghost ws: seq<Slice>, buf: seq<Byte>, reply: Option<bool>, pushed: bool,
                     ghost t: Place)
      returns (r: Poll)
      requires Aim(bus, ws, t) && t == stripe.Target(ws, writePos, |buf|)
      modifies `writePos, `waiting, stripe`sequence, stripe`blockCount, stripe`dataLen, Arrays(ws)
      ensures Aim(bus, ws, t) && t == stripe.Target(ws, old(writePos), |buf|)
      ensures Tried(old(Sight(bus, ws, t)), Sight(bus, ws, t), t, stripe.header, buf, r)
      ensures old(waiting) && reply == None ==> r == Pending
      ensures old(waiting) && reply == Some(false) ==> r == Failed
      ensures !old(waiting) || reply == Some(true) ==>
        && (r.Ready? <==> old(writePos) + |buf| <= BLOCK_SIZE * (|ws| - 1))
        && (!r.Ready? ==> r == if pushed then Requested else Failed)
      ensures waiting <==> r == Pending || r == Requested
    {
      hide Aim, RustStripe.Target, Sight, OnlyIn, Transferred;
      var goOn;
      r, goOn := TakeReply(bus, ws, t, buf, reply);
      if goOn { r := Attempt(bus, ws, buf, pushed, t); }
    }
  }

  lemma BufferSpliced(flat: seq<Byte>, after: seq<Byte>, at: nat, buf: seq<Byte>, n: nat)
    requires BLOCK_SIZE + at + |buf| <= |flat| && Transferred(n, after, flat, BLOCK_SIZE + at, buf)
    ensures n == |buf| && after[BLOCK_SIZE..] == Splice(flat[BLOCK_SIZE..], at, buf)
  {
    assert buf[..|buf|] == buf;
    if n > 0 { SpliceBehind(flat, BLOCK_SIZE, at, buf); } else { SpliceNothing(flat[BLOCK_SIZE..], at); }
  }

  lemma WindowCount(bus: Bus, h: Slice)
    requires Shared(bus, h)
    ensures var m := Header.Decode(BlockBytes(h)); m.blockCount == |Windows(bus.chunks, m.sequence)| <= 65536
  {
    SharedIsValid(bus, Header.Decode(BlockBytes(h)).sequence, Header.Decode(BlockBytes(h)).blockCount);
  }

  lemma DataFits(bus: Bus, h: Slice)
    requires Shared(bus, h)
    ensures var m := Header.Decode(BlockBytes(h)); m.dataLen <= BLOCK_SIZE * (|Windows(bus.chunks, m.sequence)| - 1)
  {
    hide Header.Decode, Slices, DecodeFrom, Encode;
    WindowCount(bus, h);
  }

  lemma ExpansionsStep(blocks: nat, needed: nat)
    requires blocks >= 1
    ensures needed <= BLOCK_SIZE * (blocks - 1) <==> Expansions(blocks, needed) == 0
    ensures needed > BLOCK_SIZE * (blocks - 1) ==> Expansions(blocks, needed) == 1 + Expansions(blocks + 2, needed)
  {}

  /** The hub's answer to one request: two more blocks exactly when they can be had. Their
      chunks come by another way; when the node reads the answer it has attached at least the
      first `arrived` that there are, which need not be all. */
  method Answer(bus: Bus, r: RustStripe, supply: nat, arrived: nat, ghost ws: seq<Slice>)
    returns (granted: bool, left: nat, ghost more: seq<Slice>)
    requires r.Sees(bus, ws) && |ws| + 2 <= 1022
    modifies bus, bus.bitmap, r`chunks, r.header.data
    ensures r.Sees(bus, more) && ws <= more && |more| == |ws| + if granted then 2 else 0
    ensures granted <==> 2 <= RoomIn(old(Look(bus)), supply)
    ensures old(r.chunks) <= r.chunks <= bus.chunks && |r.chunks| == Max(|old(r.chunks)|, Min(arrived, |bus.chunks|))
    ensures Kept(Flat(more)[BLOCK_SIZE..], old(Flat(ws))[BLOCK_SIZE..])
    ensures r.Meta().dataLen == old(r.Meta()).dataLen && old(r.Meta()).sequence <= r.Meta().sequence
    ensures forall i :: 0 <= i < |bus.chunks| ==> bus.chunks[i] in old(bus.chunks) || fresh(bus.chunks[i])
    ensures bus.bitmap == old(bus.bitmap) || fresh(bus.bitmap)
    ensures left == Left(old(Look(bus)), Look(bus), supply)
    ensures RoomIn(Look(bus), left) == RoomIn(old(Look(bus)), supply) - if granted then 2 else 0
    ensures Confined(old(Look(bus)), Look(bus), supply, Added(old(r.Meta()).sequence, r.Meta().sequence), more)
  {
    hide Slices, Header.Decode, Header.Holds, Encode, DecodeFrom, InChunks, ValidSlices, HeaderOf, Listed, Room, Kept,
         Confined;
    WindowCount(bus, r.header);
    ghost var v0, sequence0 := Look(bus), r.Meta().sequence;
    CountsDecoded(bus, r.header);
    var count := |bus.chunks|;
    var s;
    granted, s := HandleExpandRequest(bus, r.header, true, supply, ws);
    OldOrNew(v0.chunks, bus.chunks);
    CountIsLength(bus, s);
    SequenceFits(bus, s);
    RepresentsIsShared(bus, s);
    GrownRoom(bus, s, v0, supply, sequence0, |ws|);
    left := supply - (|bus.chunks| - count);
    more := s.blocks;
    ghost var flat, b, v := Flat(more), BlockBytes(r.header), Look(bus);
    r.Attach(bus, arrived);
    assert Flat(more) == flat && BlockBytes(r.header) == b && Look(bus) == v;
  }

  lemma CountsDecoded(bus: Bus, h: Slice)
    requires Shared(bus, h)
    ensures var m := Header.Decode(BlockBytes(h));
      |Decode(m.sequence)| == |Windows(bus.chunks, m.sequence)| == m.blockCount
  {
    hide Header.Decode, Slices, DecodeFrom, Encode;
    WindowCount(bus, h);
  }

  lemma WrittenAfterKept(u: seq<Byte>, v: seq<Byte>, u0: seq<Byte>, off: nat, data: seq<Byte>)
    requires Written(u, v, off, data) && Kept(v, u0)
    ensures Written(u, u0, off, data)
  {
    assert forall p :: 0 <= p < |u0| ==> v[p] == v[..|u0|][p];
  }

  lemma KeptTwice(u: seq<Byte>, v: seq<Byte>, u0: seq<Byte>)
    requires Kept(u, v) && Kept(v, u0)
    ensures Kept(u, u0)
  {
    assert u[..|u0|] == u[..|v|][..|u0|];
  }

  lemma SpliceIsWritten(u: seq<Byte>, u0: seq<Byte>, off: nat, data: seq<Byte>)
    requires off + |data| <= |u0| && u == Splice(u0, off, data)
    ensures Written(u, u0, off, data)
  {
    assert u0[..|u0|] == u0;
    SplicedIsWritten(u, u0, u0, off, data);
  }

  datatype Reply = Done | Granted | Refused

  /** From `a` to `b` the stripe has grown to `ws` and, if `done`, `buf` was written at the
      write position, all of it if the node `has` the chunks of its place; nothing else of the
      stripe or of the bus has changed. */
  ghost predicate Turned(a: ConnView, b: ConnView, supply: nat, done: bool, has: bool, buf: seq<Byte>, ws: seq<Slice>)
  {
    && a.sequence <= b.sequence && Confined(a.bus, b.bus, supply, Added(a.sequence, b.sequence), ws)
    && if !done then Kept(b.user, a.user) && b.dataLen == a.dataLen && b.pos == a.pos
       else
         && a.pos <= b.pos <= a.pos + |buf| && b.dataLen == Max(a.dataLen, b.pos)
         && (has ==> b.pos == a.pos + |buf| && Written(b.user, a.user, a.pos, buf))
  }

  lemma TurnedTwice(a: ConnView, b: ConnView, c: ConnView, supply: nat, done: bool, has: bool, buf: seq<Byte>,
                    more: seq<Slice>, ws: seq<Slice>)
    requires Turned(a, b, supply, false, false, buf, more) && more <= ws
    requires Turned(b, c, Left(a.bus, b.bus, supply), done, has, buf, ws)
    ensures Turned(a, c, supply, done, has, buf, ws)
  {
    hide Confined, Written, Kept, DecodeFrom;
    GrownTwice(a.bus, b.bus, c.bus, supply, a.sequence, b.sequence, c.sequence, more, ws);
    if done {
      if has { WrittenAfterKept(c.user, b.user, a.user, a.pos, buf); }
    } else {
      KeptTwice(c.user, b.user, a.user);
    }
  }

  lemma TurnedStays(a: ConnView, b: ConnView, supply: nat, buf: seq<Byte>, ws: seq<Slice>)
    requires Turned(a, b, supply, false, false, buf, ws)
    ensures b.pos == a.pos
  {}

  /** A poll that wrote, as one turn. */
  lemma TriedTurns(a: PollView, b: PollView, t: Place, ws: seq<Slice>, buf: seq<Byte>, r: Poll, supply: nat)
    requires ws != [] && Tried(a, b, t, ws[0], buf, r) && r.Ready? && PlaceIn(ws, t)
    ensures Turned(a.conn, b.conn, supply, true, t.asked, buf, ws)
  {
    hide Confined, OnlyIn, Written, DecodeFrom;
    AddedNothing(a.conn.sequence);
    OnlyInMore(a.conn.bus.mem, b.conn.bus.mem, b.conn.bus.chunks, t.blocks + [ws[0]], ws);
    ConfinedWrite(a.conn.bus, b.conn.bus, supply, ws);
    if t.asked { SpliceIsWritten(b.conn.user, a.conn.user, a.conn.pos, buf); }
  }

  /** What was written of `buf` at `pos` without the chunks of its place lies in the attached
      blocks from there on, one after the other. */
  ghost predicate Placed(c: ShmConnection, pos: nat, buf: seq<Byte>)
    requires ValidSlices([c.stripe.header])
    reads c, c.stripe, c.stripe.header.data, Arrays(c.stripe.Reach(pos))
  {
    var a, at := c.stripe.Reach(pos), pos % BLOCK_SIZE;
    var n := Fitting(|buf|, at, BLOCK_SIZE * |a|);
    ValidSlices(a) && c.writePos == pos + n && (n > 0 ==> Flat(a)[at..at + n] == buf[..n])
  }

  /** A node whose stripe has grown, as one turn. */
  method GrowOnRequest(bus: Bus, c: ShmConnection, ghost buf: seq<Byte>, supply: nat, arrived: nat,
                       ghost ws: seq<Slice>)
    returns (granted: bool, left: nat, ghost more: seq<Slice>)
    requires c.stripe.Sees(bus, ws) && c.stripe.HasHeader() && |ws| + 2 <= 1022
    modifies bus, bus.bitmap, c.stripe, c.stripe.header.data
    ensures c.stripe.Sees(bus, more) && c.stripe.HasHeader()
    ensures ws <= more && |more| == |ws| + if granted then 2 else 0
    ensures granted <==> 2 <= RoomIn(old(Look(bus)), supply)
    ensures c.stripe.chunks <= bus.chunks
    ensures |c.stripe.chunks| == Max(|old(c.stripe.chunks)|, Min(arrived, |bus.chunks|))
    ensures Turned(old(At(bus, c, ws)), At(bus, c, more), supply, false, false, buf, more)
    ensures left == Left(old(Look(bus)), Look(bus), supply)
    ensures RoomIn(Look(bus), left) == RoomIn(old(Look(bus)), supply) - if granted then 2 else 0
    ensures forall i :: 0 <= i < |bus.chunks| ==> bus.chunks[i] in old(bus.chunks) || fresh(bus.chunks[i])
    ensures bus.bitmap == old(bus.bitmap) || fresh(bus.bitmap)
  {
    hide Header.Decode, DecodeFrom, Slices, ValidSlices, Kept, HeaderOf, Flat, Confined, Room, Snapshot, Left, RoomIn;
    granted, left, more := Answer(bus, c.stripe, supply, arrived, ws);
    assert c.stripe.header.data in old(c.stripe.chunks);
  }

  /** A poll that finds a refusal fails, and changes nothing else. */
  method FailPoll(ghost bus: Bus, c: ShmConnection, buf: seq<Byte>, ghost ws: seq<Slice>)
    requires c.stripe.Sees(bus, ws) && c.stripe.HasHeader() && c.waiting
    modifies c, c.stripe, Arrays(ws)
    ensures c.stripe.Sees(bus, ws) && c.stripe.HasHeader() && !c.waiting && c.stripe.chunks == old(c.stripe.chunks)
    ensures At(bus, c, ws) == old(At(bus, c, ws))
  {
    hide RustStripe.Sees, RustStripe.HasHeader, RustStripe.Target, PlaceIn, Look, Flat, Header.Decode;
    c.stripe.TargetFacts(bus, ws, c.writePos, |buf|);
    ghost var t := c.stripe.Target(ws, c.writePos, |buf|);
    var r := c.PollWrite(bus, ws, buf, Some(false), true, t);
  }

  /** The hub's answer to a poll that asked for blocks; a refusal fails the next poll. */
  method AwaitAnswer(bus: Bus, c: ShmConnection, buf: seq<Byte>, supply: nat, arrived: nat, ghost ws: seq<Slice>)
    returns (granted: bool, left: nat, ghost more: seq<Slice>)
    requires c.stripe.Sees(bus, ws) && c.stripe.HasHeader() && |ws| + 2 <= 1022 && c.waiting
    modifies bus, bus.bitmap, bus.chunks, c, c.stripe
    ensures c.stripe.Sees(bus, more) && c.stripe.HasHeader()
    ensures ws <= more && |more| == |ws| + if granted then 2 else 0
    ensures granted <==> 2 <= RoomIn(old(Look(bus)), supply)
    ensures c.waiting == granted
    ensures c.stripe.chunks <= bus.chunks
    ensures |c.stripe.chunks| == Max(|old(c.stripe.chunks)|, Min(arrived, |bus.chunks|))
    ensures Turned(old(At(bus, c, ws)), At(bus, c, more), supply, false, false, buf, more)
    ensures left == Left(old(Look(bus)), Look(bus), supply)
    ensures RoomIn(Look(bus), left) == RoomIn(old(Look(bus)), supply) - if granted then 2 else 0
    ensures forall i :: 0 <= i < |bus.chunks| ==> bus.chunks[i] in old(bus.chunks) || fresh(bus.chunks[i])
    ensures bus.bitmap == old(bus.bitmap) || fresh(bus.bitmap)
  {
    hide RustStripe.Sees, RustStripe.HasHeader, RustStripe.Meta, Look, Left, RoomIn, Turned, Flat, Header.Decode;
    InChunksOf(bus, c.stripe, ws);
    granted, left, more := GrowOnRequest(bus, c, buf, supply, arrived, ws);
    if !granted {
      InChunksOf(bus, c.stripe, more);
      FailPoll(bus, c, buf, more);
    }
  }

  /** A first poll, or one that finds its request granted: it writes, or asks for blocks. */
  method PollOnce(ghost bus: Bus, c: ShmConnection, buf: seq<Byte>, ghost supply: nat, ghost ws: seq<Slice>)
    returns (done: bool)
    requires c.stripe.Sees(bus, ws) && c.stripe.HasHeader()
    modifies c, c.stripe, Arrays(ws)
    ensures c.stripe.Sees(bus, ws) && c.stripe.HasHeader() && c.stripe.chunks == old(c.stripe.chunks)
    ensures done <==> old(c.writePos) + |buf| <= BLOCK_SIZE * (|ws| - 1)
    ensures !done ==> c.waiting && At(bus, c, ws) == old(At(bus, c, ws))
    ensures var has := c.stripe.Has(old(c.writePos), |buf|);
      && (done ==> Turned(old(At(bus, c, ws)), At(bus, c, ws), supply, true, has, buf, ws))
      && (done && !has ==> Placed(c, old(c.writePos), buf))
  {
    hide Header.Decode, DecodeFrom, HasOf, ReachOf, HeaderOf, Flat, Turned, Tried, PlaceIn, Placed, Look;
    c.stripe.TargetFacts(bus, ws, c.writePos, |buf|);
    ghost var t := c.stripe.Target(ws, c.writePos, |buf|);
    PlaceArrays(ws, t);
    ghost var a := c.Sight(bus, ws, t);
    var r := c.PollWrite(bus, ws, buf, Some(true), true, t);
    ghost var b := c.Sight(bus, ws, t);
    TriedKeeps(a, b, t, c.stripe.header, buf, r);
    done := r.Ready?;
    if done {
      c.stripe.SeenFacts(bus, ws);
      TriedTurns(a, b, t, ws, buf, r, supply);
      if !t.asked { TriedPlaced(a, b, t, ws[0], buf, r, c, old(c.writePos)); }
    }
  }

  /** One poll and, if it asks for blocks, the hub's answer to it. */
  method PollAndAnswer(bus: Bus, c: ShmConnection, buf: seq<Byte>, supply: nat, arrived: nat, ghost ws: seq<Slice>)
    returns (turn: Reply, left: nat, ghost more: seq<Slice>)
    requires c.stripe.Sees(bus, ws) && c.stripe.HasHeader()
    requires c.writePos + |buf| > BLOCK_SIZE * (|ws| - 1) ==> |ws| + 2 <= 1022
    modifies bus, bus.bitmap, bus.chunks, c, c.stripe
    ensures c.stripe.Sees(bus, more) && c.stripe.HasHeader()
    ensures ws <= more && |more| == |ws| + if turn == Granted then 2 else 0
    ensures turn ==
      if old(c.writePos) + |buf| <= BLOCK_SIZE * (|ws| - 1) then Done
      else if 2 <= RoomIn(old(Look(bus)), supply) then Granted else Refused
    ensures c.stripe.chunks <= bus.chunks
    ensures |c.stripe.chunks| ==
      if turn == Done then |old(c.stripe.chunks)| else Max(|old(c.stripe.chunks)|, Min(arrived, |bus.chunks|))
    ensures turn == Done ==> bus.chunks == old(bus.chunks)
    ensures var has := turn == Done && c.stripe.Has(old(c.writePos), |buf|);
      && Turned(old(At(bus, c, ws)), At(bus, c, more), supply, turn == Done, has, buf, more)
      && (turn == Done && !has ==> Placed(c, old(c.writePos), buf))
    ensures left == Left(old(Look(bus)), Look(bus), supply)
    ensures RoomIn(Look(bus), left) == RoomIn(old(Look(bus)), supply) - if turn == Granted then 2 else 0
    ensures forall i :: 0 <= i < |bus.chunks| ==> bus.chunks[i] in old(bus.chunks) || fresh(bus.chunks[i])
    ensures bus.bitmap == old(bus.bitmap) || fresh(bus.bitmap)
  {
    hide RustStripe.Sees, RustStripe.HasHeader, RustStripe.Meta, RustStripe.Has, Room, Turned, Flat, Header.Decode,
         Placed;
    InChunksOf(bus, c.stripe, ws);
    var done := PollOnce(bus, c, buf, supply, ws);
    if done {
      FewChunks(bus, c.stripe, ws);
      turn, left, more := Done, supply, ws;
    } else {
      var granted;
      granted, left, more := AwaitAnswer(bus, c, buf, supply, arrived, ws);
      turn := if granted then Granted else Refused;
    }
  }

  lemma TriedKeeps(a: PollView, b: PollView, t: Place, h: Slice, buf: seq<Byte>, r: Poll)
    requires Tried(a, b, t, h, buf, r)
    ensures !r.Ready? ==> b == a
    ensures b.conn.bus.bm == a.conn.bus.bm && b.conn.bus.chunks == a.conn.bus.chunks
  {}

  lemma TriedPlaced(a: PollView, b: PollView, t: Place, h: Slice, buf: seq<Byte>, r: Poll, c: ShmConnection, pos: nat)
    requires Tried(a, b, t, h, buf, r) && r.Ready? && ValidSlices([c.stripe.header])
    requires t == Place(c.stripe.Reach(pos), pos % BLOCK_SIZE, false) && ValidSlices(t.blocks) &&
      b.place == Flat(t.blocks)
    requires |a.place| == BLOCK_SIZE * |t.blocks| && a.conn.pos == pos && b.conn.pos == c.writePos
    ensures Placed(c, pos, buf)
  {
    hide OnlyIn, RustStripe.Reach;
  }

  /** A write that needs room for `needed` bytes in `blocks` blocks succeeds exactly when
      `room` holds the blocks it lacks, and otherwise takes what there is, two at a time. */
  predicate Driven(ok: bool, expansions: nat, blocks: nat, needed: nat, room: nat)
    requires blocks >= 1
  {
    && (ok <==> 2 * Expansions(blocks, needed) <= room)
    && expansions == if ok then Expansions(blocks, needed) else room / 2
  }

  lemma DrivenBase(blocks: nat, needed: nat, room: nat)
    requires blocks >= 1
    ensures needed <= BLOCK_SIZE * (blocks - 1) ==> Driven(true, 0, blocks, needed, room)
    ensures needed > BLOCK_SIZE * (blocks - 1) && room < 2 ==> Driven(false, 0, blocks, needed, room)
  {
    hide Expansions;
    ExpansionsStep(blocks, needed);
  }

  lemma DrivenStep(ok: bool, expansions: nat, blocks: nat, needed: nat, room: nat)
    requires blocks >= 1 && needed > BLOCK_SIZE * (blocks - 1) && room >= 2
    requires Driven(ok, expansions, blocks + 2, needed, room - 2)
    ensures Driven(ok, expansions + 1, blocks, needed, room)
  {
    hide Expansions;
    ExpansionsStep(blocks, needed);
  }

  /** When the first `k` answers are read, all chunks that there are have been attached. */
  predicate Prompt(arrivals: seq<nat>, k: nat)
  {
    k <= |arrivals| && forall i :: 0 <= i < k ==> arrivals[i] >= MAX_CHUNKS
  }

  function Arrived(arrivals: seq<nat>): (n: nat) { if arrivals == [] then 0 else arrivals[0] }
  function Rest(arrivals: seq<nat>): (r: seq<nat>) { if arrivals == [] then [] else arrivals[1..] }

  /** A write driven to its end, each request answered by the hub; `arrivals` tells how many
      chunks the node has attached at least when it reads each answer. The write ends well
      exactly when the blocks it needs can be had, after exactly the expansions that make
      room, and otherwise fails after those there was room for. If it ends well it has written
      all of the buffer to its place, provided the node has the chunks of that place by then,
      and otherwise a part of it, to the attached blocks from there on. */
  method DriveWrite(bus: Bus, c: ShmConnection, buf: seq<Byte>, supply: nat, arrivals: seq<nat>, ghost ws0: seq<Slice>)
    returns (ok: bool, expansions: nat, ghost ws: seq<Slice>)
    requires c.stripe.Sees(bus, ws0) && c.stripe.HasHeader() && |ws0| >= 1
    requires |ws0| + 2 * Expansions(|ws0|, c.writePos + |buf|) <= 1022
    modifies bus, bus.bitmap, bus.chunks, c, c.stripe
    ensures c.stripe.Sees(bus, ws) && c.stripe.HasHeader() && ws0 <= ws && |ws| == |ws0| + 2 * expansions
    ensures Driven(ok, expansions, |ws0|, old(c.writePos) + |buf|, RoomIn(old(Look(bus)), supply))
    ensures var has := ok && c.stripe.Has(old(c.writePos), |buf|);
      && Turned(old(At(bus, c, ws0)), At(bus, c, ws), supply, ok, has, buf, ws)
      && (ok && !has ==> Placed(c, old(c.writePos), buf))
    ensures ok && old(c.stripe.chunks == bus.chunks) && Prompt(arrivals, expansions) ==> c.stripe.chunks == bus.chunks
    ensures forall i :: 0 <= i < |bus.chunks| ==> bus.chunks[i] in old(bus.chunks) || fresh(bus.chunks[i])
    ensures bus.bitmap == old(bus.bitmap) || fresh(bus.bitmap)
    decreases Expansions(|ws0|, c.writePos + |buf|)
  {
    hide RustStripe.Sees, RustStripe.Meta, RustStripe.Has, RustStripe.HasHeader, Placed, Header.Decode, DecodeFrom,
         Look, RoomIn, Left, Expansions, Driven, Turned;
    ExpansionsStep(|ws0|, c.writePos + |buf|);
    DrivenBase(|ws0|, c.writePos + |buf|, RoomIn(Look(bus), supply));
    ghost var v0 := At(bus, c, ws0);
    var turn, left, more := PollAndAnswer(bus, c, buf, supply, Arrived(arrivals), ws0);
    if turn != Granted { return turn == Done, 0, more; }
    ghost var v1 := At(bus, c, more);
    FewChunks(bus, c.stripe, more);
    TurnedStays(v0, v1, supply, buf, more);
    ok, expansions, ws := DriveWrite(bus, c, buf, left, Rest(arrivals), more);
    DrivenStep(ok, expansions, |ws0|, v0.pos + |buf|, RoomIn(v0.bus, supply));
    expansions := expansions + 1;
    TurnedTwice(v0, v1, At(bus, c, ws), supply, ok, ok && c.stripe.Has(old(c.writePos), |buf|), buf, more, ws);
  }

  lemma FewChunks(bus: Bus, r: RustStripe, ws: seq<Slice>)
    requires r.Sees(bus, ws)
    ensures |bus.chunks| <= MAX_CHUNKS && r.chunks <= bus.chunks && ValidSlices([r.header])
  {}

  /** A node that has attached all chunks has those of every range. */
  lemma AllChunksHas(bus: Bus, r: RustStripe, ws: seq<Slice>, offset: nat, want: nat)
    requires r.Sees(bus, ws) && r.HasHeader() && r.chunks == bus.chunks
    ensures r.Has(offset, want)
  {
    hide Slices, DecodeFrom, Header.Decode, HasRange;
    AllAttached(Decode(r.Meta().sequence), |bus.chunks|, BLOCK_SIZE + offset, want);
  }

  lemma InChunksOf(bus: Bus, r: RustStripe, ws: seq<Slice>)
    requires r.Sees(bus, ws)
    ensures forall d :: d in Arrays(ws) ==> d in bus.chunks
    ensures ws != [] && r.header.data in Arrays(ws)
  {
    hide Flat, Encode, DecodeFrom, Header.Decode, Slices;
    var bs := Decode(Header.Decode(BlockBytes(r.header)).sequence);
    forall i | 0 <= i < |ws| ensures ws[i].data in bus.chunks {
      assert ws[i] == SliceOf(bus.chunks, bs[i]);
    }
  }
}
