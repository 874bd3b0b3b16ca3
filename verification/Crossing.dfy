/** Stripes that cross between a Go process and a Rust node: what one side writes is what
    the other reads (go/shm/stripe.go, rust/src/stripe.rs, rust/src/connection.rs). */
module Crossing {
  import opened Layout
  import opened Bitmap
  import opened Codec
  import opened Memory
  import opened StripeModel
  import opened BusModel
  import opened HubModel
  import opened ConnModel
  import opened RustModel
  import opened RustWalk
  import opened ViewerModel
  import Header

  /** A Go stripe and a Rust stripe over the same header block, neither behind the other. */
  ghost predicate SameStripe(bus: Bus, s: Stripe, r: RustStripe)
    reads bus, bus.bitmap, s, Arrays(s.blocks), r, r.header.data
  {
    Represents(bus, s) && |s.sequence| <= Header.CAPACITY && r.header == s.blocks[0] && r.Sees(bus, s.blocks)
  }

  /** Bytes that were just spliced in are read back. */
  lemma ReadBack(p: seq<Byte>, got: nat, u: seq<Byte>, u0: seq<Byte>, off: nat, src: seq<Byte>, n: nat)
    requires n <= |src| && got <= |p| && (n > 0 ==> off + n <= |u0| && u == Splice(u0, off, src[..n]))
    requires got > 0 ==> off + got <= |u| && p[..got] == u[off..off + got]
    ensures p[..Min(n, got)] == src[..Min(n, got)]
  {
    var k := Min(n, got);
    if k > 0 {
      assert p[..k] == p[..got][..k] == u[off..off + k] == src[..n][..k] == src[..k];
    }
  }

  lemma SameHeader(bus: Bus, s: Stripe)
    requires Represents(bus, s)
    ensures s.HeaderBytes() == BlockBytes(s.blocks[0])
  {
    hide Flat, Header.Holds, Listed;
    FirstWindow(s.blocks);
  }

  /** A transfer on the Rust side, in terms of the Go side's stripe. */
  method RustWrite(ghost bus: Bus, ghost s: Stripe, r: RustStripe, src: seq<Byte>, off: nat) returns (n: nat)
    requires SameStripe(bus, s, r)
    modifies r`sequence, r`blockCount, r`dataLen, Arrays(s.blocks)
    ensures SameStripe(bus, s, r) && r.Has(off, |src|) == old(r.Has(off, |src|)) && n <= |src|
    ensures r.Has(off, |src|) ==>
      && n == Fitting(|src|, off, s.Capacity())
      && s.User() == if n > 0 then Splice(old(s.User()), off, src[..n]) else old(s.User())
    ensures OnlyIn(old(Snapshot(bus.chunks)), Snapshot(bus.chunks), bus.chunks, s.blocks)
  {
    hide Flat, Header.Holds, Header.Decode, HeaderOf, HasOf, ReachOf, ValidSlices, Listed, Windows, Splice, OnlyIn,
         Snapshot, Transferred;
    ghost var flat, mem0, m := Flat(s.blocks), Snapshot(bus.chunks), r.Meta();
    RepresentsIsShared(bus, s);
    r.SeenFacts(bus, s.blocks);
    n := r.WriteData(bus, s.blocks, off, src);
    SharedIsRepresented(bus, s, m);
    OnlyInMore(mem0, Snapshot(bus.chunks), bus.chunks, r.Target(s.blocks, off, |src|).blocks, s.blocks);
    if r.Has(off, |src|) { TransferredBehind(n, Flat(s.blocks), flat, BLOCK_SIZE + off, src); }
  }

  /** What a Rust transfer writes, a Go read returns, up to the data length, if the node has
      the chunks of its place. */
  method RustWriteGoRead(ghost bus: Bus, s: Stripe, r: RustStripe, src: seq<Byte>, off: nat, p: array<Byte>)
    returns (n: nat, got: nat, err: Err)
    requires SameStripe(bus, s, r) && p !in Arrays(s.blocks)
    modifies r`sequence, r`blockCount, r`dataLen, Arrays(s.blocks), p
    ensures got == if off < s.dataLen then Min(p.Length, s.dataLen - off) else 0
    ensures err == if off < s.dataLen then Nil else Eof
    ensures old(r.Has(off, |src|)) ==>
      n == Fitting(|src|, off, s.Capacity()) && p[..Min(n, got)] == src[..Min(n, got)]
  {
    hide RustStripe.Sees, RustStripe.Has, Flat, Header.Holds, ValidSlices, Listed, Splice, OnlyIn;
    r.SeenFacts(bus, s.blocks);
    ghost var u0, has := s.User(), r.Has(off, |src|);
    n := RustWrite(bus, s, r, src, off);
    ghost var u := s.User();
    got, err := s.ReadAt(p, off);
    if has {
      ReadBack(p[..], got, u, u0, off, src, n);
      assert p[..Min(n, got)] == p[..][..Min(n, got)];
    }
  }

  lemma FoundBehind(data: seq<Byte>, want: nat, f: seq<Byte>, off: nat)
    requires Found(data, want, f, BLOCK_SIZE + off) && BLOCK_SIZE <= |f|
    ensures |data| == Fitting(want, off, |f| - BLOCK_SIZE)
    ensures data != [] ==> off + |data| <= |f| - BLOCK_SIZE && data == f[BLOCK_SIZE..][off..off + |data|]
  {}

  /** A read on the Rust side, in terms of the Go side's stripe. */
  method RustRead(ghost bus: Bus, ghost s: Stripe, r: RustStripe, off: nat, buffer: array<Byte>) returns (n: nat)
    requires SameStripe(bus, s, r) && buffer !in Arrays(s.blocks)
    modifies r`sequence, r`blockCount, r`dataLen, buffer
    ensures n <= buffer.Length
    ensures old(r.Has(off, buffer.Length)) ==>
      n == Fitting(buffer.Length, off, s.Capacity()) && (n > 0 ==> buffer[..n] == s.User()[off..off + n])
    ensures s.User() == old(s.User())
  {
    hide Header.Holds, Header.Decode, HeaderOf, HasOf, ReachOf, ValidSlices, Listed, DecodeFrom, Found, PlaceIn;
    r.SeenFacts(bus, s.blocks);
    ghost var has, flat := r.Has(off, buffer.Length), Flat(s.blocks);
    n := r.ReadData(bus, s.blocks, off, buffer);
    assert Flat(s.blocks) == flat;
    if has { FoundBehind(buffer[..n], buffer.Length, flat, off); }
  }

  /** A write on the Go side leaves the Rust side's stripe the same. */
  method GoWrite(ghost bus: Bus, s: Stripe, ghost r: RustStripe, data: seq<Byte>, off: nat, ghost len: nat)
    returns (n: nat, err: Err)
    requires SameStripe(bus, s, r)
    modifies s`dataLen, Arrays(s.blocks)
    ensures SameStripe(bus, s, r) && r.Has(off, len) == old(r.Has(off, len))
    ensures n == Fitting(|data|, off, s.Capacity()) && err == if n == |data| then Nil else CapacityExceeded
    ensures n > 0 ==> s.User() == Splice(old(s.User()), off, data[..n])
  {
    hide Flat, Header.Holds, Header.Decode, HeaderOf, HasOf, ValidSlices, Listed, DecodeFrom, Splice, OnlyIn, Snapshot;
    RepresentsIsShared(bus, s);
    n, err := WriteStripe(bus, s, data, off);
    RepresentsIsShared(bus, s);
  }

  /** What a Go write puts into a stripe, a Rust read returns, if the node has the chunks. */
  method GoWriteRustRead(ghost bus: Bus, s: Stripe, r: RustStripe, data: seq<Byte>, off: nat, buffer: array<Byte>)
    returns (n: nat, err: Err, got: nat)
    requires SameStripe(bus, s, r) && buffer !in Arrays(s.blocks)
    modifies s`dataLen, r`sequence, r`blockCount, r`dataLen, Arrays(s.blocks), buffer
    ensures n == Fitting(|data|, off, s.Capacity()) && err == if n == |data| then Nil else CapacityExceeded
    ensures old(r.Has(off, buffer.Length)) ==>
      got == Fitting(buffer.Length, off, s.Capacity()) && buffer[..Min(n, got)] == data[..Min(n, got)]
  {
    hide RustStripe.Sees, RustStripe.Has, Flat, Header.Holds, ValidSlices, Listed, Splice;
    r.SeenFacts(bus, s.blocks);
    ghost var u0, has := s.User(), r.Has(off, buffer.Length);
    n, err := GoWrite(bus, s, r, data, off, buffer.Length);
    got := RustRead(bus, s, r, off, buffer);
    if has {
      ReadBack(buffer[..], got, s.User(), u0, off, data, n);
      assert buffer[..Min(n, got)] == buffer[..][..Min(n, got)];
    }
  }

  lemma HasLess(r: RustStripe, offset: nat, want: nat, less: nat)
    requires ValidSlices([r.header]) && r.Has(offset, want) && less <= want
    ensures r.Has(offset, less) && r.HasHeader()
  {
    hide Header.Decode;
  }

  /** Two views of one range, if the node has its chunks: they exist together, and are the
      same bytes. */
  method BothViews(bus: Bus, s: Stripe, r: RustStripe, offset: nat, length: nat) returns (g: Viewer?, v: Viewer?)
    requires SameStripe(bus, s, r) && r.Has(offset, s.dataLen)
    modifies r`sequence, r`blockCount, r`dataLen
    ensures g != null <==> v != null
    ensures g != null ==> g.Valid() && v.Valid() && g.Content() == v.Content()
  {
    hide Header.Holds, Header.Decode, HeaderOf, ReachOf, HasOf, ValidSlices, Listed, DecodeFrom, Tiles, Lengths;
    RepresentsIsShared(bus, s);
    ghost var flat, b := Flat(s.blocks), BlockBytes(r.header);
    var err;
    err, g := ViewerModel.View(s, offset, length);
    assert Flat(s.blocks) == flat && BlockBytes(r.header) == b;
    HasLess(r, offset, s.dataLen, s.dataLen);
    if err == Nil { HasLess(r, offset, s.dataLen, ViewEnd(offset, length, s.dataLen) - offset); }
    v := r.View(bus, s.blocks, offset, length);
  }

  // ---------- From a node's connection to the hub's, and back ----------

  /** The hub takes its stripe back after a Rust node had it. */
  method TakeFromNode(bus: Bus, s: Stripe, ghost r: RustStripe, ghost ws: seq<Slice>, ghost chunks0: seq<array<Byte>>)
    requires r.Sees(bus, ws) && s.blocks != [] && s.blocks[0] == r.header && chunks0 <= bus.chunks
    requires s.sequence <= r.Meta().sequence && s.blockCount == |s.blocks|
    requires s.sequence == Encode(Decode(s.sequence)) && InChunks(Decode(s.sequence), |chunks0|)
    requires s.blocks == Slices(chunks0, Decode(s.sequence))
    modifies s
    ensures SameStripe(bus, s, r) && s.blocks == ws && s.dataLen == r.Meta().dataLen
    ensures s.User() == old(Flat(ws)[BLOCK_SIZE..]) && r.Meta() == old(r.Meta())
  {
    hide Header.Holds, Header.Decode, InChunks, ValidSlices, Slices, Listed, DecodeFrom;
    SameWindows(chunks0, bus.chunks, s.sequence);
    ghost var flat, b := Flat(ws), BlockBytes(r.header);
    RefreshStripe(bus, s);
    assert Flat(ws) == flat && BlockBytes(r.header) == b;
    RepresentsIsShared(bus, s);
  }

  lemma TurnedFacts(a: ConnView, b: ConnView, supply: nat, done: bool, has: bool, buf: seq<Byte>, ws: seq<Slice>)
    requires Turned(a, b, supply, done, has, buf, ws)
    ensures a.bus.chunks <= b.bus.chunks && a.sequence <= b.sequence
    ensures done ==> a.pos <= b.pos <= a.pos + |buf| && b.dataLen == Max(a.dataLen, b.pos)
    ensures done && has ==> Written(b.user, a.user, a.pos, buf) && b.pos == a.pos + |buf|
    ensures !done ==> Kept(b.user, a.user) && b.dataLen == a.dataLen && b.pos == a.pos
  {}

  /** A node's write, growths included, as the hub finds it when it takes the stripe back: all
      of it in its place if the node had the chunks of that place at the poll that wrote, which
      it has if each answer found all chunks attached. */
  method WriteFromNode(bus: Bus, s: Stripe, c: ShmConnection, buf: seq<Byte>, supply: nat, arrivals: seq<nat>)
    returns (ok: bool)
    requires SameStripe(bus, s, c.stripe) && c.stripe.HasHeader()
    requires |s.blocks| + 2 * Expansions(|s.blocks|, c.writePos + |buf|) <= 1022
    modifies bus, bus.bitmap, bus.chunks, c, c.stripe, s
    ensures SameStripe(bus, s, c.stripe)
    ensures ok <==> 2 * Expansions(|old(s.blocks)|, old(c.writePos) + |buf|) <= RoomIn(old(Look(bus)), supply)
    ensures ok && c.stripe.Has(old(c.writePos), |buf|) ==>
      Written(s.User(), old(s.User()), old(c.writePos), buf) && c.writePos == old(c.writePos) + |buf|
    ensures ok ==>
      old(c.writePos) <= c.writePos <= old(c.writePos) + |buf| && s.dataLen == Max(old(s.dataLen), c.writePos)
    ensures !ok ==> Kept(s.User(), old(s.User())) && s.dataLen == old(s.dataLen) && c.writePos == old(c.writePos)
    ensures
      && ok && old(c.stripe.chunks == bus.chunks)
      && Prompt(arrivals, old(Expansions(|s.blocks|, c.writePos + |buf|))) ==>
        c.stripe.Has(old(c.writePos), |buf|)
    ensures forall i :: 0 <= i < |bus.chunks| ==> bus.chunks[i] in old(bus.chunks) || fresh(bus.chunks[i])
  {
    hide Header.Holds, Header.Decode, HeaderOf, HasOf, ValidSlices, Slices, Listed, DecodeFrom, Turned, Room, Written,
         Kept, Placed, Expansions, Prompt;
    CountIsLength(bus, s);
    SequenceFacts(bus, s);
    RepresentsIsShared(bus, s);
    ghost var v0 := At(bus, c, s.blocks);
    var expansions;
    ghost var ws;
    ok, expansions, ws := DriveWrite(bus, c, buf, supply, arrivals, s.blocks);
    TurnedFacts(v0, At(bus, c, ws), supply, ok, ok && c.stripe.Has(old(c.writePos), |buf|), buf, ws);
    if c.stripe.chunks == bus.chunks { AllChunksHas(bus, c.stripe, ws, old(c.writePos), |buf|); }
    TakeFromNode(bus, s, c.stripe, ws, v0.bus.chunks);
  }

  /** A read by the hub of as many bytes as `buf` has; if that is what was written there, it
      is what is read. */
  method ReadWritten(hub: Conn, p: array<Byte>, ghost u0: seq<Byte>, ghost buf: seq<Byte>, ghost known: bool)
    returns (n: nat, err: Err)
    requires hub.Valid() && p !in Arrays(hub.stripe.blocks) && p.Length == |buf| > 0
    requires (known ==> Written(hub.stripe.User(), u0, hub.readOff, buf)) && hub.readOff + |buf| <= hub.stripe.dataLen
    modifies hub`readOff, p
    ensures hub.Valid() && n == |buf| && err == Nil && hub.readOff == old(hub.readOff) + |buf|
    ensures known ==> p[..] == buf
  {
    hide Header.Holds, InChunks, ValidSlices, Slices, Listed, DecodeFrom;
    n, err := hub.Read(p);
    assert p[..p.Length] == p[..];
  }

  /** What a node writes through its connection, however often the stripe has to grow for it,
      the hub's connection reads back, if the node had the chunks of its place when it wrote. */
  method NodeToHub(hub: Conn, c: ShmConnection, buf: seq<Byte>, supply: nat, arrivals: seq<nat>, p: array<Byte>)
    returns (ok: bool, n: nat, err: Err)
    requires hub.Valid() && SameStripe(hub.bus, hub.stripe, c.stripe) && c.stripe.HasHeader()
    requires |hub.stripe.blocks| + 2 * Expansions(|hub.stripe.blocks|, c.writePos + |buf|) <= 1022
    requires p !in hub.bus.chunks && p.Length == |buf| > 0 && hub.readOff == c.writePos
    modifies hub.bus, hub.bus.bitmap, hub.bus.chunks, c, c.stripe, hub.stripe, hub`readOff, p
    ensures hub.Valid()
    ensures ok <==>
      2 * Expansions(|old(hub.stripe.blocks)|, old(c.writePos) + |buf|) <= RoomIn(old(Look(hub.bus)), supply)
    ensures
      && ok && old(c.stripe.chunks == hub.bus.chunks)
      && Prompt(arrivals, old(Expansions(|hub.stripe.blocks|, c.writePos + |buf|))) ==>
        n == |buf| && err == Nil && p[..] == buf && hub.readOff == c.writePos
    ensures !ok ==> hub.stripe.dataLen == old(hub.stripe.dataLen)
    ensures !ok ==> Kept(hub.stripe.User(), old(hub.stripe.User()))
  {
    hide RustStripe.Sees, RustStripe.Has, RustStripe.HasHeader, Header.Holds, ValidSlices, Listed, Flat, Room,
         Expansions, Written, Kept, Prompt;
    ghost var u0 := hub.stripe.User();
    ok := WriteFromNode(hub.bus, hub.stripe, c, buf, supply, arrivals);
    WindowsInChunks(hub.bus, hub.stripe);
    c.stripe.SeenFacts(hub.bus, hub.stripe.blocks);
    n, err := 0, Nil;
    if ok && c.writePos == hub.readOff + |buf| {
      n, err := ReadWritten(hub, p, u0, buf, c.stripe.Has(old(c.writePos), |buf|));
    }
  }

  /** A Rust node takes up a stripe that fits its header, with the first chunks of the bus. */
  method TakeUpRust(bus: Bus, s: Stripe, attached: nat) returns (r: RustStripe)
    requires Represents(bus, s) && |s.blocks| <= 1022
    ensures fresh(r) && SameStripe(bus, s, r) && r.Meta().dataLen == s.dataLen
    ensures s.User() == old(s.User()) && (attached >= MAX_CHUNKS ==> r.Has(0, s.dataLen))
  {
    hide Header.Holds, Header.Decode, ValidSlices, Slices, Listed, DecodeFrom, HasRange;
    CountIsLength(bus, s);
    SequenceFits(bus, s);
    RepresentsIsShared(bus, s);
    WindowsInChunks(bus, s);
    ghost var flat, b := Flat(s.blocks), BlockBytes(s.blocks[0]);
    r := new RustStripe(s.blocks[0], bus.chunks[..Min(attached, |bus.chunks|)]);
    assert Flat(s.blocks) == flat && BlockBytes(s.blocks[0]) == b;
    if attached >= MAX_CHUNKS {
      assert r.chunks == bus.chunks && s.blocks[0].data in Arrays(s.blocks);
      AllChunksHas(bus, r, s.blocks, 0, s.dataLen);
    }
  }

  /** A node's connection to such a stripe. */
  method OpenRust(bus: Bus, s: Stripe, attached: nat) returns (c: ShmConnection)
    requires Represents(bus, s) && |s.blocks| <= 1022
    ensures fresh(c) && fresh(c.stripe) && SameStripe(bus, s, c.stripe) && c.readPos == 0
    ensures c.stripe.Meta().dataLen == s.dataLen && s.User() == old(s.User())
    ensures attached >= MAX_CHUNKS ==> c.stripe.Has(0, s.dataLen)
  {
    hide Header.Holds, Header.Decode, HeaderOf, HasOf, ValidSlices, Slices, Listed, DecodeFrom;
    var r := TakeUpRust(bus, s, attached);
    ghost var flat, b := Flat(s.blocks), BlockBytes(s.blocks[0]);
    c := new ShmConnection(r);
    assert Flat(s.blocks) == flat && BlockBytes(s.blocks[0]) == b;
  }

  /** A poll for all of the data, by a connection that has read nothing. */
  method PollAll(ghost bus: Bus, s: Stripe, c: ShmConnection) returns (got: seq<Byte>)
    requires SameStripe(bus, s, c.stripe) && c.readPos == 0 && c.stripe.Meta().dataLen == s.dataLen
    modifies c`readPos, c.stripe`sequence, c.stripe`blockCount, c.stripe`dataLen
    ensures SameStripe(bus, s, c.stripe) && s.User() == old(s.User())
    ensures c.stripe.Has(0, s.dataLen) == old(c.stripe.Has(0, s.dataLen))
    ensures c.stripe.Has(0, s.dataLen) ==> got == s.User()[..s.dataLen]
  {
    hide Header.Holds, Header.Decode, HeaderOf, HasOf, ReachOf, ValidSlices, Listed, DecodeFrom, Found, PlaceIn;
    c.stripe.SeenFacts(bus, s.blocks);
    ghost var flat, b, has := Flat(s.blocks), BlockBytes(s.blocks[0]), c.stripe.Has(0, s.dataLen);
    if has { HasLess(c.stripe, 0, s.dataLen, s.dataLen); }
    got := c.PollRead(bus, s.blocks, s.dataLen);
    assert Flat(s.blocks) == flat && BlockBytes(s.blocks[0]) == b;
    if has { FoundBehind(got, s.dataLen, flat, 0); }
  }

  /** Content `u` after a write of `data` at `off`. */
  function Overlaid(u: seq<Byte>, off: nat, data: seq<Byte>): (r: seq<Byte>)
    requires off <= |u|
  {
    u[..off] + data + u[Min(off + |data|, |u|)..]
  }

  lemma WholeContent(u: seq<Byte>, u0: seq<Byte>, off: nat, data: seq<Byte>, len0: nat)
    requires Written(u, u0, off, data) && off <= len0 <= |u0|
    ensures Max(len0, off + |data|) <= |u|
    ensures u[..Max(len0, off + |data|)] == Overlaid(u0[..len0], off, data)
  {
    var end := off + |data|;
    forall i | 0 <= i < Max(len0, end) ensures u[i] == Overlaid(u0[..len0], off, data)[i] {
      if off <= i < end { assert u[off..end][i - off] == data[i - off]; }
    }
  }

  /** What the hub writes through its connection, a Rust node that takes the stripe up reads
      from the start, with what was there before around it, if it has the stripe's chunks. */
  method HubToNode(hub: Conn, data: seq<Byte>, supply: nat, attached: nat)
    returns (err: Err, c: ShmConnection, got: seq<Byte>)
    requires hub.Valid() && BlocksFor(|hub.stripe.blocks|, hub.writeOff + |data|) <= 1022
    modifies hub`writeOff, hub.bus, hub.bus.bitmap, hub.bus.chunks, hub.stripe
    ensures hub.Valid() && fresh(c) && SameStripe(hub.bus, hub.stripe, c.stripe)
    ensures err ==
      if Affordable(old(Look(hub.bus)), |old(hub.stripe.blocks)|, old(hub.writeOff) + |data|, supply) then Nil
      else NoSpace
    ensures c.stripe.Has(0, hub.stripe.dataLen) ==>
      got == if err == Nil then Overlaid(old(hub.stripe.User()[..hub.stripe.dataLen]), old(hub.writeOff), data)
             else old(hub.stripe.User()[..hub.stripe.dataLen])
    ensures attached >= MAX_CHUNKS ==> c.stripe.Has(0, hub.stripe.dataLen)
  {
    hide Header.Holds, Header.Decode, HeaderOf, HasOf, ValidSlices, Slices, Listed, DecodeFrom, Written, Flat,
         Affordable, Confined;
    ghost var u0, off, len0, n0 := hub.stripe.User(), hub.writeOff, hub.stripe.dataLen, |hub.stripe.blocks|;
    var n;
    n, err := hub.Write(data, supply);
    c := OpenRust(hub.bus, hub.stripe, attached);
    got := PollAll(hub.bus, hub.stripe, c);
    if err == Nil { WholeContent(hub.stripe.User(), u0, off, data, len0); }
  }
}
