/** All the stripes of a hub together (go/hub/conn.go, go/hub/hub.go, go/shm/bus.go):
    whatever is done to one of them, each stays represented and apart from the others,
    and only the one worked on changes. */
module SystemModel {
  import opened Layout
  import opened Bitmap
  import opened Codec
  import opened Memory
  import opened StripeModel
  import opened BusModel
  import opened HubModel
  import opened ConnModel
  import Header

  // ---------- One stripe beside all others ----------

  /** Stripe `t` as it was listed on the bus of `v`, with flat array `f`. */
  ghost predicate Noted(t: Stripe, v: BusView, f: seq<Byte>)
    reads t
  {
    && t.Valid() && t.dataLen <= t.Capacity()
    && Listed(v.bm, v.chunks, t.sequence, t.blockCount, t.blocks) && FlatIn(f, v.mem, v.chunks, t.blocks)
    && Header.Holds(f[..BLOCK_SIZE], t.dataLen, t.blockCount, t.sequence)
  }

  lemma Note(bus: Bus, t: Stripe)
    requires Represents(bus, t)
    ensures Noted(t, Look(bus), Flat(t.blocks))
  {
    hide Flat, Listed, Header.Holds, FlatIn, ValidSlices;
    FlatInNow(bus.chunks, t.blocks);
  }

  /** The windows of a grown stripe are apart from those of a stripe it was apart from. */
  lemma GrownIsApart(bus: Bus, s: Stripe, t: Stripe, v0: BusView, supply: nat, sequence0: seq<int>, blocks0: seq<Slice>,
                     f: seq<Byte>)
    requires Represents(bus, s) && Noted(t, v0, f) && sequence0 <= s.sequence
    requires Confined(v0, Look(bus), supply, Added(sequence0, s.sequence), s.blocks)
    requires InChunks(Decode(sequence0), |v0.chunks|) && blocks0 == Slices(v0.chunks, Decode(sequence0)) &&
      Apart(blocks0, t.blocks)
    ensures Apart(s.blocks, t.blocks)
  {
    hide Flat, ValidSlices, Header.Holds, FlatIn, OnlyIn, Slices, DecodeFrom, Encode, Took, Room, Listed;
    var added := Added(sequence0, s.sequence);
    DecodeSuffix(sequence0, s.sequence);
    SequenceFacts(bus, s);
    AddedInChunks(Decode(sequence0), added, |bus.chunks|);
    SlicesAppend(v0.chunks, bus.chunks, Decode(sequence0), added);
    FreshIsApart(bus.bitmap[..], v0.bm, v0.chunks, bus.chunks, t.sequence, t.blockCount, t.blocks, added);
    ApartJoined(blocks0, Slices(bus.chunks, added), t.blocks);
  }

  lemma AddedInChunks(a: seq<Block>, b: seq<Block>, n: nat)
    requires InChunks(a + b, n)
    ensures InChunks(b, n)
  {
    assert forall i :: 0 <= i < |b| ==> b[i] == (a + b)[|a| + i];
  }

  lemma ApartJoined(a: seq<Slice>, b: seq<Slice>, c: seq<Slice>)
    requires Apart(a, c) && Apart(b, c)
    ensures Apart(a + b, c)
  {}

  /** After work confined to the windows of `mine`, a stripe apart from them is as it was. */
  lemma OtherStays(bus: Bus, mine: seq<Slice>, t: Stripe, v0: BusView, supply: nat, added: seq<Block>, f: seq<Byte>)
    requires bus.Valid() && ValidSlices(mine) && Noted(t, v0, f) && Apart(mine, t.blocks)
    requires Confined(v0, Look(bus), supply, added, mine)
    ensures Represents(bus, t) && Flat(t.blocks) == f
  {
    hide Flat, ValidSlices, Header.Holds, FlatIn, OnlyIn, Took, Room, Listed;
    ListedKept(bus.bitmap[..], v0.bm, added, bus.chunks, v0.chunks, t.sequence, t.blockCount, t.blocks);
    StaysRepresented(bus, t, f, v0.mem, v0.bm, v0.chunks, mine);
  }

  // ---------- All stripes ----------

  ghost function Parts(stripes: seq<Stripe>): (r: set<object>)
    reads stripes
  {
    (set i | 0 <= i < |stripes| :: stripes[i] as object)
    + (set i, d | 0 <= i < |stripes| && d in Arrays(stripes[i].blocks) :: d as object)
  }

  ghost predicate AllOk(bus: Bus, stripes: seq<Stripe>)
    reads bus, bus.bitmap, bus.chunks, stripes, Parts(stripes)
  {
    && bus.Valid()
    && (forall i :: 0 <= i < |stripes| ==> Represents(bus, stripes[i]))
    && forall i, j :: 0 <= i < j < |stripes| ==> stripes[i] != stripes[j] && Apart(stripes[i].blocks, stripes[j].blocks)
  }

  /** A stripe's bytes and data length. */
  datatype Piece = Piece(bytes: seq<Byte>, len: nat)

  ghost function PieceOf(s: Stripe): (p: Piece)
    requires s.Valid()
    reads s, Arrays(s.blocks)
  {
    Piece(s.User(), s.dataLen)
  }

  /** What the callers of the hub see: the pieces, and how many blocks can still be had. */
  datatype World = World(pieces: seq<Piece>, room: nat)

  ghost function Pieces(stripes: seq<Stripe>): (r: seq<Piece>)
    requires forall i :: 0 <= i < |stripes| ==> stripes[i].Valid()
    reads stripes, Parts(stripes)
    ensures |r| == |stripes| && forall i :: 0 <= i < |stripes| ==> r[i] == PieceOf(stripes[i])
  {
    seq(|stripes|,
        i requires 0 <= i < |stripes| && stripes[i].Valid() reads stripes, Parts(stripes) => PieceOf(stripes[i]))
  }

  ghost function WorldOf(bus: Bus, stripes: seq<Stripe>, supply: nat): (w: World)
    requires AllOk(bus, stripes)
    reads bus, bus.bitmap, bus.chunks, stripes, Parts(stripes)
  {
    World(Pieces(stripes), RoomIn(Look(bus), supply))
  }

  /** The stripes as they were before an operation. */
  datatype Before = Before(view: BusView, blocks: seq<seq<Slice>>, flats: seq<seq<Byte>>, pieces: seq<Piece>)

  /** Stripe `j` is still as noted: its fields have not changed. */
  ghost predicate AsNoted(t: Stripe, b: Before, j: nat)
    requires j < |b.blocks| && j < |b.flats| && j < |b.pieces|
    reads t
  {
    && Noted(t, b.view, b.flats[j]) && t.blocks == b.blocks[j] && |b.flats[j]| >= BLOCK_SIZE
    && b.pieces[j] == Piece(b.flats[j][BLOCK_SIZE..], t.dataLen)
  }

  ghost predicate Remembered(stripes: seq<Stripe>, b: Before, but: int)
    reads stripes
  {
    && |b.blocks| == |b.flats| == |b.pieces| == |stripes|
    && (forall j :: 0 <= j < |stripes| && j != but ==> AsNoted(stripes[j], b, j))
    && (forall i, j :: 0 <= i < j < |stripes| ==> stripes[i] != stripes[j] && Apart(b.blocks[i], b.blocks[j]))
  }

  ghost function WindowsOf(stripes: seq<Stripe>): (r: seq<seq<Slice>>)
    reads stripes
    ensures |r| == |stripes| && forall i :: 0 <= i < |stripes| ==> r[i] == stripes[i].blocks
  {
    seq(|stripes|, i requires 0 <= i < |stripes| reads stripes => stripes[i].blocks)
  }

  ghost function FlatsOf(stripes: seq<Stripe>): (r: seq<seq<Byte>>)
    requires forall i :: 0 <= i < |stripes| ==> ValidSlices(stripes[i].blocks)
    reads stripes, Parts(stripes)
    ensures |r| == |stripes| && forall i :: 0 <= i < |stripes| ==> r[i] == Flat(stripes[i].blocks)
  {
    hide ValidSlices, Flat;
    seq(|stripes|,
        i requires 0 <= i < |stripes| && ValidSlices(stripes[i].blocks) reads stripes, Parts(stripes) =>
          Flat(stripes[i].blocks))
  }

  ghost function Remember(bus: Bus, stripes: seq<Stripe>): (b: Before)
    requires AllOk(bus, stripes)
    reads bus, bus.bitmap, bus.chunks, stripes, Parts(stripes)
    ensures b.view == Look(bus) && b.pieces == Pieces(stripes) && |b.blocks| == |b.flats| == |stripes|
    ensures forall i :: 0 <= i < |stripes| ==> b.blocks[i] == stripes[i].blocks && b.flats[i] == Flat(stripes[i].blocks)
  {
    Before(Look(bus), WindowsOf(stripes), FlatsOf(stripes), Pieces(stripes))
  }

  lemma RememberedAll(bus: Bus, stripes: seq<Stripe>)
    requires AllOk(bus, stripes)
    ensures Remembered(stripes, Remember(bus, stripes), -1)
  {
    hide Flat, Noted, Represents;
    var b := Remember(bus, stripes);
    forall j | 0 <= j < |stripes| ensures AsNoted(stripes[j], b, j) {
      assert Represents(bus, stripes[j]);
      NotedNow(bus, stripes, j);
    }
  }

  lemma NotedNow(bus: Bus, stripes: seq<Stripe>, j: nat)
    requires AllOk(bus, stripes) && j < |stripes|
    ensures AsNoted(stripes[j], Remember(bus, stripes), j)
  {
    hide Flat, Noted, ValidSlices, Listed, Header.Holds, Remember;
    var b := Remember(bus, stripes);
    Note(bus, stripes[j]);
    assert b.pieces[j] == PieceOf(stripes[j]);
  }

  /** Work confined to stripe `i`, which only grew, keeps all stripes. */
  lemma AllStay(bus: Bus, stripes: seq<Stripe>, i: nat, b: Before, supply: nat, sequence0: seq<int>)
    requires i < |stripes| && Remembered(stripes, b, i) && Represents(bus, stripes[i])
    requires InChunks(Decode(sequence0), |b.view.chunks|) && b.blocks[i] == Slices(b.view.chunks, Decode(sequence0))
    requires sequence0 <= stripes[i].sequence
    requires Confined(b.view, Look(bus), supply, Added(sequence0, stripes[i].sequence), stripes[i].blocks)
    ensures AllOk(bus, stripes) && Pieces(stripes) == b.pieces[i := PieceOf(stripes[i])]
  {
    hide Flat, Noted, ValidSlices, Listed, Header.Holds, Slices, DecodeFrom, Confined, Apart, InChunks;
    var s := stripes[i];
    forall j | 0 <= j < |stripes| && j != i
      ensures Represents(bus, stripes[j]) && PieceOf(stripes[j]) == b.pieces[j] && Apart(s.blocks, stripes[j].blocks)
    {
      var t := stripes[j];
      assert AsNoted(t, b, j);
      if j < i { ApartBack(b.blocks[j], b.blocks[i]); }
      GrownIsApart(bus, s, t, b.view, supply, sequence0, b.blocks[i], b.flats[j]);
      OtherStays(bus, s.blocks, t, b.view, supply, Added(sequence0, s.sequence), b.flats[j]);
    }
    AllFromEach(bus, stripes, i, b);
    assert Pieces(stripes) == b.pieces[i := PieceOf(stripes[i])];
  }

  lemma ApartBack(a: seq<Slice>, b: seq<Slice>)
    requires Apart(a, b)
    ensures Apart(b, a)
  {}

  lemma AllFromEach(bus: Bus, stripes: seq<Stripe>, i: nat, b: Before)
    requires i < |stripes| && Remembered(stripes, b, i)
    requires forall j :: 0 <= j < |stripes| ==> Represents(bus, stripes[j])
    requires forall j :: 0 <= j < |stripes| && j != i ==> Apart(stripes[i].blocks, stripes[j].blocks)
    ensures AllOk(bus, stripes)
  {
    hide Represents, Apart, Noted;
    assert bus.Valid() by { ValidFrom(bus, stripes[i]); }
    forall k, j | 0 <= k < j < |stripes|
      ensures stripes[k] != stripes[j] && Apart(stripes[k].blocks, stripes[j].blocks)
    {
      if k == i {
      } else if j == i {
        ApartBack(stripes[i].blocks, stripes[k].blocks);
      } else {
        assert AsNoted(stripes[k], b, k) && AsNoted(stripes[j], b, j);
      }
    }
  }

  lemma ValidFrom(bus: Bus, s: Stripe)
    requires Represents(bus, s)
    ensures bus.Valid()
  {}

  // ---------- The operations on what callers see ----------

  datatype HubOp =
    | Open(blocks: nat)
    | Put(i: nat, data: seq<Byte>, off: int)
    | Shorten(i: nat, len: nat)
    | Send(i: nat, ops: seq<NodeOp>)
    | Shut(i: nat)

  function BlocksIn(p: Piece): (n: nat) { |p.bytes| / BLOCK_SIZE + 1 }

  predicate CutsFit(ops: seq<NodeOp>)
  {
    forall k :: 0 <= k < |ops| && ops[k].Cut? ==> ops[k].len < WRAP
  }

  /** A node can take the stripe up again: its sequence fits the header to the end. */
  predicate Sendable(p: Piece, ops: seq<NodeOp>)
  {
    BlocksIn(p) + 2 * Grows(ops) <= 1022 && CutsFit(ops)
  }

  predicate PutOutcome(p: Piece, q: Piece, data: seq<Byte>, off: int)
  {
    var n := BlocksFor(BlocksIn(p), off + |data|);
    && |q.bytes| == BLOCK_SIZE * (n - 1)
    && if off < 0 then Kept(q.bytes, p.bytes) && q.len == p.len
       else WriteOutcome(q.bytes, q.len, n, p.bytes, p.len, BlocksIn(p), off, data)
  }

  /** A stripe is opened, written, shortened, sent to a node or closed; every other piece
      stays, and the room changes by exactly the blocks that change hands. An operation
      on no stripe, or for want of blocks, changes nothing. */
  ghost predicate HubStep(a: World, op: HubOp, b: World)
  {
    match op
    case Open(n) =>
      if 1 <= n <= a.room then
        && |b.pieces| == |a.pieces| + 1 && b.room == a.room - n && b.pieces[..|a.pieces|] == a.pieces
        && b.pieces[|a.pieces|].len == 0 && |b.pieces[|a.pieces|].bytes| == BLOCK_SIZE * (n - 1)
      else b == a
    case Put(i, data, off) =>
      if i >= |a.pieces| then b == a
      else
        var have := BlocksIn(a.pieces[i]);
        var extra := BlocksFor(have, off + |data|) - have;
        if extra > a.room then b == a
        else
          && |b.pieces| == |a.pieces| && b.pieces == a.pieces[i := b.pieces[i]] && b.room == a.room - extra
          && PutOutcome(a.pieces[i], b.pieces[i], data, off)
    case Shorten(i, len) =>
      if i >= |a.pieces| || len >= WRAP then b == a
      else b == a.(pieces := a.pieces[i := a.pieces[i].(len := Min(a.pieces[i].len, len))])
    case Send(i, ops) =>
      if i >= |a.pieces| || !Sendable(a.pieces[i], ops) then b == a
      else
        && |b.pieces| == |a.pieces| && b.pieces == a.pieces[i := b.pieces[i]]
        && Sent(a.pieces[i], a.room, ops, b.pieces[i], b.room)
    case Shut(i) =>
      if i >= |a.pieces| then b == a
      else b == World(a.pieces[..i] + a.pieces[i + 1..], a.room + BlocksIn(a.pieces[i]))
  }

  /** What a handler's operations make of a piece. */
  ghost predicate Sent(p: Piece, room: nat, ops: seq<NodeOp>, q: Piece, room': nat)
  {
    exists trace :: Played(trace, ops) && trace[0] == Content(p.bytes, p.len, room) &&
      trace[|ops|] == Content(q.bytes, q.len, room')
  }

  /** The frame of an operation: chunks that were there or are new. */
  twostate predicate ChunksFrom(bus: Bus)
    reads bus
  {
    && old(bus.chunks) <= bus.chunks && (bus.bitmap == old(bus.bitmap) || fresh(bus.bitmap))
    && forall k :: 0 <= k < |bus.chunks| ==> bus.chunks[k] in old(bus.chunks) || fresh(bus.chunks[k])
  }

  lemma SizeOf(bus: Bus, s: Stripe)
    requires Represents(bus, s)
    ensures BlocksIn(PieceOf(s)) == |s.blocks| && InChunks(Decode(s.sequence), |bus.chunks|)
    ensures s.blocks == Slices(bus.chunks, Decode(s.sequence)) && |Decode(s.sequence)| == |s.blocks|
  {
    hide Flat, ValidSlices, Header.Holds, Slices, DecodeFrom;
    SequenceFacts(bus, s);
  }

  /** The supply that is left makes up, with the chunks that were added, the supply there was. */
  ghost predicate Spent(v0: BusView, v: BusView, supply: nat, left: nat)
  {
    v0.chunks <= v.chunks && left + |v.chunks| == supply + |v0.chunks|
  }

  lemma ConfinedSpent(v0: BusView, v: BusView, supply: nat, added: seq<Block>, blocks: seq<Slice>)
    requires Confined(v0, v, supply, added, blocks)
    ensures Spent(v0, v, supply, Left(v0, v, supply))
  {
    hide Took, Room, OnlyIn;
  }

  /** A hub write to one stripe, as callers see it. */
  method PutBytes(bus: Bus, s: Stripe, data: seq<Byte>, off: int, supply: nat) returns (left: nat)
    requires Represents(bus, s)
    modifies bus, bus.bitmap, bus.chunks, s
    ensures Represents(bus, s) && old(s.sequence) <= s.sequence && ChunksFrom(bus)
    ensures Confined(old(Look(bus)), Look(bus), supply, Added(old(s.sequence), s.sequence), s.blocks)
    ensures left == Left(old(Look(bus)), Look(bus), supply)
    ensures var p, room := old(PieceOf(s)), RoomIn(old(Look(bus)), supply);
      var extra := BlocksFor(BlocksIn(p), off + |data|) - BlocksIn(p);
      if extra > room then PieceOf(s) == p && RoomIn(Look(bus), left) == room
      else PutOutcome(p, PieceOf(s), data, off) && RoomIn(Look(bus), left) == room - extra
  {
    hide ValidSlices, Listed, Header.Holds, Slices, DecodeFrom, Room, WriteOutcome, InChunks, Drew, OnlyIn, BlocksFor;
    SizeOf(bus, s);
    ghost var v0, sequence0, n0, p, flat := Look(bus), s.sequence, |s.blocks|, PieceOf(s), Flat(s.blocks);
    var count := |bus.chunks|;
    var c := new Conn(bus, s);
    assert Flat(s.blocks) == flat && Look(bus) == v0;
    var n, err := c.WriteAt(data, off, supply);
    OldOrNew(v0.chunks, bus.chunks);
    GrownRoom(bus, s, v0, supply, sequence0, n0);
    left := supply - (|bus.chunks| - count);
    SizeOf(bus, s);
  }

  lemma PutStep(a: World, i: nat, data: seq<Byte>, off: int, q: Piece, room: nat)
    requires i < |a.pieces|
    requires var p := a.pieces[i];
      var extra := BlocksFor(BlocksIn(p), off + |data|) - BlocksIn(p);
      if extra > a.room then q == p && room == a.room else PutOutcome(p, q, data, off) && room == a.room - extra
    ensures HubStep(a, Put(i, data, off), World(a.pieces[i := q], room))
  {
    hide PutOutcome, BlocksFor;
    assert a.pieces[i := a.pieces[i]] == a.pieces;
  }

  method PutInto(bus: Bus, stripes: seq<Stripe>, i: nat, data: seq<Byte>, off: int, supply: nat) returns (left: nat)
    requires AllOk(bus, stripes) && i < |stripes|
    modifies bus, bus.bitmap, bus.chunks, stripes[i]
    ensures AllOk(bus, stripes) && ChunksFrom(bus)
    ensures HubStep(old(WorldOf(bus, stripes, supply)), Put(i, data, off), WorldOf(bus, stripes, left))
    ensures Spent(old(Look(bus)), Look(bus), supply, left)
  {
    hide Flat, ValidSlices, Listed, Header.Holds, Slices, DecodeFrom, Room, InChunks, Confined, Noted, BlocksFor,
         PutOutcome, HubStep, Remember, Pieces;
    ghost var b, a := Remember(bus, stripes), WorldOf(bus, stripes, supply);
    ghost var sequence0 := stripes[i].sequence;
    RememberedAll(bus, stripes);
    assert Represents(bus, stripes[i]);
    SizeOf(bus, stripes[i]);
    left := PutBytes(bus, stripes[i], data, off, supply);
    ConfinedSpent(b.view, Look(bus), supply, Added(sequence0, stripes[i].sequence), stripes[i].blocks);
    assert forall j :: 0 <= j < |stripes| && j != i ==> AsNoted(stripes[j], b, j);
    AllStay(bus, stripes, i, b, supply, sequence0);
    PutStep(a, i, data, off, PieceOf(stripes[i]), RoomIn(Look(bus), left));
  }

  lemma ShortenStep(a: World, i: nat, len: nat, q: Piece)
    requires i < |a.pieces| && len < WRAP && q == a.pieces[i].(len := Min(a.pieces[i].len, len))
    ensures HubStep(a, Shorten(i, len), World(a.pieces[i := q], a.room))
  {}

  method ShortenOne(bus: Bus, stripes: seq<Stripe>, i: nat, len: nat, supply: nat)
    requires AllOk(bus, stripes) && i < |stripes| && len < WRAP
    modifies stripes[i], bus.chunks
    ensures AllOk(bus, stripes) && Look(bus).chunks == old(bus.chunks) && Look(bus).bm == old(bus.bitmap[..])
    ensures HubStep(old(WorldOf(bus, stripes, supply)), Shorten(i, len), WorldOf(bus, stripes, supply))
  {
    hide Flat, ValidSlices, Listed, Header.Holds, Slices, DecodeFrom, Room, InChunks, Confined, Noted, HubStep,
         Remember, Pieces, OnlyIn;
    ghost var b, a := Remember(bus, stripes), WorldOf(bus, stripes, supply);
    ghost var sequence0 := stripes[i].sequence;
    RememberedAll(bus, stripes);
    assert Represents(bus, stripes[i]);
    SizeOf(bus, stripes[i]);
    WindowsInChunks(bus, stripes[i]);
    assert stripes[i].blocks[0].data in Arrays(stripes[i].blocks);
    TruncateStripe(bus, stripes[i], len);
    assert forall j :: 0 <= j < |stripes| && j != i ==> AsNoted(stripes[j], b, j);
    AddedNothing(sequence0);
    ConfinedWrite(b.view, Look(bus), supply, stripes[i].blocks);
    AllStay(bus, stripes, i, b, supply, sequence0);
    ShortenStep(a, i, len, PieceOf(stripes[i]));
  }

  lemma SendStep(a: World, i: nat, ops: seq<NodeOp>, q: Piece, room: nat)
    requires i < |a.pieces| && Sendable(a.pieces[i], ops) && Sent(a.pieces[i], a.room, ops, q, room)
    ensures HubStep(a, Send(i, ops), World(a.pieces[i := q], room))
  {
    hide Sent, Sendable;
  }

  method SendOne(bus: Bus, stripes: seq<Stripe>, i: nat, ops: seq<NodeOp>, supply: nat) returns (left: nat)
    requires AllOk(bus, stripes) && i < |stripes| && |stripes[i].blocks| + 2 * Grows(ops) <= 1022 && CutsFit(ops)
    modifies bus, bus.bitmap, bus.chunks, stripes[i]
    ensures AllOk(bus, stripes) && ChunksFrom(bus)
    ensures HubStep(old(WorldOf(bus, stripes, supply)), Send(i, ops), WorldOf(bus, stripes, left))
    ensures Spent(old(Look(bus)), Look(bus), supply, left)
  {
    hide Flat, ValidSlices, Listed, Header.Holds, Slices, DecodeFrom, Room, InChunks, Confined, Noted, HubStep,
         Remember, Pieces, Played, Grows;
    ghost var b, a := Remember(bus, stripes), WorldOf(bus, stripes, supply);
    ghost var sequence0, trace := stripes[i].sequence, [];
    RememberedAll(bus, stripes);
    assert Represents(bus, stripes[i]);
    SizeOf(bus, stripes[i]);
    left, trace := ConnModel.Visit(bus, stripes[i], ops, supply);
    ConfinedSpent(b.view, Look(bus), supply, Added(sequence0, stripes[i].sequence), stripes[i].blocks);
    assert forall j :: 0 <= j < |stripes| && j != i ==> AsNoted(stripes[j], b, j);
    AllStay(bus, stripes, i, b, supply, sequence0);
    SendStep(a, i, ops, PieceOf(stripes[i]), RoomIn(Look(bus), left));
  }

  // ---------- Opening and closing ----------

  /** Work confined to windows apart from all stripes keeps them all. */
  lemma NoneTouched(bus: Bus, stripes: seq<Stripe>, b: Before, supply: nat, added: seq<Block>, mine: seq<Slice>)
    requires bus.Valid() && ValidSlices(mine) && Remembered(stripes, b, -1)
    requires Confined(b.view, Look(bus), supply, added, mine)
    requires forall j :: 0 <= j < |stripes| ==> Apart(mine, b.blocks[j])
    ensures AllOk(bus, stripes) && Pieces(stripes) == b.pieces
  {
    hide Flat, Noted, ValidSlices, Listed, Header.Holds, Confined, Apart, Pieces;
    forall j | 0 <= j < |stripes| ensures Represents(bus, stripes[j]) && PieceOf(stripes[j]) == b.pieces[j] {
      assert AsNoted(stripes[j], b, j);
      OtherStays(bus, mine, stripes[j], b.view, supply, added, b.flats[j]);
    }
    forall k, j | 0 <= k < j < |stripes|
      ensures stripes[k] != stripes[j] && Apart(stripes[k].blocks, stripes[j].blocks)
    {
      assert AsNoted(stripes[k], b, k) && AsNoted(stripes[j], b, j);
    }
    assert Pieces(stripes) == b.pieces;
  }

  /** A new stripe is apart from all that were there. */
  lemma NewIsApart(bus: Bus, s: Stripe, stripes: seq<Stripe>, b: Before, supply: nat)
    requires Represents(bus, s) && Remembered(stripes, b, -1)
    requires Confined(b.view, Look(bus), supply, Decode(s.sequence), s.blocks)
    ensures forall j :: 0 <= j < |stripes| ==> Apart(s.blocks, b.blocks[j])
  {
    hide Flat, ValidSlices, Listed, Header.Holds, OnlyIn, Slices, DecodeFrom, Took, Room, FlatIn;
    SizeOf(bus, s);
    forall j | 0 <= j < |stripes| ensures Apart(s.blocks, b.blocks[j]) {
      assert AsNoted(stripes[j], b, j);
      var t := stripes[j];
      FreshIsApart(bus.bitmap[..], b.view.bm, b.view.chunks, bus.chunks, t.sequence, t.blockCount, t.blocks,
                   Decode(s.sequence));
    }
  }

  lemma OneMore(bus: Bus, stripes: seq<Stripe>, s: Stripe, b: Before)
    requires AllOk(bus, stripes) && Represents(bus, s) && Remembered(stripes, b, -1)
    requires forall j :: 0 <= j < |stripes| ==> s != stripes[j] && Apart(s.blocks, b.blocks[j])
    ensures AllOk(bus, stripes + [s]) && Pieces(stripes + [s]) == Pieces(stripes) + [PieceOf(s)]
  {
    hide Apart, Noted, Pieces, Flat, ValidSlices, Listed, Header.Holds;
    var all := stripes + [s];
    forall j | 0 <= j < |all| ensures Represents(bus, all[j]) {
      if j < |stripes| { assert all[j] == stripes[j]; }
    }
    forall k, j | 0 <= k < j < |all| ensures all[k] != all[j] && Apart(all[k].blocks, all[j].blocks) {
      assert all[k] == stripes[k] && AsNoted(stripes[k], b, k);
      if j < |stripes| { assert all[j] == stripes[j]; } else { ApartBack(s.blocks, stripes[k].blocks); }
    }
    assert Pieces(all) == Pieces(stripes) + [PieceOf(s)];
  }

  lemma OpenStep(a: World, n: nat, q: Piece, room: nat)
    requires 1 <= n <= a.room && room == a.room - n && q.len == 0 && |q.bytes| == BLOCK_SIZE * (n - 1)
    ensures HubStep(a, Open(n), World(a.pieces + [q], room))
  {
    assert (a.pieces + [q])[..|a.pieces|] == a.pieces;
  }

  lemma OpenFails(a: World, n: nat)
    requires !(1 <= n <= a.room)
    ensures HubStep(a, Open(n), a)
  {}

  /** What callers see after a new stripe has joined the others. */
  lemma Opened(bus: Bus, stripes: seq<Stripe>, s: Stripe, b: Before, n: nat, supply: nat)
    requires Represents(bus, s) && Remembered(stripes, b, -1) && s !in stripes && s.dataLen == 0 && |s.blocks| == n
    requires Confined(b.view, Look(bus), supply, Decode(s.sequence), s.blocks) && 1 <= n <= RoomIn(b.view, supply)
    ensures AllOk(bus, stripes + [s])
    ensures var left := Left(b.view, Look(bus), supply);
      HubStep(World(b.pieces, RoomIn(b.view, supply)), Open(n), WorldOf(bus, stripes + [s], left))
  {
    hide Flat, ValidSlices, Listed, Header.Holds, Slices, DecodeFrom, Room, Noted, HubStep, Pieces, OnlyIn, Took, Apart;
    ConfinedRoom(b.view, Look(bus), supply, Decode(s.sequence), s.blocks);
    SizeOf(bus, s);
    NewIsApart(bus, s, stripes, b, supply);
    NoneTouched(bus, stripes, b, supply, Decode(s.sequence), s.blocks);
    OneMore(bus, stripes, s, b);
    OpenStep(World(b.pieces, RoomIn(b.view, supply)), n, PieceOf(s),
             RoomIn(Look(bus), Left(b.view, Look(bus), supply)));
  }

  lemma NotOpened(bus: Bus, stripes: seq<Stripe>, b: Before, n: nat, supply: nat)
    requires bus.Valid() && Remembered(stripes, b, -1)
    requires Confined(b.view, Look(bus), supply, [], []) && !(1 <= n <= RoomIn(b.view, supply))
    ensures AllOk(bus, stripes)
    ensures var left := Left(b.view, Look(bus), supply);
      HubStep(World(b.pieces, RoomIn(b.view, supply)), Open(n), WorldOf(bus, stripes, left))
  {
    hide Flat, ValidSlices, Noted, Room, HubStep, Pieces, OnlyIn, Took, Apart;
    ConfinedRoom(b.view, Look(bus), supply, [], []);
    NoWindows();
    NoneTouched(bus, stripes, b, supply, [], []);
    OpenFails(World(b.pieces, RoomIn(b.view, supply)), n);
  }

  method OpenOne(bus: Bus, stripes: seq<Stripe>, n: nat, supply: nat) returns (stripes': seq<Stripe>, left: nat)
    requires AllOk(bus, stripes)
    modifies bus, bus.bitmap, bus.chunks
    ensures AllOk(bus, stripes') && ChunksFrom(bus)
    ensures HubStep(old(WorldOf(bus, stripes, supply)), Open(n), WorldOf(bus, stripes', left))
    ensures Spent(old(Look(bus)), Look(bus), supply, left)
    ensures forall s :: s in stripes' ==> s in stripes || fresh(s)
  {
    hide Represents, DecodeFrom, Room, Noted, HubStep, Remember, Pieces, Offer, Blocks, First, OnlyIn, Took, Apart;
    ghost var b, a := Remember(bus, stripes), WorldOf(bus, stripes, supply);
    RememberedAll(bus, stripes);
    var count := |bus.chunks|;
    var ok, s := AllocStripe(bus, n, supply);
    OldOrNew(b.view.chunks, bus.chunks);
    left := supply - (|bus.chunks| - count);
    assert forall j :: 0 <= j < |stripes| ==> AsNoted(stripes[j], b, j);
    if s == null {
      NotOpened(bus, stripes, b, n, supply);
      return stripes, left;
    }
    Opened(bus, stripes, s, b, n, supply);
    stripes' := stripes + [s];
  }

  lemma NoWindows()
    ensures ValidSlices([]) && forall c: seq<Slice> :: Apart([], c)
  {}

  lemma ShutStep(a: World, i: nat, room: nat)
    requires i < |a.pieces| && room == a.room + BlocksIn(a.pieces[i])
    ensures HubStep(a, Shut(i), World(a.pieces[..i] + a.pieces[i + 1..], room))
  {}

  /** A stripe that was released leaves the others listed and their bytes alone. */
  lemma ReleasedAside(bus: Bus, s: Stripe, t: Stripe, v0: BusView, f: seq<Byte>)
    requires bus.Valid() && Noted(t, v0, f) && Apart(s.blocks, t.blocks) && bus.chunks == v0.chunks
    requires Listed(v0.bm, v0.chunks, s.sequence, s.blockCount, s.blocks) &&
      Released(bus.bitmap[..], v0.bm, Decode(s.sequence))
    requires Snapshot(bus.chunks) == v0.mem
    ensures Represents(bus, t) && Flat(t.blocks) == f
  {
    hide Flat, ValidSlices, Header.Holds, FlatIn, OnlyIn, Listed, Released;
    ReleaseKeepsOthers(bus.bitmap[..], v0.bm, v0.chunks, s.sequence, s.blockCount, s.blocks, t.sequence, t.blockCount,
                       t.blocks);
    NoWindows();
    assert OnlyIn(v0.mem, v0.mem, v0.chunks, []) by { SameBytes(v0.mem, v0.chunks); }
    StaysRepresented(bus, t, f, v0.mem, v0.bm, v0.chunks, []);
  }

  lemma SameBytes(mem: seq<seq<Byte>>, chunks: seq<array<Byte>>)
    requires |mem| == |chunks|
    ensures OnlyIn(mem, mem, chunks, [])
  {}

  lemma AllButOne(bus: Bus, stripes: seq<Stripe>, i: nat, b: Before)
    requires i < |stripes| && Remembered(stripes, b, -1) && bus.Valid()
    requires forall j :: 0 <= j < |stripes| && j != i ==>
      Represents(bus, stripes[j]) && PieceOf(stripes[j]) == b.pieces[j]
    ensures var rest := stripes[..i] + stripes[i + 1..];
      AllOk(bus, rest) && Pieces(rest) == b.pieces[..i] + b.pieces[i + 1..]
  {
    hide Apart, Noted, Pieces, Flat, ValidSlices, Listed, Header.Holds;
    var rest := stripes[..i] + stripes[i + 1..];
    forall j | 0 <= j < |rest| ensures rest[j] == stripes[if j < i then j else j + 1] {}
    forall k, j | 0 <= k < j < |rest| ensures rest[k] != rest[j] && Apart(rest[k].blocks, rest[j].blocks) {
      var k', j' := if k < i then k else k + 1, if j < i then j else j + 1;
      assert AsNoted(stripes[k'], b, k') && AsNoted(stripes[j'], b, j');
    }
    assert Pieces(rest) == b.pieces[..i] + b.pieces[i + 1..];
  }

  method ShutOne(bus: Bus, stripes: seq<Stripe>, i: nat, supply: nat) returns (stripes': seq<Stripe>)
    requires AllOk(bus, stripes) && i < |stripes|
    modifies bus.bitmap
    ensures AllOk(bus, stripes') && stripes' == stripes[..i] + stripes[i + 1..]
    ensures HubStep(old(WorldOf(bus, stripes, supply)), Shut(i), WorldOf(bus, stripes', supply))
  {
    hide Flat, ValidSlices, Listed, Header.Holds, Slices, DecodeFrom, Room, Noted, HubStep, Remember, Pieces, Released,
         Apart;
    ghost var b, a, s := Remember(bus, stripes), WorldOf(bus, stripes, supply), stripes[i];
    RememberedAll(bus, stripes);
    assert Represents(bus, s);
    SizeOf(bus, s);
    UsedOf(bus, s);
    FreeStripe(bus, stripes[i].sequence);
    assert Snapshot(bus.chunks) == b.view.mem;
    ReleasedRoom(bus.bitmap[..], b.view.bm, Decode(s.sequence), |bus.chunks|, supply);
    forall j | 0 <= j < |stripes| && j != i ensures Represents(bus, stripes[j]) && PieceOf(stripes[j]) == b.pieces[j] {
      assert AsNoted(stripes[j], b, j);
      if j < i { ApartBack(b.blocks[j], b.blocks[i]); }
      ReleasedAside(bus, s, stripes[j], b.view, b.flats[j]);
    }
    AllButOne(bus, stripes, i, b);
    stripes' := stripes[..i] + stripes[i + 1..];
    ShutStep(a, i, RoomIn(Look(bus), supply));
  }

  lemma UsedOf(bus: Bus, s: Stripe)
    requires Represents(bus, s)
    ensures AllUsed(bus.bitmap[..], Decode(s.sequence)) && DistinctBlocks(Decode(s.sequence)) &&
      ValidBlocks(Decode(s.sequence))
    ensures Listed(bus.bitmap[..], bus.chunks, s.sequence, s.blockCount, s.blocks) && bus.bitmap.Length > 0
  {
    hide Flat, ValidSlices, Header.Holds, Slices, DecodeFrom, Encode;
    UsedAreValid(bus.bitmap[..], Decode(s.sequence));
  }

  // ---------- Any operations on any stripes ----------

  method DoHubOp(bus: Bus, stripes: seq<Stripe>, op: HubOp, supply: nat) returns (stripes': seq<Stripe>, left: nat)
    requires AllOk(bus, stripes)
    modifies bus, bus.bitmap, bus.chunks, stripes
    ensures AllOk(bus, stripes') && ChunksFrom(bus)
    ensures HubStep(old(WorldOf(bus, stripes, supply)), op, WorldOf(bus, stripes', left))
    ensures Spent(old(Look(bus)), Look(bus), supply, left)
    ensures forall j :: 0 <= j < |stripes'| ==> stripes'[j] in stripes || fresh(stripes'[j])
  {
    hide Flat, ValidSlices, Listed, Header.Holds, Room, Pieces, PutOutcome, Grows, Sent;
    stripes', left := stripes, supply;
    ghost var pieces := Pieces(stripes);
    match op {
      case Open(n) => stripes', left := OpenOne(bus, stripes, n, supply);
      case Put(i, data, off) =>
        if i < |stripes| { left := PutInto(bus, stripes, i, data, off, supply); }
      case Shorten(i, len) =>
        if i < |stripes| && len < WRAP { ShortenOne(bus, stripes, i, len, supply); }
      case Send(i, ops) =>
        if i < |stripes| {
          assert Represents(bus, stripes[i]);
          SizeOf(bus, stripes[i]);
          if |stripes[i].blocks| + 2 * Grows(ops) <= 1022 && CutsFit(ops) {
            left := SendOne(bus, stripes, i, ops, supply);
          }
        }
      case Shut(i) =>
        if i < |stripes| { stripes' := ShutOne(bus, stripes, i, supply); }
    }
  }

  ghost predicate IsHistory(worlds: seq<World>, ops: seq<HubOp>)
  {
    && |worlds| == |ops| + 1
    && forall k :: 0 <= k < |ops| ==> HubStep(worlds[k], ops[k], worlds[k + 1])
  }

  /** Any finite list of operations on any of the stripes of one bus: at the end all are
      represented and pairwise apart, and what callers see has gone step by step as each
      operation says, with every other stripe left alone. */
  method RunHub(bus: Bus, stripes: seq<Stripe>, ops: seq<HubOp>, supply: nat)
    returns (stripes': seq<Stripe>, left: nat, ghost worlds: seq<World>)
    requires AllOk(bus, stripes)
    modifies bus, bus.bitmap, bus.chunks, stripes
    ensures AllOk(bus, stripes') && IsHistory(worlds, ops)
    ensures worlds[0] == old(WorldOf(bus, stripes, supply)) && worlds[|ops|] == WorldOf(bus, stripes', left)
    ensures Spent(old(Look(bus)), Look(bus), supply, left)
  {
    hide AllOk, HubStep, WorldOf, IsHistory, Spent, Look;
    stripes', left := stripes, supply;
    worlds := [WorldOf(bus, stripes, supply)];
    NoHistory(worlds[0], Look(bus), supply);
    assert ops[..0] == [];
    for k := 0 to |ops|
      invariant AllOk(bus, stripes') && IsHistory(worlds, ops[..k])
      invariant |worlds| == k + 1
      invariant worlds[0] == old(WorldOf(bus, stripes, supply)) && worlds[k] == WorldOf(bus, stripes', left)
      invariant forall j :: 0 <= j < |bus.chunks| ==> bus.chunks[j] in old(bus.chunks) || fresh(bus.chunks[j])
      invariant forall j :: 0 <= j < |stripes'| ==> stripes'[j] in stripes || fresh(stripes'[j])
      invariant bus.bitmap == old(bus.bitmap) || fresh(bus.bitmap)
      invariant Spent(old(Look(bus)), Look(bus), supply, left)
    {
      ghost var v, was := Look(bus), left;
      stripes', left := DoHubOp(bus, stripes', ops[k], left);
      SpentTwice(old(Look(bus)), v, Look(bus), supply, was, left);
      HistoryNext(worlds, ops[..k], ops[k], WorldOf(bus, stripes', left));
      assert ops[..k] + [ops[k]] == ops[..k + 1];
      worlds := worlds + [WorldOf(bus, stripes', left)];
    }
    assert ops[..|ops|] == ops;
    HistoryLength(worlds, ops);
  }

  lemma NoHistory(w: World, v: BusView, supply: nat)
    ensures IsHistory([w], []) && Spent(v, v, supply, supply)
  {}

  lemma HistoryNext(worlds: seq<World>, ops: seq<HubOp>, op: HubOp, w: World)
    requires IsHistory(worlds, ops) && HubStep(worlds[|ops|], op, w)
    ensures IsHistory(worlds + [w], ops + [op])
  {
    hide HubStep;
  }

  lemma HistoryLength(worlds: seq<World>, ops: seq<HubOp>)
    requires IsHistory(worlds, ops)
    ensures |worlds| == |ops| + 1
  {}

  lemma SpentTwice(v0: BusView, v1: BusView, v2: BusView, supply: nat, left1: nat, left2: nat)
    requires Spent(v0, v1, supply, left1) && Spent(v1, v2, left1, left2)
    ensures Spent(v0, v2, supply, left2)
  {}
}
