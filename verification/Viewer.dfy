/** The zero-copy view of a range of a stripe (go/shm/stripe.go): windows into the
    blocks that behave as one slice of the flat array. */
module ViewerModel {
  import opened Layout
  import opened Memory
  import opened StripeModel
  import opened Segments

  datatype Segment = Segment(data: array<Byte>, off: nat, len: nat)

  /** Segment `g` is the window onto flat bytes `at` to `at + g.len`, inside one block. */
  ghost predicate Covers(blocks: seq<Slice>, g: Segment, at: nat)
  {
    var b, inner := at / BLOCK_SIZE, at % BLOCK_SIZE;
    && 0 < g.len && inner + g.len <= BLOCK_SIZE
    && b < |blocks| && g.data == blocks[b].data && g.off == blocks[b].off + inner
  }

  /** The segments cover flat bytes `start` to `end`, one after the other. */
  ghost predicate Tiles(blocks: seq<Slice>, segments: seq<Segment>, start: nat, end: nat)
    decreases |segments|
  {
    if segments == [] then start == end
    else
      var last := segments[|segments| - 1];
      start + last.len <= end && Covers(blocks, last, end - last.len)
      && Tiles(blocks, segments[..|segments| - 1], start, end - last.len)
  }

  function Lengths(segments: seq<Segment>): (n: nat)
  {
    if segments == [] then 0 else Lengths(segments[..|segments| - 1]) + segments[|segments| - 1].len
  }

  /** The end of a view: Go converts `offset + length` to 32 bits before clipping. */
  function ViewEnd(offset: int, length: int, dataLen: nat): (n: nat)
  {
    var end := (offset + length) % WRAP;
    if end < dataLen then end else dataLen
  }

  /** The range a caller asks for, clipped to the data: empty for a negative length. */
  function Clipped(offset: nat, length: int, dataLen: nat): (n: int)
  {
    if length <= 0 then offset else if offset + length < dataLen then offset + length else dataLen
  }

  /** Inside the data, the view is the clipped range exactly when `offset + length`
      is a 32-bit number, or wraps around to one that clips the same way. */
  lemma ViewEndIff(offset: nat, length: int, dataLen: nat)
    requires offset < dataLen < WRAP
    ensures var n, end := ViewEnd(offset, length, dataLen), offset + length;
      ((n <= offset && Clipped(offset, length, dataLen) == offset) || n == Clipped(offset, length, dataLen)) <==>
        || 0 <= end < WRAP
        || (end < 0 && end % WRAP <= offset)
        || (end >= WRAP && end % WRAP >= dataLen)
  {}

  predicate InBounds(segments: seq<Segment>)
  {
    forall i :: 0 <= i < |segments| ==> segments[i].off + segments[i].len <= segments[i].data.Length
  }

  /** The bytes of each segment. */
  function Load(segments: seq<Segment>): (c: seq<seq<Byte>>)
    requires InBounds(segments)
    reads set i | 0 <= i < |segments| :: segments[i].data
    ensures |c| == |segments|
    ensures forall i :: 0 <= i < |segments| ==>
      c[i] == segments[i].data[segments[i].off..segments[i].off + segments[i].len]
  {
    if segments == [] then []
    else
      var last := segments[|segments| - 1];
      Load(segments[..|segments| - 1]) + [last.data[last.off..last.off + last.len]]
  }

  // ---------- A tiling reads as a slice of the flat array ----------

  lemma CoveredBytes(blocks: seq<Slice>, g: Segment, at: nat)
    requires ValidSlices(blocks) && Covers(blocks, g, at)
    ensures g.off + g.len <= g.data.Length && at + g.len <= BLOCK_SIZE * |blocks| && g.data in Arrays(blocks)
    ensures g.data[g.off..g.off + g.len] == Flat(blocks)[at..at + g.len]
  {
    var b, inner := at / BLOCK_SIZE, at % BLOCK_SIZE;
    var w, f := g.data[g.off..g.off + g.len], Flat(blocks)[at..at + g.len];
    forall x | 0 <= x < g.len ensures w[x] == f[x] {
      assert at + x == BLOCK_SIZE * b + (inner + x);
      Locate(b, inner + x);
    }
  }

  lemma {:induction false} TilesBounds(blocks: seq<Slice>, segments: seq<Segment>, start: nat, end: nat)
    requires ValidSlices(blocks) && Tiles(blocks, segments, start, end)
    ensures start <= end && InBounds(segments) && Lengths(segments) == end - start
    ensures forall i :: 0 <= i < |segments| ==> segments[i].data in Arrays(blocks) && segments[i].len > 0
    decreases |segments|
  {
    hide Flat, ValidSlices;
    if segments != [] {
      var front, last := segments[..|segments| - 1], segments[|segments| - 1];
      TilesBounds(blocks, front, start, end - last.len);
      CoveredBytes(blocks, last, end - last.len);
      forall i | 0 <= i < |segments|
        ensures segments[i].off + segments[i].len <= segments[i].data.Length
          && segments[i].data in Arrays(blocks) && segments[i].len > 0
      {
        if i < |front| { assert segments[i] == front[i]; }
      }
    }
  }

  lemma LoadPrefix(segments: seq<Segment>, i: nat)
    requires InBounds(segments) && i <= |segments|
    ensures InBounds(segments[..i]) && Load(segments)[..i] == Load(segments[..i])
  {
    hide Load;
    var a, b := Load(segments)[..i], Load(segments[..i]);
    forall k | 0 <= k < i ensures a[k] == b[k] {
      assert segments[..i][k] == segments[k];
    }
  }

  lemma ConcatLast(c: seq<seq<Byte>>)
    requires c != []
    ensures Concat(c) == Concat(c[..|c| - 1]) + c[|c| - 1]
  {}

  lemma {:induction false} TilesReadFlat(blocks: seq<Slice>, segments: seq<Segment>, start: nat, end: nat)
    requires ValidSlices(blocks) && Tiles(blocks, segments, start, end) && end <= BLOCK_SIZE * |blocks|
    ensures start <= end && InBounds(segments)
    ensures Concat(Load(segments)) == Flat(blocks)[start..end]
    decreases |segments|
  {
    hide Flat, ValidSlices, Covers, Concat, Load, Lengths;
    TilesBounds(blocks, segments, start, end);
    if segments == [] {
      SomeSegment(Load(segments));
    } else {
      var front, last := segments[..|segments| - 1], segments[|segments| - 1];
      var mid := end - last.len;
      CoveredBytes(blocks, last, mid);
      TilesReadFlat(blocks, front, start, mid);
      LoadPrefix(segments, |front|);
      ConcatLast(Load(segments));
      assert Flat(blocks)[start..end] == Flat(blocks)[start..mid] + Flat(blocks)[mid..end];
    }
  }

  lemma {:induction false} LengthsOfLoad(segments: seq<Segment>)
    requires InBounds(segments)
    ensures |Concat(Load(segments))| == Lengths(segments)
    decreases |segments|
  {
    if segments != [] {
      LoadPrefix(segments, |segments| - 1);
      LengthsOfLoad(segments[..|segments| - 1]);
      ConcatLast(Load(segments));
    }
  }

  /** What the offsets table says of the loaded segments. */
  lemma LoadIsSegmented(segments: seq<Segment>, offsets: seq<int>)
    requires InBounds(segments) && |offsets| == |segments|
    requires forall i :: 0 <= i < |segments| ==> segments[i].len > 0 && offsets[i] == Lengths(segments[..i])
    ensures Segmented(Load(segments), offsets)
  {
    hide Concat, Lengths, Load;
    var c := Load(segments);
    forall i | 0 <= i < |c| ensures c[i] != [] && offsets[i] == |Concat(c[..i])| {
      LoadPrefix(segments, i);
      LengthsOfLoad(segments[..i]);
    }
  }

  class Viewer {
    const segments: seq<Segment>
    const offsets: seq<int>
    const length: nat
    ghost const blocks: seq<Slice>
    ghost const start: nat

    ghost predicate Valid()
    {
      && ValidSlices(blocks) && length > 0 && start + length <= BLOCK_SIZE * |blocks|
      && Tiles(blocks, segments, start, start + length)
      && |offsets| == |segments| && forall i :: 0 <= i < |segments| ==> offsets[i] == Lengths(segments[..i])
    }

    /** The slice of the flat array that the view stands for. */
    ghost function Content(): (f: seq<Byte>)
      requires Valid()
      reads Arrays(blocks)
      ensures |f| == length
    {
      Flat(blocks)[start..start + length]
    }

    constructor (segments: seq<Segment>, offsets: seq<int>, length: nat, ghost blocks: seq<Slice>, ghost start: nat)
      ensures this.segments == segments && this.offsets == offsets && this.length == length
      ensures this.blocks == blocks && this.start == start
    {
      this.segments, this.offsets, this.length := segments, offsets, length;
      this.blocks, this.start := blocks, start;
    }

    lemma Reads()
      requires Valid()
      ensures InBounds(segments) && (forall i :: 0 <= i < |segments| ==> segments[i].data in Arrays(blocks))
      ensures Segmented(Load(segments), offsets) && Concat(Load(segments)) == Content()
    {
      TilesBounds(blocks, segments, start, start + length);
      TilesReadFlat(blocks, segments, start, start + length);
      LoadIsSegmented(segments, offsets);
    }

    method ByteAt(offset: int) returns (b: Byte, err: Err)
      requires Valid()
      ensures err == Nil <==> 0 <= offset < length
      ensures err == Nil ==> b == Content()[offset]
    {
      hide Concat;
      if offset < 0 || offset >= length { return 0, Eof; }
      Reads();
      var idx, inner := FindSegment(Load(segments), offsets, offset);
      return segments[idx].data[segments[idx].off + inner], Nil;
    }

    /** Writes through to the stripe: one byte of the flat array changes. */
    method SetByteAt(offset: int, val: Byte) returns (err: Err)
      requires Valid()
      modifies Arrays(blocks)
      ensures err == Nil <==> 0 <= offset < length
      ensures err != Nil ==> Flat(blocks) == old(Flat(blocks))
      ensures err == Nil ==> Flat(blocks) == Splice(old(Flat(blocks)), start + offset, [val])
      ensures forall d, y :: d in Arrays(blocks) && 0 <= y < d.Length && Outside(blocks, d, y) ==> d[y] == old(d[y])
    {
      hide Concat, Tiles, Load, Flat, Splice, Segmented, ValidSlices, Lengths;
      if offset < 0 || offset >= length { return Eof; }
      Reads();
      var idx, inner := FindSegment(Load(segments), offsets, offset);
      var data, x := segments[idx].data, segments[idx].off + inner;
      SegmentPlace(idx, inner);
      Poke(blocks, start + offset, data, x, val);
      return Nil;
    }

    /** Byte `inner` of segment `idx` is the memory of its flat byte. */
    lemma SegmentPlace(idx: nat, inner: nat)
      requires Valid() && idx < |segments| && inner < segments[idx].len
      ensures var p := start + offsets[idx] + inner;
        && 0 <= p < BLOCK_SIZE * |blocks|
        && segments[idx].data == blocks[p / BLOCK_SIZE].data
        && segments[idx].off + inner == blocks[p / BLOCK_SIZE].off + p % BLOCK_SIZE
    {
      TilePlace(blocks, segments, start, start + length, idx, inner);
    }

    method Index(target: seq<Byte>) returns (r: int)
      requires Valid()
      ensures r == -1 || Occurs(Content(), target, r)
      ensures forall k :: 0 <= k && (r == -1 || k < r) ==> !Occurs(Content(), target, k)
    {
      Reads();
      r := Segments.Index(Load(segments), offsets, target);
    }

    method Compare(data: seq<Byte>) returns (same: bool)
      requires Valid()
      ensures same <==> data == Content()
    {
      Reads();
      same := Segments.Compare(Load(segments), offsets, length, data);
    }

    method Iterator() returns (w: Walk)
      requires Valid()
      ensures fresh(w) && w.v == this && w.Valid() && w.Position() == 0
    {
      Reads();
      w := new Walk(this);
    }
  }

  /** The closure that `Iterator` returns: it reads the segments as they are when it is
      called, not as they were when it was made. */
  class Walk {
    const v: Viewer
    var segIdx: nat
    var innerIdx: nat

    ghost predicate Valid()
      reads this
    {
      && v.Valid() && segIdx <= |v.segments|
      && innerIdx <= if segIdx < |v.segments| then v.segments[segIdx].len else 0
    }

    /** How many bytes were handed out. */
    ghost function Position(): (p: int)
      requires Valid()
      reads this
    {
      if segIdx < |v.segments| then v.offsets[segIdx] + innerIdx else v.length
    }

    constructor (v: Viewer)
      requires v.Valid()
      ensures this.v == v && Valid() && Position() == 0
    {
      hide Flat, ValidSlices, Load, Concat, Covers;
      this.v, segIdx, innerIdx := v, 0, 0;
      new;
      TilesBounds(v.blocks, v.segments, v.start, v.start + v.length);
    }

    /** Hands out the bytes of the view in order, then reports the end. */
    method Next() returns (b: Byte, ok: bool)
      requires Valid()
      modifies this
      ensures Valid()
      ensures ok <==> old(Position()) < v.length
      ensures ok ==> 0 <= old(Position()) && b == v.Content()[old(Position())] && Position() == old(Position()) + 1
      ensures !ok ==> Position() == old(Position())
    {
      hide Flat, ValidSlices, Load, Concat, Tiles, Lengths;
      v.Reads();
      while segIdx < |v.segments|
        invariant Valid() && Position() == old(Position())
        decreases |v.segments| - segIdx
      {
        NextSegment(Load(v.segments), v.offsets, segIdx);
        if innerIdx < v.segments[segIdx].len {
          ByteOfSegment(Load(v.segments), v.offsets, segIdx, innerIdx);
          b := v.segments[segIdx].data[v.segments[segIdx].off + innerIdx];
          innerIdx := innerIdx + 1;
          return b, true;
        }
        segIdx := segIdx + 1;
        innerIdx := 0;
      }
      return 0, false;
    }
  }

  lemma {:induction false} TilePlace(blocks: seq<Slice>, segments: seq<Segment>, start: nat, end: nat, idx: nat,
                                     inner: nat)
    requires ValidSlices(blocks) && Tiles(blocks, segments, start, end) && end <= BLOCK_SIZE * |blocks|
    requires idx < |segments| && inner < segments[idx].len
    ensures var p := start + Lengths(segments[..idx]) + inner;
      && p < end
      && segments[idx].data == blocks[p / BLOCK_SIZE].data
      && segments[idx].off + inner == blocks[p / BLOCK_SIZE].off + p % BLOCK_SIZE
    decreases |segments|
  {
    hide ValidSlices;
    var front, last := segments[..|segments| - 1], segments[|segments| - 1];
    var mid := end - last.len;
    if idx < |front| {
      TilePlace(blocks, front, start, mid, idx, inner);
      assert front[..idx] == segments[..idx];
    } else {
      TilesBounds(blocks, front, start, mid);
      Locate(mid / BLOCK_SIZE, mid % BLOCK_SIZE + inner);
    }
  }

  /** Where the segments of a range end: at its end, or before it where the blocks end. */
  function CutEnd(n: nat, start: nat, end: nat): (r: nat)
  {
    if end <= BLOCK_SIZE * n then end else if start <= BLOCK_SIZE * n then BLOCK_SIZE * n else start
  }

  /** The loop of View: a segment per block from flat byte `start` to `end`, or to the end
      of the blocks. */
  method Cut(blocks: seq<Slice>, start: nat, end: nat) returns (segments: seq<Segment>)
    requires ValidSlices(blocks) && start <= end
    ensures Tiles(blocks, segments, start, CutEnd(|blocks|, start, end))
  {
    hide ValidSlices;
    segments := [];
    var off := start;
    while off < end
      invariant start <= off <= end && Tiles(blocks, segments, start, off)
      invariant off == start || off <= BLOCK_SIZE * |blocks|
    {
      var bIdx, innerOff := off / BLOCK_SIZE, off % BLOCK_SIZE;
      if bIdx >= |blocks| { break; }
      var copyLen := BLOCK_SIZE - innerOff;
      if off + copyLen > end { copyLen := end - off; }
      var g := Segment(blocks[bIdx].data, blocks[bIdx].off + innerOff, copyLen);
      ghost var more := segments + [g];
      assert more[..|more| - 1] == segments && Covers(blocks, g, off);
      segments, off := segments + [g], off + copyLen;
    }
  }

  /** The loop that fills the offsets table. */
  method Table(segments: seq<Segment>) returns (offsets: seq<int>)
    ensures |offsets| == |segments| && forall i :: 0 <= i < |segments| ==> offsets[i] == Lengths(segments[..i])
  {
    offsets := [];
    var curr := 0;
    for i := 0 to |segments|
      invariant |offsets| == i && curr == Lengths(segments[..i])
      invariant forall k :: 0 <= k < i ==> offsets[k] == Lengths(segments[..k])
    {
      offsets := offsets + [curr];
      assert segments[..i + 1][..i] == segments[..i];
      curr := curr + segments[i].len;
    }
  }

  /** A view of a stripe covers the user's bytes from `offset` to the view's end, as far as
      there are blocks, and none exactly if that range is empty. It is sound exactly when
      its end lies within the blocks, and then it is that slice of the user's bytes. */
  method View(s: Stripe, offset: int, length: int) returns (err: Err, v: Viewer?)
    requires s.Valid()
    ensures err == NegativeOffset <==> offset < 0
    ensures err == Nil <==> 0 <= offset < s.dataLen && offset < ViewEnd(offset, length, s.dataLen)
    ensures err != Nil ==> v == null
    ensures err == Nil ==>
      && v != null && fresh(v) && v.blocks == s.blocks
      && v.start == BLOCK_SIZE + offset && v.length == ViewEnd(offset, length, s.dataLen) - offset
      && Tiles(s.blocks, v.segments, v.start, CutEnd(|s.blocks|, v.start, v.start + v.length))
      && (v.Valid() <==> ViewEnd(offset, length, s.dataLen) <= s.Capacity())
      && (v.Valid() ==> v.Content() == s.User()[offset..ViewEnd(offset, length, s.dataLen)])
  {
    hide Tiles, Flat, ValidSlices, Lengths;
    if offset < 0 { return NegativeOffset, null; }
    if offset >= s.dataLen { return Eof, null; }
    var n := ViewEnd(offset, length, s.dataLen);
    if n <= offset { return Eof, null; }
    var segments := Cut(s.blocks, BLOCK_SIZE + offset, BLOCK_SIZE + n);
    var offsets := Table(segments);
    v := new Viewer(segments, offsets, n - offset, s.blocks, BLOCK_SIZE + offset);
    if n <= s.Capacity() { UserSlice(Flat(s.blocks), offset, n); }
    return Nil, v;
  }

  lemma UserSlice(f: seq<Byte>, from: nat, to: nat)
    requires from <= to && BLOCK_SIZE + to <= |f|
    ensures f[BLOCK_SIZE..][from..to] == f[BLOCK_SIZE + from..BLOCK_SIZE + to]
  {}

  /** A byte set through a view of a stripe is the byte a later read of the stripe finds,
      and no other user byte and no header byte changes. */
  method SetThroughView(s: Stripe, v: Viewer, at: nat, offset: int, val: Byte) returns (err: Err)
    requires s.Valid() && v.Valid() && v.blocks == s.blocks && v.start == BLOCK_SIZE + at
    modifies Arrays(s.blocks)
    ensures s.Valid() && s.HeaderBytes() == old(s.HeaderBytes())
    ensures err == Nil <==> 0 <= offset < v.length
    ensures s.User() == if err == Nil then old(s.User())[at + offset := val] else old(s.User())
    ensures s.OthersUntouched()
  {
    hide Tiles, Flat, ValidSlices, Lengths;
    err := v.SetByteAt(offset, val);
    if err == Nil { SpliceBehind(old(Flat(s.blocks)), BLOCK_SIZE, at + offset, [val]); }
  }
}
