/** The Rust node's walk over a block sequence (rust/src/stripe.rs resolve_segments). It
    passes over a block whose chunk the node has not attached yet, so what it finds is the
    flat array of the attached blocks only. */
module RustWalk {
  import opened Layout
  import opened Codec
  import opened Memory
  import opened StripeModel
  import opened ViewerModel
  import opened HubModel

  // ---------- Blocks of attached chunks ----------

  predicate OfChunks(b: Block, n: nat) { -1 - b.chunk < n }

  /** The blocks of a list whose chunks are among the first `n`. */
  function Attached(bs: seq<Block>, n: nat): (r: seq<Block>)
    ensures |r| <= |bs|
  {
    if bs == [] then []
    else
      var front, last := bs[..|bs| - 1], bs[|bs| - 1];
      if OfChunks(last, n) then Attached(front, n) + [last] else Attached(front, n)
  }

  lemma {:induction false} AttachedMember(bs: seq<Block>, n: nat, b: Block)
    ensures b in Attached(bs, n) <==> b in bs && OfChunks(b, n)
    decreases |bs|
  {
    if bs != [] {
      AttachedMember(bs[..|bs| - 1], n, b);
      assert bs == bs[..|bs| - 1] + [bs[|bs| - 1]];
    }
  }

  lemma {:induction false} AttachedSnoc(bs: seq<Block>, b: Block, n: nat)
    ensures Attached(bs + [b], n) == Attached(bs, n) + if OfChunks(b, n) then [b] else []
  {
    assert (bs + [b])[..|bs|] == bs;
  }

  lemma NothingAttached(n: nat)
    ensures Attached([], n) == []
  {}

  lemma Associate(a: seq<Block>, b: seq<Block>, c: seq<Block>)
    ensures (a + b) + c == a + (b + c) && a + [] == a
  {}

  lemma {:induction false} AttachedAppend(a: seq<Block>, b: seq<Block>, n: nat)
    ensures Attached(a + b, n) == Attached(a, n) + Attached(b, n)
    decreases |b|
  {
    hide Attached;
    if b == [] {
      NothingAttached(n);
      Associate(a, b, b);
      Associate(Attached(a, n), b, b);
    } else {
      var front, last := b[..|b| - 1], b[|b| - 1];
      AttachedAppend(a, front, n);
      AttachedSnoc(a + front, last, n);
      AttachedSnoc(front, last, n);
      assert b == front + [last];
      Associate(a, front, [last]);
      Associate(Attached(a, n), Attached(front, n), if OfChunks(last, n) then [last] else []);
    }
  }

  lemma {:induction false} AttachedAll(bs: seq<Block>, n: nat)
    requires forall i :: 0 <= i < |bs| ==> OfChunks(bs[i], n)
    ensures Attached(bs, n) == bs
    decreases |bs|
  {
    if bs != [] {
      AttachedAll(bs[..|bs| - 1], n);
      assert bs == bs[..|bs| - 1] + [bs[|bs| - 1]];
    }
  }

  lemma {:induction false} AttachedDistinct(bs: seq<Block>, n: nat)
    requires DistinctBlocks(bs)
    ensures DistinctBlocks(Attached(bs, n))
    decreases |bs|
  {
    if bs != [] {
      var front, last := bs[..|bs| - 1], bs[|bs| - 1];
      AttachedDistinct(front, n);
      AttachedMember(front, n, last);
    }
  }

  /** The attached blocks from the block of flat byte `start` on. */
  function Beyond(bs: seq<Block>, n: nat, start: nat): (r: seq<Block>)
  {
    if start / BLOCK_SIZE <= |bs| then Attached(bs[start / BLOCK_SIZE..], n) else []
  }

  lemma {:induction false} BeyondInChunks(bs: seq<Block>, n: nat, start: nat)
    requires ValidBlocks(bs)
    ensures InChunks(Beyond(bs, n, start), n)
  {
    var r := Beyond(bs, n, start);
    forall i | 0 <= i < |r| ensures ValidBlock(r[i]) && OfChunks(r[i], n) {
      AttachedMember(bs[start / BLOCK_SIZE..], n, r[i]);
    }
  }

  /** The windows that a walk from flat byte `start` can use. */
  function Reached(chunks: seq<array<Byte>>, bs: seq<Block>, start: nat): (ws: seq<Slice>)
    requires ValidBlocks(bs)
    ensures |ws| == |Beyond(bs, |chunks|, start)|
  {
    BeyondInChunks(bs, |chunks|, start);
    Slices(chunks, Beyond(bs, |chunks|, start))
  }

  // ---------- The walk ----------

  /** The asked-for bytes from flat byte `start` on, as far as the windows go. */
  ghost predicate Resolved(ws: seq<Slice>, out: seq<Segment>, start: nat, want: nat)
  {
    Tiles(ws, out, start, start + Fitting(want, start, BLOCK_SIZE * |ws|))
  }

  /** Where the walk stands when it has met the first `k` windows of `ws`: nothing taken
      yet, or the range up to the end of window `k - 1` covered. */
  ghost predicate Walked(ws: seq<Slice>, out: seq<Segment>, start: nat, want: nat, k: nat, off: nat, remaining: nat)
  {
    && 0 < remaining <= want
    && if out == [] then off + BLOCK_SIZE * k == start && remaining == want
       else off == 0 && start < BLOCK_SIZE * k && remaining == want - (BLOCK_SIZE * k - start)
            && k <= |ws| && Tiles(ws, out, start, BLOCK_SIZE * k)
  }

  /** A block of the walk that is taken. */
  lemma {:induction false} TakeBlock(ws: seq<Slice>, out: seq<Segment>, start: nat, want: nat, k: nat, off: nat,
                                     remaining: nat, take: nat)
    requires Walked(ws, out, start, want, k, off, remaining) && off < BLOCK_SIZE && k < |ws|
    requires take == if remaining < BLOCK_SIZE - off then remaining else BLOCK_SIZE - off
    ensures var all := out + [Segment(ws[k].data, ws[k].off + off, take)];
      && Tiles(ws, all, start, BLOCK_SIZE * k + off + take)
      && (remaining == take ==> BLOCK_SIZE * k + off + take == start + want <= BLOCK_SIZE * |ws|)
      && (remaining > take ==> Walked(ws, all, start, want, k + 1, 0, remaining - take))
  {
    var at, g := BLOCK_SIZE * k + off, Segment(ws[k].data, ws[k].off + off, take);
    var all := out + [g];
    assert all[..|all| - 1] == out && all[|all| - 1] == g;
    Memory.Locate(k, off);
    assert Covers(ws, g, at);
    assert Tiles(ws, out, start, at);
  }

  lemma WalkedAll(ws: seq<Slice>, out: seq<Segment>, start: nat, want: nat, off: nat, remaining: nat)
    requires Walked(ws, out, start, want, |ws|, off, remaining)
    ensures Resolved(ws, out, start, want)
  {}

  /** Where the walk stands behind `bs`, the blocks met so far of `all`. */
  ghost predicate Standing(chunks: seq<array<Byte>>, all: seq<Block>, bs: seq<Block>, out: seq<Segment>,
                           start: nat, want: nat, off: nat, remaining: nat)
    requires ValidBlocks(all)
  {
    && bs <= all && 0 < remaining <= want
    && if |bs| < start / BLOCK_SIZE then out == [] && remaining == want && off == start - BLOCK_SIZE * |bs|
       else
         off < BLOCK_SIZE && Walked(Reached(chunks, all, start), out, start % BLOCK_SIZE, want,
                                    |Beyond(bs, |chunks|, start)|, off, remaining)
  }

  lemma {:induction false} StandingFirst(chunks: seq<array<Byte>>, all: seq<Block>, start: nat, want: nat)
    requires ValidBlocks(all) && want > 0
    ensures Standing(chunks, all, [], [], start, want, start, want)
  {}

  lemma {:induction false} BeyondNext(bs: seq<Block>, b: Block, n: nat, start: nat)
    ensures |bs| >= start / BLOCK_SIZE ==>
      Beyond(bs + [b], n, start) == Beyond(bs, n, start) + if OfChunks(b, n) then [b] else []
    ensures |bs| + 1 == start / BLOCK_SIZE ==> Beyond(bs + [b], n, start) == []
  {
    var k := start / BLOCK_SIZE;
    if |bs| >= k {
      assert (bs + [b])[k..] == bs[k..] + [b];
      AttachedSnoc(bs[k..], b, n);
    }
  }

  lemma {:induction false} BeyondPrefix(bs: seq<Block>, all: seq<Block>, n: nat, start: nat)
    requires bs <= all && start / BLOCK_SIZE <= |bs|
    ensures Beyond(bs, n, start) <= Beyond(all, n, start)
  {
    var k := start / BLOCK_SIZE;
    assert all[k..] == bs[k..] + all[|bs|..];
    AttachedAppend(bs[k..], all[|bs|..], n);
  }

  /** A block that is skipped, or passed over because its chunk is not attached. */
  lemma {:induction false} PassBlock(chunks: seq<array<Byte>>, all: seq<Block>, bs: seq<Block>, b: Block,
                                     out: seq<Segment>, start: nat, want: nat, off: nat, remaining: nat)
    requires ValidBlocks(all) && Standing(chunks, all, bs, out, start, want, off, remaining) && bs + [b] <= all
    ensures off >= BLOCK_SIZE ==> Standing(chunks, all, bs + [b], out, start, want, off - BLOCK_SIZE, remaining)
    ensures off < BLOCK_SIZE && !OfChunks(b, |chunks|) ==>
      Standing(chunks, all, bs + [b], out, start, want, off, remaining)
  {
    hide Attached, Reached, Tiles;
    BeyondNext(bs, b, |chunks|, start);
  }

  /** A block that is taken is the next window that the walk can use. */
  lemma {:induction false} NextReached(chunks: seq<array<Byte>>, all: seq<Block>, bs: seq<Block>, b: Block, start: nat)
    requires ValidBlocks(all) && bs + [b] <= all && OfChunks(b, |chunks|) && start / BLOCK_SIZE <= |bs|
    ensures ValidBlock(b)
    ensures var k, ws := |Beyond(bs, |chunks|, start)|, Reached(chunks, all, start);
      k < |ws| && ws[k] == SliceOf(chunks, b) && |Beyond(bs + [b], |chunks|, start)| == k + 1
  {
    hide Attached, Slices;
    assert all[|bs|] == (bs + [b])[|bs|] == b;
    BeyondNext(bs, b, |chunks|, start);
    BeyondPrefix(bs + [b], all, |chunks|, start);
    BeyondInChunks(all, |chunks|, start);
  }

  lemma {:induction false} TakenBlock(chunks: seq<array<Byte>>, all: seq<Block>, bs: seq<Block>, b: Block,
                                      out: seq<Segment>, start: nat, want: nat, off: nat, remaining: nat, take: nat)
    requires ValidBlocks(all) && Standing(chunks, all, bs, out, start, want, off, remaining) && bs + [b] <= all
    requires off < BLOCK_SIZE && OfChunks(b, |chunks|) && ValidBlock(b)
    requires take == if remaining < BLOCK_SIZE - off then remaining else BLOCK_SIZE - off
    ensures var w := SliceOf(chunks, b); var out' := out + [Segment(w.data, w.off + off, take)];
      && (remaining == take ==> Resolved(Reached(chunks, all, start), out', start % BLOCK_SIZE, want))
      && (remaining > take ==> Standing(chunks, all, bs + [b], out', start, want, 0, remaining - take))
  {
    hide Attached, Reached, Beyond, Tiles;
    NextReached(chunks, all, bs, b, start);
    TakeBlock(Reached(chunks, all, start), out, start % BLOCK_SIZE, want, |Beyond(bs, |chunks|, start)|, off, remaining,
              take);
  }

  lemma {:induction false} StandingLast(chunks: seq<array<Byte>>, all: seq<Block>, out: seq<Segment>, start: nat,
                                        want: nat, off: nat, remaining: nat)
    requires ValidBlocks(all) && Standing(chunks, all, all, out, start, want, off, remaining)
    ensures Resolved(Reached(chunks, all, start), out, start % BLOCK_SIZE, want)
  {
    if |all| >= start / BLOCK_SIZE {
      WalkedAll(Reached(chunks, all, start), out, start % BLOCK_SIZE, want, off, remaining);
    }
  }

  lemma NothingResolved(ws: seq<Slice>, start: nat, want: nat)
    requires ws == [] || want == 0
    ensures Resolved(ws, [], start, want)
  {}

  lemma {:induction false} DecodeShorter(sequence: seq<int>, i: nat)
    requires i <= |sequence|
    ensures DecodeFrom(-1, sequence[..i]) <= DecodeFrom(-1, sequence)
  {
    hide DecodeFrom;
    assert sequence == sequence[..i] + sequence[i..];
    DecodeFromAppend(-1, sequence[..i], sequence[i..]);
  }

  lemma {:induction false} DecodePrefix(sequence: seq<int>, i: nat)
    requires i < |sequence|
    ensures var m, v := MarkerAfter(-1, sequence[..i]), sequence[i];
      var bs, next := DecodeFrom(-1, sequence[..i]), DecodeFrom(-1, sequence[..i + 1]);
      && MarkerAfter(-1, sequence[..i + 1]) == (if v < 0 then v else m)
      && next == (if v < 0 then bs else bs + [Block(m, v)])
      && bs <= DecodeFrom(-1, sequence) && next <= DecodeFrom(-1, sequence)
  {
    hide DecodeFrom, MarkerAfter;
    assert sequence[..i + 1] == sequence[..i] + [sequence[i]];
    DecodeSnoc(-1, sequence[..i], sequence[i]);
    DecodeShorter(sequence, i);
    DecodeShorter(sequence, i + 1);
  }

  /** The memory of `want` bytes from flat byte `start` on, as the node finds it: the range
      of as many bytes from the same place inside a block on, over the attached blocks. */
  method ResolveSegments(chunks: seq<array<Byte>>, sequence: seq<int>, start: nat, want: nat)
    returns (out: seq<Segment>)
    ensures var bs := DecodeFrom(-1, sequence);
      ValidBlocks(bs) ==> Resolved(Reached(chunks, bs, start), out, start % BLOCK_SIZE, want)
  {
    hide Reached, DecodeFrom, MarkerAfter, Standing, Resolved, ValidBlocks;
    out := [];
    ghost var all := DecodeFrom(-1, sequence);
    if sequence == [] || want == 0 {
      if ValidBlocks(all) { NothingReached(chunks, sequence, start, want); }
      return;
    }
    var off, remaining, cid := start, want, -1;
    assert sequence[..0] == [] && DecodeFrom(-1, []) == [] && MarkerAfter(-1, []) == -1 by { EmptyWalk(); }
    if ValidBlocks(all) { StandingFirst(chunks, all, start, want); }
    for i := 0 to |sequence|
      invariant cid < 0 && remaining > 0 && off >= 0 && cid == MarkerAfter(-1, sequence[..i])
      invariant ValidBlocks(all) ==>
        Standing(chunks, all, DecodeFrom(-1, sequence[..i]), out, start, want, off, remaining)
    {
      ghost var bs := DecodeFrom(-1, sequence[..i]);
      DecodePrefix(sequence, i);
      var val := sequence[i];
      if val < 0 {
        cid := val;
        continue;
      }
      ghost var b := Block(cid, val);
      if off >= BLOCK_SIZE {
        if ValidBlocks(all) { PassBlock(chunks, all, bs, b, out, start, want, off, remaining); }
        off := off - BLOCK_SIZE;
        continue;
      }
      if -1 - cid < |chunks| {
        var take := if remaining < BLOCK_SIZE - off then remaining else BLOCK_SIZE - off;
        if ValidBlocks(all) {
          NamedIsValid(all, bs, b);
          TakenBlock(chunks, all, bs, b, out, start, want, off, remaining, take);
        }
        out := out + [Segment(chunks[-1 - cid], val * BLOCK_SIZE + off, take)];
        remaining, off := remaining - take, 0;
      } else if ValidBlocks(all) {
        PassBlock(chunks, all, bs, b, out, start, want, off, remaining);
      }
      if remaining == 0 { return; }
    }
    assert sequence[..|sequence|] == sequence;
    if ValidBlocks(all) { StandingLast(chunks, all, out, start, want, off, remaining); }
  }

  lemma EmptyWalk()
    ensures DecodeFrom(-1, []) == [] && MarkerAfter(-1, []) == -1
  {}

  lemma NothingReached(chunks: seq<array<Byte>>, sequence: seq<int>, start: nat, want: nat)
    requires ValidBlocks(DecodeFrom(-1, sequence)) && (sequence == [] || want == 0)
    ensures Resolved(Reached(chunks, DecodeFrom(-1, sequence), start), [], start % BLOCK_SIZE, want)
  {}

  lemma {:induction false} NamedIsValid(all: seq<Block>, bs: seq<Block>, b: Block)
    requires ValidBlocks(all) && bs + [b] <= all
    ensures ValidBlock(b)
  {
    assert all[|bs|] == (bs + [b])[|bs|] == b;
  }

  // ---------- When the walk finds what was asked for ----------

  /** Every block that flat bytes `start` to `start + want` touch is of an attached chunk. */
  predicate HasRange(bs: seq<Block>, n: nat, start: nat, want: nat)
  {
    want > 0 ==>
      forall k :: start / BLOCK_SIZE <= k < |bs| && BLOCK_SIZE * k < start + want ==> OfChunks(bs[k], n)
  }

  /** A tiling of windows `a` is one of `ws`, where these are the same windows further on. */
  lemma {:induction false} TilesShift(a: seq<Slice>, ws: seq<Slice>, k: nat, m: nat, out: seq<Segment>, start: nat,
                                      end: nat)
    requires m <= |a| && k + m <= |ws| && (forall j :: 0 <= j < m ==> a[j] == ws[k + j])
    requires Tiles(a, out, start, end) && end <= BLOCK_SIZE * m
    ensures Tiles(ws, out, BLOCK_SIZE * k + start, BLOCK_SIZE * k + end)
    decreases |out|
  {
    if out != [] {
      var last := out[|out| - 1];
      var at := end - last.len;
      TilesShift(a, ws, k, m, out[..|out| - 1], start, at);
      var b, inner := at / BLOCK_SIZE, at % BLOCK_SIZE;
      Memory.Locate(k + b, inner);
      assert BLOCK_SIZE * k + at == BLOCK_SIZE * (k + b) + inner;
    }
  }

  /** Some segment of a tiling lies in the window of each byte of its range. */
  lemma {:induction false} TileAt(ws: seq<Slice>, out: seq<Segment>, start: nat, end: nat, p: nat) returns (i: nat)
    requires Tiles(ws, out, start, end) && start <= p < end
    ensures i < |out| && p / BLOCK_SIZE < |ws| && out[i].data == ws[p / BLOCK_SIZE].data
    decreases |out|
  {
    var last := out[|out| - 1];
    var at := end - last.len;
    if p < at {
      i := TileAt(ws, out[..|out| - 1], start, at, p);
    } else {
      i := |out| - 1;
      Memory.Locate(at / BLOCK_SIZE, at % BLOCK_SIZE + (p - at));
    }
  }

  /** Every segment of a tiling lies in one of its windows. */
  lemma {:induction false} TileIn(ws: seq<Slice>, out: seq<Segment>, start: nat, end: nat, i: nat) returns (b: nat)
    requires Tiles(ws, out, start, end) && i < |out|
    ensures b < |ws| && out[i].data == ws[b].data
    decreases |out|
  {
    var last := out[|out| - 1];
    var at := end - last.len;
    if i == |out| - 1 { b := at / BLOCK_SIZE; } else { b := TileIn(ws, out[..|out| - 1], start, at, i); }
  }

  /** The blocks that a range touches, from its first one on. */
  function Touched(count: nat, start: nat, want: nat): (m: nat)
    requires start / BLOCK_SIZE <= count
  {
    if start + want <= BLOCK_SIZE * count then (start % BLOCK_SIZE + want + BLOCK_SIZE - 1) / BLOCK_SIZE
    else count - start / BLOCK_SIZE
  }

  /** With its blocks attached, the walk over the attached blocks is the walk over all. */
  lemma {:induction false} HasMeansResolved(chunks: seq<array<Byte>>, all: seq<array<Byte>>, bs: seq<Block>,
                                            out: seq<Segment>, start: nat, want: nat)
    requires chunks <= all && InChunks(bs, |all|) && ValidBlocks(bs) && HasRange(bs, |chunks|, start, want)
    requires Resolved(Reached(chunks, bs, start), out, start % BLOCK_SIZE, want)
    ensures Resolved(Slices(all, bs), out, start, want)
  {
    hide Slices, Reached, Beyond, Touched, Tiles, ValidBlocks, InChunks;
    var k, s, ws := start / BLOCK_SIZE, start % BLOCK_SIZE, Slices(all, bs);
    if want == 0 || k >= |bs| {
      NothingShifts(chunks, all, bs, out, start, want);
    } else {
      var m := Touched(|bs|, start, want);
      TouchedFacts(|bs|, start, want);
      var a := Reached(chunks, bs, start);
      assert forall i :: k <= i < k + m ==> BLOCK_SIZE * i <= BLOCK_SIZE * (k + m - 1);
      ReachedPrefix(chunks, all, bs, start, m);
      assert Fitting(want, s, BLOCK_SIZE * |a|) == Fitting(want, start, BLOCK_SIZE * |ws|);
      TilesShift(a, ws, k, m, out, s, s + Fitting(want, s, BLOCK_SIZE * |a|));
    }
  }

  lemma {:induction false} NothingShifts(chunks: seq<array<Byte>>, all: seq<array<Byte>>, bs: seq<Block>,
                                         out: seq<Segment>, start: nat, want: nat)
    requires InChunks(bs, |all|) && ValidBlocks(bs) && (want == 0 || start / BLOCK_SIZE >= |bs|)
    requires Resolved(Reached(chunks, bs, start), out, start % BLOCK_SIZE, want)
    ensures Resolved(Slices(all, bs), out, start, want)
  {
    hide Slices;
    TilesLength(Reached(chunks, bs, start), out, start % BLOCK_SIZE, start % BLOCK_SIZE);
  }

  lemma {:induction false} TilesLength(ws: seq<Slice>, out: seq<Segment>, start: nat, end: nat)
    requires Tiles(ws, out, start, end)
    ensures start <= end && (out != [] ==> start < end)
    decreases |out|
  {
    if out != [] { TilesLength(ws, out[..|out| - 1], start, end - out[|out| - 1].len); }
  }

  lemma TouchedFacts(count: nat, start: nat, want: nat)
    requires want > 0 && start / BLOCK_SIZE < count
    ensures var m, k, s := Touched(count, start, want), start / BLOCK_SIZE, start % BLOCK_SIZE;
      && 0 < m && k + m <= count && BLOCK_SIZE * (k + m - 1) < start + want
      && (start + want <= BLOCK_SIZE * count ==> s + want <= BLOCK_SIZE * m)
      && (start + want > BLOCK_SIZE * count ==> k + m == count)
  {}

  lemma {:induction false} ReachedPrefix(chunks: seq<array<Byte>>, all: seq<array<Byte>>, bs: seq<Block>, start: nat,
                                         m: nat)
    requires chunks <= all && InChunks(bs, |all|) && ValidBlocks(bs) && start / BLOCK_SIZE + m <= |bs|
    requires forall i :: start / BLOCK_SIZE <= i < start / BLOCK_SIZE + m ==> OfChunks(bs[i], |chunks|)
    ensures var k, a, ws := start / BLOCK_SIZE, Reached(chunks, bs, start), Slices(all, bs);
      && m <= |a| && (forall j :: 0 <= j < m ==> a[j] == ws[k + j])
      && (k + m == |bs| ==> |a| == m)
  {
    hide Slices, Attached;
    var k := start / BLOCK_SIZE;
    var near, far := bs[k..k + m], bs[k + m..];
    assert bs[k..] == near + far;
    AttachedAppend(near, far, |chunks|);
    forall i | 0 <= i < m ensures OfChunks(near[i], |chunks|) { assert near[i] == bs[k + i]; }
    AttachedAll(near, |chunks|);
    BeyondInChunks(bs, |chunks|, start);
    var reach, a, ws := Beyond(bs, |chunks|, start), Reached(chunks, bs, start), Slices(all, bs);
    assert reach == near + Attached(far, |chunks|);
    forall j | 0 <= j < m ensures a[j] == ws[k + j] {
      assert reach[j] == near[j] == bs[k + j];
      assert a[j] == SliceOf(chunks, reach[j]) && ws[k + j] == SliceOf(all, bs[k + j]);
    }
  }

  /** The walk finds the bytes that were asked for if and only if every block they touch is
      of an attached chunk. */
  lemma {:induction false} ResolvedIff(chunks: seq<array<Byte>>, all: seq<array<Byte>>, bs: seq<Block>,
                                       out: seq<Segment>, start: nat, want: nat)
    requires chunks <= all && ValidChunks(all) && InChunks(bs, |all|) && ValidBlocks(bs)
    requires Resolved(Reached(chunks, bs, start), out, start % BLOCK_SIZE, want)
    ensures Resolved(Slices(all, bs), out, start, want) <==> HasRange(bs, |chunks|, start, want)
  {
    hide Slices, Reached, Tiles;
    if HasRange(bs, |chunks|, start, want) {
      HasMeansResolved(chunks, all, bs, out, start, want);
    } else {
      var k :| start / BLOCK_SIZE <= k < |bs| && BLOCK_SIZE * k < start + want && !OfChunks(bs[k], |chunks|);
      if Resolved(Slices(all, bs), out, start, want) {
        MissingBlock(chunks, all, bs, out, start, want, k);
      }
    }
  }

  lemma {:induction false} MissingBlock(chunks: seq<array<Byte>>, all: seq<array<Byte>>, bs: seq<Block>,
                                        out: seq<Segment>, start: nat, want: nat, k: nat)
    requires chunks <= all && ValidChunks(all) && InChunks(bs, |all|) && ValidBlocks(bs) && want > 0
    requires Resolved(Reached(chunks, bs, start), out, start % BLOCK_SIZE, want)
    requires Resolved(Slices(all, bs), out, start, want)
    requires start / BLOCK_SIZE <= k < |bs| && BLOCK_SIZE * k < start + want
    ensures OfChunks(bs[k], |chunks|)
  {
    hide Slices, Tiles, Attached;
    var p, ws, a :=
      if start < BLOCK_SIZE * k then BLOCK_SIZE * k else start, Slices(all, bs), Reached(chunks, bs, start);
    assert p / BLOCK_SIZE == k;
    var i := TileAt(ws, out, start, start + Fitting(want, start, BLOCK_SIZE * |ws|), p);
    var s := start % BLOCK_SIZE;
    var b := TileIn(a, out, s, s + Fitting(want, s, BLOCK_SIZE * |a|), i);
    BeyondInChunks(bs, |chunks|, start);
    var c := Beyond(bs, |chunks|, start)[b];
    assert ws[k] == SliceOf(all, bs[k]) && a[b] == SliceOf(chunks, c) && chunks[-1 - c.chunk] == all[-1 - c.chunk];
  }

  /** A node with all chunks has every range. */
  lemma AllAttached(bs: seq<Block>, n: nat, start: nat, want: nat)
    requires InChunks(bs, n)
    ensures HasRange(bs, n, start, want)
  {}

  lemma {:induction false} ReachMember(chunks: seq<array<Byte>>, all: seq<array<Byte>>, bs: seq<Block>, k: nat,
                                       b: Block)
    requires chunks <= all && InChunks(bs, |all|) && 1 <= k <= |bs| && b in Attached(bs[k..], |chunks|)
    ensures ValidBlock(b) && OfChunks(b, |chunks|) && SliceOf(chunks, b) in Slices(all, bs)[1..]
  {
    hide Slices, Attached;
    AttachedMember(bs[k..], |chunks|, b);
    var ws, tail := Slices(all, bs), bs[k..];
    var j :| 0 <= j < |tail| && tail[j] == b;
    assert bs[k + j] == b && ws[k + j] == SliceOf(all, b) == ws[1..][k + j - 1];
  }

  /** The windows of a walk that starts behind the first block are other windows of the
      stripe than the first. */
  lemma {:induction false} ReachWithin(chunks: seq<array<Byte>>, all: seq<array<Byte>>, bs: seq<Block>, start: nat)
    requires chunks <= all && ValidChunks(all) && InChunks(bs, |all|) && ValidBlocks(bs) && DistinctBlocks(bs)
    requires start >= BLOCK_SIZE && bs != []
    ensures var a := Reached(chunks, bs, start);
      ValidSlices(a) && forall i :: 0 <= i < |a| ==> a[i] in Slices(all, bs)[1..]
  {
    hide Slices, Attached, ValidSlices, InChunks;
    var k := start / BLOCK_SIZE;
    var a, r := Reached(chunks, bs, start), Beyond(bs, |chunks|, start);
    BeyondInChunks(bs, |chunks|, start);
    if k <= |bs| { AttachedDistinct(bs[k..], |chunks|); }
    SlicesValid(chunks, r);
    forall i | 0 <= i < |a| ensures a[i] in Slices(all, bs)[1..] {
      ReachMember(chunks, all, bs, k, r[i]);
    }
  }

  lemma EmptyReached(chunks: seq<array<Byte>>, start: nat)
    ensures DecodeFrom(-1, []) == [] && ValidBlocks([]) && Reached(chunks, [], start) == []
  {}

  // ---------- Writes that miss a chunk ----------

  /** A stripe of two blocks of chunk 0 that has grown by two blocks of chunk 1. */
  function GrownStripe(): (bs: seq<Block>)
    ensures ValidBlocks(bs)
  {
    [Block(-1, 0), Block(-1, 1), Block(-2, 0), Block(-2, 1)]
  }

  lemma {:induction false} GrownReach(chunk: array<Byte>)
    ensures Reached([chunk], GrownStripe(), BLOCK_SIZE) == [Slice(chunk, BLOCK_SIZE)]
  {
    var bs := GrownStripe();
    assert bs[1..] == [Block(-1, 1)] + [Block(-2, 0), Block(-2, 1)];
    AttachedAppend([Block(-1, 1)], [Block(-2, 0), Block(-2, 1)], 1);
    NoneAttached([Block(-2, 0), Block(-2, 1)], 1);
    AttachedAll([Block(-1, 1)], 1);
  }

  /** While chunk 1 is still on the wire, of 8192 bytes at the start of that stripe's data only
      4096 find a place. */
  lemma {:induction false} ShortTransfer(chunk: array<Byte>, out: seq<Segment>)
    requires chunk.Length == CHUNK_SIZE
    requires Resolved(Reached([chunk], GrownStripe(), BLOCK_SIZE), out, 0, 2 * BLOCK_SIZE)
    ensures Lengths(out) == BLOCK_SIZE
  {
    hide GrownStripe, Tiles;
    GrownReach(chunk);
    TilesBounds([Slice(chunk, BLOCK_SIZE)], out, 0, BLOCK_SIZE);
  }

  lemma {:induction false} NoneAttached(bs: seq<Block>, n: nat)
    requires forall i :: 0 <= i < |bs| ==> !OfChunks(bs[i], n)
    ensures Attached(bs, n) == []
    decreases |bs|
  {
    if bs != [] { NoneAttached(bs[..|bs| - 1], n); }
  }

  /** If a block of chunk 0 follows the missing one, a whole block of data finds a place, but
      in the block behind its own. */
  lemma {:induction false} ShiftedTransfer(chunk: array<Byte>, idx: nat, out: seq<Segment>)
    requires chunk.Length == CHUNK_SIZE && 0 < idx < BLOCKS_PER_CHUNK
    requires var bs := [Block(-1, 0), Block(-2, 0), Block(-1, idx)];
      Resolved(Reached([chunk], bs, BLOCK_SIZE), out, 0, BLOCK_SIZE)
    ensures Lengths(out) == BLOCK_SIZE && Tiles([Slice(chunk, BLOCK_SIZE * idx)], out, 0, BLOCK_SIZE)
  {
    var bs := [Block(-1, 0), Block(-2, 0), Block(-1, idx)];
    assert bs[1..] == [Block(-2, 0)] + [Block(-1, idx)];
    AttachedAppend([Block(-2, 0)], [Block(-1, idx)], 1);
    NoneAttached([Block(-2, 0)], 1);
    AttachedAll([Block(-1, idx)], 1);
    var a := Reached([chunk], bs, BLOCK_SIZE);
    assert a == [Slice(chunk, BLOCK_SIZE * idx)];
    TilesBounds(a, out, 0, BLOCK_SIZE);
  }
}
