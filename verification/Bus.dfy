/** The hub's block allocator (go/shm/bus.go), run by one thread: chunks of 1024
    blocks, one bitmap bit per block, growth by whole chunks. */
module BusModel {
  import opened Layout
  import opened Bitmap
  import opened Codec

  /** The first `want` elements, or all of them. */
  function First(want: nat, s: seq<nat>): (r: seq<nat>)
  {
    if want < |s| then s[..want] else s
  }

  function Blocks(addresses: seq<nat>): (bs: seq<Block>)
  {
    seq(|addresses|, i requires 0 <= i < |addresses| => ParseBlockAddress(addresses[i]))
  }

  /** Every block an allocation can be given, in the order it is given: the free
      ones by the circular scan, then those of `grown` new chunks. */
  function Offer(bm: seq<Word>, start: nat, grown: nat): (s: seq<nat>)
    requires start < |bm|
  {
    Scan(bm, start, |bm|) + Range(32 * |bm|, 32 * |bm| + BLOCKS_PER_CHUNK * grown)
  }

  /** How many chunks can be added to `n`, when the operating system is willing to
      create `supply` more. */
  function Growable(supply: nat, n: nat): (g: nat)
  {
    if n >= MAX_CHUNKS then 0 else if supply < MAX_CHUNKS - n then supply else MAX_CHUNKS - n
  }

  /** How many blocks can be had: those that are free and those of chunks to come. */
  function Room(bm: seq<Word>, chunks: nat, supply: nat): (r: nat)
  {
    FreeCount(bm, |bm|) + BLOCKS_PER_CHUNK * Growable(supply, chunks)
  }

  predicate Holding(bs: seq<Block>, a: int)
  {
    exists i :: 0 <= i < |bs| && ValidBlock(bs[i]) && BlockAddress(bs[i]) == a
  }

  predicate UsedIn(bm: seq<Word>, a: int) { 0 <= a < 32 * |bm| && Used(bm, a) }

  /** `bm` is `bm0`, possibly with more words, with exactly the blocks of `bs` marked,
      none of which was. */
  predicate Took(bm: seq<Word>, bm0: seq<Word>, bs: seq<Block>)
  {
    && |bm0| <= |bm|
    && (forall a :: 0 <= a < 32 * |bm| ==> (Used(bm, a) <==> UsedIn(bm0, a) || Holding(bs, a)))
    && forall i :: 0 <= i < |bs| ==>
         ValidBlock(bs[i]) && UsedIn(bm, BlockAddress(bs[i])) && !UsedIn(bm0, BlockAddress(bs[i]))
  }

  /** From `n0` to `n` chunks the blocks of `bs` were drawn: the bitmap has them marked and
      the room has gone down by exactly their number. */
  predicate Drew(bm: seq<Word>, n: nat, bm0: seq<Word>, n0: nat, supply: nat, bs: seq<Block>)
  {
    && n0 <= n && n - n0 <= supply && Took(bm, bm0, bs)
    && Room(bm, n, supply - (n - n0)) == Room(bm0, n0, supply) - |bs|
  }

  lemma DrewTwice(bm2: seq<Word>, n2: nat, bm1: seq<Word>, n1: nat, bm0: seq<Word>, n0: nat, supply: nat, a: seq<Block>,
                  b: seq<Block>)
    requires Drew(bm1, n1, bm0, n0, supply, a) && Drew(bm2, n2, bm1, n1, supply - (n1 - n0), b)
    ensures Drew(bm2, n2, bm0, n0, supply, a + b)
  {
    hide Room;
    HoldingEither(a, b);
    assert Took(bm2, bm0, a + b) by {
      forall i | 0 <= i < |a + b|
        ensures ValidBlock((a + b)[i]) && UsedIn(bm2, BlockAddress((a + b)[i])) &&
          !UsedIn(bm0, BlockAddress((a + b)[i]))
      {
        if i < |a| { assert (a + b)[i] == a[i]; } else { assert (a + b)[i] == b[i - |a|]; }
      }
    }
  }

  lemma HoldingEither(a: seq<Block>, b: seq<Block>)
    ensures forall x :: Holding(a + b, x) <==> Holding(a, x) || Holding(b, x)
  {
    forall x ensures Holding(a + b, x) <==> Holding(a, x) || Holding(b, x) {
      if Holding(a, x) {
        var i :| 0 <= i < |a| && ValidBlock(a[i]) && BlockAddress(a[i]) == x;
        assert (a + b)[i] == a[i];
      }
      if Holding(b, x) {
        var i :| 0 <= i < |b| && ValidBlock(b[i]) && BlockAddress(b[i]) == x;
        assert (a + b)[|a| + i] == b[i];
      }
    }
  }

  lemma DrewNothing(bm: seq<Word>, n: nat, supply: nat)
    ensures Drew(bm, n, bm, n, supply, [])
  {}

  lemma OfferFacts(bm: seq<Word>, start: nat, grown: nat)
    requires start < |bm|
    ensures |Offer(bm, start, grown)| == FreeCount(bm, |bm|) + BLOCKS_PER_CHUNK * grown
    ensures NoDuplicates(Offer(bm, start, grown))
    ensures forall a :: a in Offer(bm, start, grown) ==>
      a < 32 * |bm| + BLOCKS_PER_CHUNK * grown && (a < 32 * |bm| ==> !Used(bm, a))
  {
    ScanLength(bm, start);
    ScanDistinct(bm, start, |bm|);
    var s := Scan(bm, start, |bm|);
    forall a | a in s ensures a < 32 * |bm| && !Used(bm, a) {
      ScanMember(bm, start, |bm|, a);
    }
    forall i, j | 0 <= i < j < |Offer(bm, start, grown)|
      ensures Offer(bm, start, grown)[i] != Offer(bm, start, grown)[j]
    {
      if i < |s| { assert s[i] in s; }
    }
  }

  datatype Turnout = Enough | Stuck | Grew

  class Bus {
    var chunks: seq<array<Byte>>
    var chunkCount: nat
    var bitmap: array<Word>
    var lastSearchPos: nat

    ghost predicate Valid()
      reads this
    {
      && chunkCount == |chunks| && 1 <= |chunks| <= MAX_CHUNKS
      && bitmap.Length == WORDS_PER_CHUNK * |chunks|
      && lastSearchPos < bitmap.Length
      && (forall i :: 0 <= i < |chunks| ==> chunks[i].Length == CHUNK_SIZE)
      && (forall i, j :: 0 <= i < j < |chunks| ==> chunks[i] != chunks[j])
    }

    constructor (firstChunk: array<Byte>)
      requires firstChunk.Length == CHUNK_SIZE
      ensures Valid() && fresh(bitmap)
      ensures chunks == [firstChunk] && lastSearchPos == 0
      ensures bitmap[..] == Zeros(WORDS_PER_CHUNK)
    {
      chunks := [firstChunk];
      chunkCount := 1;
      lastSearchPos := 0;
      bitmap := new Word[WORDS_PER_CHUNK](i => ZERO);
    }

    /** The bit loop on one word: takes its lowest free bits, at most `want`. */
    static method TakeBits(before: Word, want: nat) returns (word: Word, bits: seq<nat>)
      ensures bits == First(want, FreeBits(before))
      ensures forall b :: 0 <= b < 32 ==> (word[b] <==> before[b] || b in bits)
    {
      word, bits := before, [];
      var temp: Word := Not(before);
      while NonZero(temp) && |bits| < want
        invariant |bits| <= want
        invariant bits + Ones(temp, |temp|) == FreeBits(before)
        invariant forall b :: 0 <= b < 32 ==> (word[b] <==> before[b] || b in bits)
        decreases want - |bits|
      {
        var bit := TrailingZeros(temp);
        LowestFirst(temp, |temp|, bit);
        word, bits, temp := word[bit := true], bits + [bit], temp[bit := false];
      }
      if |bits| < want { OnesOfNone(temp, |temp|); }
    }

    static method TrailingZeros(w: Word) returns (bit: nat)
      requires NonZero(w)
      ensures bit < 32 && w[bit] && forall k :: 0 <= k < bit ==> !w[k]
    {
      bit := 0;
      while !w[bit]
        invariant bit < 32 && forall k :: 0 <= k < bit ==> !w[k]
        decreases 32 - bit
      {
        bit := bit + 1;
      }
    }

    /** The CAS loop on one word, which nobody else writes meanwhile: takes its
        lowest free blocks, at most `want`. */
    method TakeFromWord(wordIdx: nat, want: nat) returns (got: seq<nat>)
      requires wordIdx < bitmap.Length
      modifies bitmap
      ensures var bm0 := old(bitmap[..]);
        && got == First(want, FreeIn(bm0, wordIdx))
        && Marked(bitmap[..], bm0, got)
    {
      ghost var bm0 := bitmap[..];
      var word, bits := TakeBits(bitmap[wordIdx], want);
      bitmap[wordIdx] := word;
      got := Shift(bits, 32 * wordIdx);
      MarkWord(bm0, bitmap[..], wordIdx, bits);
      ShiftPrefix(FreeBits(bm0[wordIdx]), |bits|, 32 * wordIdx);
    }

    static method WordIndex(start: nat, i: nat, numWords: nat) returns (w: nat)
      requires start < numWords && i < numWords
      ensures w == Visit(start, i, numWords)
    {
      VisitIsModulo(start, i, numWords);
      w := (start + i) % numWords;
    }

    static method NextWord(w: nat, numWords: nat) returns (next: nat)
      requires w < numWords
      ensures next == if w + 1 == numWords then 0 else w + 1
    {
      next := (w + 1) % numWords;
    }

    /** One circle over the bitmap under the read lock: takes the first `want`
        blocks of the scan, or all there are. */
    method ScanRound(want: nat) returns (got: seq<nat>)
      requires lastSearchPos < bitmap.Length
      modifies bitmap, `lastSearchPos
      ensures lastSearchPos < bitmap.Length
      ensures var bm0 := old(bitmap[..]);
        && got == First(want, Scan(bm0, old(lastSearchPos), |bm0|))
        && Marked(bitmap[..], bm0, got)
      ensures want == 0 || |got| < want ==> lastSearchPos == old(lastSearchPos)
      ensures want > 0 && |got| == want ==>
        var w := got[want - 1] / 32;
        lastSearchPos == if w + 1 == bitmap.Length then 0 else w + 1
    {
      hide Scan, Marked, FreeIn;
      ghost var bm0 := bitmap[..];
      var numWords := bitmap.Length;
      var startWord := WordIndex(lastSearchPos, 0, numWords);
      got := [];
      ScanNothing(bm0, startWord);
      var i, wordIdx := 0, startWord;
      while i < numWords && |got| < want
        invariant 0 <= i <= numWords && lastSearchPos == old(lastSearchPos) == startWord
        invariant wordIdx < numWords && Marked(bitmap[..], bm0, got)
        invariant got == First(want, Scan(bm0, startWord, i))
        invariant |got| == want && want > 0 ==> got[want - 1] / 32 == wordIdx
      {
        wordIdx := WordIndex(startWord, i, numWords);
        WordUntouched(bm0, bitmap[..], startWord, i);
        ghost var before := bitmap[..];
        var more := TakeFromWord(wordIdx, want - |got|);
        MarkedTwice(bm0, before, bitmap[..], got, more);
        LastWord(before, wordIdx, more);
        SameFreeIn(bm0, before, wordIdx);
        TakeMore(bm0, startWord, i, want, got, more);
        got := got + more;
        i := i + 1;
      }
      TakeEnough(bm0, startWord, i, want, got);
      if want > 0 && |got| == want {
        lastSearchPos := NextWord(wordIdx, numWords);
      }
    }

    /** Appends a zeroed chunk and 32 zero words, unless 64 chunks exist or the
        operating system refuses to create one. */
    method TryAppendChunk(supply: nat) returns (ok: bool)
      requires Valid()
      modifies this
      ensures Valid() && lastSearchPos == old(lastSearchPos)
      ensures ok <==> |old(chunks)| < MAX_CHUNKS && supply > 0
      ensures !ok ==> chunks == old(chunks) && bitmap == old(bitmap)
      ensures ok ==> |chunks| == |old(chunks)| + 1 && chunks == old(chunks) + [chunks[|old(chunks)|]]
      ensures ok ==> fresh(chunks[|old(chunks)|]) && fresh(bitmap)
      ensures ok ==> forall i :: 0 <= i < CHUNK_SIZE ==> chunks[|old(chunks)|][i] == 0
      ensures ok ==> bitmap[..] == old(bitmap[..]) + Zeros(WORDS_PER_CHUNK)
    {
      var count := chunkCount;
      if count >= MAX_CHUNKS || supply == 0 { return false; }
      var chunk := new Byte[CHUNK_SIZE](i => 0);
      var words := bitmap.Length;
      var updated := new Word[words + WORDS_PER_CHUNK](i => ZERO);
      forall i | 0 <= i < words { updated[i] := bitmap[i]; }
      chunks := chunks + [chunk];
      bitmap := updated;
      chunkCount := chunkCount + 1;
      ok := true;
    }

    method FreeBlock(b: Block)
      requires ValidBlock(b)
      modifies bitmap
      ensures Cleared(bitmap[..], old(bitmap[..]), BlockAddress(b))
    {
      var address := BlockAddress(b);
      var wordIdx, bitIdx := address / 32, address % 32;
      if wordIdx >= bitmap.Length { return; }
      bitmap[wordIdx] := bitmap[wordIdx][bitIdx := false];
    }

    /** Frees the blocks at `taken`, undoing an allocation that did not complete. */
    method RollBack(blocks: seq<Block>, ghost taken: seq<nat>, ghost bm0: seq<Word>)
      requires blocks == Blocks(taken) && NoDuplicates(taken) && Marked(bitmap[..], bm0, taken)
      requires forall a :: a in taken ==> a < 32 * |bm0| && !Used(bm0, a)
      requires |bm0| <= WORDS_PER_CHUNK * MAX_CHUNKS
      modifies bitmap
      ensures Marked(bitmap[..], bm0, [])
    {
      for j := 0 to |blocks|
        invariant Marked(bitmap[..], bm0, taken[j..])
      {
        assert taken[j] in taken;
        AddressRoundTrip(taken[j], blocks[j]);
        ghost var before := bitmap[..];
        FreeBlock(blocks[j]);
        UnmarkFirst(bitmap[..], before, bm0, taken[j..]);
      }
    }

    /** One turn of the allocation loop: a scan for what is missing and, if that is
        not enough, one more chunk. */
    method Attempt(count: nat, taken: seq<nat>, supply: nat,
                   ghost bm0: seq<Word>, ghost grown: nat) returns (turn: Turnout, taken': seq<nat>)
      requires Valid() && Progress(bitmap[..], bm0, lastSearchPos, grown, taken, count > 0)
      requires |taken| < count || taken == []
      requires grown > 0 && count > 0 ==> count > |Offer(bm0, lastSearchPos, grown - 1)|
      modifies this, bitmap
      ensures Valid() && (bitmap == old(bitmap) || fresh(bitmap))
      ensures turn == Enough ==>
        && chunks == old(chunks)
        && Acquired(bitmap[..], bm0, old(lastSearchPos), grown, count, true, taken', lastSearchPos)
      ensures turn == Stuck ==>
        && chunks == old(chunks) && (|chunks| == MAX_CHUNKS || supply == 0)
        && lastSearchPos == old(lastSearchPos)
        && Acquired(bitmap[..], bm0, lastSearchPos, grown, count, false, taken', lastSearchPos)
      ensures turn == Grew ==>
        && supply > 0 && |old(chunks)| < MAX_CHUNKS
        && |chunks| == |old(chunks)| + 1 && chunks == old(chunks) + [chunks[|old(chunks)|]]
        && fresh(chunks[|old(chunks)|]) && fresh(bitmap)
        && lastSearchPos == old(lastSearchPos)
        && Progress(bitmap[..], bm0, lastSearchPos, grown + 1, taken', count > 0)
        && (|taken'| < count || taken' == [])
        && (count > 0 ==> count > |Offer(bm0, lastSearchPos, grown)|)
    {
      hide Acquired, Progress, Offer;
      ghost var before, start := bitmap[..], lastSearchPos;
      var remaining := count - |taken|;
      var got := ScanRound(remaining);
      ghost var full := bitmap[..];
      taken' := taken + got;
      AfterScan(full, before, bm0, start, grown, taken, count, got, lastSearchPos);
      if remaining > 0 && |got| == remaining { return Enough, taken'; }
      var appended := TryAppendChunk(supply);
      if !appended { return Stuck, taken'; }
      GrowthProgress(full, bm0, start, grown, taken', count);
      turn := Grew;
    }

    /** Scans and grows until `count` blocks are taken or no chunk can be added. */
    method Acquire(count: nat, supply: nat) returns (done: bool, taken: seq<nat>)
      requires Valid()
      modifies this, bitmap
      ensures Valid() && old(chunks) <= chunks && fresh(chunks[|old(chunks)|..])
      ensures bitmap == old(bitmap) || fresh(bitmap)
      ensures Acquired(bitmap[..], old(bitmap[..]), old(lastSearchPos), |chunks| - |old(chunks)|,
                       count, done, taken, lastSearchPos)
      ensures |chunks| - |old(chunks)| <= Growable(supply, |old(chunks)|)
      ensures !done ==> |chunks| - |old(chunks)| == Growable(supply, |old(chunks)|)
    {
      hide Acquired, Progress, Offer;
      ghost var bm0, start, c0 := bitmap[..], lastSearchPos, |chunks|;
      var grown, turn := 0, Grew;
      taken := [];
      Nothing(bm0, start);
      while turn == Grew
        invariant Valid() && (bitmap == old(bitmap) || fresh(bitmap))
        invariant |chunks| == c0 + grown && chunks[..c0] == old(chunks)
        invariant forall i :: c0 <= i < |chunks| ==> fresh(chunks[i])
        invariant grown <= supply
        invariant turn == Grew ==>
          && lastSearchPos == start && Progress(bitmap[..], bm0, start, grown, taken, count > 0)
          && (|taken| < count || taken == [])
          && (grown > 0 && count > 0 ==> count > |Offer(bm0, start, grown - 1)|)
        invariant turn != Grew ==>
          Acquired(bitmap[..], bm0, start, grown, count, turn == Enough, taken, lastSearchPos)
        invariant turn == Stuck ==> |chunks| == MAX_CHUNKS || grown == supply
        decreases turn == Grew, MAX_CHUNKS - |chunks|
      {
        turn, taken := Attempt(count, taken, supply - grown, bm0, grown);
        if turn == Grew { grown := grown + 1; }
      }
      done := turn == Enough;
    }

    /** Allocates `count` blocks. It succeeds exactly when that many are free or can
        be added by new chunks, and takes the first `count` blocks of the offer with
        the fewest new chunks; otherwise no block that existed before changes. A
        request for no blocks fails after growing as far as possible. */
    method AllocBlocks(count: nat, supply: nat) returns (ok: bool, blocks: seq<Block>)
      requires Valid()
      modifies this, bitmap
      ensures Valid() && old(chunks) <= chunks && fresh(chunks[|old(chunks)|..])
      ensures bitmap == old(bitmap) || fresh(bitmap)
      ensures ok <==> 1 <= count <= Room(old(bitmap[..]), |old(chunks)|, supply)
      ensures Drew(bitmap[..], |chunks|, old(bitmap[..]), |old(chunks)|, supply, blocks)
      ensures var bm0, grown := old(bitmap[..]), |chunks| - |old(chunks)|;
        && (ok ==>
              var taken := First(count, Offer(bm0, old(lastSearchPos), grown));
              && blocks == Blocks(taken)
              && Acquired(bitmap[..], bm0, old(lastSearchPos), grown, count, true, taken, lastSearchPos))
        && (!ok ==>
              && blocks == [] && lastSearchPos == old(lastSearchPos)
              && grown == Growable(supply, |old(chunks)|)
              && Marked(bitmap[..], bm0 + Zeros(WORDS_PER_CHUNK * grown), []))
    {
      hide Acquired, Offer, Room, NoDuplicates, Marked, Used, Blocks, First, Growable, Took;
      ghost var bm0, start, c0 := bitmap[..], lastSearchPos, |chunks|;
      var taken;
      ok, taken := Acquire(count, supply);
      ghost var grown := |chunks| - c0;
      AcquiredFacts(bitmap[..], bm0, start, grown, count, ok, taken, lastSearchPos, c0, supply);
      blocks := Blocks(taken);
      if !ok {
        RollBack(blocks, taken, bm0 + Zeros(WORDS_PER_CHUNK * grown));
        blocks := [];
        RoomKept(bitmap[..], bm0, c0, grown, [], supply);
        TookMarked(bitmap[..], bm0, grown, []);
      } else {
        TookMarked(bitmap[..], bm0, grown, taken);
      }
    }
  }

  /** The bitmap and the blocks held when an allocation stops: done, with the first
      `count` blocks on offer and no more new chunks than they need, or stuck with
      all that was on offer. */
  ghost predicate Acquired(bm: seq<Word>, bm0: seq<Word>, start: nat, grown: nat,
                           count: nat, done: bool, taken: seq<nat>, pos: nat)
  {
    && start < |bm0| && |bm| == |bm0| + WORDS_PER_CHUNK * grown
    && Marked(bm, bm0 + Zeros(WORDS_PER_CHUNK * grown), taken)
    && if done then
         && 0 < count == |taken| && taken == First(count, Offer(bm0, start, grown))
         && (grown > 0 ==> count > |Offer(bm0, start, grown - 1)|)
         && var w := taken[count - 1] / 32; pos == if w + 1 == |bm| then 0 else w + 1
       else
         && pos == start
         && if count == 0 then taken == [] else taken == Offer(bm0, start, grown) && count > |taken|
  }

  /** Where an allocation stands at the start of a scan: it holds `taken`, and what
      it holds followed by what the scan will find is what was on offer. */
  ghost predicate Progress(bm: seq<Word>, bm0: seq<Word>, start: nat, grown: nat, taken: seq<nat>, some: bool)
  {
    && start < |bm0| && |bm| == |bm0| + WORDS_PER_CHUNK * grown
    && Marked(bm, bm0 + Zeros(WORDS_PER_CHUNK * grown), taken)
    && if some then taken + Scan(bm, start, |bm|) == Offer(bm0, start, grown) else taken == []
  }

  lemma Nothing(bm0: seq<Word>, start: nat)
    requires start < |bm0|
    ensures Progress(bm0, bm0, start, 0, [], true) && Progress(bm0, bm0, start, 0, [], false)
  {
    assert bm0 + Zeros(0) == bm0;
  }

  /** A scan either completes the allocation or exhausts what is on offer. */
  lemma AfterScan(bm: seq<Word>, before: seq<Word>, bm0: seq<Word>, start: nat, grown: nat, taken: seq<nat>, count: nat,
                  got: seq<nat>, pos: nat)
    requires Progress(before, bm0, start, grown, taken, count > 0)
    requires |taken| < count || taken == []
    requires grown > 0 && count > 0 ==> count > |Offer(bm0, start, grown - 1)|
    requires Marked(bm, before, got) && got == First(count - |taken|, Scan(before, start, |before|))
    requires if count > 0 && |got| == count - |taken|
             then var w := got[|got| - 1] / 32; pos == if w + 1 == |bm| then 0 else w + 1
             else pos == start
    ensures Acquired(bm, bm0, start, grown, count, count > 0 && |got| == count - |taken|, taken + got, pos)
    ensures count > 0 && |got| < count - |taken| ==>
      Full(bm) && |taken + got| < count && count > |Offer(bm0, start, grown)|
    ensures count == 0 ==> taken + got == []
  {
    MarkedTwice(bm0 + Zeros(WORDS_PER_CHUNK * grown), before, bm, taken, got);
    if count > 0 && |got| < count - |taken| {
      forall a | 0 <= a < 32 * |bm| ensures Used(bm, a) { ScanMember(before, start, |before|, a); }
    }
  }

  lemma OfferIsFree(bm0: seq<Word>, start: nat, grown: nat)
    requires start < |bm0|
    ensures var bm := bm0 + Zeros(WORDS_PER_CHUNK * grown);
      forall a :: a in Offer(bm0, start, grown) ==> a < 32 * |bm| && !Used(bm, a)
  {
    OfferFacts(bm0, start, grown);
  }

  lemma GrowthProgress(full: seq<Word>, bm0: seq<Word>, start: nat, grown: nat, taken: seq<nat>, count: nat)
    requires Acquired(full, bm0, start, grown, count, false, taken, start)
    requires count > 0 ==> Full(full)
    ensures Progress(full + Zeros(WORDS_PER_CHUNK), bm0, start, grown + 1, taken, count > 0)
  {
    var ext := bm0 + Zeros(WORDS_PER_CHUNK * grown);
    assert ext + Zeros(WORDS_PER_CHUNK) == bm0 + Zeros(WORDS_PER_CHUNK * (grown + 1));
    OfferIsFree(bm0, start, grown);
    MarkedExtended(full, ext, taken);
    if count > 0 { ScanFreshChunk(full, start, |full| + WORDS_PER_CHUNK); }
  }

  lemma MarkedExtended(bm: seq<Word>, before: seq<Word>, taken: seq<nat>)
    requires Marked(bm, before, taken) && forall a :: a in taken ==> a < 32 * |bm|
    ensures Marked(bm + Zeros(WORDS_PER_CHUNK), before + Zeros(WORDS_PER_CHUNK), taken)
  {
    var bm', before' := bm + Zeros(WORDS_PER_CHUNK), before + Zeros(WORDS_PER_CHUNK);
    forall a | 0 <= a < 32 * |bm'| ensures Used(bm', a) <==> Used(before', a) || a in taken {
      if a < 32 * |bm| {
        assert Used(bm', a) == Used(bm, a) && Used(before', a) == Used(before, a);
      }
    }
  }

  lemma ScanNothing(bm: seq<Word>, start: nat)
    requires start < |bm|
    ensures Scan(bm, start, 0) == [] && Marked(bm, bm, [])
  {}

  lemma TakeMore(bm: seq<Word>, start: nat, i: nat, want: nat, got: seq<nat>, more: seq<nat>)
    requires start < |bm| && i < |bm| && |got| < want && got == First(want, Scan(bm, start, i))
    requires more == First(want - |got|, FreeIn(bm, Visit(start, i, |bm|)))
    ensures got + more == First(want, Scan(bm, start, i + 1))
  {}

  lemma TakeEnough(bm: seq<Word>, start: nat, i: nat, want: nat, got: seq<nat>)
    requires start < |bm| && i <= |bm| && got == First(want, Scan(bm, start, i))
    requires i == |bm| || |got| >= want
    ensures got == First(want, Scan(bm, start, |bm|))
  {
    ScanPrefix(bm, start, i, |bm|);
  }

  lemma LastWord(bm: seq<Word>, w: nat, more: seq<nat>)
    requires w < |bm| && more <= FreeIn(bm, w)
    ensures more != [] ==> more[|more| - 1] / 32 == w
  {
    if more != [] {
      assert more[|more| - 1] in FreeIn(bm, w);
      FreeInMember(bm, w, more[|more| - 1]);
    }
  }

  lemma FreeBitsBound(w: Word)
    ensures forall b :: b in FreeBits(w) ==> b < 32
  {
    forall b | b in FreeBits(w) ensures b < 32 { OnesMember(Not(w), |w|, b); }
  }

  lemma SameFreeIn(bm0: seq<Word>, bm: seq<Word>, w: nat)
    requires w < |bm0| && w < |bm| && bm0[w] == bm[w]
    ensures FreeIn(bm0, w) == FreeIn(bm, w)
  {}

  lemma SameSize(bm: seq<Word>, bm0: seq<Word>, taken: seq<nat>)
    requires Marked(bm, bm0, taken)
    ensures |bm| == |bm0|
  {}

  lemma BitUntouched(bm0: seq<Word>, bm: seq<Word>, start: nat, i: nat, a: nat)
    requires start < |bm0| && i < |bm0| && Marked(bm, bm0, Scan(bm0, start, i))
    requires a < 32 * |bm0| && a / 32 == Visit(start, i, |bm0|)
    ensures Used(bm, a) == Used(bm0, a)
  {
    ScanMember(bm0, start, i, a);
  }

  lemma WordUntouched(bm0: seq<Word>, bm: seq<Word>, start: nat, i: nat)
    requires start < |bm0| && i < |bm0| && Marked(bm, bm0, Scan(bm0, start, i))
    ensures bm[Visit(start, i, |bm0|)] == bm0[Visit(start, i, |bm0|)]
  {
    hide Marked, Scan;
    assert |bm| == |bm0| by { SameSize(bm, bm0, Scan(bm0, start, i)); }
    var w := Visit(start, i, |bm0|);
    assert forall b {:trigger bm[w][b]} :: 0 <= b < 32 ==> bm[w][b] == bm0[w][b] by {
      forall b | 0 <= b < 32 ensures bm[w][b] == bm0[w][b] {
        BitAddress(w, b);
        BitUntouched(bm0, bm, start, i, 32 * w + b);
      }
    }
  }

  lemma BitAddress(w: nat, b: nat)
    requires b < 32
    ensures (32 * w + b) / 32 == w && (32 * w + b) % 32 == b
  {}

  lemma MarkWord(before: seq<Word>, bm: seq<Word>, w: nat, bits: seq<nat>)
    requires w < |before| && |bm| == |before| && bm == before[w := bm[w]]
    requires bits <= FreeBits(before[w])
    requires forall b :: 0 <= b < 32 ==> (bm[w][b] <==> before[w][b] || b in bits)
    ensures Marked(bm, before, Shift(bits, 32 * w))
  {
    FreeBitsBound(before[w]);
    forall a | 0 <= a < 32 * |bm|
      ensures Used(bm, a) <==> Used(before, a) || a in Shift(bits, 32 * w)
    {
      ShiftMember(bits, 32 * w, a);
      if a / 32 == w { assert a - 32 * w == a % 32; }
      if a >= 32 * w && a - 32 * w in bits { assert a - 32 * w in FreeBits(before[w]); }
    }
  }

  lemma MarkedTwice(a: seq<Word>, b: seq<Word>, c: seq<Word>, s: seq<nat>, t: seq<nat>)
    requires Marked(b, a, s) && Marked(c, b, t)
    ensures Marked(c, a, s + t)
  {}

  lemma ShiftPrefix(s: seq<nat>, n: nat, base: nat)
    requires n <= |s|
    ensures Shift(s[..n], base) == Shift(s, base)[..n]
  {}

  /** `bm` is `before` with the block at `address` freed. */
  predicate Cleared(bm: seq<Word>, before: seq<Word>, address: int)
  {
    && |bm| == |before|
    && forall a :: 0 <= a < 32 * |bm| ==> (Used(bm, a) <==> Used(before, a) && a != address)
  }

  lemma UnmarkFirst(bm: seq<Word>, before: seq<Word>, bm0: seq<Word>, taken: seq<nat>)
    requires taken != [] && NoDuplicates(taken) && Marked(before, bm0, taken)
    requires taken[0] < 32 * |bm0| && !Used(bm0, taken[0]) && Cleared(bm, before, taken[0])
    ensures Marked(bm, bm0, taken[1..])
  {}

  /** A completed allocation yields distinct blocks that were free and are used now,
      and loses no block that was used before. */
  lemma AllocatedBlocks(bm: seq<Word>, bm0: seq<Word>, start: nat, grown: nat, count: nat, taken: seq<nat>, pos: nat)
    requires Acquired(bm, bm0, start, grown, count, true, taken, pos) && |bm| <= WORDS_PER_CHUNK * MAX_CHUNKS
    ensures var bs := Blocks(taken);
      && |bs| == count
      && (forall i :: 0 <= i < count ==>
            && ValidBlock(bs[i]) && 0 <= BlockAddress(bs[i]) < 32 * |bm| && Used(bm, BlockAddress(bs[i]))
            && (BlockAddress(bs[i]) < 32 * |bm0| ==> !Used(bm0, BlockAddress(bs[i]))))
      && (forall i, j :: 0 <= i < j < count ==> bs[i] != bs[j])
    ensures forall a :: 0 <= a < 32 * |bm0| && Used(bm0, a) ==> Used(bm, a)
  {
    OfferFacts(bm0, start, grown);
    var bs, ext := Blocks(taken), bm0 + Zeros(WORDS_PER_CHUNK * grown);
    forall i | 0 <= i < count
      ensures ValidBlock(bs[i]) && BlockAddress(bs[i]) == taken[i] < 32 * |bm| && Used(bm, taken[i])
      ensures taken[i] < 32 * |bm0| ==> !Used(bm0, taken[i])
    {
      assert taken[i] in taken && taken[i] in Offer(bm0, start, grown);
      AddressRoundTrip(taken[i], bs[i]);
    }
    forall a | 0 <= a < 32 * |bm0| && Used(bm0, a) ensures Used(bm, a) {
      assert Used(ext, a) == Used(bm0, a);
    }
    assert forall i, j :: 0 <= i < j < count ==> taken[i] != taken[j];
  }

  /** What an allocation that stopped holds was free, and whether it is done is decided
      by the room there was. */
  lemma AcquiredFacts(bm: seq<Word>, bm0: seq<Word>, start: nat, grown: nat, count: nat, done: bool, taken: seq<nat>,
                      pos: nat, n: nat, supply: nat)
    requires Acquired(bm, bm0, start, grown, count, done, taken, pos) && grown <= Growable(supply, n)
    requires !done ==> grown == Growable(supply, n)
    ensures var ext := bm0 + Zeros(WORDS_PER_CHUNK * grown);
      && Marked(bm, ext, taken) && NoDuplicates(taken) && NoDuplicates([]) && Growable(supply, n) <= supply && |bm0| > 0
      && (forall a :: a in taken ==> a < 32 * |ext| && !Used(ext, a))
    ensures done <==> 1 <= count <= Room(bm0, n, supply)
    ensures done ==> |taken| == count && taken == First(count, Offer(bm0, start, grown))
    ensures done ==> Room(bm, n + grown, supply - grown) == Room(bm0, n, supply) - count
    ensures !done ==> pos == start
  {
    OfferFacts(bm0, start, grown);
    OfferIsFree(bm0, start, grown);
    forall a | a in taken ensures a in Offer(bm0, start, grown) {}
    hide Marked, Used, Scan;
    RoomKept(bm, bm0, n, grown, taken, supply);
  }

  lemma TookMarked(bm: seq<Word>, bm0: seq<Word>, grown: nat, taken: seq<nat>)
    requires Marked(bm, bm0 + Zeros(WORDS_PER_CHUNK * grown), taken) && |bm| <= WORDS_PER_CHUNK * MAX_CHUNKS
    requires var ext := bm0 + Zeros(WORDS_PER_CHUNK * grown); forall a :: a in taken ==> a < 32 * |ext| && !Used(ext, a)
    ensures Took(bm, bm0, Blocks(taken)) && Blocks([]) == [] && |Blocks(taken)| == |taken|
  {
    var ext, bs := bm0 + Zeros(WORDS_PER_CHUNK * grown), Blocks(taken);
    forall i | 0 <= i < |taken| ensures ValidBlock(bs[i]) && BlockAddress(bs[i]) == taken[i] {
      assert taken[i] in taken;
      AddressRoundTrip(taken[i], bs[i]);
    }
    forall a | 0 <= a < 32 * |bm| ensures (UsedIn(bm0, a) <==> Used(ext, a)) && (Holding(bs, a) <==> a in taken) {
      if a in taken {
        var i :| 0 <= i < |taken| && taken[i] == a;
        assert BlockAddress(bs[i]) == a;
      }
      if Holding(bs, a) {
        var i :| 0 <= i < |bs| && ValidBlock(bs[i]) && BlockAddress(bs[i]) == a;
        assert taken[i] in taken;
      }
    }
    forall i | 0 <= i < |bs| ensures UsedIn(bm, BlockAddress(bs[i])) && !UsedIn(bm0, BlockAddress(bs[i])) {
      assert taken[i] in taken;
    }
  }

  /** New chunks add their 1024 blocks to the free ones. */
  lemma FreeCountGrows(bm0: seq<Word>, grown: nat)
    requires |bm0| > 0
    ensures var ext := bm0 + Zeros(WORDS_PER_CHUNK * grown);
      FreeCount(ext, |ext|) == FreeCount(bm0, |bm0|) + BLOCKS_PER_CHUNK * grown
  {
    var ext, offer := bm0 + Zeros(WORDS_PER_CHUNK * grown), Offer(bm0, 0, grown);
    OfferFacts(bm0, 0, grown);
    OfferIsFree(bm0, 0, grown);
    DistinctSize(offer);
    FreeCountIsSize(ext);
    forall a: nat ensures a in Elements(offer) <==> a in FreeSet(ext) {
      if a < 32 * |bm0| {
        ScanMember(bm0, 0, |bm0|, a);
        assert Used(ext, a) == Used(bm0, a);
        if a in Scan(bm0, 0, |bm0|) { assert a in offer; }
      } else if a < 32 * |ext| {
        assert a in Range(32 * |bm0|, 32 * |bm0| + BLOCKS_PER_CHUNK * grown) by {
          RangeMember(32 * |bm0|, 32 * |ext|, a);
        }
      }
    }
    assert Elements(offer) == FreeSet(ext);
  }

  lemma RangeMember(low: nat, high: nat, a: nat)
    requires low <= a < high
    ensures a in Range(low, high)
  {
    assert Range(low, high)[a - low] == a;
  }

  /** Conservation: what an allocation leaves is what there was less what it took,
      counting chunks that were or can still be added. */
  lemma RoomKept(bm: seq<Word>, bm0: seq<Word>, n: nat, grown: nat, taken: seq<nat>, supply: nat)
    requires |bm0| > 0 && grown <= Growable(supply, n)
    requires Marked(bm, bm0 + Zeros(WORDS_PER_CHUNK * grown), taken) && NoDuplicates(taken)
    requires var ext := bm0 + Zeros(WORDS_PER_CHUNK * grown); forall a :: a in taken ==> a < 32 * |ext| && !Used(ext, a)
    ensures Room(bm, n + grown, supply - grown) == Room(bm0, n, supply) - |taken|
  {
    hide FreeCount, Marked, NoDuplicates, Used;
    FreeCountGrows(bm0, grown);
    MarkedCount(bm, bm0 + Zeros(WORDS_PER_CHUNK * grown), taken);
  }
}
