/** The control region (go/shm/layout.go, go/shm/control.go, go/hub/hub.go,
    go/node/node.go, rust/src/node/mod.rs): the hub reaches it block by block through a
    stripe, the nodes as the first megabyte of chunk 0. */
module ControlRegion {
  import opened Layout
  import opened Bitmap
  import opened Codec
  import opened Memory
  import opened StripeModel
  import opened BusModel
  import opened HubModel
  import Header

  const CONTROL_BLOCKS := 256
  const QUEUES_AT := 4096
  const QUEUE_BYTES := 4096
  const REGISTRY_AT := 524288
  const ENTRY_BYTES := 16

  // ---------- The words of the region ----------

  /** Heads, tails and entries of the 64 queues; status, header and owner of the slots. */
  datatype Cell = Head(q: nat) | Tail(q: nat) | Entry(q: nat, e: nat) | Status(k: nat) | HeaderWord(k: nat)
      | Owner(k: nat)

  predicate IsCell(c: Cell)
  {
    match c
    case Head(q) => q < MAX_NODES
    case Tail(q) => q < MAX_NODES
    case Entry(q, e) => q < MAX_NODES && e < QUEUE_SIZE
    case Status(k) => 1 <= k <= MAX_TOTAL_SLOTS
    case HeaderWord(k) => 1 <= k <= MAX_TOTAL_SLOTS
    case Owner(k) => 1 <= k <= MAX_TOTAL_SLOTS
  }

  function QueueOffset(q: nat): (o: nat) { QUEUES_AT + q * QUEUE_BYTES }

  /** The slot number less one is a 32-bit value. */
  function EntryOffset(k: U32): (o: nat) { REGISTRY_AT + (k - 1) % WRAP * ENTRY_BYTES }

  function At(c: Cell): (o: nat)
    requires IsCell(c)
  {
    match c
    case Head(q) => QueueOffset(q)
    case Tail(q) => QueueOffset(q) + 4
    case Entry(q, e) => QueueOffset(q) + 16 + e * 8
    case Status(k) => EntryOffset(k)
    case HeaderWord(k) => EntryOffset(k) + 4
    case Owner(k) => EntryOffset(k) + 8
  }

  function Size(c: Cell): (n: nat) { if c.Entry? then 8 else 4 }

  /** Every word lies behind the header block, is aligned, and crosses no block boundary. */
  lemma CellInsideBlock(c: Cell)
    requires IsCell(c)
    ensures BLOCK_SIZE <= At(c) && At(c) + Size(c) <= BLOCK_SIZE * CONTROL_BLOCKS
    ensures At(c) % Size(c) == 0 && At(c) / BLOCK_SIZE == (At(c) + Size(c) - 1) / BLOCK_SIZE
  {
    match c
    case Head(q) => InQueue(q, 0, 4);
    case Tail(q) => InQueue(q, 4, 4);
    case Entry(q, e) => InQueue(q, 16 + e * 8, 8);
    case Status(k) => InRegistry(k, 0);
    case HeaderWord(k) => InRegistry(k, 4);
    case Owner(k) => InRegistry(k, 8);
  }

  lemma InQueue(q: nat, inner: nat, size: nat)
    requires q < MAX_NODES && (size == 4 || size == 8) && inner % size == 0 && inner + size <= QUEUE_BYTES
    ensures var o := QueueOffset(q) + inner;
      && BLOCK_SIZE <= o && o + size <= REGISTRY_AT && o % size == 0
      && o / BLOCK_SIZE == (o + size - 1) / BLOCK_SIZE
  {
    Locate(q + 1, inner);
    Locate(q + 1, inner + size - 1);
  }

  lemma InRegistry(k: nat, inner: nat)
    requires 1 <= k <= MAX_TOTAL_SLOTS && (inner == 0 || inner == 4 || inner == 8)
    ensures var o := EntryOffset(k) + inner;
      && REGISTRY_AT <= o && o + 4 <= BLOCK_SIZE * CONTROL_BLOCKS && o % 4 == 0
      && o / BLOCK_SIZE == (o + 3) / BLOCK_SIZE
  {
    assert (k - 1) % WRAP == k - 1;
    var b, r := (k - 1) / 256, (k - 1) % 256;
    assert EntryOffset(k) == BLOCK_SIZE * (128 + b) + 16 * r;
    Locate(128 + b, 16 * r + inner);
    Locate(128 + b, 16 * r + inner + 3);
  }

  /** Different words do not overlap. */
  lemma CellsApart(a: Cell, b: Cell)
    requires IsCell(a) && IsCell(b) && a != b
    ensures At(a) + Size(a) <= At(b) || At(b) + Size(b) <= At(a)
  {
    CellRange(a);
    CellRange(b);
    if Queued(a) && Queued(b) { QueueWordsApart(a, b); }
    if !Queued(a) && !Queued(b) {
      assert (a.k - 1) % WRAP == a.k - 1 && (b.k - 1) % WRAP == b.k - 1;
    }
  }

  predicate Queued(c: Cell) { c.Head? || c.Tail? || c.Entry? }

  lemma CellRange(c: Cell)
    requires IsCell(c)
    ensures Queued(c) ==> At(c) + Size(c) <= REGISTRY_AT
    ensures !Queued(c) ==> REGISTRY_AT <= At(c)
  {}

  lemma QueueWordsApart(a: Cell, b: Cell)
    requires IsCell(a) && IsCell(b) && a != b && Queued(a) && Queued(b)
    ensures At(a) + Size(a) <= At(b) || At(b) + Size(b) <= At(a)
  {}

  /** Init reaches the status of slots 1 to 4095; slot 4096 keeps the zero, which is Idle,
      of fresh memory, and the write for slot 0 falls outside the region. */
  lemma InitReaches(k: nat)
    requires 1 <= k <= MAX_TOTAL_SLOTS
    ensures (exists i: U32 :: i < MAX_TOTAL_SLOTS && EntryOffset(i) == EntryOffset(k)) <==> k < MAX_TOTAL_SLOTS
    ensures EntryOffset(0) >= BLOCK_SIZE * CONTROL_BLOCKS
  {
    assert k < MAX_TOTAL_SLOTS ==> EntryOffset(k) == EntryOffset(k);
    forall i: U32 | i < MAX_TOTAL_SLOTS && EntryOffset(i) == EntryOffset(k) ensures i == k {
      assert i > 0 ==> (i - 1) % WRAP == i - 1;
      assert (k - 1) % WRAP == k - 1;
    }
  }

  // ---------- Two ways to one byte ----------

  /** The byte at an offset of a stripe, reached through its block. */
  function Pointer(blocks: seq<Slice>, offset: nat): (p: Option<(array<Byte>, nat)>)
  {
    var b := offset / BLOCK_SIZE;
    if b >= |blocks| then None else Some((blocks[b].data, blocks[b].off + offset % BLOCK_SIZE))
  }

  /** The windows a node cuts out of chunk 0. */
  function NodeWindows(chunk: array<Byte>): (ws: seq<Slice>)
  {
    seq(CONTROL_BLOCKS, j requires 0 <= j => Slice(chunk, BLOCK_SIZE * j))
  }

  /** Through consecutive windows every offset names the same byte as the flat address. */
  lemma PointerIsFlat(chunk: array<Byte>, offset: nat)
    ensures Pointer(NodeWindows(chunk), offset) ==
      if offset < BLOCK_SIZE * CONTROL_BLOCKS then Some((chunk, offset)) else None
  {}

  lemma {:induction false} ScanAllFree(n: nat)
    requires n <= WORDS_PER_CHUNK
    ensures Scan(Zeros(WORDS_PER_CHUNK), 0, n) == Range(0, 32 * n)
  {
    if n > 0 {
      ScanAllFree(n - 1);
      ZeroWordOffersAll(Zeros(WORDS_PER_CHUNK), n - 1);
    }
  }

  lemma FreshOffer()
    ensures Offer(Zeros(WORDS_PER_CHUNK), 0, 0) == Range(0, BLOCKS_PER_CHUNK)
    ensures FreeCount(Zeros(WORDS_PER_CHUNK), WORDS_PER_CHUNK) == BLOCKS_PER_CHUNK
  {
    ScanAllFree(WORDS_PER_CHUNK);
    ScanLength(Zeros(WORDS_PER_CHUNK), 0);
  }

  lemma FreshWindows(chunks: seq<array<Byte>>, bs: seq<Block>)
    requires |chunks| >= 1 && bs == Blocks(Range(0, CONTROL_BLOCKS))
    ensures InChunks(bs, |chunks|) && Slices(chunks, bs) == NodeWindows(chunks[0])
  {
    hide Slices;
    forall i | 0 <= i < CONTROL_BLOCKS ensures bs[i] == Block(-1, i) {}
    var a, b := Slices(chunks, bs), NodeWindows(chunks[0]);
    forall i | 0 <= i < CONTROL_BLOCKS ensures a[i] == b[i] { assert a[i] == SliceOf(chunks, bs[i]); }
  }

  /** The hub's control stripe on a fresh bus: blocks 0 to 255 of chunk 0 in order, which
      are the windows every node cuts out for itself. */
  method OpenControl(bus: Bus) returns (s: Stripe)
    requires bus.Valid() && |bus.chunks| == 1 && bus.bitmap[..] == Zeros(WORDS_PER_CHUNK) && bus.lastSearchPos == 0
    modifies bus, bus.bitmap, bus.chunks
    ensures bus.chunks == old(bus.chunks) && Represents(bus, s) && s.blocks == NodeWindows(bus.chunks[0])
  {
    hide Flat, Scan, Marked, Header.Holds, Listed, EncodeFrom, Slices, Blocks, ValidSlices, Range, Offer, First,
         NoDuplicates, FreeCount;
    FreshOffer();
    var ok, t := AllocStripe(bus, CONTROL_BLOCKS, 0);
    s := t;
    assert First(CONTROL_BLOCKS, Range(0, BLOCKS_PER_CHUNK)) == Range(0, CONTROL_BLOCKS) by { RangePrefix(); }
    FreshWindows(bus.chunks, Decode(s.sequence));
    WindowsListed(bus, s);
  }

  lemma RangePrefix()
    ensures First(CONTROL_BLOCKS, Range(0, BLOCKS_PER_CHUNK)) == Range(0, CONTROL_BLOCKS)
  {}

  lemma WindowsListed(bus: Bus, s: Stripe)
    requires Represents(bus, s)
    ensures InChunks(Decode(s.sequence), |bus.chunks|) && s.blocks == Slices(bus.chunks, Decode(s.sequence))
  {}
}
