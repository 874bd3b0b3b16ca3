/** The allocator under interleaving (go/shm/bus.go): any number of threads
    allocate, free and append chunks, one atomic access or lock operation a step.

    A bitmap slice is a value in `slices`; `current` is the pointer that
    `bitmap.Load` returns, and a thread works on the slice it loaded. Growth copies
    the current slice word by word and then publishes the copy. `holder` is history:
    it records who holds each block and no step reads it. */
module BusSteps {
  import opened Layout
  import opened Bitmap
  import BusModel

  datatype Position =
    | Idle
    // AllocBlocks: the scan under the read lock
    | WantScan | Locked | Scanning | HaveWord | Finish
    // tryAppendChunk
    | ReadCount | WantMux | Recheck | WantWrite | Copying | CountUp | Release
    // FreeBlock, for each block of a stripe or of a failed allocation
    | FreeNext | FreeLocked | FreeLoad | FreeCas

  /** A thread's program counter and locals: the blocks it was asked for and holds,
      the slice it loaded, its place in the scan, the word it loaded, the copy it
      makes, the chunk count it read. */
  datatype Thread = Thread(at: Position, count: nat, held: seq<nat>,
                           ref: nat, start: nat, i: nat, word: Word,
                           copy: seq<Word>, seen: nat)

  datatype Owner = Worker(t: nat) | Stripe(id: nat)

  datatype State = State(
    slices: seq<seq<Word>>,
    current: nat,
    searchPos: nat,
    chunks: nat,
    chunkCount: nat,
    writer: Option<nat>,
    mux: Option<nat>,
    threads: map<nat, Thread>,
    live: map<nat, seq<nat>>,      // the blocks of each live stripe
    holder: map<nat, Owner>)

  /** `created` tells whether the operating system creates a requested chunk; `id`
      names the stripe made of a finished allocation. */
  datatype Step =
    | BeginAlloc(t: nat, count: nat)
    | BeginFree(t: nat, id: nat)
    | Work(t: nat, created: bool, id: nat)

  // ---------- The steps ----------

  ghost predicate Init(s: State)
  {
    && s.slices == [Zeros(WORDS_PER_CHUNK)] && s.current == 0 && s.searchPos == 0
    && s.chunks == 1 && s.chunkCount == 1
    && s.writer == None && s.mux == None
    && (forall t :: t in s.threads ==> s.threads[t].at == Idle && s.threads[t].held == [])
    && s.live == map[] && s.holder == map[]
  }

  predicate Shaped(s: State)
  {
    s.current < |s.slices| && |s.slices[s.current]| > 0
  }

  // The locks a position holds: the read lock, the write lock, the append mutex.
  predicate Reads(p: Position)
  {
    p == Locked || p == Scanning || p == HaveWord || p == Finish || p == FreeLocked || p == FreeLoad || p == FreeCas
  }
  predicate Writes(p: Position) { p == Copying || p == CountUp || p == Release }
  predicate Appends(p: Position) { p == Recheck || p == WantWrite || Writes(p) }

  predicate Frees(p: Position)
  {
    p == Idle || p == FreeNext || p == FreeLocked || p == FreeLoad || p == FreeCas
  }

  function Exchange(lock: Option<nat>, t: nat, holds: bool): (r: Option<nat>)
  {
    if holds then Some(t) else if lock == Some(t) then None else lock
  }

  /** The read lock is held by the threads whose position says so. */
  predicate NoReader(s: State)
  {
    forall t :: t in s.threads ==> !Reads(s.threads[t].at)
  }

  /** Thread `t` moves on as `th`, taking and releasing locks as its position says. */
  function Move(s: State, t: nat, th: Thread): (r: State)
  {
    s.(threads := s.threads[t := th],
       writer := Exchange(s.writer, t, Writes(th.at)),
       mux := Exchange(s.mux, t, Appends(th.at)))
  }

  function GiveTo(holder: map<nat, Owner>, blocks: seq<nat>, o: Owner): (r: map<nat, Owner>)
    ensures forall a :: a in r <==> a in holder || a in blocks
    ensures forall a :: a in r ==> r[a] == if a in blocks then o else holder[a]
  {
    map a | a in holder.Keys + (set b | b in blocks) :: if a in blocks then o else holder[a]
  }

  predicate Enabled(s: State, step: Step)
  {
    && Shaped(s) && step.t in s.threads
    && var th := s.threads[step.t];
       match step
       case BeginAlloc(_, _) => th.at == Idle
       case BeginFree(_, id) => th.at == Idle && id in s.live
       case Work(_, _, id) =>
         match th.at
         case Idle => false
         case WantScan => s.writer == None
         case Scanning => th.ref < |s.slices| && th.start < |s.slices[th.ref]| && th.i <= |s.slices[th.ref]|
         case HaveWord => th.ref < |s.slices| && th.start < |s.slices[th.ref]| && th.i < |s.slices[th.ref]|
         case Finish => id !in s.live
         case WantMux => s.mux == None
         case WantWrite => s.writer == None && NoReader(s)
         case Copying => th.ref < |s.slices| && |th.copy| <= |s.slices[th.ref]|
         case FreeNext => s.writer == None
         case FreeLoad => th.ref < |s.slices| && th.held != []
         case FreeCas => th.ref < |s.slices| && th.held != []
         case _ => true
  }

  function Apply(s: State, step: Step): (r: State)
    requires Enabled(s, step)
  {
    var th := s.threads[step.t];
    match step
    case BeginAlloc(t, count) => Move(s, t, th.(at := WantScan, count := count))
    case BeginFree(t, id) =>
      Move(s, t, th.(at := FreeNext, held := s.live[id])).(
      live := s.live - {id}, holder := GiveTo(s.holder, s.live[id], Worker(t)))
    case Work(t, created, id) =>
      match th.at
      case Idle => s
      case WantScan => Move(s, t, th.(at := Locked))
      case Locked =>
        Move(s, t, th.(at := Scanning, ref := s.current, start := s.searchPos % |s.slices[s.current]|, i := 0))
      case Scanning => ScanStep(s, t)
      case HaveWord => CasStep(s, t)
      case Finish =>
        Move(s, t, th.(at := Idle, held := [])).(
        searchPos := th.start, live := s.live[id := th.held], holder := GiveTo(s.holder, th.held, Stripe(id)))
      case ReadCount =>
        Move(s, t, if s.chunkCount >= MAX_CHUNKS then th.(at := FreeNext)
                   else th.(at := WantMux, seen := s.chunkCount))
      case WantMux => Move(s, t, th.(at := Recheck))
      case Recheck =>
        Move(s, t, th.(at := if th.seen != s.chunkCount then WantScan else if !created then FreeNext else WantWrite))
      case WantWrite =>
        Move(s, t, th.(at := Copying, ref := s.current, copy := [])).(chunks := s.chunks + 1)
      case Copying => CopyStep(s, t)
      case CountUp => Move(s, t, th.(at := Release)).(chunkCount := s.chunkCount + 1)
      case Release => Move(s, t, th.(at := WantScan))
      case FreeNext => Move(s, t, th.(at := if th.held == [] then Idle else FreeLocked))
      case FreeLocked => Move(s, t, th.(at := FreeLoad, ref := s.current))
      case FreeLoad =>
        if th.held[0] / 32 >= |s.slices[th.ref]| then Move(s, t, th.(at := FreeNext, held := th.held[1..]))
        else Move(s, t, th.(at := FreeCas, word := s.slices[th.ref][th.held[0] / 32]))
      case FreeCas => FreeStep(s, t)
  }

  /** Loads the next word; skips a full one, and leaves the scan after the last. */
  function ScanStep(s: State, t: nat): (r: State)
    requires Enabled(s, Work(t, true, 0)) && s.threads[t].at == Scanning
  {
    var th := s.threads[t];
    var bm := s.slices[th.ref];
    if th.i == |bm| || |th.held| >= th.count then Move(s, t, th.(at := ReadCount))
    else
      var word := bm[Visit(th.start, th.i, |bm|)];
      Move(s, t, if NonZero(Not(word)) then th.(at := HaveWord, word := word) else th.(i := th.i + 1))
  }

  function SetBits(w: Word, bits: seq<nat>): (r: Word)
  {
    seq(32, i requires 0 <= i < 32 => w[i] || i in bits)
  }

  function SetWord(slices: seq<seq<Word>>, ref: nat, w: nat, word: Word): (r: seq<seq<Word>>)
    requires ref < |slices| && w < |slices[ref]|
  {
    var bm: seq<Word> := slices[ref];
    slices[ref := bm[w := word]]
  }

  /** Swaps in the loaded word with its lowest free bits set, if it is unchanged.
      After the last block it remembers the word after for the next search. */
  function CasStep(s: State, t: nat): (r: State)
    requires Enabled(s, Work(t, true, 0)) && s.threads[t].at == HaveWord
  {
    var th := s.threads[t];
    var bm := s.slices[th.ref];
    var w := Visit(th.start, th.i, |bm|);
    if bm[w] != th.word then Move(s, t, th.(at := Scanning))
    else
      var want := if |th.held| < th.count then th.count - |th.held| else 0;
      var bits := BusModel.First(want, FreeBits(th.word));
      var taken := Shift(bits, 32 * w);
      var th' := th.(held := th.held + taken);
      Move(s, t, if |th'.held| == th.count
                 then th'.(at := Finish, start := if w + 1 == |bm| then 0 else w + 1)
                 else th'.(at := Scanning, i := th.i + 1)).(
      slices := SetWord(s.slices, th.ref, w, SetBits(th.word, bits)),
      holder := GiveTo(s.holder, taken, Worker(t)))
  }

  /** Copies one more word, or publishes the finished copy with 32 zero words. */
  function CopyStep(s: State, t: nat): (r: State)
    requires Enabled(s, Work(t, true, 0)) && s.threads[t].at == Copying
  {
    var th := s.threads[t];
    if |th.copy| < |s.slices[th.ref]| then
      Move(s, t, th.(copy := th.copy + [s.slices[th.ref][|th.copy|]]))
    else
      Move(s, t, th.(at := CountUp)).(
      slices := s.slices + [th.copy + Zeros(WORDS_PER_CHUNK)], current := |s.slices|)
  }

  /** Clears the block's bit if the loaded word is unchanged. */
  function FreeStep(s: State, t: nat): (r: State)
    requires Enabled(s, Work(t, true, 0)) && s.threads[t].at == FreeCas
  {
    var th := s.threads[t];
    var w := th.held[0] / 32;
    if w >= |s.slices[th.ref]| || s.slices[th.ref][w] != th.word then Move(s, t, th.(at := FreeLoad))
    else
      Move(s, t, th.(at := FreeNext, held := th.held[1..])).(
      slices := SetWord(s.slices, th.ref, w, th.word[th.held[0] % 32 := false]),
      holder := s.holder - {th.held[0]})
  }

  ghost predicate Next(s: State, s': State)
  {
    exists step :: Enabled(s, step) && s' == Apply(s, step)
  }

  ghost predicate IsRun(run: seq<State>)
  {
    && |run| > 0 && Init(run[0])
    && forall i :: 0 <= i < |run| - 1 ==> Next(run[i], run[i + 1])
  }

  // ---------- The invariant ----------

  function Bits(s: State): (bm: seq<Word>)
    requires Shaped(s)
  {
    s.slices[s.current]
  }

  predicate LocksOk(s: State)
  {
    && (forall t :: t in s.threads ==>
          && (s.writer.Some? ==> !Reads(s.threads[t].at))
          && (s.writer == Some(t) <==> Writes(s.threads[t].at))
          && (s.mux == Some(t) <==> Appends(s.threads[t].at)))
    && (s.writer.Some? ==> s.writer.value in s.threads)
    && (s.mux.Some? ==> s.mux.value in s.threads)
  }

  /** Under the read lock a thread works on the published slice, and the copy under
      the write lock is a copy of it. */
  predicate ThreadOk(th: Thread, current: nat, bm: seq<Word>, chunkCount: nat)
  {
    && (th.at == Idle ==> th.held == [])
    && (!Frees(th.at) ==> |th.held| <= th.count)
    && ((th.at == Scanning || th.at == HaveWord || th.at == Copying || th.at == FreeLoad || th.at == FreeCas) ==>
      th.ref == current)
    && ((th.at == Scanning || th.at == HaveWord || th.at == Finish) ==> th.start < |bm| && th.i <= |bm|)
    && (th.at == HaveWord ==> th.i < |bm| && |th.held| < th.count && NonZero(Not(th.word)))
    && (th.at == Finish ==> |th.held| == th.count)
    && ((th.at == WantMux || th.at == Recheck) ==> th.seen < MAX_CHUNKS)
    && (th.at == WantWrite ==> chunkCount < MAX_CHUNKS)
    && (th.at == Copying ==> th.copy <= bm)
    && ((th.at == FreeLocked || th.at == FreeLoad || th.at == FreeCas) ==> th.held != [])
  }

  predicate ThreadsOk(s: State)
    requires Shaped(s)
  {
    forall t :: t in s.threads ==> ThreadOk(s.threads[t], s.current, Bits(s), s.chunkCount)
  }

  /** 32 words per chunk, except while the lock holder is between its stores. */
  predicate PhaseOk(at: Position, chunks: nat, chunkCount: nat, words: nat)
  {
    && 1 <= chunkCount <= chunks <= MAX_CHUNKS
    && chunks == chunkCount + (if at == Copying || at == CountUp then 1 else 0)
    && words == WORDS_PER_CHUNK * (if at == Copying then chunkCount else chunks)
  }

  predicate Sizes(s: State)
    requires Shaped(s)
  {
    && s.searchPos < |Bits(s)|
    && PhaseOk(if s.writer.Some? && s.writer.value in s.threads then s.threads[s.writer.value].at else Idle,
               s.chunks, s.chunkCount, |Bits(s)|)
  }

  predicate Owns(s: State, o: Owner, a: nat)
  {
    match o
    case Worker(t) => t in s.threads && a in s.threads[t].held
    case Stripe(id) => id in s.live && a in s.live[id]
  }

  predicate BitsOk(s: State)
    requires Shaped(s)
  {
    && (forall a :: a in s.holder ==> a < 32 * |Bits(s)|)
    && forall a :: 0 <= a < 32 * |Bits(s)| ==> (Used(Bits(s), a) <==> a in s.holder)
  }

  ghost predicate HolderOk(s: State)
  {
    && (forall o, a :: Owns(s, o, a) <==> a in s.holder && s.holder[a] == o)
    && (forall id :: id in s.live ==> NoDuplicates(s.live[id]))
    && (forall t :: t in s.threads ==> NoDuplicates(s.threads[t].held))
  }

  ghost predicate Inv(s: State)
  {
    Shaped(s) && LocksOk(s) && Sizes(s) && ThreadsOk(s) && BitsOk(s) && HolderOk(s)
  }

  lemma InitInv(s: State)
    requires Init(s)
    ensures Inv(s)
  {}

  // ---------- Moving a thread ----------

  predicate CanLock(s: State, t: nat, at: Position)
  {
    && (Reads(at) ==> s.writer == None)
    && (Writes(at) ==> s.writer == Some(t) || (s.writer == None && NoReader(s)))
    && (Appends(at) ==> s.mux == None || s.mux == Some(t))
  }

  lemma LocksKept(s: State, s': State, t: nat, th: Thread)
    requires LocksOk(s) && t in s.threads && CanLock(s, t, th.at)
    requires var m := Move(s, t, th);
      s'.threads == m.threads && s'.writer == m.writer && s'.mux == m.mux
    ensures LocksOk(s')
  {
    hide Reads, Writes, Appends;
    WriterDoesNotRead(th.at);
  }

  lemma WriterDoesNotRead(p: Position)
    ensures Writes(p) ==> !Reads(p)
  {}

  lemma HolderKept(s: State, s': State, t: nat, th: Thread)
    requires HolderOk(s) && t in s.threads && th.held == s.threads[t].held
    requires s'.threads == s.threads[t := th] && s'.live == s.live && s'.holder == s.holder
    ensures HolderOk(s')
  {
    forall o, a ensures Owns(s', o, a) <==> Owns(s, o, a) {}
  }

  /** The new chunk numbers and the new position fit each other and the bitmap. */
  predicate CanCount(s: State, t: nat, at: Position, chunks: nat, chunkCount: nat)
    requires Shaped(s) && t in s.threads
  {
    if Writes(at) || Writes(s.threads[t].at)
    then PhaseOk(at, chunks, chunkCount, |Bits(s)|) && (chunkCount == s.chunkCount || Appends(s.threads[t].at))
    else chunks == s.chunks && chunkCount == s.chunkCount
  }

  lemma SizesKept(s: State, t: nat, th: Thread, chunks: nat, chunkCount: nat)
    requires Shaped(s) && LocksOk(s) && Sizes(s) && t in s.threads
    requires CanLock(s, t, th.at) && CanCount(s, t, th.at, chunks, chunkCount)
    ensures Sizes(Move(s, t, th).(chunks := chunks, chunkCount := chunkCount))
  {
    assert !Writes(th.at) ==>
      PhaseOk(th.at, chunks, chunkCount, |Bits(s)|) == PhaseOk(Idle, chunks, chunkCount, |Bits(s)|);
    hide PhaseOk, Reads, Appends, Writes;
  }

  lemma ThreadsKept(s: State, t: nat, th: Thread, chunks: nat, chunkCount: nat)
    requires Shaped(s) && LocksOk(s) && ThreadsOk(s) && t in s.threads
    requires CanCount(s, t, th.at, chunks, chunkCount) && ThreadOk(th, s.current, Bits(s), chunkCount)
    ensures ThreadsOk(Move(s, t, th).(chunks := chunks, chunkCount := chunkCount))
  {
    forall u | u in s.threads && u != t ensures ThreadOk(s.threads[u], s.current, Bits(s), chunkCount) {
      if chunkCount != s.chunkCount {
        assert s.mux == Some(t) && !Appends(s.threads[u].at);
      }
    }
    hide ThreadOk, CanCount;
  }

  /** A step that moves a thread with the blocks it holds, and possibly counts a
      chunk, but leaves the bitmap alone. */
  lemma MoveKeepsInv(s: State, t: nat, th: Thread, chunks: nat, chunkCount: nat)
    requires Inv(s) && t in s.threads && th.held == s.threads[t].held && CanLock(s, t, th.at)
    requires CanCount(s, t, th.at, chunks, chunkCount) && ThreadOk(th, s.current, Bits(s), chunkCount)
    ensures Inv(Move(s, t, th).(chunks := chunks, chunkCount := chunkCount))
  {
    var s' := Move(s, t, th).(chunks := chunks, chunkCount := chunkCount);
    LocksKept(s, s', t, th);
    HolderKept(s, s', t, th);
    SizesKept(s, t, th, chunks, chunkCount);
    ThreadsKept(s, t, th, chunks, chunkCount);
    hide ThreadOk, CanCount, CanLock, LocksOk, HolderOk, Sizes, ThreadsOk;
  }

  // ---------- Each step keeps the invariant ----------

  /** What the invariant says about one thread. */
  lemma Facts(s: State, t: nat)
    requires Inv(s) && t in s.threads
    ensures ThreadOk(s.threads[t], s.current, Bits(s), s.chunkCount) && s.searchPos < |Bits(s)|
    ensures Reads(s.threads[t].at) ==> s.writer == None
    ensures Writes(s.threads[t].at) ==>
      s.writer == Some(t) && PhaseOk(s.threads[t].at, s.chunks, s.chunkCount, |Bits(s)|)
    ensures Appends(s.threads[t].at) ==> s.mux == Some(t)
    ensures s.writer == None ==> PhaseOk(Idle, s.chunks, s.chunkCount, |Bits(s)|)
  {
    hide BitsOk, HolderOk, ThreadOk, PhaseOk;
  }

  lemma LockStepKeeps(s: State, step: Step)
    requires Inv(s) && Enabled(s, step) &&
      (step.BeginAlloc? || (step.Work? && (s.threads[step.t].at == WantScan || s.threads[step.t].at == Locked)))
    ensures Inv(Apply(s, step))
  {
    hide Inv, LocksOk, Sizes, ThreadsOk, BitsOk, HolderOk, NonZero, Not, ScanStep, CasStep, CopyStep, FreeStep, GiveTo;
    Facts(s, step.t);
    var t, th := step.t, s.threads[step.t];
    if step.BeginAlloc? {
      MoveKeepsInv(s, t, th.(at := WantScan, count := step.count), s.chunks, s.chunkCount);
    } else if th.at == WantScan {
      MoveKeepsInv(s, t, th.(at := Locked), s.chunks, s.chunkCount);
    } else {
      Quotient(s.searchPos, |Bits(s)|, 0, s.searchPos);
      MoveKeepsInv(s, t, th.(at := Scanning, ref := s.current, start := s.searchPos, i := 0), s.chunks, s.chunkCount);
    }
  }

  lemma ScanStepKeeps(s: State, t: nat)
    requires Inv(s) && Enabled(s, Work(t, true, 0)) && s.threads[t].at == Scanning
    ensures Inv(ScanStep(s, t))
  {
    hide Inv, LocksOk, Sizes, ThreadsOk, BitsOk, HolderOk, NonZero, Not;
    Facts(s, t);
    MoveKeepsInv(s, t, ScanStep(s, t).threads[t], s.chunks, s.chunkCount);
  }

  lemma CountStepKeeps(s: State, step: Step)
    requires Inv(s) && Enabled(s, step) && step.Work? &&
      (s.threads[step.t].at == ReadCount || s.threads[step.t].at == WantMux || s.threads[step.t].at == Recheck)
    ensures Inv(Apply(s, step))
  {
    hide Inv, LocksOk, Sizes, ThreadsOk, BitsOk, HolderOk, NonZero, Not, ScanStep, CasStep, CopyStep, FreeStep, GiveTo;
    Facts(s, step.t);
    MoveKeepsInv(s, step.t, Apply(s, step).threads[step.t], s.chunks, s.chunkCount);
  }

  lemma WriteLockAllowed(s: State, t: nat)
    requires Inv(s) && t in s.threads && s.threads[t].at == WantWrite && s.writer == None && NoReader(s)
    ensures var th := s.threads[t].(at := Copying, ref := s.current, copy := []);
      && Shaped(s) && CanLock(s, t, th.at) && CanCount(s, t, th.at, s.chunks + 1, s.chunkCount)
      && ThreadOk(th, s.current, Bits(s), s.chunkCount)
  {
    hide Inv, NonZero, Not, NoReader;
    InvShaped(s);
    Facts(s, t);
  }

  lemma WriteLockKeeps(s: State, step: Step)
    requires Inv(s) && Enabled(s, step) && step.Work? && s.threads[step.t].at == WantWrite
    ensures Inv(Apply(s, step))
  {
    hide Inv, CanLock, CanCount, ThreadOk, ScanStep, CasStep, CopyStep, FreeStep, GiveTo, Exchange, Reads, Writes,
         Appends, NoReader;
    var t, th := step.t, s.threads[step.t];
    WriteLockAllowed(s, t);
    MoveKeepsInv(s, t, th.(at := Copying, ref := s.current, copy := []), s.chunks + 1, s.chunkCount);
  }

  lemma CountUpAllowed(s: State, t: nat)
    requires Inv(s) && t in s.threads && s.threads[t].at == CountUp
    ensures var th := s.threads[t].(at := Release);
      && CanLock(s, t, th.at) && CanCount(s, t, th.at, s.chunks, s.chunkCount + 1)
      && ThreadOk(th, s.current, Bits(s), s.chunkCount + 1)
  {
    hide Inv, NonZero, Not;
    InvShaped(s);
    Facts(s, t);
  }

  lemma InvShaped(s: State)
    requires Inv(s)
    ensures Shaped(s)
  {}

  lemma CountUpKeeps(s: State, step: Step)
    requires Inv(s) && Enabled(s, step) && step.Work? && s.threads[step.t].at == CountUp
    ensures Inv(Apply(s, step))
  {
    hide Inv, CanLock, CanCount, ThreadOk, ScanStep, CasStep, CopyStep, FreeStep, GiveTo, Exchange, Reads, Writes,
         Appends;
    var t, th := step.t, s.threads[step.t];
    CountUpAllowed(s, t);
    MoveKeepsInv(s, t, th.(at := Release), s.chunks, s.chunkCount + 1);
  }

  lemma ReleaseKeeps(s: State, step: Step)
    requires Inv(s) && Enabled(s, step) && step.Work? && s.threads[step.t].at == Release
    ensures Inv(Apply(s, step))
  {
    hide Inv, LocksOk, Sizes, ThreadsOk, BitsOk, HolderOk, NonZero, Not, ScanStep, CasStep, CopyStep, FreeStep, GiveTo;
    Facts(s, step.t);
    var t, th := step.t, s.threads[step.t];
    MoveKeepsInv(s, t, th.(at := WantScan), s.chunks, s.chunkCount);
  }

  lemma HeldInRange(s: State, t: nat)
    requires Inv(s) && t in s.threads && s.threads[t].held != []
    ensures s.threads[t].held[0] < 32 * |Bits(s)|
  {
    hide LocksOk, Sizes, ThreadsOk;
    assert Owns(s, Worker(t), s.threads[t].held[0]);
  }

  lemma FreeLockKeeps(s: State, step: Step)
    requires Inv(s) && Enabled(s, step) && step.Work? &&
      (s.threads[step.t].at == FreeNext || s.threads[step.t].at == FreeLocked)
    ensures Inv(Apply(s, step))
  {
    hide Inv, LocksOk, Sizes, ThreadsOk, BitsOk, HolderOk, NonZero, Not, ScanStep, CasStep, CopyStep, FreeStep, GiveTo;
    Facts(s, step.t);
    MoveKeepsInv(s, step.t, Apply(s, step).threads[step.t], s.chunks, s.chunkCount);
  }

  lemma FreeLoadAllowed(s: State, t: nat)
    requires Inv(s) && t in s.threads && s.threads[t].at == FreeLoad && s.threads[t].held != []
    ensures s.threads[t].held[0] / 32 < |Bits(s)| && s.threads[t].ref == s.current && Shaped(s)
    ensures var th := s.threads[t].(at := FreeCas, word := Bits(s)[s.threads[t].held[0] / 32]);
      && CanLock(s, t, th.at) && CanCount(s, t, th.at, s.chunks, s.chunkCount)
      && ThreadOk(th, s.current, Bits(s), s.chunkCount)
  {
    hide Inv, NonZero, Not;
    InvShaped(s);
    HeldInRange(s, t);
    Facts(s, t);
  }

  lemma FreeLoadKeeps(s: State, step: Step)
    requires Inv(s) && Enabled(s, step) && step.Work? && s.threads[step.t].at == FreeLoad
    ensures Inv(Apply(s, step))
  {
    hide Inv, CanLock, CanCount, ThreadOk, ScanStep, CasStep, CopyStep, FreeStep, GiveTo, Exchange, Reads, Writes,
         Appends;
    var t, th := step.t, s.threads[step.t];
    FreeLoadAllowed(s, t);
    MoveKeepsInv(s, t, th.(at := FreeCas, word := Bits(s)[th.held[0] / 32]), s.chunks, s.chunkCount);
  }

  lemma CopyWordKeeps(s: State, t: nat)
    requires Inv(s) && Enabled(s, Work(t, true, 0)) && s.threads[t].at == Copying
    requires |s.threads[t].copy| < |s.slices[s.threads[t].ref]|
    ensures Inv(CopyStep(s, t))
  {
    hide Inv, LocksOk, Sizes, ThreadsOk, BitsOk, HolderOk, NonZero, Not;
    Facts(s, t);
    var th := s.threads[t];
    var copy := th.copy + [Bits(s)[|th.copy|]];
    assert copy == Bits(s)[..|copy|];
    MoveKeepsInv(s, t, th.(copy := copy), s.chunks, s.chunkCount);
  }

  lemma UsedExtended(bm: seq<Word>, n: nat, a: nat)
    requires a < 32 * (|bm| + n)
    ensures Used(bm + Zeros(n), a) <==> a < 32 * |bm| && Used(bm, a)
  {}

  lemma PublishedBits(s: State, s': State)
    requires Shaped(s) && Shaped(s') && BitsOk(s) && Bits(s') == Bits(s) + Zeros(WORDS_PER_CHUNK)
    requires s'.holder == s.holder
    ensures BitsOk(s')
  {
    forall a | 0 <= a < 32 * |Bits(s')| ensures Used(Bits(s'), a) <==> a in s'.holder {
      UsedExtended(Bits(s), WORDS_PER_CHUNK, a);
    }
  }

  lemma PublishedSizes(s: State, t: nat)
    requires Inv(s) && Enabled(s, Work(t, true, 0)) && s.threads[t].at == Copying
    requires |s.threads[t].copy| == |s.slices[s.threads[t].ref]|
    ensures Bits(CopyStep(s, t)) == Bits(s) + Zeros(WORDS_PER_CHUNK)
    ensures Sizes(CopyStep(s, t)) && ThreadsOk(CopyStep(s, t))
  {
    hide BitsOk, HolderOk, NonZero, Not;
    assert s.threads[t].copy == Bits(s);
  }

  /** The published copy holds every bit of the slice it replaces: no allocation or
      free can slip in between, so growth loses no update. */
  lemma PublishKeeps(s: State, t: nat)
    requires Inv(s) && Enabled(s, Work(t, true, 0)) && s.threads[t].at == Copying
    requires |s.threads[t].copy| == |s.slices[s.threads[t].ref]|
    ensures CopyStep(s, t).slices[CopyStep(s, t).current] == Bits(s) + Zeros(WORDS_PER_CHUNK)
    ensures Inv(CopyStep(s, t))
  {
    hide Sizes, ThreadsOk, BitsOk, HolderOk, LocksOk, NonZero, Not;
    var s' := CopyStep(s, t);
    PublishedSizes(s, t);
    Facts(s, t);
    LocksKept(s, s', t, s'.threads[t]);
    HolderKept(s, s', t, s'.threads[t]);
    PublishedBits(s, s');
  }

  // ---------- Steps that hand blocks over ----------

  /** No thread is copying while another one reads, so only the size matters. */
  lemma OthersSeeWord(s: State, bm: seq<Word>, t: nat, u: nat)
    requires Shaped(s) && LocksOk(s) && ThreadsOk(s) && t in s.threads && u in s.threads
    requires Reads(s.threads[t].at) && |bm| == |Bits(s)|
    ensures ThreadOk(s.threads[u], s.current, bm, s.chunkCount)
  {
    hide NonZero, Not;
    assert s.writer == None && !Writes(s.threads[u].at);
  }

  /** What a step that changes one word under the read lock has to show. */
  lemma WordStepKeeps(s: State, s': State, t: nat, th: Thread)
    requires Inv(s) && t in s.threads && Reads(s.threads[t].at)
    requires s' == Move(s, t, th).(slices := s'.slices, holder := s'.holder)
    requires CanLock(s, t, th.at) && !Writes(th.at)
    requires Shaped(s') && |Bits(s')| == |Bits(s)| && ThreadOk(th, s.current, Bits(s'), s.chunkCount)
    requires BitsOk(s') && HolderOk(s')
    ensures Inv(s')
  {
    hide BitsOk, HolderOk, ThreadOk, PhaseOk, NonZero, Not, Appends, CanLock;
    LocksKept(s, s', t, th);
    forall u | u in s'.threads
      ensures ThreadOk(s'.threads[u], s'.current, Bits(s'), s'.chunkCount)
    {
      if u != t { OthersSeeWord(s, Bits(s'), t, u); }
    }
  }

  lemma TakenIsFree(s: State, w: nat, want: nat, a: nat)
    requires Shaped(s) && BitsOk(s) && w < |Bits(s)|
    requires a in BusModel.First(want, FreeIn(Bits(s), w))
    ensures a !in s.holder && a < 32 * |Bits(s)|
  {
    FreeInMember(Bits(s), w, a);
  }

  lemma HolderTakes(s: State, s': State, t: nat, taken: seq<nat>)
    requires HolderOk(s) && t in s.threads && t in s'.threads
    requires s'.threads == s.threads[t := s'.threads[t]] && s'.threads[t].held == s.threads[t].held + taken
    requires s'.live == s.live && s'.holder == GiveTo(s.holder, taken, Worker(t))
    requires NoDuplicates(taken) && forall a :: a in taken ==> a !in s.holder
    ensures HolderOk(s')
  {
    forall o, a ensures Owns(s', o, a) <==> a in s'.holder && s'.holder[a] == o {
      assert Owns(s, o, a) <==> a in s.holder && s.holder[a] == o;
    }
    var held := s.threads[t].held;
    forall i, j | 0 <= i < j < |held + taken| ensures (held + taken)[i] != (held + taken)[j] {
      if i < |held| { assert Owns(s, Worker(t), held[i]); }
    }
  }

  /** What a won CAS does to the bitmap: it marks exactly the blocks it takes, which
      nobody holds. */
  lemma CasMarks(s: State, t: nat, w: nat, bits: seq<nat>, taken: seq<nat>)
    requires Inv(s) && Enabled(s, Work(t, true, 0)) && s.threads[t].at == HaveWord
    requires w == Visit(s.threads[t].start, s.threads[t].i, |Bits(s)|) && Bits(s)[w] == s.threads[t].word
    requires bits == BusModel.First(s.threads[t].count - |s.threads[t].held|, FreeBits(Bits(s)[w]))
    requires taken == Shift(bits, 32 * w)
    ensures NoDuplicates(taken) && forall a :: a in taken ==> a !in s.holder && a < 32 * |Bits(s)|
    ensures forall bm :: bm == Bits(s)[w := SetBits(Bits(s)[w], bits)] ==> Marked(bm, Bits(s), taken)
  {
    hide LocksOk, Sizes, HolderOk, NonZero, Not, FreeBits;
    var th, bm := s.threads[t], Bits(s);
    var want := th.count - |th.held|;
    BusModel.ShiftPrefix(FreeBits(bm[w]), |bits|, 32 * w);
    assert taken == BusModel.First(want, FreeIn(bm, w));
    FreeInDistinct(bm, w);
    forall a | a in taken ensures a !in s.holder && a < 32 * |bm| { TakenIsFree(s, w, want, a); }
    BusModel.MarkWord(bm, bm[w := SetBits(bm[w], bits)], w, bits);
  }

  lemma MarkedBits(s: State, s': State, taken: seq<nat>, o: Owner)
    requires Shaped(s) && Shaped(s') && BitsOk(s) && Marked(Bits(s'), Bits(s), taken)
    requires s'.holder == GiveTo(s.holder, taken, o) && forall a :: a in taken ==> a < 32 * |Bits(s)|
    ensures BitsOk(s')
  {}

  /** The CAS takes blocks nobody holds and nobody else can take. */
  lemma CasWonKeeps(s: State, t: nat)
    requires Inv(s) && Enabled(s, Work(t, true, 0)) && s.threads[t].at == HaveWord
    requires var th := s.threads[t];
      s.slices[th.ref][Visit(th.start, th.i, |s.slices[th.ref]|)] == th.word
    ensures Inv(CasStep(s, t))
  {
    var s', th := CasStep(s, t), s.threads[t];
    var w := Visit(th.start, th.i, |Bits(s)|);
    var bits := BusModel.First(th.count - |th.held|, FreeBits(th.word));
    var taken := Shift(bits, 32 * w);
    CasMarks(s, t, w, bits, taken);
    hide FreeBits, NonZero, Not, NoDuplicates, Marked;
    HolderTakes(s, s', t, taken);
    MarkedBits(s, s', taken, Worker(t));
    hide BitsOk, HolderOk;
    WordStepKeeps(s, s', t, s'.threads[t]);
  }

  lemma CasLostKeeps(s: State, t: nat)
    requires Inv(s) && Enabled(s, Work(t, true, 0)) && s.threads[t].at == HaveWord
    requires var th := s.threads[t];
      s.slices[th.ref][Visit(th.start, th.i, |s.slices[th.ref]|)] != th.word
    ensures Inv(CasStep(s, t))
  {
    hide Inv, LocksOk, Sizes, ThreadsOk, BitsOk, HolderOk, NonZero, Not, FreeBits;
    Facts(s, t);
    MoveKeepsInv(s, t, s.threads[t].(at := Scanning), s.chunks, s.chunkCount);
  }

  lemma HolderDrops(s: State, s': State, t: nat)
    requires HolderOk(s) && t in s.threads && s.threads[t].held != [] && t in s'.threads
    requires s'.threads == s.threads[t := s'.threads[t]] && s'.threads[t].held == s.threads[t].held[1..]
    requires s'.live == s.live && s'.holder == s.holder - {s.threads[t].held[0]}
    ensures HolderOk(s')
  {
    var held := s.threads[t].held;
    forall o, a ensures Owns(s', o, a) <==> a in s'.holder && s'.holder[a] == o {
      assert Owns(s, o, a) <==> a in s.holder && s.holder[a] == o;
      assert Owns(s, Worker(t), held[0]);
      assert a in held <==> a == held[0] || a in held[1..];
    }
  }

  lemma ClearedBits(s: State, s': State, a0: nat)
    requires Shaped(s) && Shaped(s') && BitsOk(s) && a0 < 32 * |Bits(s)|
    requires |Bits(s')| == |Bits(s)| && Bits(s') == Bits(s)[a0 / 32 := Bits(s')[a0 / 32]]
    requires Bits(s')[a0 / 32] == Bits(s)[a0 / 32][a0 % 32 := false]
    requires s'.holder == s.holder - {a0}
    ensures BitsOk(s')
  {}

  lemma FreeLostKeeps(s: State, t: nat)
    requires Inv(s) && Enabled(s, Work(t, true, 0)) && s.threads[t].at == FreeCas
    requires FreeStep(s, t) == Move(s, t, s.threads[t].(at := FreeLoad))
    ensures Inv(FreeStep(s, t))
  {
    hide Inv, LocksOk, Sizes, ThreadsOk, BitsOk, HolderOk, NonZero, Not, FreeStep;
    Facts(s, t);
    MoveKeepsInv(s, t, s.threads[t].(at := FreeLoad), s.chunks, s.chunkCount);
  }

  /** Freeing clears the bit of a block its thread holds, and no other bit. */
  /** What a won CAS of a free does to the state. */
  lemma FreeWonStep(s: State, t: nat)
    requires Inv(s) && Enabled(s, Work(t, true, 0)) && s.threads[t].at == FreeCas
    requires s.threads[t].ref == s.current && s.threads[t].held[0] < 32 * |Bits(s)|
    requires Bits(s)[s.threads[t].held[0] / 32] == s.threads[t].word
    ensures var s', th := FreeStep(s, t), s.threads[t]; var th' := th.(at := FreeNext, held := th.held[1..]);
      && Shaped(s') && s' == Move(s, t, th').(slices := s'.slices, holder := s'.holder)
      && Bits(s') == Bits(s)[th.held[0] / 32 := th.word[th.held[0] % 32 := false]]
      && Reads(th.at) && CanLock(s, t, th'.at) && ThreadOk(th', s.current, Bits(s'), s.chunkCount)
  {
    hide Inv, NonZero, Not;
    Facts(s, t);
  }

  lemma FreeWonKeeps(s: State, t: nat)
    requires Inv(s) && Enabled(s, Work(t, true, 0)) && s.threads[t].at == FreeCas
    requires s.threads[t].ref == s.current && s.threads[t].held[0] < 32 * |Bits(s)|
    requires Bits(s)[s.threads[t].held[0] / 32] == s.threads[t].word
    ensures Inv(FreeStep(s, t))
  {
    hide Inv, BitsOk, HolderOk, ThreadOk, CanLock, Reads, Appends, Exchange;
    FreeWonStep(s, t);
    InvParts(s);
    var s', th := FreeStep(s, t), s.threads[t];
    HolderDrops(s, s', t);
    ClearedBits(s, s', th.held[0]);
    WordStepKeeps(s, s', t, th.(at := FreeNext, held := th.held[1..]));
  }

  lemma FreeStepKeeps(s: State, t: nat)
    requires Inv(s) && Enabled(s, Work(t, true, 0)) && s.threads[t].at == FreeCas
    ensures Inv(FreeStep(s, t))
  {
    hide Inv, LocksOk, Sizes, ThreadsOk, BitsOk, HolderOk, NonZero, Not;
    Facts(s, t);
    HeldInRange(s, t);
    if Bits(s)[s.threads[t].held[0] / 32] == s.threads[t].word { FreeWonKeeps(s, t); } else { FreeLostKeeps(s, t); }
  }

  lemma InvParts(s: State)
    requires Inv(s)
    ensures Shaped(s) && BitsOk(s) && HolderOk(s)
  {}

  lemma HolderSettles(s: State, s': State, t: nat, id: nat)
    requires HolderOk(s) && t in s.threads && id !in s.live && t in s'.threads
    requires s'.threads == s.threads[t := s'.threads[t]] && s'.threads[t].held == []
    requires s'.live == s.live[id := s.threads[t].held]
    requires s'.holder == GiveTo(s.holder, s.threads[t].held, Stripe(id))
    ensures HolderOk(s')
  {
    forall o, a ensures Owns(s', o, a) <==> a in s'.holder && s'.holder[a] == o {
      assert Owns(s, o, a) <==> a in s.holder && s.holder[a] == o;
      assert Owns(s, Worker(t), a) <==> a in s.holder && s.holder[a] == Worker(t);
    }
  }

  lemma HolderReclaims(s: State, s': State, t: nat, id: nat)
    requires HolderOk(s) && t in s.threads && id in s.live && t in s'.threads && s.threads[t].held == []
    requires s'.threads == s.threads[t := s'.threads[t]] && s'.threads[t].held == s.live[id]
    requires s'.live == s.live - {id}
    requires s'.holder == GiveTo(s.holder, s.live[id], Worker(t))
    ensures HolderOk(s')
  {
    forall o, a ensures Owns(s', o, a) <==> a in s'.holder && s'.holder[a] == o {
      assert Owns(s, o, a) <==> a in s.holder && s.holder[a] == o;
      assert Owns(s, Stripe(id), a) <==> a in s.holder && s.holder[a] == Stripe(id);
    }
  }

  /** Passing blocks between a thread and a stripe changes no bit. */
  lemma SameBits(s: State, s': State, blocks: seq<nat>, from: Owner, to: Owner)
    requires Shaped(s) && Shaped(s') && BitsOk(s) && HolderOk(s) && Bits(s') == Bits(s)
    requires s'.holder == GiveTo(s.holder, blocks, to)
    requires forall a :: a in blocks ==> Owns(s, from, a)
    ensures BitsOk(s')
  {}

  lemma HandOverKeeps(s: State, s': State, t: nat, th: Thread)
    requires Inv(s) && t in s.threads
    requires s' == Move(s, t, th).(searchPos := s'.searchPos, live := s'.live, holder := s'.holder)
    requires CanLock(s, t, th.at) && !Writes(th.at) && !Writes(s.threads[t].at)
    requires s'.searchPos < |Bits(s)| && ThreadOk(th, s.current, Bits(s), s.chunkCount)
    requires BitsOk(s') && HolderOk(s')
    ensures Inv(s')
  {
    hide BitsOk, HolderOk, NonZero, Not, PhaseOk, ThreadOk;
    LocksKept(s, s', t, th);
    SizesKept(s, t, th, s.chunks, s.chunkCount);
    ThreadsKept(s, t, th, s.chunks, s.chunkCount);
  }

  lemma FinishKeeps(s: State, step: Step)
    requires Inv(s) && Enabled(s, step) && step.Work? && s.threads[step.t].at == Finish
    ensures Inv(Apply(s, step))
  {
    hide Inv, LocksOk, Sizes, ThreadsOk, BitsOk, HolderOk, NonZero, Not;
    var t, s' := step.t, Apply(s, step);
    Facts(s, t);
    InvParts(s);
    HolderSettles(s, s', t, step.id);
    SameBits(s, s', s.threads[t].held, Worker(t), Stripe(step.id));
    HandOverKeeps(s, s', t, s'.threads[t]);
  }

  lemma BeginFreeKeeps(s: State, step: Step)
    requires Inv(s) && Enabled(s, step) && step.BeginFree?
    ensures Inv(Apply(s, step))
  {
    hide Inv, LocksOk, Sizes, ThreadsOk, BitsOk, HolderOk, NonZero, Not;
    var t, s' := step.t, Apply(s, step);
    Facts(s, t);
    InvParts(s);
    HolderReclaims(s, s', t, step.id);
    SameBits(s, s', s.live[step.id], Stripe(step.id), Worker(t));
    HandOverKeeps(s, s', t, s'.threads[t]);
  }

  lemma StepKeeps(s: State, step: Step)
    requires Inv(s) && Enabled(s, step)
    ensures Inv(Apply(s, step))
  {
    hide Inv, LocksOk, Sizes, ThreadsOk, BitsOk, HolderOk, NonZero, Not, FreeBits, GiveTo, SetWord;
    Facts(s, step.t);
    var t, th := step.t, s.threads[step.t];
    if step.BeginFree? { BeginFreeKeeps(s, step); }
    else if step.BeginAlloc? || th.at == WantScan || th.at == Locked { LockStepKeeps(s, step); }
    else if th.at == Scanning { ScanStepKeeps(s, t); }
    else if th.at == HaveWord {
      if Bits(s)[Visit(th.start, th.i, |Bits(s)|)] == th.word { CasWonKeeps(s, t); } else { CasLostKeeps(s, t); }
    }
    else if th.at == Finish { FinishKeeps(s, step); }
    else if th.at == ReadCount || th.at == WantMux || th.at == Recheck { CountStepKeeps(s, step); }
    else if th.at == Copying {
      if |th.copy| < |Bits(s)| { CopyWordKeeps(s, t); } else { PublishKeeps(s, t); }
    }
    else if th.at == WantWrite { WriteLockKeeps(s, step); }
    else if th.at == CountUp { CountUpKeeps(s, step); }
    else if th.at == Release { ReleaseKeeps(s, step); }
    else if th.at == FreeNext || th.at == FreeLocked { FreeLockKeeps(s, step); }
    else if th.at == FreeLoad { FreeLoadKeeps(s, step); }
    else { FreeStepKeeps(s, t); }
  }

  // ---------- Whole runs ----------

  lemma {:induction false} RunKeepsInv(run: seq<State>, i: nat)
    requires IsRun(run) && i < |run|
    ensures Inv(run[i])
  {
    hide Inv, Apply, Enabled;
    if i == 0 {
      InitInv(run[0]);
    } else {
      RunKeepsInv(run, i - 1);
      assert Next(run[i - 1], run[i - 1 + 1]);
      var step :| Enabled(run[i - 1], step) && run[i] == Apply(run[i - 1], step);
      StepKeeps(run[i - 1], step);
    }
  }

  /** In every reachable state a block's bit is set exactly when some allocation in
      progress or live stripe holds the block, no block has two holders, and no
      holder lists a block twice. Whenever the write lock is free the bitmap has 32
      words per chunk. */
  lemma BlocksAreExclusive(run: seq<State>, i: nat, a: nat)
    requires IsRun(run) && i < |run|
    ensures Shaped(run[i])
    ensures a < 32 * |Bits(run[i])| ==> (Used(Bits(run[i]), a) <==> exists o :: Owns(run[i], o, a))
    ensures forall o, o' :: Owns(run[i], o, a) && Owns(run[i], o', a) ==> o == o'
    ensures forall id :: id in run[i].live ==> NoDuplicates(run[i].live[id])
    ensures run[i].writer == None ==>
      |Bits(run[i])| == WORDS_PER_CHUNK * run[i].chunks && run[i].chunks == run[i].chunkCount <= MAX_CHUNKS
  {
    RunKeepsInv(run, i);
    var s := run[i];
    if a in s.holder { assert Owns(s, s.holder[a], a); }
  }

  /** A finished allocation made a stripe of exactly the blocks it was asked for. */
  lemma FinishedAllocation(run: seq<State>, i: nat, t: nat)
    requires IsRun(run) && i < |run| && t in run[i].threads && run[i].threads[t].at == Finish
    ensures |run[i].threads[t].held| == run[i].threads[t].count && NoDuplicates(run[i].threads[t].held)
    ensures forall a, o :: a in run[i].threads[t].held && Owns(run[i], o, a) ==> o == Worker(t)
  {
    RunKeepsInv(run, i);
    assert forall a :: a in run[i].threads[t].held ==> Owns(run[i], Worker(t), a);
  }
}
