/** The multi-producer, single-consumer ring in shared memory together with the
    eventfd that wakes its consumer, as a machine whose every step is one atomic
    load, compare-and-swap or store (go/shm/control.go, rust/src/control.rs,
    go/sync/eventfd.go).

    `reserved`, `owner` and `popped` are history: no step reads them. */
module Ring {
  import opened Layout

  const READY := 0x8000_0000

  datatype Msg = Msg(slot: U32, cmd: U32)

  /** The 64-bit word of an entry: command with the ready bit above, slot below. */
  function Pack(m: Msg): (w: int)
  {
    (m.cmd % READY + READY) * WRAP + m.slot
  }

  predicate Ready(w: int) { w / WRAP / READY % 2 == 1 }

  function Unpack(w: int): (m: Msg)
  {
    Msg(w % WRAP, w / WRAP % READY)
  }

  /** What the consumer sees of a pushed message: the ready bit is masked off. */
  function Seen(m: Msg): (r: Msg) { Msg(m.slot, m.cmd % READY) }

  /** The entry that ticket `k` uses: its 32-bit counter value modulo the size. */
  function Index(k: nat): (e: nat)
    ensures e < QUEUE_SIZE
  {
    k % WRAP % QUEUE_SIZE
  }

  datatype Producer =
    | Idle
    | LoadHead(m: Msg, budget: nat)
    | LoadTail(m: Msg, budget: nat, h: U32, seenHead: nat)
    | TryCas(m: Msg, budget: nat, h: U32, t: U32, seenHead: nat, seenTail: nat)
    | Store(m: Msg, t: U32, ticket: nat)
    | Notify(ticket: nat)

  datatype Consumer =
    | Wait
    | PopHead
    | PopTail(h: U32)
    | Spin(h: U32, spins: nat)
    | Clear(h: U32, word: int)
    | Advance(h: U32, word: int)

  datatype State = State(
    head: U32,
    tail: U32,
    entries: seq<int>,
    producers: map<nat, Producer>,
    consumer: Consumer,
    event: nat,               // the eventfd counter
    patience: Option<nat>,    // spins after which `pop` gives up; None for Go
    reserved: seq<Msg>,       // messages in the order of their tail CAS
    owner: seq<nat>,          // the producer of each reserved message
    popped: seq<Msg>)         // messages returned by pop

  datatype Step =
    | Begin(p: nat, m: Msg, budget: nat)
    | Produce(p: nat)
    | Consume

  // ---------- The steps ----------

  ghost predicate Init(s: State)
  {
    && s.head == 0 && s.tail == 0
    && s.entries == seq(QUEUE_SIZE, i => 0)
    && (forall p :: p in s.producers ==> s.producers[p] == Idle)
    && (s.consumer == Wait || s.consumer == PopHead)
    && s.event == 0
    && s.reserved == [] && s.owner == [] && s.popped == []
  }

  function Sub32(a: U32, b: U32): (r: U32) { (a - b) % WRAP }
  function Inc32(a: U32): (r: U32) { (a + 1) % WRAP }

  predicate Enabled(s: State, step: Step)
  {
    && |s.entries| == QUEUE_SIZE
    && match step
       case Begin(p, m, budget) => p in s.producers && s.producers[p] == Idle
       case Produce(p) => p in s.producers && s.producers[p] != Idle
       case Consume => s.consumer == Wait ==> s.event > 0
  }

  function SetProducer(s: State, p: nat, q: Producer): (r: State)
  {
    s.(producers := s.producers[p := q])
  }

  function Apply(s: State, step: Step): (r: State)
    requires Enabled(s, step)
  {
    match step
    case Begin(p, m, budget) => SetProducer(s, p, LoadHead(m, budget))
    case Produce(p) => ProducerStep(s, p)
    case Consume => ConsumerStep(s)
  }

  function ProducerStep(s: State, p: nat): (r: State)
    requires |s.entries| == QUEUE_SIZE && p in s.producers
    ensures |r.entries| == QUEUE_SIZE && p in r.producers
  {
    match s.producers[p]
    case Idle => s
    case LoadHead(m, budget) =>
      SetProducer(s, p, LoadTail(m, budget, s.head, |s.popped|))
    case LoadTail(m, budget, h, seenHead) =>
      if Sub32(s.tail, h) >= QUEUE_SIZE - 1 then
        SetProducer(s, p, if budget > 0 then LoadHead(m, budget - 1) else Idle)
      else
        SetProducer(s, p, TryCas(m, budget, h, s.tail, seenHead, |s.reserved|))
    case TryCas(m, budget, h, t, _, _) =>
      if s.tail == t then
        SetProducer(s, p, Store(m, t, |s.reserved|)).(
        tail := Inc32(t), reserved := s.reserved + [m], owner := s.owner + [p])
      else
        SetProducer(s, p, LoadHead(m, budget))
    case Store(m, t, ticket) =>
      SetProducer(s, p, Notify(ticket)).(entries := s.entries[t % QUEUE_SIZE := Pack(m)])
    case Notify(_) =>
      SetProducer(s, p, Idle).(event := s.event + 1)
  }

  function ConsumerStep(s: State): (r: State)
    requires |s.entries| == QUEUE_SIZE
    ensures |r.entries| == QUEUE_SIZE
  {
    match s.consumer
    case Wait => if s.event > 0 then s.(consumer := PopHead, event := 0) else s
    case PopHead => s.(consumer := PopTail(s.head))
    case PopTail(h) => s.(consumer := if h == s.tail then Wait else Spin(h, 0))
    case Spin(h, spins) =>
      var word := s.entries[h % QUEUE_SIZE];
      if Ready(word) then s.(consumer := Clear(h, word))
      else if s.patience.Some? && spins >= s.patience.value then s.(consumer := Wait)
      else s.(consumer := Spin(h, spins + 1))
    case Clear(h, word) =>
      s.(consumer := Advance(h, word), entries := s.entries[h % QUEUE_SIZE := 0])
    case Advance(h, word) =>
      s.(consumer := PopHead, head := Inc32(h), popped := s.popped + [Unpack(word)])
  }

  ghost predicate Next(s: State, s': State)
  {
    exists step :: Enabled(s, step) && s' == Apply(s, step)
  }

  ghost predicate IsRun(run: seq<State>)
  {
    && |run| > 0
    && Init(run[0])
    && forall i :: 0 <= i < |run| - 1 ==> Next(run[i], run[i + 1])
  }

  // ---------- The wrap of the counters ----------

  /** Some multiple of 2^32 lies strictly inside the window of live tickets. */
  predicate Straddles(low: nat, high: nat)
  {
    low < high && low / WRAP < (high - 1) / WRAP
  }

  /** Two tickets fewer than 510 apart share an entry exactly when they lie on
      different sides of a wrap and are 256 apart. */
  lemma SameEntry(a: nat, b: nat)
    requires a < b < a + QUEUE_SIZE
    ensures Index(a) == Index(b) <==> a / WRAP != b / WRAP && b == a + 256
  {
    var ra, rb, d := a % WRAP, b % WRAP, b - a;
    if a / WRAP == b / WRAP {
      SameResidue(ra, rb);
    } else {
      // 2^32 is 256 above a multiple of 510
      var k := 8421504;
      assert WRAP == k * QUEUE_SIZE + 256 && ra + d == rb + k * QUEUE_SIZE + 256;
      Residue(rb, k);
      if d > 256 {
        SameResidue(ra, ra + d - 256);
      } else if d < 256 {
        SameResidue(rb + k * QUEUE_SIZE, ra);
      }
    }
  }

  lemma SameResidue(x: nat, y: nat)
    requires x < y < x + QUEUE_SIZE
    ensures x % QUEUE_SIZE != y % QUEUE_SIZE
  {}

  lemma Residue(x: nat, k: nat)
    ensures (x + k * QUEUE_SIZE) % QUEUE_SIZE == x % QUEUE_SIZE
  {}

  ghost predicate Distinct(low: nat, high: nat)
  {
    forall a, b :: low <= a < b < high ==> Index(a) != Index(b)
  }

  /** The fullness test admits 509 tickets, but across a wrap their entries are
      distinct only up to 256: this is the exact condition. */
  lemma WindowDistinct(low: nat, high: nat)
    requires low <= high < low + QUEUE_SIZE
    ensures Distinct(low, high) <==> !Straddles(low, high) || high - low <= 256
  {
    if Straddles(low, high) && high - low > 256 {
      var w := (high - 1) / WRAP * WRAP;
      assert low < w < high && w / WRAP == (w - 1) / WRAP + 1;
      var a := if w - 256 >= low then w - 256 else low;
      assert a < w <= a + 256 < high;
      DifferentSides(a, w, a + 256);
      SameEntry(a, a + 256);
    } else {
      forall a, b | low <= a < b < high ensures Index(a) != Index(b) {
        SameEntry(a, b);
      }
    }
  }

  lemma DifferentSides(a: nat, w: nat, b: nat)
    requires w % WRAP == 0 && a < w <= b
    ensures a / WRAP < b / WRAP
  {}

  // ---------- The invariant ----------

  /** What a run has to grant: no producer sleeps through 2^32 reservations
      between loading `head` and its CAS, and at most 256 tickets are live while
      the window straddles a wrap. Both hold of themselves below the first wrap. */
  ghost predicate Admissible(s: State)
  {
    && (forall p :: p in s.producers ==>
          match s.producers[p]
          case LoadTail(_, _, _, seenHead) => |s.reserved| < seenHead + WRAP
          case TryCas(_, _, _, _, seenHead, _) => |s.reserved| < seenHead + WRAP
          case _ => true)
    && (Straddles(|s.popped|, |s.reserved|) ==> |s.reserved| - |s.popped| <= 256)
  }

  /** Ticket `k` is reserved but its entry is not written yet. */
  predicate Pending(s: State, k: nat)
  {
    && k < |s.owner| && s.owner[k] in s.producers
    && s.producers[s.owner[k]].Store? && s.producers[s.owner[k]].ticket == k
  }

  /** The producer of ticket `k` has not yet written the eventfd. */
  predicate Unnotified(s: State, k: nat)
  {
    && k < |s.owner| && s.owner[k] in s.producers
    && (s.producers[s.owner[k]].Store? || s.producers[s.owner[k]].Notify?)
    && s.producers[s.owner[k]].ticket == k
  }

  predicate Counters(s: State)
  {
    && s.head == |s.popped| % WRAP && s.tail == |s.reserved| % WRAP
    && |s.owner| == |s.reserved| && |s.entries| == QUEUE_SIZE
    && |s.popped| <= |s.reserved| <= |s.popped| + QUEUE_SIZE - 1
  }

  predicate ProducerOk(s: State, p: nat)
    requires p in s.producers && |s.owner| == |s.reserved|
  {
    match s.producers[p]
    case Idle => true
    case LoadHead(_, _) => true
    case LoadTail(_, _, h, seenHead) => seenHead <= |s.popped| && h == seenHead % WRAP
    case TryCas(_, _, h, t, seenHead, seenTail) =>
      && seenHead <= |s.popped| && seenHead <= seenTail <= |s.reserved|
      && h == seenHead % WRAP && t == seenTail % WRAP
      && Sub32(t, h) < QUEUE_SIZE - 1
    case Store(m, t, k) =>
      && |s.popped| <= k < |s.reserved| && t == k % WRAP
      && s.owner[k] == p && s.reserved[k] == m
    case Notify(k) => k < |s.reserved| && s.owner[k] == p
  }

  predicate ProducersOk(s: State)
    requires |s.owner| == |s.reserved|
  {
    forall p :: p in s.producers ==> ProducerOk(s, p)
  }

  function Expected(s: State, k: nat): (w: int)
    requires k < |s.reserved|
  {
    if Pending(s, k) || (k == |s.popped| && s.consumer.Advance?) then 0 else Pack(s.reserved[k])
  }

  predicate LiveEntries(s: State)
    requires |s.entries| == QUEUE_SIZE
  {
    forall k :: |s.popped| <= k < |s.reserved| ==> s.entries[Index(k)] == Expected(s, k)
  }

  predicate FreeEntries(s: State)
    requires |s.entries| == QUEUE_SIZE
  {
    forall e :: 0 <= e < QUEUE_SIZE && s.entries[e] != 0 ==>
      exists k :: |s.popped| <= k < |s.reserved| && Index(k) == e
  }

  predicate ConsumerOk(s: State)
    requires |s.entries| == QUEUE_SIZE
  {
    match s.consumer
    case Wait => true
    case PopHead => true
    case PopTail(h) => h == s.head
    case Spin(h, _) => h == s.head && |s.popped| < |s.reserved|
    case Clear(h, word) =>
      && h == s.head && |s.popped| < |s.reserved| && !Pending(s, |s.popped|)
      && word == Pack(s.reserved[|s.popped|])
    case Advance(h, word) =>
      && h == s.head && |s.popped| < |s.reserved| && !Pending(s, |s.popped|)
      && word == Pack(s.reserved[|s.popped|])
  }

  /** The popped messages are the oldest reserved ones, in order. */
  predicate PoppedIsPrefix(s: State)
  {
    && |s.popped| <= |s.reserved|
    && forall i :: 0 <= i < |s.popped| ==> s.popped[i] == Seen(s.reserved[i])
  }

  /** A consumer asleep on a zero eventfd is owed a wakeup for what is queued:
      by the producer of the oldest entry in any case, and by the producers of
      all entries when `Pop` never gives up. */
  predicate WakeupOwed(s: State)
  {
    s.consumer == Wait && s.event == 0 ==>
      && (|s.popped| < |s.reserved| ==> Unnotified(s, |s.popped|))
      && (s.patience == None ==>
            forall k :: |s.popped| <= k < |s.reserved| ==> Unnotified(s, k))
  }

  predicate Inv(s: State)
  {
    && Counters(s)
    && ProducersOk(s)
    && LiveEntries(s)
    && FreeEntries(s)
    && ConsumerOk(s)
    && PoppedIsPrefix(s)
    && WakeupOwed(s)
  }

  lemma InitInv(s: State)
    requires Init(s)
    ensures Inv(s)
  {}

  // ---------- Each step keeps the invariant ----------

  lemma PackReady(m: Msg)
    ensures Ready(Pack(m)) && Pack(m) != 0 && Unpack(Pack(m)) == Seen(m)
  {
    var c := m.cmd % READY + READY;
    assert Pack(m) / WRAP == c && Pack(m) % WRAP == m.slot;
  }

  lemma NotReadyZero()
    ensures !Ready(0)
  {}

  /** A step that moves only a producer that holds no ticket and owes no
      notification, before and after. */
  lemma QuietStepKeeps(s: State, p: nat, q: Producer)
    requires Inv(s) && p in s.producers
    requires !s.producers[p].Store? && !s.producers[p].Notify? && !q.Store? && !q.Notify?
    requires ProducerOk(SetProducer(s, p, q), p)
    ensures Inv(SetProducer(s, p, q))
  {
    hide Index, Pack, Sub32;
    var s' := SetProducer(s, p, q);
    assert forall k :: Pending(s', k) == Pending(s, k) && Unnotified(s', k) == Unnotified(s, k);
    forall r | r in s'.producers ensures ProducerOk(s', r) {
      if r != p { assert ProducerOk(s, r); }
    }
  }

  lemma LoadKeeps(s: State, p: nat)
    requires Inv(s) && p in s.producers
    requires s.producers[p].LoadHead? || s.producers[p].LoadTail?
    ensures Inv(ProducerStep(s, p))
  {
    assert ProducerOk(s, p);
    QuietStepKeeps(s, p, ProducerStep(s, p).producers[p]);
  }

  /** Although the `head` a producer compared with may be stale, the ring has room
      whenever its CAS succeeds. */
  lemma CasHasRoom(s: State, p: nat)
    requires Inv(s) && Admissible(s) && p in s.producers
    requires s.producers[p].TryCas? && s.tail == s.producers[p].t
    ensures |s.reserved| - |s.popped| < QUEUE_SIZE - 1
  {
    var q := s.producers[p];
    assert ProducerOk(s, p);
    SameCounter(q.seenHead, q.seenTail, |s.reserved|);
  }

  lemma SameCounter(h: nat, t: nat, t': nat)
    requires h <= t <= t' < h + WRAP && t % WRAP == t' % WRAP
    ensures t == t' && (t % WRAP - h % WRAP) % WRAP == t - h
  {
    assert t' - t == (t' / WRAP - t / WRAP) * WRAP;
    assert t % WRAP - h % WRAP == t - h - (t / WRAP - h / WRAP) * WRAP;
  }

  lemma CasWonKeeps(s: State, p: nat)
    requires Inv(s) && Admissible(s) && p in s.producers
    requires s.producers[p].TryCas? && s.tail == s.producers[p].t
    requires Admissible(ProducerStep(s, p))
    ensures Inv(ProducerStep(s, p))
  {
    var s' := ProducerStep(s, p);
    var k := |s.reserved|;
    CasHasRoom(s, p);
    NextCounter(k);
    NewEntryIsFree(s, k);
    assert s' == SetProducer(s, p, Store(s.producers[p].m, s.tail, k)).(
      tail := Inc32(s.tail), reserved := s.reserved + [s.producers[p].m], owner := s.owner + [p]);
    hide Index, Pack, Sub32, Straddles, Admissible, ProducerStep, LiveEntries, FreeEntries;
    assert Pending(s', k) && Unnotified(s', k);
    assert forall j: nat :: j < k ==> Pending(s', j) == Pending(s, j) && Unnotified(s', j) == Unnotified(s, j);
    ReservedEntries(s, s', s.producers[p].m);
    forall q | q in s'.producers ensures ProducerOk(s', q) {
      assert ProducerOk(s, q);
    }
  }

  /** The entries after a reservation, whose own entry is still clear. */
  lemma ReservedEntries(s: State, s': State, m: Msg)
    requires |s.entries| == QUEUE_SIZE && |s.popped| <= |s.reserved| && LiveEntries(s) && FreeEntries(s)
    requires s'.entries == s.entries && s'.popped == s.popped && s'.consumer == s.consumer
    requires s'.reserved == s.reserved + [m] && s.entries[Index(|s.reserved|)] == 0 && Pending(s', |s.reserved|)
    requires forall j: nat :: j < |s.reserved| ==> Pending(s', j) == Pending(s, j)
    ensures LiveEntries(s') && FreeEntries(s')
  {
    hide Index, Pack, Pending;
    forall j | |s'.popped| <= j < |s'.reserved| ensures s'.entries[Index(j)] == Expected(s', j) {
      if j < |s.reserved| { assert s.entries[Index(j)] == Expected(s, j); }
    }
    forall e | 0 <= e < QUEUE_SIZE && s'.entries[e] != 0
      ensures exists j :: |s'.popped| <= j < |s'.reserved| && Index(j) == e
    {
      var j :| |s.popped| <= j < |s.reserved| && Index(j) == e;
    }
  }

  lemma NewEntryIsFree(s: State, k: nat)
    requires Inv(s) && k == |s.reserved| && k + 1 - |s.popped| < QUEUE_SIZE
    requires Straddles(|s.popped|, k + 1) ==> k + 1 - |s.popped| <= 256
    ensures s.entries[Index(k)] == 0
  {
    WindowDistinct(|s.popped|, k + 1);
  }

  lemma StoreKeeps(s: State, p: nat)
    requires Inv(s) && Admissible(s) && p in s.producers && s.producers[p].Store?
    ensures Inv(ProducerStep(s, p))
  {
    var s' := ProducerStep(s, p);
    var k := s.producers[p].ticket;
    assert ProducerOk(s, p);
    assert s'.entries == s.entries[Index(k) := Pack(s.reserved[k])];
    WindowDistinct(|s.popped|, |s.reserved|);
    hide Index, Pack, Sub32, Straddles;
    assert forall j :: j != k ==> Pending(s', j) == Pending(s, j);
    assert forall j :: Unnotified(s', j) == Unnotified(s, j);
    assert Pending(s, k) && !Pending(s', k);
    assert LiveEntries(s');
    forall e | 0 <= e < QUEUE_SIZE && s'.entries[e] != 0
      ensures exists j :: |s'.popped| <= j < |s'.reserved| && Index(j) == e
    {
      if e == Index(k) {
        assert |s'.popped| <= k < |s'.reserved| && Index(k) == e;
      } else {
        assert s.entries[e] != 0;
      }
    }
  }

  lemma NotifyKeeps(s: State, p: nat)
    requires Inv(s) && p in s.producers && s.producers[p].Notify?
    ensures Inv(ProducerStep(s, p))
  {
    hide Index, Pack, Sub32, Straddles;
    var s' := ProducerStep(s, p);
    assert forall k :: Pending(s', k) == Pending(s, k);
  }

  /** The consumer's loads, its wait and its giving up. */
  lemma ConsumerLoadKeeps(s: State)
    requires Inv(s) && Admissible(s) && !s.consumer.Clear? && !s.consumer.Advance?
    ensures Inv(ConsumerStep(s))
  {
    hide Pack, Ready, Sub32, Straddles;
    var s' := ConsumerStep(s);
    assert forall k :: Pending(s', k) == Pending(s, k) && Unnotified(s', k) == Unnotified(s, k);
    EqualCounters(|s.popped|, |s.reserved|);
    if s.consumer.Spin? {
      var h := |s.popped|;
      NotReadyZero();
      PackReady(s.reserved[h]);
      assert s.entries[Index(h)] == Expected(s, h);
      assert Pending(s, h) ==> Unnotified(s', h);
    }
  }

  lemma EqualCounters(h: nat, t: nat)
    requires h <= t < h + QUEUE_SIZE
    ensures h % WRAP == t % WRAP <==> h == t
  {}

  lemma NextCounter(k: nat)
    ensures (k % WRAP + 1) % WRAP == (k + 1) % WRAP
  {}

  lemma ClearKeeps(s: State)
    requires Inv(s) && Admissible(s) && s.consumer.Clear?
    ensures Inv(ConsumerStep(s))
  {
    hide Pack, Sub32;
    var s' := ConsumerStep(s);
    assert forall k :: Pending(s', k) == Pending(s, k) && Unnotified(s', k) == Unnotified(s, k);
    WindowDistinct(|s.popped|, |s.reserved|);
    assert s'.entries == s.entries[Index(|s.popped|) := 0];
    forall e | 0 <= e < QUEUE_SIZE && s'.entries[e] != 0
      ensures exists j :: |s'.popped| <= j < |s'.reserved| && Index(j) == e
    {
      assert s.entries[e] != 0;
    }
  }

  lemma AdvanceKeeps(s: State)
    requires Inv(s) && Admissible(s) && s.consumer.Advance?
    ensures Inv(ConsumerStep(s))
  {
    hide Index, Pack, Unpack, Sub32;
    var s' := ConsumerStep(s);
    var h := |s.popped|;
    assert forall k :: Pending(s', k) == Pending(s, k);
    NextCounter(h);
    PackReady(s.reserved[h]);
    forall e | 0 <= e < QUEUE_SIZE && s'.entries[e] != 0
      ensures exists j :: |s'.popped| <= j < |s'.reserved| && Index(j) == e
    {
      var j :| |s.popped| <= j < |s.reserved| && Index(j) == e;
      assert s.entries[Index(h)] == 0;
    }
    forall p | p in s'.producers ensures ProducerOk(s', p) {
      assert ProducerOk(s, p);
    }
  }

  lemma StepKeeps(s: State, step: Step)
    requires Inv(s) && Enabled(s, step) && Admissible(s) && Admissible(Apply(s, step))
    ensures Inv(Apply(s, step))
  {
    match step
    case Begin(p, m, budget) => QuietStepKeeps(s, p, LoadHead(m, budget));
    case Consume =>
      if s.consumer.Clear? { ClearKeeps(s); }
      else if s.consumer.Advance? { AdvanceKeeps(s); }
      else { ConsumerLoadKeeps(s); }
    case Produce(p) =>
      match s.producers[p]
      case LoadHead(_, _) => LoadKeeps(s, p);
      case LoadTail(_, _, _, _) => LoadKeeps(s, p);
      case TryCas(_, _, _, _, _, _) =>
        if s.tail == s.producers[p].t {
          CasWonKeeps(s, p);
        } else {
          QuietStepKeeps(s, p, LoadHead(s.producers[p].m, s.producers[p].budget));
        }
      case Store(_, _, _) => StoreKeeps(s, p);
      case Notify(_) => NotifyKeeps(s, p);
  }

  // ---------- Whole runs ----------

  lemma {:induction false} RunKeepsInv(run: seq<State>, i: nat)
    requires IsRun(run) && i < |run|
    requires forall j :: 0 <= j <= i ==> Admissible(run[j])
    ensures Inv(run[i])
  {
    if i == 0 {
      InitInv(run[0]);
    } else {
      RunKeepsInv(run, i - 1);
      assert Next(run[i - 1], run[i - 1 + 1]);
      var step :| Enabled(run[i - 1], step) && run[i] == Apply(run[i - 1], step);
      StepKeeps(run[i - 1], step);
    }
  }

  lemma {:induction false} RunOnlyAppends(run: seq<State>, i: nat, j: nat)
    requires IsRun(run) && i <= j < |run|
    ensures run[i].reserved <= run[j].reserved && run[i].popped <= run[j].popped
    decreases j
  {
    if i < j {
      RunOnlyAppends(run, i, j - 1);
      assert Next(run[j - 1], run[j - 1 + 1]);
    }
  }

  /** The queue that the shared words stand for. */
  function Queue(s: State): (q: seq<Msg>)
    requires |s.popped| <= |s.reserved|
  {
    s.reserved[|s.popped|..]
  }

  /** Each step of the ring is a step of a plain bounded FIFO queue or leaves it
      alone: a won CAS enqueues, the store to `head` dequeues the oldest message
      and hands out exactly that one, and "empty" is answered only when the queue
      is empty at that moment. */
  lemma StepRefinesFifo(s: State, step: Step)
    requires Inv(s) && Admissible(s) && Enabled(s, step)
    ensures var s' := Apply(s, step);
      if step.Produce? && s.producers[step.p].TryCas? && s.tail == s.producers[step.p].t then
        && |Queue(s)| < QUEUE_SIZE - 1
        && Queue(s') == Queue(s) + [s.producers[step.p].m] && s'.popped == s.popped
      else if step.Consume? && s.consumer.Advance? then
        && Queue(s) != [] && Queue(s') == Queue(s)[1..]
        && s'.popped == s.popped + [Seen(Queue(s)[0])]
      else
        Queue(s') == Queue(s) && s'.popped == s.popped
    ensures step.Consume? && s.consumer.PopTail? ==>
      (Apply(s, step).consumer == Wait <==> Queue(s) == [])
  {
    if step.Produce? && s.producers[step.p].TryCas? && s.tail == s.producers[step.p].t {
      CasHasRoom(s, step.p);
    } else if step.Consume? && s.consumer.Advance? {
      PackReady(s.reserved[|s.popped|]);
    } else if step.Consume? && s.consumer.PopTail? {
      EqualCounters(|s.popped|, |s.reserved|);
    }
  }

  /** A pop that found the queue not empty gives up exactly when its patience is at an end and
      the producer of the oldest entry has reserved it but not stored it yet. */
  lemma GivesUpIff(s: State)
    requires Inv(s) && s.consumer.Spin?
    ensures Queue(s) != []
    ensures ConsumerStep(s).consumer == Wait <==>
      s.patience.Some? && s.consumer.spins >= s.patience.value && Pending(s, |s.popped|)
  {
    hide FreeEntries, ProducersOk, WakeupOwed, Pack, Straddles;
    var k := |s.popped|;
    PackReady(s.reserved[k]);
    SameIndex(s);
    assert s.entries[Index(k)] == Expected(s, k);
  }

  lemma SameIndex(s: State)
    requires Inv(s) && s.consumer.Spin?
    ensures s.consumer.h % QUEUE_SIZE == Index(|s.popped|)
  {}

  /** Every run that grants `Admissible` hands the consumer the messages in the
      order of their tail CAS, each once, with none lost or overwritten: live
      entries hold the message of their ticket or zero until it is stored. */
  lemma RunRefinesFifo(run: seq<State>, i: nat, j: nat)
    requires IsRun(run) && i <= j < |run|
    requires forall n :: 0 <= n < |run| ==> Admissible(run[n])
    ensures PoppedIsPrefix(run[j]) && Counters(run[j]) && LiveEntries(run[j])
    ensures run[i].popped <= run[j].popped && run[i].reserved <= run[j].reserved
  {
    RunKeepsInv(run, j);
    RunOnlyAppends(run, i, j);
  }

  /** Fewer than 2^32 pushes need no hypothesis at all. */
  lemma RunBelowWrapRefinesFifo(run: seq<State>, i: nat, j: nat)
    requires IsRun(run) && i <= j < |run|
    requires |run[|run| - 1].reserved| < WRAP
    ensures PoppedIsPrefix(run[j]) && Counters(run[j]) && LiveEntries(run[j])
    ensures run[i].popped <= run[j].popped && run[i].reserved <= run[j].reserved
  {
    forall n | 0 <= n < |run| ensures Admissible(run[n]) { BelowWrapIsAdmissible(run, n); }
    RunRefinesFifo(run, i, j);
  }

  /** No wakeup is lost: once no producer is inside a push or owes a notification
      and the consumer sleeps on a zero eventfd, all that was pushed was popped. */
  lemma QuiescentMeansDrained(run: seq<State>, i: nat)
    requires IsRun(run) && i < |run|
    requires forall n :: 0 <= n < |run| ==> Admissible(run[n])
    requires run[i].consumer == Wait && run[i].event == 0
    requires forall p :: p in run[i].producers ==> run[i].producers[p] == Idle
    ensures |run[i].popped| == |run[i].reserved|
    ensures forall k :: 0 <= k < |run[i].reserved| ==> run[i].popped[k] == Seen(run[i].reserved[k])
  {
    RunKeepsInv(run, i);
  }

  /** The sleeping Go consumer is owed a notification for every queued entry. */
  lemma SleepingConsumerIsOwed(run: seq<State>, i: nat, k: nat)
    requires IsRun(run) && i < |run|
    requires forall n :: 0 <= n < |run| ==> Admissible(run[n])
    requires run[i].consumer == Wait && run[i].event == 0
    requires |run[i].popped| <= k < |run[i].reserved|
    requires run[i].patience == None || k == |run[i].popped|
    ensures k < |run[i].owner| && run[i].owner[k] in run[i].producers
    ensures var q := run[i].producers[run[i].owner[k]];
      (q.Store? || q.Notify?) && q.ticket == k
  {
    RunKeepsInv(run, i);
    assert Unnotified(run[i], k);
  }

  lemma BelowWrapIsAdmissible(run: seq<State>, i: nat)
    requires IsRun(run) && i < |run| && |run[|run| - 1].reserved| < WRAP
    ensures Admissible(run[i])
  {
    RunOnlyAppends(run, i, |run| - 1);
  }

  /** With fewer than 2^32 pushes the two wakeup laws need no hypothesis on the run. */
  lemma BelowWrapMeansDrained(run: seq<State>, i: nat)
    requires IsRun(run) && i < |run| && |run[|run| - 1].reserved| < WRAP
    requires run[i].consumer == Wait && run[i].event == 0
    requires forall p :: p in run[i].producers ==> run[i].producers[p] == Idle
    ensures |run[i].popped| == |run[i].reserved|
    ensures forall k :: 0 <= k < |run[i].reserved| ==> run[i].popped[k] == Seen(run[i].reserved[k])
  {
    forall n | 0 <= n < |run| ensures Admissible(run[n]) { BelowWrapIsAdmissible(run, n); }
    QuiescentMeansDrained(run, i);
  }

  lemma BelowWrapIsOwed(run: seq<State>, i: nat, k: nat)
    requires IsRun(run) && i < |run| && |run[|run| - 1].reserved| < WRAP
    requires run[i].consumer == Wait && run[i].event == 0
    requires |run[i].popped| <= k < |run[i].reserved|
    requires run[i].patience == None || k == |run[i].popped|
    ensures k < |run[i].owner| && run[i].owner[k] in run[i].producers
    ensures var q := run[i].producers[run[i].owner[k]]; (q.Store? || q.Notify?) && q.ticket == k
  {
    forall n | 0 <= n < |run| ensures Admissible(run[n]) { BelowWrapIsAdmissible(run, n); }
    SleepingConsumerIsOwed(run, i, k);
  }

  function ConsumerSteps(s: State, n: nat): (r: State)
    requires |s.entries| == QUEUE_SIZE
    ensures |r.entries| == QUEUE_SIZE
    decreases n
  {
    if n == 0 then s else ConsumerSteps(ConsumerStep(s), n - 1)
  }

  /** A pop that finds the ready word `Pack(m)` in the entry at `head` returns `m`. */
  lemma PopReturns(s: State, m: Msg)
    requires |s.entries| == QUEUE_SIZE && s.consumer == PopHead && s.head != s.tail
    requires s.entries[s.head % QUEUE_SIZE] == Pack(m)
    ensures var r := ConsumerSteps(s, 5);
      r.popped == s.popped + [Seen(m)] && r.reserved == s.reserved
  {
    PackReady(m);
    hide Pack, Ready, Unpack;
    var c1 := ConsumerStep(s);
    var c2 := ConsumerStep(c1);
    var c3 := ConsumerStep(c2);
    var c4 := ConsumerStep(c3);
    var c5 := ConsumerStep(c4);
    assert c4.consumer == Advance(s.head, Pack(m));
    assert ConsumerSteps(c3, 2) == ConsumerSteps(c4, 1) == ConsumerSteps(c5, 0);
    assert ConsumerSteps(s, 5) == ConsumerSteps(c1, 4) == ConsumerSteps(c2, 3) == ConsumerSteps(c3, 2);
  }
}
