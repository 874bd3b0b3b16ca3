/** What becomes of the ring when its 32-bit counters wrap (go/shm/control.go): exactly
    when a push overwrites a live entry, and a run in which one does. */
module RingWrap {
  import opened Layout
  import opened Ring

  /** A producer is about to win its CAS on `tail`. */
  predicate AboutToWin(s: State, p: nat)
  {
    p in s.producers && s.producers[p].TryCas? && s.tail == s.producers[p].t
  }

  predicate Safe(low: nat, high: nat) { Straddles(low, high) ==> high - low <= 256 }

  /** A won reservation gets an entry that no live ticket uses if and only if its window
      straddles no wrap or holds at most 256 tickets. */
  lemma ReservationIsSafeIff(s: State, p: nat)
    requires Inv(s) && Admissible(s) && AboutToWin(s, p)
    ensures var k := |s.reserved|;
      (forall j :: |s.popped| <= j < k ==> Index(j) != Index(k)) <==> Safe(|s.popped|, k + 1)
  {
    hide LiveEntries, FreeEntries, ProducersOk, WakeupOwed, ConsumerOk;
    CasHasRoom(s, p);
    var low, k := |s.popped|, |s.reserved|;
    if Safe(low, k + 1) {
      WindowDistinct(low, k + 1);
    } else {
      OtherSide(low, k);
      SameEntry(k - 256, k);
    }
  }

  /** In an unsafe window ticket `k - 256` is live and on the other side of the wrap. */
  lemma OtherSide(low: nat, k: nat)
    requires Safe(low, k) && !Safe(low, k + 1) && k - low < QUEUE_SIZE - 1
    ensures low <= k - 256 && (k - 256) / WRAP != k / WRAP
  {}

  /** Every unsafe push, whatever the wrap and the window, destroys the entry of ticket
      `k - 256` if that was stored with another word. */
  lemma UnsafePushOverwrites(s: State, p: nat)
    requires Inv(s) && Admissible(s) && AboutToWin(s, p)
    requires !Safe(|s.popped|, |s.reserved| + 1)
    requires var j := |s.reserved| - 256; 0 <= j && !Pending(s, j) && !(j == |s.popped| && s.consumer.Advance?)
    requires Pack(s.producers[p].m) != Pack(s.reserved[|s.reserved| - 256])
    ensures var r := ProducerStep(ProducerStep(s, p), p); |r.entries| == QUEUE_SIZE && !LiveEntries(r)
  {
    hide FreeEntries, ProducersOk, WakeupOwed, ConsumerOk, Pack, Straddles;
    CasHasRoom(s, p);
    var k, m := |s.reserved|, s.producers[p].m;
    var j := k - 256;
    OtherSide(|s.popped|, k);
    SameEntry(j, k);
    var s1 := ProducerStep(s, p);
    assert s1.producers[p] == Store(m, s.tail, k);
    var r := ProducerStep(s1, p);
    assert s.tail % QUEUE_SIZE == Index(k) == Index(j);
    assert r.entries[Index(j)] == Pack(m);
    StillStored(s, p, j);
    assert Expected(r, j) == Pack(s.reserved[j]);
  }

  lemma StillStored(s: State, p: nat, j: nat)
    requires Inv(s) && AboutToWin(s, p) && j < |s.reserved| && !Pending(s, j)
    ensures !Pending(ProducerStep(ProducerStep(s, p), p), j)
  {
    hide LiveEntries, FreeEntries, ProducersOk, WakeupOwed, ConsumerOk, Pack, Index;
    var s1 := ProducerStep(s, p);
    assert s1.producers[p] == Store(s.producers[p].m, s.tail, |s.reserved|);
  }

  // ---------- A run that gets there ----------

  ghost predicate Reachable(s: State)
  {
    exists run :: IsRun(run) && run[|run| - 1] == s
  }

  lemma ReachStep(s: State, step: Step)
    requires Reachable(s) && Enabled(s, step)
    ensures Reachable(Apply(s, step))
  {
    hide Enabled, Apply, Init;
    var run :| IsRun(run) && run[|run| - 1] == s;
    var more := run + [Apply(s, step)];
    assert Next(s, Apply(s, step));
    forall i | 0 <= i < |more| - 1 ensures Next(more[i], more[i + 1]) {
      if i < |run| - 1 { assert Next(run[i], run[i + 1]); }
    }
    assert IsRun(more) && more[|more| - 1] == Apply(s, step);
  }

  /** Producer 0 is idle, the consumer is about to pop, and there is room. */
  predicate Calm(s: State)
  {
    && |s.entries| == QUEUE_SIZE && 0 in s.producers && s.producers[0] == Idle && s.consumer == PopHead
    && Sub32(s.tail, s.head) < QUEUE_SIZE - 1
  }

  /** A whole push by producer 0, undisturbed. */
  function Pushed(s: State, m: Msg): (r: State)
    requires |s.entries| == QUEUE_SIZE
  {
    s.(tail := Inc32(s.tail), entries := s.entries[s.tail % QUEUE_SIZE := Pack(m)],
       reserved := s.reserved + [m], owner := s.owner + [0], event := s.event + 1)
  }

  lemma ReachPush(s: State, m: Msg)
    requires Reachable(s) && Calm(s)
    ensures Reachable(Pushed(s, m))
  {
    hide Reachable, Pack, Sub32, Inc32;
    ReachStep(s, Begin(0, m, 0));
    var s1 := Apply(s, Begin(0, m, 0));
    ReachStep(s1, Produce(0));
    var s2 := ProducerStep(s1, 0);
    ReachStep(s2, Produce(0));
    var s3 := ProducerStep(s2, 0);
    assert s3.producers[0] == TryCas(m, 0, s.head, s.tail, |s.popped|, |s.reserved|);
    ReachStep(s3, Produce(0));
    var s4 := ProducerStep(s3, 0);
    ReachStep(s4, Produce(0));
    var s5 := ProducerStep(s4, 0);
    ReachStep(s5, Produce(0));
    var s6 := ProducerStep(s5, 0);
    assert s6.producers == s.producers;
    assert s6 == Pushed(s, m);
  }

  /** A whole pop of a stored message, undisturbed. */
  function AfterPop(s: State, m: Msg): (r: State)
    requires |s.entries| == QUEUE_SIZE
  {
    s.(head := Inc32(s.head), entries := s.entries[s.head % QUEUE_SIZE := 0], popped := s.popped + [Seen(m)])
  }

  lemma ReachPop(s: State, m: Msg)
    requires Reachable(s) && |s.entries| == QUEUE_SIZE && s.consumer == PopHead && s.head != s.tail
    requires s.entries[s.head % QUEUE_SIZE] == Pack(m)
    ensures Reachable(AfterPop(s, m))
  {
    PackReady(m);
    hide Reachable, Pack, Ready, Unpack, Inc32;
    ReachStep(s, Consume);
    var s1 := ConsumerStep(s);
    ReachStep(s1, Consume);
    var s2 := ConsumerStep(s1);
    ReachStep(s2, Consume);
    var s3 := ConsumerStep(s2);
    ReachStep(s3, Consume);
    var s4 := ConsumerStep(s3);
    ReachStep(s4, Consume);
    assert ConsumerStep(s4) == AfterPop(s, m);
  }

  const FIRST := Msg(0, 1)
  const LATER := Msg(1, 1)

  /** After `n` messages were pushed and popped one by one. */
  function Rest(n: nat): (s: State)
  {
    State(n % WRAP, n % WRAP, seq(QUEUE_SIZE, i => 0), map[0 := Idle], PopHead, n, None,
          seq(n, i => FIRST), seq(n, i => 0), seq(n, i => Seen(FIRST)))
  }

  lemma {:induction false} ReachRest(n: nat)
    ensures Reachable(Rest(n))
  {
    if n == 0 {
      var run := [Rest(0)];
      assert IsRun(run) && run[|run| - 1] == Rest(0);
    } else {
      ReachRest(n - 1);
      RestStep(n - 1);
    }
  }

  lemma RestStep(n: nat)
    requires Reachable(Rest(n))
    ensures Reachable(Rest(n + 1))
  {
    hide Reachable, Pack, Seen;
    var s := Rest(n);
    ReachPush(s, FIRST);
    var s1 := Pushed(s, FIRST);
    NextCounter(n);
    assert s1.head != s1.tail;
    ReachPop(s1, FIRST);
    var s2 := AfterPop(s1, FIRST);
    assert s2.entries == Rest(n + 1).entries;
    assert s2.reserved == Rest(n + 1).reserved && s2.owner == Rest(n + 1).owner && s2.popped == Rest(n + 1).popped;
    assert s2 == Rest(n + 1);
  }

  const LAST := WRAP - 256

  /** After that, `j` messages were pushed up to the wrap and not popped. */
  ghost predicate Loaded(s: State, j: nat)
  {
    && Reachable(s) && Calm(s) && |s.popped| == LAST && |s.reserved| == LAST + j
    && s.head == LAST && s.tail == (LAST + j) % WRAP
    && (j > 0 ==> s.entries[0] == Pack(FIRST) && s.reserved[LAST] == FIRST)
  }

  lemma LoadedEntry(j: nat)
    requires j < 256
    ensures (LAST + j) % WRAP % QUEUE_SIZE == j && LAST % QUEUE_SIZE == 0
    ensures Sub32((LAST + j) % WRAP, LAST) == j
  {
    assert LAST == 8421504 * QUEUE_SIZE;
  }

  lemma {:induction false} ReachLoaded(j: nat) returns (s: State)
    requires j <= 256
    ensures Loaded(s, j)
  {
    hide Reachable, Pack;
    if j == 0 {
      ReachRest(LAST);
      s := Rest(LAST);
    } else {
      var s0 := ReachLoaded(j - 1);
      s := LoadOne(s0, j - 1);
    }
  }

  lemma LoadOne(s0: State, j: nat) returns (s: State)
    requires Loaded(s0, j) && j < 256
    ensures Loaded(s, j + 1)
  {
    hide Reachable, Pack, Sub32;
    LoadedEntry(j);
    ReachPush(s0, FIRST);
    s := Pushed(s0, FIRST);
    NextCounter(LAST + j);
    assert Sub32(s.tail, s.head) == j + 1 by { NextDistance(j); }
  }

  lemma NextDistance(j: nat)
    requires j < 256
    ensures Sub32((LAST + j + 1) % WRAP, LAST) == j + 1
  {}

  /** The queue law fails in a run of the ring itself: with 256 messages waiting across
      the wrap the next push overwrites the oldest, and pop hands out the newest first. */
  lemma QueueLawFailsAtWrap() returns (r: State)
    ensures Reachable(r) && |r.reserved| == WRAP + 1 && !PoppedIsPrefix(r)
  {
    hide Reachable, Pack;
    var s := ReachLoaded(256);
    assert s.tail == 0 && LAST % QUEUE_SIZE == 0 by { LoadedEntry(0); }
    ReachPush(s, LATER);
    var s1 := Pushed(s, LATER);
    ReachPop(s1, LATER);
    r := AfterPop(s1, LATER);
    assert r.popped[LAST] == Seen(LATER) && r.reserved[LAST] == FIRST;
  }
}
