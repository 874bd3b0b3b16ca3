/** The slot registry and the limit on its use (go/shm/control.go, go/hub/hub.go,
    go/hub/conn.go): the probe of AllocSlot, and the tokens of the `limit` channel. */
module Slots {
  import opened Layout

  datatype Status = Idle | Busy | Ready | Done

  /** The slot that probe `i` looks at: unsigned 32-bit arithmetic on the cursor value. */
  function Probe(start: U32, i: nat): (k: nat)
  {
    (start + i - 1) % WRAP % MAX_TOTAL_SLOTS + 1
  }

  /** The probe that looks at slot `k`. */
  function Turn(start: U32, k: nat): (i: nat)
  {
    (k - start) % MAX_TOTAL_SLOTS
  }

  predicate IsSlot(k: int) { 1 <= k <= MAX_TOTAL_SLOTS }

  /** The wrap of the cursor does not disturb the order: 4096 divides 2^32. */
  lemma ProbeWraps(start: U32, i: nat)
    ensures Probe(start, i) == (start + i - 1) % MAX_TOTAL_SLOTS + 1
  {
    var x := start + i - 1;
    var q, r := x / WRAP, x % WRAP;
    assert x == 1048576 * q * MAX_TOTAL_SLOTS + r;
    Shifted(r, 1048576 * q);
  }

  lemma Shifted(r: int, m: int)
    ensures (m * MAX_TOTAL_SLOTS + r) % MAX_TOTAL_SLOTS == r % MAX_TOTAL_SLOTS
  {
    var q, t := r / MAX_TOTAL_SLOTS, r % MAX_TOTAL_SLOTS;
    assert m * MAX_TOTAL_SLOTS + r == (m + q) * MAX_TOTAL_SLOTS + t;
  }

  /** For every cursor value the 4096 probes visit each slot exactly once. */
  lemma ProbeIsPermutation(start: U32, i: nat, k: nat)
    requires i < MAX_TOTAL_SLOTS && IsSlot(k)
    ensures IsSlot(Probe(start, i))
    ensures Turn(start, k) < MAX_TOTAL_SLOTS
    ensures Probe(start, i) == k <==> i == Turn(start, k)
  {
    ProbeWraps(start, i);
    var x := start + i - 1;
    var q := x / MAX_TOTAL_SLOTS;
    if Probe(start, i) == k {
      assert k - start == i - q * MAX_TOTAL_SLOTS;
      Shifted(i, -q);
    }
    if i == Turn(start, k) {
      var p := (k - start) / MAX_TOTAL_SLOTS;
      assert x == k - 1 - p * MAX_TOTAL_SLOTS;
      Shifted(k - 1, -p);
    }
  }

  class Registry {
    const status: array<Status>
    var cursor: U32

    ghost predicate Valid()
    {
      status.Length == MAX_TOTAL_SLOTS + 1
    }

    constructor ()
      ensures Valid() && fresh(status) && cursor == 0 && forall k :: 0 <= k < status.Length ==> status[k] == Idle
    {
      status := new Status[MAX_TOTAL_SLOTS + 1](i => Idle);
      cursor := 0;
    }

    /** Takes the first idle slot in probe order; it fails exactly when none is idle. */
    method AllocSlot() returns (slot: nat, ok: bool)
      requires Valid()
      modifies this`cursor, status
      ensures cursor == (old(cursor) + 1) % WRAP
      ensures ok <==> exists k :: IsSlot(k) && old(status[k]) == Idle
      ensures ok ==>
        && IsSlot(slot) && old(status[slot]) == Idle && status[..] == old(status[..])[slot := Busy]
        && forall k :: IsSlot(k) && Turn(cursor, k) < Turn(cursor, slot) ==> old(status[k]) != Idle
      ensures !ok ==> slot == 0 && status[..] == old(status[..])
    {
      hide Turn, Probe;
      cursor := (cursor + 1) % WRAP;
      var start := cursor;
      for i := 0 to MAX_TOTAL_SLOTS
        invariant cursor == start && status[..] == old(status[..])
        invariant forall k :: IsSlot(k) && Turn(start, k) < i ==> status[k] != Idle
      {
        ProbeIsPermutation(start, i, 1);
        var k := Probe(start, i);
        ProbeIsPermutation(start, i, k);
        if status[k] == Idle {
          assert IsSlot(k) && old(status[k]) == Idle by { assert status[..][k] == old(status[..])[k]; }
          status[k] := Busy;
          return k, true;
        }
        forall j | IsSlot(j) && Turn(start, j) < i + 1 ensures status[j] != Idle { ProbeIsPermutation(start, i, j); }
      }
      forall k | IsSlot(k) ensures status[k] != Idle { ProbeIsPermutation(start, 0, k); }
      return 0, false;
    }

    method FreeSlot(slot: nat)
      requires Valid() && IsSlot(slot)
      modifies status
      ensures status[..] == old(status[..])[slot := Idle]
    {
      status[slot] := Idle;
    }
  }

  // ---------- Slots and tokens over every run ----------

  datatype At = Out | Token | Holds(slot: nat) | Freed

  /** `tokens` is the number of elements in the `limit` channel. `owner` is history: the
      connection that holds each slot; no step reads it. */
  datatype State = State(status: seq<Status>, tokens: nat, conns: map<nat, At>, owner: map<nat, nat>)

  /** The status of a held slot changes as its stripe is handed over and back. A probe can
      fail at any time: claims and frees beside it may hide every idle slot from it. */
  datatype Step = Take(c: nat) | Claim(c: nat, k: nat) | Fail(c: nat) | Set(c: nat, status: Status) | Free(c: nat)
      | Return(c: nat)

  ghost predicate Enabled(s: State, step: Step)
  {
    && |s.status| == MAX_TOTAL_SLOTS + 1 && step.c in s.conns
    && var at := s.conns[step.c];
       match step
       case Take(_) => at == Out && s.tokens < MAX_TOTAL_SLOTS
       case Claim(_, k) => at == Token && IsSlot(k) && s.status[k] == Idle
       case Fail(_) => at == Token
       case Set(_, status) => at.Holds? && at.slot < |s.status| && status != Idle
       case Free(_) => at.Holds? && at.slot < |s.status|
       case Return(_) => at == Freed
  }

  function Less(tokens: nat): (r: nat) { if tokens > 0 then tokens - 1 else 0 }

  /** Allocation takes a token, then a slot, and gives the token back if there is none;
      Close frees the slot and then takes a token out of the channel. */
  function Apply(s: State, step: Step): (r: State)
    requires Enabled(s, step)
  {
    var c := step.c;
    match step
    case Take(_) => s.(conns := s.conns[c := Token], tokens := s.tokens + 1)
    case Claim(_, k) => s.(conns := s.conns[c := Holds(k)], status := s.status[k := Busy], owner := s.owner[k := c])
    case Fail(_) => s.(conns := s.conns[c := Out], tokens := Less(s.tokens))
    case Set(_, status) => s.(status := s.status[s.conns[c].slot := status])
    case Free(_) =>
      s.(conns := s.conns[c := Freed], status := s.status[s.conns[c].slot := Idle],
         owner := s.owner - {s.conns[c].slot})
    case Return(_) => s.(conns := s.conns[c := Out], tokens := Less(s.tokens))
  }

  ghost predicate Init(s: State)
  {
    && s.status == seq(MAX_TOTAL_SLOTS + 1, i => Idle) && s.tokens == 0 && s.owner == map[]
    && forall c :: c in s.conns ==> s.conns[c] == Out
  }

  ghost predicate Next(s: State, s': State)
  {
    exists step :: Enabled(s, step) && s' == Apply(s, step)
  }

  ghost predicate IsRun(run: seq<State>)
  {
    && |run| > 0 && Init(run[0])
    && forall i :: 0 <= i < |run| - 1 ==> Next(run[i], run[i + 1])
  }

  function Holders(conns: map<nat, At>): (r: set<nat>) { set c | c in conns && conns[c] != Out }
  function InUse(status: seq<Status>): (r: set<nat>) { set k: nat | k < |status| && status[k] != Idle }

  predicate OwnersOk(s: State)
  {
    && (forall k :: 0 <= k < |s.status| ==> (s.status[k] != Idle <==> k in s.owner))
    && (forall k :: k in s.owner ==> IsSlot(k) && s.owner[k] in s.conns && s.conns[s.owner[k]] == Holds(k))
    && forall c :: c in s.conns && s.conns[c].Holds? ==> s.conns[c].slot in s.owner && s.owner[s.conns[c].slot] == c
  }

  predicate Inv(s: State)
  {
    |s.status| == MAX_TOTAL_SLOTS + 1 && s.tokens == |Holders(s.conns)| <= MAX_TOTAL_SLOTS && OwnersOk(s)
  }

  lemma OwnersKeep(s: State, step: Step)
    requires Inv(s) && Enabled(s, step)
    ensures OwnersOk(Apply(s, step))
  {
    hide Holders;
  }

  lemma HoldersChange(conns: map<nat, At>, c: nat, at: At)
    requires c in conns
    ensures Holders(conns[c := at]) == if at == Out then Holders(conns) - {c} else Holders(conns) + {c}
  {
    var a, b := Holders(conns[c := at]), if at == Out then Holders(conns) - {c} else Holders(conns) + {c};
    forall d ensures d in a <==> d in b {
      if d in conns {
        Member(conns[c := at], d);
        Member(conns, d);
      }
    }
  }

  lemma StepKeeps(s: State, step: Step)
    requires Inv(s) && Enabled(s, step)
    ensures Inv(Apply(s, step))
  {
    hide Holders, OwnersOk;
    OwnersKeep(s, step);
    var s', c := Apply(s, step), step.c;
    var h := Holders(s.conns);
    Member(s.conns, c);
    HoldersChange(s.conns, c, s'.conns[c]);
    assert s'.conns == s.conns[c := s'.conns[c]];
    if c in h {
      assert h + {c} == h && |h - {c}| == |h| - 1;
    } else {
      assert |h + {c}| == |h| + 1;
    }
  }

  lemma Member(conns: map<nat, At>, c: nat)
    requires c in conns
    ensures c in Holders(conns) <==> conns[c] != Out
  {}

  lemma {:induction false} RunKeepsInv(run: seq<State>, i: nat)
    requires IsRun(run) && i < |run|
    ensures Inv(run[i])
  {
    hide Inv, Enabled, Apply;
    if i == 0 {
      InitInv(run[0]);
    } else {
      RunKeepsInv(run, i - 1);
      assert Next(run[i - 1], run[i]);
      var step :| Enabled(run[i - 1], step) && run[i] == Apply(run[i - 1], step);
      StepKeeps(run[i - 1], step);
    }
  }

  lemma InitInv(s: State)
    requires Init(s)
    ensures Inv(s)
  {
    assert Holders(s.conns) == {};
  }

  /** Slots with different owners are no more than the owners. */
  lemma {:induction false} OwnersCount(slots: set<nat>, owner: map<nat, nat>, conns: map<nat, At>, among: set<nat>)
    requires forall k :: k in slots ==>
      k in owner && owner[k] in conns && conns[owner[k]] == Holds(k) && owner[k] in among
    ensures |slots| <= |among|
    decreases |slots|
  {
    if slots != {} {
      var k :| k in slots;
      OwnersCount(slots - {k}, owner, conns, among - {owner[k]});
    }
  }

  /** In every state of every run the slots in use are no more than the tokens taken, the
      tokens no more than the slots there are, and no slot is held by two connections. */
  lemma SlotAccounting(run: seq<State>, i: nat)
    requires IsRun(run) && i < |run|
    ensures var s := run[i];
      && |InUse(s.status)| <= s.tokens <= MAX_TOTAL_SLOTS
      && forall c, d :: c in s.conns && d in s.conns && c != d && s.conns[c].Holds? ==> s.conns[c] != s.conns[d]
  {
    hide IsRun;
    RunKeepsInv(run, i);
    var s := run[i];
    OwnersCount(InUse(s.status), s.owner, s.conns, Holders(s.conns));
  }

  lemma {:induction false} EnoughSlots(m: nat, slots: set<nat>)
    requires forall k :: 1 <= k <= m ==> k in slots
    ensures |slots| >= m
  {
    if m > 0 {
      assert forall k :: 1 <= k <= m - 1 ==> k in slots - {m};
      EnoughSlots(m - 1, slots - {m});
    }
  }

  /** A connection with a token and no slot finds an idle one: an allocation that nothing
      disturbs succeeds. */
  lemma TokenFindsSlot(run: seq<State>, i: nat, c: nat)
    requires IsRun(run) && i < |run| && c in run[i].conns && run[i].conns[c] == Token
    ensures |run[i].status| == MAX_TOTAL_SLOTS + 1 && exists k :: IsSlot(k) && run[i].status[k] == Idle
  {
    hide IsRun;
    RunKeepsInv(run, i);
    var s := run[i];
    if forall k :: IsSlot(k) ==> s.status[k] != Idle {
      var used := InUse(s.status);
      OwnersCount(used, s.owner, s.conns, Holders(s.conns) - {c});
      EnoughSlots(MAX_TOTAL_SLOTS, used);
    }
  }
}
