/** The distribution of chunks to nodes (go/shm/bus.go, go/hub/hub.go, go/node/node.go):
    the bus grows and tells the registered nodes, dialling hands a new node the chunks
    there are, and callers send messages that name blocks of chunks. A step is one access
    under the bus lock `b.mu`, the hub lock `h.mu` or neither; sockets deliver in order.

    Chunks are numbered in the order in which the bus appends them. */
module Chunks {
  import opened Layout

  datatype AppenderAt = Idle | WantMux | Created | Locked | Listed | Counted | Sending
  /** A thread in tryAppendChunk: the count it read, the number of its new chunk and the
      nodes it still has to tell. */
  datatype Appender = Appender(at: AppenderAt, seen: nat, mine: nat, todo: set<nat>)

  datatype DialerAt = Start | Reading | Fetching | Shake | WantLock | Counting | Catching | Sync | Register | Finished
  /** A call of Dial: the chunk count read first, the chunks fetched, the count read later. */
  datatype Dialer = Dialer(at: DialerAt, node: nat, first: nat, fetched: nat, after: nat)

  /** A node: its chunk list, the socket messages under way, the messages naming chunks.
      `dial` is the call of Dial that reached it; no step reads it. */
  datatype Node = Node(dial: nat, registered: bool, list: seq<nat>, wire: seq<seq<nat>>, queue: seq<nat>)

  datatype CallerAt = Away | Has | Found
  /** A caller with a block of a chunk, and the node it has looked up. */
  datatype Caller = Caller(at: CallerAt, chunk: nat, node: nat)

  datatype State = State(
    chunks: nat,              // length of the bus's chunk list
    count: nat,               // the atomic chunk count
    mux: Option<nat>,
    busWriter: Option<nat>,   // the appender that holds b.mu
    hubWriter: Option<nat>,   // the dialer that holds h.mu
    appenders: map<nat, Appender>,
    dialers: map<nat, Dialer>,
    callers: map<nat, Caller>,
    nodes: map<nat, Node>)

  datatype Step =
    | Append(t: nat, created: bool, n: nat)
    | Dial(d: nat, n: nat)
    | Call(c: nat, k: nat, n: nat)
    | Receive(n: nat)
    | Take(n: nat)

  function UpTo(m: nat): (r: seq<nat>) { seq(m, i => i) }
  function Between(low: nat, high: nat): (r: seq<nat>)
    requires low <= high
  {
    seq(high - low, i requires 0 <= i => low + i)
  }

  function Flatten(wire: seq<seq<nat>>): (r: seq<nat>)
  {
    if wire == [] then [] else Flatten(wire[..|wire| - 1]) + wire[|wire| - 1]
  }

  /** Everything sent to the node so far. */
  function Sent(x: Node): (r: seq<nat>) { x.list + Flatten(x.wire) }

  ghost predicate Init(s: State)
  {
    && s.chunks == 1 && s.count == 1 && s.mux == None && s.busWriter == None && s.hubWriter == None
    && (forall t :: t in s.appenders ==> s.appenders[t].at == Idle)
    && (forall d :: d in s.dialers ==> s.dialers[d].at == Start)
    && (forall c :: c in s.callers ==> s.callers[c].at == Away)
    && s.nodes == map[]
  }

  /** The dialer holds `h.mu` for reading. */
  predicate HubReader(x: Dialer) { x.at == Reading || x.at == Fetching }

  predicate CanAppend(s: State, t: nat, n: nat)
  {
    && t in s.appenders
    && match s.appenders[t].at
       case WantMux => s.mux == None
       case Created => s.busWriter == None
       case Counted => s.hubWriter == None
       case Sending => s.appenders[t].todo != {} ==> n in s.appenders[t].todo && n in s.nodes
       case _ => true
  }

  predicate CanDial(s: State, d: nat, n: nat)
  {
    && d in s.dialers
    && var x := s.dialers[d];
       match x.at
       case Start => s.hubWriter == None && n !in s.nodes
       case Fetching => x.fetched < x.first ==> s.busWriter == None
       case Shake => x.node in s.nodes
       case WantLock => s.hubWriter == None && forall e :: e in s.dialers ==> !HubReader(s.dialers[e])
       case Catching => x.fetched < x.after ==> s.busWriter == None
       case Sync => x.node in s.nodes
       case Register => x.node in s.nodes
       case Finished => false
       case _ => true
  }

  predicate CanCall(s: State, c: nat, k: nat, n: nat)
  {
    && c in s.callers
    && match s.callers[c].at
       case Away => s.busWriter == None && k < s.chunks
       case Has => s.hubWriter == None && n in s.nodes && s.nodes[n].registered
       case Found => s.callers[c].node in s.nodes
  }

  predicate Enabled(s: State, step: Step)
  {
    match step
    case Append(t, _, n) => CanAppend(s, t, n)
    case Dial(d, n) => CanDial(s, d, n)
    case Call(c, k, n) => CanCall(s, c, k, n)
    case Receive(n) => n in s.nodes && s.nodes[n].wire != []
    case Take(n) => n in s.nodes && s.nodes[n].queue != [] && s.nodes[n].queue[0] < |s.nodes[n].list|
  }

  function Send(s: State, n: nat, batch: seq<nat>): (r: State)
    requires n in s.nodes
  {
    s.(nodes := s.nodes[n := s.nodes[n].(wire := s.nodes[n].wire + [batch])])
  }

  function SetAppender(s: State, t: nat, x: Appender): (r: State) { s.(appenders := s.appenders[t := x]) }
  function SetDialer(s: State, d: nat, x: Dialer): (r: State) { s.(dialers := s.dialers[d := x]) }

  /** tryAppendChunk; `created` tells whether the chunk could be created. The list of
      registered nodes is taken under `h.mu`, the sends happen under `b.mu` only. */
  function AppendStep(s: State, t: nat, created: bool, n: nat): (r: State)
    requires CanAppend(s, t, n)
  {
    var x := s.appenders[t];
    match x.at
    case Idle => if s.count >= MAX_CHUNKS then s else SetAppender(s, t, x.(at := WantMux, seen := s.count))
    case WantMux =>
      if x.seen != s.count || !created then SetAppender(s, t, x.(at := Idle))
      else SetAppender(s, t, x.(at := Created)).(mux := Some(t))
    case Created => SetAppender(s, t, x.(at := Locked)).(busWriter := Some(t))
    case Locked => SetAppender(s, t, x.(at := Listed, mine := s.chunks)).(chunks := s.chunks + 1)
    case Listed => SetAppender(s, t, x.(at := Counted)).(count := s.count + 1)
    case Counted =>
      SetAppender(s, t, x.(at := Sending, todo := set m | m in s.nodes && s.nodes[m].registered))
    case Sending =>
      if x.todo == {} then SetAppender(s, t, x.(at := Idle)).(mux := None, busWriter := None)
      else SetAppender(Send(s, n, [x.mine]), t, x.(todo := x.todo - {n}))
  }

  function DialStep(s: State, d: nat, n: nat): (r: State)
    requires CanDial(s, d, n)
  {
    var x := s.dialers[d];
    match x.at
    case Start => SetDialer(s, d, x.(at := Reading, node := n)).(nodes := s.nodes[n := Node(d, false, [], [], [])])
    case Reading => SetDialer(s, d, x.(at := Fetching, first := s.count, fetched := 0))
    case Fetching => SetDialer(s, d, if x.fetched < x.first then x.(fetched := x.fetched + 1) else x.(at := Shake))
    case Shake => SetDialer(Send(s, x.node, UpTo(x.first)), d, x.(at := WantLock))
    case WantLock => SetDialer(s, d, x.(at := Counting)).(hubWriter := Some(d))
    case Counting => SetDialer(s, d, x.(at := Catching, after := s.count))
    case Catching => SetDialer(s, d, if x.fetched < x.after then x.(fetched := x.fetched + 1) else x.(at := Sync))
    case Sync =>
      SetDialer(if x.first < x.after then Send(s, x.node, Between(x.first, x.after)) else s, d, x.(at := Register))
    case Register =>
      SetDialer(s, d, x.(at := Finished)).(
      nodes := s.nodes[x.node := s.nodes[x.node].(registered := true)], hubWriter := None)
    case Finished => s
  }

  /** A caller allocates a block of chunk `k`, looks a node up, and sends it a message. */
  function CallStep(s: State, c: nat, k: nat, n: nat): (r: State)
    requires CanCall(s, c, k, n)
  {
    var x := s.callers[c];
    match x.at
    case Away => s.(callers := s.callers[c := Caller(Has, k, 0)])
    case Has => s.(callers := s.callers[c := x.(at := Found, node := n)])
    case Found =>
      s.(callers := s.callers[c := x.(at := Away)],
         nodes := s.nodes[x.node := s.nodes[x.node].(queue := s.nodes[x.node].queue + [x.chunk])])
  }

  function Apply(s: State, step: Step): (r: State)
    requires Enabled(s, step)
  {
    match step
    case Append(t, created, n) => AppendStep(s, t, created, n)
    case Dial(d, n) => DialStep(s, d, n)
    case Call(c, k, n) => CallStep(s, c, k, n)
    case Receive(n) =>
      var x := s.nodes[n];
      s.(nodes := s.nodes[n := x.(list := x.list + x.wire[0], wire := x.wire[1..])])
    case Take(n) => s.(nodes := s.nodes[n := s.nodes[n].(queue := s.nodes[n].queue[1..])])
  }

  ghost predicate Next(s: State, s': State)
  {
    exists step :: Enabled(s, step) && s' == Apply(s, step)
  }

  ghost predicate IsRun(run: seq<State>)
  {
    && |run| > 0 && Init(run[0])
    && forall i :: 0 <= i < |run| - 1 ==> Next(run[i], run[i + 1])
  }

  // ---------- The invariant ----------

  predicate HoldsMux(at: AppenderAt) { at != Idle && at != WantMux }
  predicate HoldsBus(at: AppenderAt) { HoldsMux(at) && at != Created }
  predicate HoldsHub(at: DialerAt) { at == Counting || at == Catching || at == Sync || at == Register }
  predicate Dialling(at: DialerAt) { at != Start && at != Finished }

  /** What the holder of `b.mu` is about. */
  function Phase(s: State): (at: AppenderAt)
  {
    if s.busWriter.Some? && s.busWriter.value in s.appenders then s.appenders[s.busWriter.value].at else Idle
  }

  function Todo(s: State): (m: set<nat>)
  {
    if s.busWriter.Some? && s.busWriter.value in s.appenders then s.appenders[s.busWriter.value].todo else {}
  }

  predicate Unsettled(p: AppenderAt) { p == Listed || p == Counted || p == Sending }

  /** The chunks that every registered node was sent before `b.mu` is free again. */
  function Settled(p: AppenderAt, chunks: nat): (m: int) { if Unsettled(p) then chunks - 1 else chunks }

  predicate LocksOk(s: State)
  {
    && (forall t :: t in s.appenders ==>
          && (HoldsMux(s.appenders[t].at) <==> s.mux == Some(t))
          && (HoldsBus(s.appenders[t].at) <==> s.busWriter == Some(t))
          && (Unsettled(s.appenders[t].at) ==> s.appenders[t].mine == s.chunks - 1))
    && (s.busWriter.Some? ==> s.busWriter.value in s.appenders)
    && s.chunks >= 1 && s.count == s.chunks - (if Phase(s) == Listed then 1 else 0)
    && forall m :: m in Todo(s) && Phase(s) == Sending ==> m in s.nodes && s.nodes[m].registered
  }

  /** The count a dialer read under `h.mu`: a growth cannot get past telling the nodes
      while the dialer holds the lock. */
  predicate AfterOk(x: Dialer, p: AppenderAt, chunks: nat)
  {
    && x.first <= x.after
    && if p == Listed then x.after == chunks - 1
       else if p == Counted then x.after == chunks - 1 || x.after == chunks
       else x.after == chunks
  }

  predicate DialerOk(x: Dialer, p: AppenderAt, chunks: nat, count: nat, sent: seq<nat>)
  {
    match x.at
    case Reading => sent == []
    case Fetching => sent == [] && x.first <= count && x.fetched <= x.first && x.fetched <= Settled(p, chunks)
    case Shake => sent == [] && x.first == x.fetched <= count && x.fetched <= Settled(p, chunks)
    case WantLock => sent == UpTo(x.first) && x.first == x.fetched <= count && x.fetched <= Settled(p, chunks)
    case Counting => sent == UpTo(x.first) && x.first == x.fetched <= count && x.fetched <= Settled(p, chunks)
    case Catching =>
      sent == UpTo(x.first) && x.first <= x.fetched <= x.after && x.fetched <= Settled(p, chunks) &&
        AfterOk(x, p, chunks)
    case Sync => sent == UpTo(x.first) && x.fetched == x.after <= Settled(p, chunks) && AfterOk(x, p, chunks)
    case Register => sent == UpTo(x.after) && x.fetched == x.after <= Settled(p, chunks) && AfterOk(x, p, chunks)
    case _ => true
  }

  predicate DialerIn(s: State, d: nat)
    requires d in s.dialers
  {
    var x := s.dialers[d];
    && (HoldsHub(x.at) <==> s.hubWriter == Some(d))
    && (s.hubWriter.Some? ==> !HubReader(x))
    && (Dialling(x.at) ==>
          && x.node in s.nodes && !s.nodes[x.node].registered && s.nodes[x.node].dial == d
          && DialerOk(x, Phase(s), s.chunks, s.count, Sent(s.nodes[x.node])))
  }

  predicate DialersOk(s: State)
  {
    && (forall d :: d in s.dialers ==> DialerIn(s, d))
    && (s.hubWriter.Some? ==> s.hubWriter.value in s.dialers)
  }

  /** What a node was sent is the bus's list from the start, each chunk once; a registered
      node was sent all chunks that are settled. */
  predicate NodeOk(x: Node, n: nat, p: AppenderAt, todo: set<nat>, chunks: nat)
  {
    var m := |Sent(x)|;
    && Sent(x) == UpTo(m) && m <= chunks
    && (x.registered ==> m == if p == Sending then (if n in todo then chunks - 1 else chunks) else Settled(p, chunks))
    && forall i :: 0 <= i < |x.queue| ==> x.queue[i] < m
  }

  predicate NodesOk(s: State)
  {
    forall n :: n in s.nodes ==> NodeOk(s.nodes[n], n, Phase(s), Todo(s), s.chunks)
  }

  predicate CallerOk(s: State, c: nat)
    requires c in s.callers
  {
    var x := s.callers[c];
    && (x.at == Has ==> x.chunk < Settled(Phase(s), s.chunks))
    && (x.at == Found ==> x.node in s.nodes && s.nodes[x.node].registered && x.chunk < |Sent(s.nodes[x.node])|)
  }

  predicate CallersOk(s: State)
  {
    forall c :: c in s.callers ==> CallerOk(s, c)
  }

  predicate Inv(s: State) { LocksOk(s) && DialersOk(s) && NodesOk(s) && CallersOk(s) }

  lemma InitInv(s: State)
    requires Init(s)
    ensures Inv(s)
  {}

  // ---------- The steps keep it ----------

  lemma SentMore(x: Node, batch: seq<nat>)
    ensures Sent(x.(wire := x.wire + [batch])) == Sent(x) + batch
  {
    var wire := x.wire + [batch];
    assert wire[..|wire| - 1] == x.wire;
  }

  lemma {:induction false} FlattenHead(wire: seq<seq<nat>>)
    requires wire != []
    ensures Flatten(wire) == wire[0] + Flatten(wire[1..])
  {
    if |wire| > 1 {
      FlattenHead(wire[..|wire| - 1]);
      assert wire[..|wire| - 1][1..] == wire[1..][..|wire| - 2];
    }
  }

  lemma SentDelivered(x: Node)
    requires x.wire != []
    ensures Sent(x.(list := x.list + x.wire[0], wire := x.wire[1..])) == Sent(x)
  {
    FlattenHead(x.wire);
  }

  lemma UpToMore(m: nat, k: nat)
    requires m <= k
    ensures UpTo(m) + Between(m, k) == UpTo(k)
    ensures k == m + 1 ==> Between(m, k) == [m]
  {}

  /** How the holder of `b.mu` goes on: nodes are told before the lock is given back. */
  predicate PhaseStep(p: AppenderAt, chunks: nat, count: nat, p': AppenderAt, chunks': nat, count': nat, todo: set<nat>,
                      hubFree: bool)
  {
    || (p' == p && chunks' == chunks && count' == count && p != Sending)
    || (p == Idle && p' == Locked && chunks' == chunks && count' == count)
    || (p == Locked && p' == Listed && chunks' == chunks + 1 && count' == count == chunks)
    || (p == Listed && p' == Counted && chunks' == chunks && count' == count + 1)
    || (p == Counted && p' == Sending && chunks' == chunks && count' == count && hubFree)
    || (p == Sending && p' == Idle && chunks' == chunks && count' == count && todo == {})
  }

  lemma PhaseDialer(x: Dialer, sent: seq<nat>, p: AppenderAt, chunks: nat, count: nat, p': AppenderAt, chunks': nat,
                    count': nat, todo: set<nat>, hubFree: bool)
    requires PhaseStep(p, chunks, count, p', chunks', count', todo, hubFree) && chunks >= 1
    requires DialerOk(x, p, chunks, count, sent) && (hubFree ==> !HoldsHub(x.at))
    ensures DialerOk(x, p', chunks', count', sent)
  {
    hide UpTo;
  }

  lemma PhaseNode(x: Node, n: nat, p: AppenderAt, chunks: nat, count: nat, p': AppenderAt, chunks': nat, count': nat,
                  todo: set<nat>, todo': set<nat>, hubFree: bool)
    requires PhaseStep(p, chunks, count, p', chunks', count', todo, hubFree) && chunks >= 1
    requires NodeOk(x, n, p, todo, chunks) && (p' == Sending && x.registered ==> n in todo')
    ensures NodeOk(x, n, p', todo', chunks')
  {
    hide UpTo, Sent;
  }

  /** Only the appenders change, and the phase with them. */
  lemma PhaseKeeps(s: State, s': State)
    requires Inv(s) && LocksOk(s') && s'.nodes == s.nodes && s'.dialers == s.dialers && s'.callers == s.callers
    requires s'.hubWriter == s.hubWriter
    requires PhaseStep(Phase(s), s.chunks, s.count, Phase(s'), s'.chunks, s'.count, Todo(s), s.hubWriter == None)
    requires Phase(s') == Sending ==> forall n :: n in s.nodes && s.nodes[n].registered ==> n in Todo(s')
    ensures Inv(s')
  {
    hide Sent, UpTo, DialerOk, NodeOk;
    var free := s.hubWriter == None;
    forall d | d in s'.dialers ensures DialerIn(s', d) {
      assert DialerIn(s, d);
      var x := s.dialers[d];
      if Dialling(x.at) {
        PhaseDialer(x, Sent(s.nodes[x.node]), Phase(s), s.chunks, s.count, Phase(s'), s'.chunks, s'.count, Todo(s),
                    free);
      }
    }
    forall n | n in s'.nodes ensures NodeOk(s'.nodes[n], n, Phase(s'), Todo(s'), s'.chunks) {
      PhaseNode(s.nodes[n], n, Phase(s), s.chunks, s.count, Phase(s'), s'.chunks, s'.count, Todo(s), Todo(s'), free);
    }
    forall c | c in s'.callers ensures CallerOk(s', c) { assert CallerOk(s, c); }
  }

  /** Before the lock: a thread enters or leaves without having grown the bus. */
  lemma IdleKeeps(s: State, s': State)
    requires Inv(s) && LocksOk(s') && s'.nodes == s.nodes && s'.dialers == s.dialers && s'.callers == s.callers
    requires s'.hubWriter == s.hubWriter && s'.chunks == s.chunks && s'.count == s.count
    requires Phase(s') == Phase(s) && Todo(s') == Todo(s)
    ensures Inv(s')
  {
    hide Sent, UpTo, DialerOk, NodeOk;
    forall d | d in s'.dialers ensures DialerIn(s', d) { assert DialerIn(s, d); }
    forall c | c in s'.callers ensures CallerOk(s', c) { assert CallerOk(s, c); }
  }

  lemma EnterLocks(s: State, t: nat, created: bool, n: nat)
    requires LocksOk(s) && CanAppend(s, t, n) && !HoldsMux(s.appenders[t].at)
    ensures var s' := AppendStep(s, t, created, n); LocksOk(s') && Phase(s') == Phase(s) && Todo(s') == Todo(s)
  {
    var s' := AppendStep(s, t, created, n);
    assert Phase(s') == Phase(s) && Todo(s') == Todo(s);
  }

  lemma EnterKeeps(s: State, t: nat, created: bool, n: nat)
    requires Inv(s) && CanAppend(s, t, n) && !HoldsMux(s.appenders[t].at)
    ensures Inv(AppendStep(s, t, created, n))
  {
    hide DialersOk, NodesOk, CallersOk, LocksOk, Phase, Todo;
    EnterLocks(s, t, created, n);
    IdleKeeps(s, AppendStep(s, t, created, n));
  }

  lemma HoldLocks(s: State, t: nat, created: bool, n: nat)
    requires LocksOk(s) && CanAppend(s, t, n) && HoldsMux(s.appenders[t].at)
    requires s.appenders[t].at == Sending ==> s.appenders[t].todo == {}
    ensures var s' := AppendStep(s, t, created, n);
      && LocksOk(s')
      && PhaseStep(Phase(s), s.chunks, s.count, Phase(s'), s'.chunks, s'.count, Todo(s), s.hubWriter == None)
      && (Phase(s') == Sending ==> forall m :: m in s.nodes && s.nodes[m].registered ==> m in Todo(s'))
  {}

  lemma HoldKeeps(s: State, t: nat, created: bool, n: nat)
    requires Inv(s) && CanAppend(s, t, n) && HoldsMux(s.appenders[t].at)
    requires s.appenders[t].at == Sending ==> s.appenders[t].todo == {}
    ensures Inv(AppendStep(s, t, created, n))
  {
    hide Sent, UpTo, DialersOk, NodesOk, CallersOk, LocksOk, PhaseStep, Phase, Todo;
    HoldLocks(s, t, created, n);
    PhaseKeeps(s, AppendStep(s, t, created, n));
  }

  lemma TellKeeps(s: State, t: nat, created: bool, n: nat)
    requires Inv(s) && CanAppend(s, t, n) && s.appenders[t].at == Sending && s.appenders[t].todo != {}
    ensures Inv(AppendStep(s, t, created, n))
  {
    hide Sent, UpTo, DialerOk;
    var s' := AppendStep(s, t, created, n);
    SentMore(s.nodes[n], [s.appenders[t].mine]);
    assert NodeOk(s.nodes[n], n, Sending, Todo(s), s.chunks);
    UpToMore(s.chunks - 1, s.chunks);
    UpToLength(s.chunks);
    forall d | d in s'.dialers ensures DialerIn(s', d) { assert DialerIn(s, d); }
    forall c | c in s'.callers ensures CallerOk(s', c) { assert CallerOk(s, c); }
  }

  lemma UpToLength(m: nat)
    ensures |UpTo(m)| == m
  {}

  /** Only dialer `d` changes, its hold on `h.mu`, and the node `n` it reaches. */
  predicate DialTurn(s: State, s': State, d: nat, n: nat)
  {
    && d in s.dialers && d in s'.dialers && s'.dialers == s.dialers[d := s'.dialers[d]] && n in s'.nodes
    && s'.nodes == s.nodes[n := s'.nodes[n]]
    && s' == s.(dialers := s'.dialers, nodes := s'.nodes, hubWriter := s'.hubWriter)
    && (n in s.nodes ==> s.nodes[n].dial == d && s'.nodes[n].dial == d && !s.nodes[n].registered)
    && (|| s'.hubWriter == s.hubWriter
        || (s.hubWriter == None && s'.hubWriter == Some(d))
        || (s.hubWriter == Some(d) && s'.hubWriter == None))
    && (s'.hubWriter == Some(d) ==> forall e :: e in s.dialers && e != d ==> !HubReader(s.dialers[e]))
  }

  lemma OtherDialers(s: State, s': State, d: nat, n: nat)
    requires DialersOk(s) && DialTurn(s, s', d, n) && DialerIn(s', d)
    ensures DialersOk(s')
  {
    hide Sent, DialerOk;
    assert Phase(s') == Phase(s);
    forall e | e in s'.dialers ensures DialerIn(s', e) { if e != d { assert DialerIn(s, e); } }
  }

  lemma OtherCallers(s: State, s': State, d: nat, n: nat)
    requires CallersOk(s) && DialTurn(s, s', d, n)
    ensures CallersOk(s')
  {
    hide Sent;
    assert Phase(s') == Phase(s);
    forall c | c in s'.callers ensures CallerOk(s', c) { assert CallerOk(s, c); }
  }

  lemma OtherNodes(s: State, s': State, d: nat, n: nat)
    requires LocksOk(s) && NodesOk(s) && DialTurn(s, s', d, n) && NodeOk(s'.nodes[n], n, Phase(s), Todo(s), s.chunks)
    ensures LocksOk(s') && NodesOk(s')
  {
    hide Sent, NodeOk;
    assert Phase(s') == Phase(s) && Todo(s') == Todo(s);
  }

  lemma DialerKeeps(s: State, s': State, d: nat, n: nat)
    requires Inv(s) && DialTurn(s, s', d, n) && DialerIn(s', d) && NodeOk(s'.nodes[n], n, Phase(s), Todo(s), s.chunks)
    ensures Inv(s')
  {
    hide LocksOk, DialersOk, NodesOk, CallersOk, DialerIn, NodeOk, DialTurn, Phase, Todo;
    OtherDialers(s, s', d, n);
    OtherCallers(s, s', d, n);
    OtherNodes(s, s', d, n);
  }

  predicate Sends(at: DialerAt) { at == Shake || at == Sync }

  /** The dialer moves on without sending. */
  lemma DialerMoves(x: Dialer, d: nat, p: AppenderAt, chunks: nat, count: nat, sent: seq<nat>, x': Dialer, free: bool)
    requires DialerOk(x, p, chunks, count, sent) && count == chunks - (if p == Listed then 1 else 0)
    requires (x.at == Fetching && x.fetched < x.first) || (x.at == Catching && x.fetched < x.after) ==> free
    requires free ==> p == Idle
    requires match x.at
      case Reading => x' == x.(at := Fetching, first := count, fetched := 0)
      case Fetching => x' == if x.fetched < x.first then x.(fetched := x.fetched + 1) else x.(at := Shake)
      case WantLock => x' == x.(at := Counting)
      case Counting => x' == x.(at := Catching, after := count)
      case Catching => x' == if x.fetched < x.after then x.(fetched := x.fetched + 1) else x.(at := Sync)
      case _ => false
    requires chunks >= 1
    ensures DialerOk(x', p, chunks, count, sent)
  {
    hide UpTo;
  }

  lemma DialParts(s: State, d: nat)
    requires Inv(s) && d in s.dialers && Dialling(s.dialers[d].at)
    ensures var x := s.dialers[d];
      && DialerIn(s, d) && x.node in s.nodes && !s.nodes[x.node].registered && s.nodes[x.node].dial == d
      && DialerOk(x, Phase(s), s.chunks, s.count, Sent(s.nodes[x.node]))
      && NodeOk(s.nodes[x.node], x.node, Phase(s), Todo(s), s.chunks)
      && s.count == s.chunks - (if Phase(s) == Listed then 1 else 0) && s.chunks >= 1
      && (s.busWriter == None ==> Phase(s) == Idle)
  {
    hide Sent, UpTo, DialerOk, NodeOk;
    assert DialerIn(s, d);
  }

  lemma MoveKeeps(s: State, d: nat, n: nat)
    requires Inv(s) && CanDial(s, d, n) && Dialling(s.dialers[d].at) && !Sends(s.dialers[d].at) &&
      s.dialers[d].at != Register
    ensures Inv(DialStep(s, d, n))
  {
    hide Sent, UpTo, DialerOk, NodeOk, LocksOk, NodesOk, CallersOk;
    var s', x := DialStep(s, d, n), s.dialers[d];
    DialParts(s, d);
    DialerMoves(x, d, Phase(s), s.chunks, s.count, Sent(s.nodes[x.node]), s'.dialers[d], s.busWriter == None);
    assert s'.nodes == s.nodes[x.node := s.nodes[x.node]];
    assert DialerIn(s', d);
    DialerKeeps(s, s', d, x.node);
  }

  lemma SendKeeps(s: State, d: nat, n: nat)
    requires Inv(s) && CanDial(s, d, n) && Sends(s.dialers[d].at)
    ensures Inv(DialStep(s, d, n))
  {
    hide Sent, UpTo, Between, LocksOk, NodesOk, CallersOk, DialersOk;
    var s', x := DialStep(s, d, n), s.dialers[d];
    DialParts(s, d);
    if x.at == Shake {
      SentMore(s.nodes[x.node], UpTo(x.first));
      UpToLength(x.first);
    } else {
      SentMore(s.nodes[x.node], Between(x.first, x.after));
      UpToMore(x.first, x.after);
      UpToLength(x.after);
      assert s'.nodes == s.nodes[x.node := s'.nodes[x.node]];
      NoReaderElse(s, d);
    }
    DialerKeeps(s, s', d, x.node);
  }

  lemma NoReaderElse(s: State, d: nat)
    requires Inv(s) && s.hubWriter == Some(d)
    ensures forall e :: e in s.dialers && e != d ==> !HubReader(s.dialers[e])
  {
    forall e | e in s.dialers && e != d ensures !HubReader(s.dialers[e]) { assert DialerIn(s, e); }
  }

  lemma RegisterKeeps(s: State, d: nat, n: nat)
    requires Inv(s) && CanDial(s, d, n) && s.dialers[d].at == Register
    ensures Inv(DialStep(s, d, n))
  {
    hide Sent, UpTo, LocksOk, NodesOk, CallersOk, DialersOk;
    var s', x := DialStep(s, d, n), s.dialers[d];
    DialParts(s, d);
    UpToLength(x.after);
    SameSent(s.nodes[x.node], s'.nodes[x.node]);
    DialerKeeps(s, s', d, x.node);
  }

  lemma SameSent(x: Node, y: Node)
    requires x.list == y.list && x.wire == y.wire
    ensures Sent(x) == Sent(y)
  {}

  lemma StartKeeps(s: State, d: nat, n: nat)
    requires Inv(s) && CanDial(s, d, n) && s.dialers[d].at == Start
    ensures Inv(DialStep(s, d, n))
  {
    var s' := DialStep(s, d, n);
    assert DialerIn(s, d);
    assert Sent(s'.nodes[n]) == [] && UpTo(0) == [];
    DialerKeeps(s, s', d, n);
  }

  /** A node's own steps and the messages to it leave what was sent to it alone. */
  lemma NodeTouched(s: State, s': State, n: nat)
    requires Inv(s) && n in s.nodes && n in s'.nodes && s'.nodes == s.nodes[n := s'.nodes[n]]
    requires s' == s.(nodes := s'.nodes, callers := s'.callers) && CallersOk(s')
    requires var x, y := s.nodes[n], s'.nodes[n]; y.dial == x.dial && y.registered == x.registered && Sent(y) == Sent(x)
    requires forall i :: 0 <= i < |s'.nodes[n].queue| ==> s'.nodes[n].queue[i] < |Sent(s.nodes[n])|
    ensures Inv(s')
  {
    hide Sent, UpTo, DialerOk;
    forall d | d in s'.dialers ensures DialerIn(s', d) { assert DialerIn(s, d); }
    forall m | m in s'.nodes ensures NodeOk(s'.nodes[m], m, Phase(s'), Todo(s'), s'.chunks) {
      assert NodeOk(s.nodes[m], m, Phase(s), Todo(s), s.chunks);
    }
    assert LocksOk(s');
  }

  lemma CallKeeps(s: State, c: nat, k: nat, n: nat)
    requires Inv(s) && CanCall(s, c, k, n)
    ensures Inv(CallStep(s, c, k, n))
  {
    hide Sent, UpTo, DialerOk, LocksOk, DialersOk;
    var s', x := CallStep(s, c, k, n), s.callers[c];
    assert CallerOk(s, c);
    var at := if x.at == Found then x.node else n;
    if x.at == Has || x.at == Found {
      assert NodeOk(s.nodes[at], at, Phase(s), Todo(s), s.chunks);
      SameSent(s.nodes[at], s'.nodes[at]);
      assert CallersOk(s') by {
        forall e | e in s'.callers ensures CallerOk(s', e) { assert CallerOk(s, e); }
      }
      NodeTouched(s, s', at);
    } else {
      AllocateKeeps(s, c, k, n);
    }
  }

  lemma AllocateKeeps(s: State, c: nat, k: nat, n: nat)
    requires Inv(s) && CanCall(s, c, k, n) && s.callers[c].at == Away
    ensures Inv(CallStep(s, c, k, n))
  {
    hide Sent, UpTo, DialerOk, NodeOk;
    var s' := CallStep(s, c, k, n);
    forall d | d in s'.dialers ensures DialerIn(s', d) { assert DialerIn(s, d); }
    forall e | e in s'.callers ensures CallerOk(s', e) { assert e != c ==> CallerOk(s, e); }
    assert LocksOk(s');
  }

  lemma NodeKeeps(s: State, step: Step)
    requires Inv(s) && Enabled(s, step) && (step.Receive? || step.Take?)
    ensures Inv(Apply(s, step))
  {
    hide Sent, UpTo, DialerOk, LocksOk, DialersOk;
    var s', n := Apply(s, step), step.n;
    if step.Receive? { SentDelivered(s.nodes[n]); } else { SameSent(s.nodes[n], s'.nodes[n]); }
    assert NodeOk(s.nodes[n], n, Phase(s), Todo(s), s.chunks);
    forall c | c in s'.callers ensures CallerOk(s', c) { assert CallerOk(s, c); }
    NodeTouched(s, s', n);
  }

  lemma StepKeeps(s: State, step: Step)
    requires Inv(s) && Enabled(s, step)
    ensures Inv(Apply(s, step))
  {
    hide Inv, AppendStep, DialStep, CallStep;
    match step
    case Append(t, created, n) =>
      if s.appenders[t].at == Sending && s.appenders[t].todo != {} { TellKeeps(s, t, created, n); }
      else if HoldsMux(s.appenders[t].at) { HoldKeeps(s, t, created, n); }
      else { EnterKeeps(s, t, created, n); }
    case Dial(d, n) =>
      if s.dialers[d].at == Start { StartKeeps(s, d, n); }
      else if Sends(s.dialers[d].at) { SendKeeps(s, d, n); }
      else if s.dialers[d].at == Register { RegisterKeeps(s, d, n); }
      else { MoveKeeps(s, d, n); }
    case Call(c, k, n) => CallKeeps(s, c, k, n);
    case Receive(_) => NodeKeeps(s, step);
    case Take(_) => NodeKeeps(s, step);
  }

  lemma {:induction false} RunKeepsInv(run: seq<State>, i: nat)
    requires IsRun(run) && i < |run|
    ensures Inv(run[i])
  {
    hide Inv, Enabled, Apply;
    if i == 0 {
      InitInv(run[0]);
    } else {
      RunKeepsInv(run, i - 1);
      assert Next(run[i - 1], run[i]);
      var step :| Enabled(run[i - 1], step) && run[i] == Apply(run[i - 1], step);
      StepKeeps(run[i - 1], step);
    }
  }

  // ---------- What every run promises ----------

  /** Every node's chunk list is a prefix of the bus's list: each chunk once, in order. */
  lemma ListsAgree(run: seq<State>, i: nat, n: nat)
    requires IsRun(run) && i < |run| && n in run[i].nodes
    ensures run[i].nodes[n].list <= UpTo(run[i].chunks)
    ensures Sent(run[i].nodes[n]) <= UpTo(run[i].chunks)
  {
    hide IsRun, Flatten;
    RunKeepsInv(run, i);
    var x := run[i].nodes[n];
    assert NodeOk(x, n, Phase(run[i]), Todo(run[i]), run[i].chunks);
    assert x.list == Sent(x)[..|x.list|];
  }

  /** A message that names a block of chunk `k` is in a node's queue only after chunk `k`
      was sent to it: the node has it, or it is on its way, so its wait for it ends. */
  lemma ChunkComesFirst(run: seq<State>, i: nat, n: nat, j: nat)
    requires IsRun(run) && i < |run| && n in run[i].nodes && j < |run[i].nodes[n].queue|
    ensures var x := run[i].nodes[n]; x.queue[j] in x.list || x.queue[j] in Flatten(x.wire)
  {
    hide IsRun, Flatten;
    RunKeepsInv(run, i);
    assert NodeOk(run[i].nodes[n], n, Phase(run[i]), Todo(run[i]), run[i].chunks);
    var x := run[i].nodes[n];
    var k := x.queue[j];
    assert Sent(x)[k] == k;
    assert k in Sent(x);
  }
}
