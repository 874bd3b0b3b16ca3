/** The handoff of a stripe between the hub and its nodes (go/hub/conn.go, go/hub/hub.go,
    go/node/node.go): any number of connections, handlers and expansion requests, one
    access to a shared word, queue, map or channel a step.

    Queues are the first-in first-out queues that the ring refines. No node disconnects
    and no allocation on a node's behalf fails. `place`, `holder`, the connection of a
    handler and the sequences `sent`, `finished` and `returned` are history: no step
    reads them. */
module Handoff {
  import opened Layout

  const SLOTS := MAX_TOTAL_SLOTS + 1

  datatype Status = Idle | Busy | Ready | Done
  datatype Slot = Slot(status: Status, header: nat, owner: nat)

  datatype Cmd = Process | Expand | Granted
  datatype Msg = Msg(slot: nat, cmd: Cmd)

  datatype ConnAt =
    | Home                                          // the caller has the stripe
    | Claim | PutHeader | PutOwner | PutStatus | GetDone
    | Poll | AimHeader | AimOwner | AimStatus | Drain | Register | Submit
    | Blocked | Refresh
    | Unregister | PutBack | FreeSlot | Closed

  /** A connection: its slot (0 for none), its completion channel, the node it names and
      the header word of its stripe. */
  datatype Conn = Conn(at: ConnAt, going: bool, slot: nat, done: Option<nat>, node: nat, header: nat,
                       sent: seq<nat>, finished: seq<nat>, returned: seq<nat>)

  /** What a handler does with its stripe before it returns or panics. */
  datatype Op = Use | Grow

  datatype HandlerAt = Begin | Run | AskPush | Waiting | Respond
  datatype Handler = Handler(at: HandlerAt, node: nat, slot: nat, header: nat, todo: seq<Op>, of: nat)

  datatype GrowerAt = Check | Allocate | Reply | Refused
  datatype Grower = Grower(at: GrowerAt, node: nat, slot: nat)

  datatype Dispatcher = Free | GotProcess(slot: nat) | GotExpand(slot: nat) | Holding(conn: nat)

  /** Where the right to the stripe of a slot is. */
  datatype Place =
    | Nowhere | AtHub | Requested | Handling(h: nat)
    | Asked(h: nat) | Growing(h: nat, g: nat) | Answered(h: nat)
    | Marked(h: nat) | Responded | Popped | Swapped | Delivered

  datatype State = State(
    slots: seq<Slot>,
    waiters: seq<Option<nat>>,        // the hub's pointer to the waiting connection
    conns: map<nat, Conn>,
    chans: map<nat, nat>,             // how many completions each channel holds
    pool: set<nat>,                   // channels waiting for reuse
    requests: map<nat, seq<Msg>>,     // a queue for each node
    responses: seq<Msg>,
    handlers: map<nat, Handler>,
    askers: map<(nat, nat), nat>,     // node and slot to the handler waiting for blocks
    dispatcher: Dispatcher,
    growers: map<nat, Grower>,
    place: seq<Place>,
    holder: seq<nat>)

  datatype Step =
    | BeginNext(c: nat, n: nat)
    | BeginClaim(c: nat)
    | BeginClose(c: nat)
    | ClaimSlot(c: nat, k: nat)
    | ClaimNone(c: nat)
    | TakeDone(c: nat, ch: nat)
    | Hub(c: nat)
    | NodeTake(n: nat, h: nat, plan: seq<Op>)
    | Handle(h: nat, pushed: bool)
    | Dispatch(g: nat)
    | Expansion(g: nat)

  // ---------- The steps ----------

  ghost predicate Init(s: State)
  {
    && s.slots == seq(SLOTS, i => Slot(Idle, 0, 0)) && s.waiters == seq(SLOTS, i => None)
    && s.place == seq(SLOTS, i => Nowhere) && s.holder == seq(SLOTS, i => 0)
    && (forall c :: c in s.conns ==> NewConn(s.conns[c]))
    && s.chans == map[] && s.pool == {}
    && (forall n :: n in s.requests ==> s.requests[n] == [])
    && s.responses == [] && s.handlers == map[] && s.askers == map[] && s.dispatcher == Free && s.growers == map[]
  }

  predicate NewConn(x: Conn)
  {
    x.at == Home && x.slot == 0 && x.done == None && x.sent == [] && x.finished == [] && x.returned == []
  }

  predicate Shaped(s: State)
  {
    |s.slots| == SLOTS && |s.waiters| == SLOTS && |s.place| == SLOTS && |s.holder| == SLOTS
  }

  /** The positions of a connection at which it takes its steps alone. */
  predicate Works(at: ConnAt)
  {
    at != Home && at != Claim && at != GetDone && at != Blocked && at != Closed
  }

  predicate CanDispatch(s: State, g: nat)
  {
    match s.dispatcher
    case Free => s.responses != [] && 0 < s.responses[0].slot < SLOTS
    case GotProcess(k) => 0 < k < SLOTS
    case GotExpand(k) => 0 < k < SLOTS && g !in s.growers
    case Holding(c) =>
      // the channel has room for one completion
      c in s.conns && s.conns[c].done.Some? && s.conns[c].done.value in s.chans && s.chans[s.conns[c].done.value] < 1
  }

  predicate Enabled(s: State, step: Step)
  {
    && Shaped(s)
    && match step
       case BeginNext(c, n) => c in s.conns && s.conns[c].at == Home && n in s.requests
       case BeginClaim(c) => c in s.conns && s.conns[c].at == Home && s.conns[c].slot == 0
       case BeginClose(c) => c in s.conns && s.conns[c].at == Home
       case ClaimSlot(c, k) => c in s.conns && s.conns[c].at == Claim && 0 < k < SLOTS && s.slots[k].status == Idle
       case ClaimNone(c) => c in s.conns && s.conns[c].at == Claim
       case TakeDone(c, ch) => c in s.conns && s.conns[c].at == GetDone && (ch in s.pool || ch !in s.chans)
       case Hub(c) =>
         && c in s.conns && 0 < s.conns[c].slot < SLOTS
         && var x := s.conns[c];
            if x.at == Submit then x.node in s.requests
            else if x.at == Drain then x.done.Some? && x.done.value in s.chans
            else if x.at == Blocked then x.done.Some? && x.done.value in s.chans && s.chans[x.done.value] > 0
            else Works(x.at)
       case NodeTake(n, h, plan) =>
         && n in s.requests && s.requests[n] != [] && h !in s.handlers && 0 < s.requests[n][0].slot < SLOTS
         // the answer is handed over when the waiting handler receives it
         && var m := s.requests[n][0];
            (m.cmd == Granted && (n, m.slot) in s.askers ==>
              s.askers[(n, m.slot)] in s.handlers && s.handlers[s.askers[(n, m.slot)]].at == Waiting)
       case Handle(h, pushed) => h in s.handlers && s.handlers[h].at != Waiting && 0 < s.handlers[h].slot < SLOTS
       case Dispatch(g) => CanDispatch(s, g)
       case Expansion(g) =>
         g in s.growers && 0 < s.growers[g].slot < SLOTS && s.growers[g].node in s.requests &&
           s.growers[g].at != Refused
  }

  function SetConn(s: State, c: nat, x: Conn): (r: State) { s.(conns := s.conns[c := x]) }
  function SetPlace(s: State, k: nat, p: Place): (r: State)
    requires k < |s.place|
  {
    s.(place := s.place[k := p])
  }

  function Apply(s: State, step: Step): (r: State)
    requires Enabled(s, step)
  {
    match step
    case BeginNext(c, n) =>
      var x := s.conns[c];
      SetConn(s, c, x.(at := if x.slot == 0 then Claim else Poll, going := true, node := n))
    case BeginClaim(c) => SetConn(s, c, s.conns[c].(at := Claim, going := false))
    case BeginClose(c) => SetConn(s, c, s.conns[c].(at := if s.conns[c].slot == 0 then Closed else Unregister))
    case ClaimSlot(c, k) =>
      SetConn(s, c, s.conns[c].(at := PutHeader, slot := k)).(
      slots := s.slots[k := s.slots[k].(status := Busy)], place := s.place[k := AtHub], holder := s.holder[k := c])
    case ClaimNone(c) => SetConn(s, c, s.conns[c].(at := Home))
    case TakeDone(c, ch) =>
      var x := s.conns[c];
      SetConn(s, c, x.(at := if x.going then Poll else Home, done := Some(ch))).(
      pool := s.pool - {ch}, chans := if ch in s.chans then s.chans else s.chans[ch := 0])
    case Hub(c) => HubStep(s, c)
    case NodeTake(n, h, plan) => NodeStep(s, n, h, plan)
    case Handle(h, pushed) => HandlerStep(s, h, pushed)
    case Dispatch(g) => DispatchStep(s, g)
    case Expansion(g) => GrowerStep(s, g)
  }

  /** The steps of a connection that touch only the words of its slot and the hub's
      waiter entry: the stores of a claim, the poll, the stores of Next, and Close. */
  function OwnStep(c: nat, x: Conn, t: Slot, w: Option<nat>): (r: (Conn, Slot, Option<nat>))
  {
    match x.at
    case PutHeader => (x.(at := PutOwner), t.(header := x.header), w)
    case PutOwner => (x.(at := PutStatus), t.(owner := 0), w)
    case PutStatus => (x.(at := GetDone), t.(status := Ready), w)
    case Poll => (if t.status == Ready || t.status == Done then x.(at := AimHeader) else x, t, w)
    case AimHeader => (x.(at := AimOwner), t.(header := x.header), w)
    case AimOwner => (x.(at := AimStatus), t.(owner := x.node), w)
    case AimStatus => (x.(at := Drain), t.(status := Busy), w)
    case Register => (x.(at := Submit), t, Some(c))
    case Refresh => (x.(at := Home), t, w)
    case Unregister => (x.(at := PutBack), t, None)
    case _ => (x, t, w)
  }

  /** The steps of Next after the slot is there, of the answer, and of Close. */
  function HubStep(s: State, c: nat): (r: State)
    requires Enabled(s, Hub(c))
  {
    var x := s.conns[c];
    var k := x.slot;
    match x.at
    case Drain => SetConn(s, c, x.(at := Register)).(chans := s.chans[x.done.value := 0])
    case Submit =>
      SetPlace(SetConn(s, c, x.(at := Blocked, sent := x.sent + [x.node])), k, Requested).(
      requests := s.requests[x.node := s.requests[x.node] + [Msg(k, Process)]])
    case Blocked =>
      SetPlace(SetConn(s, c, x.(at := Refresh, returned := x.returned + [x.node])), k, AtHub).(
      chans := s.chans[x.done.value := s.chans[x.done.value] - 1])
    case PutBack =>
      SetConn(s, c, x.(at := FreeSlot, done := None)).(pool := if x.done.Some? then s.pool + {x.done.value} else s.pool)
    case FreeSlot =>
      SetPlace(SetConn(s, c, x.(at := Closed, slot := 0)), k, Nowhere).(
      slots := s.slots[k := s.slots[k].(status := Idle)])
    case _ =>
      var r := OwnStep(c, x, s.slots[k], s.waiters[k]);
      SetConn(s, c, r.0).(slots := s.slots[k := r.1], waiters := s.waiters[k := r.2])
  }

  /** A node takes the next message of its queue. */
  function NodeStep(s: State, n: nat, h: nat, plan: seq<Op>): (r: State)
    requires Enabled(s, NodeTake(n, h, plan))
  {
    var m := s.requests[n][0];
    var t := s.(requests := s.requests[n := s.requests[n][1..]]);
    match m.cmd
    case Process =>
      SetPlace(t, m.slot, Handling(h)).(
      handlers := s.handlers[h := Handler(Begin, n, m.slot, 0, plan, s.holder[m.slot])])
    case Granted =>
      if (n, m.slot) in s.askers then
        var w := s.askers[(n, m.slot)];
        SetPlace(t, m.slot, Handling(w)).(
        askers := s.askers - {(n, m.slot)}, handlers := s.handlers[w := s.handlers[w].(at := Run)])
      else t
    case Expand => t
  }

  /** A handler works through its plan; whether it returns or panics, it marks the slot
      and responds. `pushed` tells whether a request for blocks found room in the ring. */
  function HandlerStep(s: State, h: nat, pushed: bool): (r: State)
    requires Enabled(s, Handle(h, pushed))
  {
    var y := s.handlers[h];
    var k := y.slot;
    match y.at
    case Begin => s.(handlers := s.handlers[h := y.(at := Run, header := s.slots[k].header)])
    case Run =>
      if y.todo == [] then
        var c := y.of;
        var t := SetPlace(s, k, Marked(h)).(
          slots := s.slots[k := s.slots[k].(status := Done)], handlers := s.handlers[h := y.(at := Respond)]);
        if c in s.conns then SetConn(t, c, s.conns[c].(finished := s.conns[c].finished + [y.node])) else t
      else if y.todo[0] == Use then s.(handlers := s.handlers[h := y.(todo := y.todo[1..])])
      else s.(handlers := s.handlers[h := y.(at := AskPush, todo := y.todo[1..])], askers := s.askers[(y.node, k) := h])
    case AskPush =>
      if pushed then
        SetPlace(s, k, Asked(h)).(
        handlers := s.handlers[h := y.(at := Waiting)], responses := s.responses + [Msg(k, Expand)])
      else s.(handlers := s.handlers[h := y.(at := Run)])
    case Waiting => s
    case Respond =>
      SetPlace(s, k, Responded).(handlers := s.handlers - {h}, responses := s.responses + [Msg(k, Process)])
  }

  /** The hub's dispatch loop. */
  function DispatchStep(s: State, g: nat): (r: State)
    requires Enabled(s, Dispatch(g))
  {
    match s.dispatcher
    case Free =>
      var m := s.responses[0];
      var t := s.(responses := s.responses[1..]);
      if m.cmd == Process then SetPlace(t, m.slot, Popped).(dispatcher := GotProcess(m.slot))
      else if m.cmd == Expand then t.(dispatcher := GotExpand(m.slot))
      else t
    case GotProcess(k) =>
      var w := s.waiters[k];
      var t := s.(waiters := s.waiters[k := None]);
      if w.Some? then SetPlace(t, k, Swapped).(dispatcher := Holding(w.value)) else t.(dispatcher := Free)
    case GotExpand(k) =>
      var t := s.(dispatcher := Free, growers := s.growers[g := Grower(Check, s.slots[k].owner, k)]);
      if s.place[k].Asked? then SetPlace(t, k, Growing(s.place[k].h, g)) else t
    case Holding(c) =>
      var x := s.conns[c];
      var t := s.(dispatcher := Free, chans := s.chans[x.done.value := s.chans[x.done.value] + 1]);
      if x.slot < SLOTS then SetPlace(t, x.slot, Delivered) else t
  }

  /** A goroutine that answers one request for blocks. */
  function GrowerStep(s: State, g: nat): (r: State)
    requires Enabled(s, Expansion(g))
  {
    var y := s.growers[g];
    match y.at
    case Check => s.(growers := s.growers[g := y.(at := if s.slots[y.slot].owner == y.node then Allocate else Refused)])
    case Allocate => s.(growers := s.growers[g := y.(at := Reply)])
    case Reply =>
      var t := s.(growers := s.growers - {g},
                  requests := s.requests[y.node := s.requests[y.node] + [Msg(y.slot, Granted)]]);
      if s.place[y.slot].Growing? then SetPlace(t, y.slot, Answered(s.place[y.slot].h)) else t
    case Refused => s
  }

  ghost predicate Next(s: State, s': State)
  {
    exists step :: Enabled(s, step) && s' == Apply(s, step)
  }

  ghost predicate IsRun(run: seq<State>)
  {
    && |run| > 0 && Init(run[0])
    && forall i :: 0 <= i < |run| - 1 ==> Next(run[i], run[i + 1])
  }

  // ---------- The invariant ----------

  /** The handler has run and the connection has not heard of it yet. */
  predicate Late(p: Place)
  {
    p.Marked? || p == Responded || p == Popped || p == Swapped || p == Delivered
  }

  predicate Claiming(at: ConnAt) { at == PutHeader || at == PutOwner || at == PutStatus }
  predicate Armed(at: ConnAt) { at == Drain || at == Register || at == Submit }

  predicate StatusOk(x: Conn, t: Slot, p: Place)
  {
    if Claiming(x.at) || Armed(x.at) then t.status == Busy
    else if x.at == Blocked then t.status != Idle && (Late(p) ==> t.status == Done)
    else t.status == Ready || t.status == Done
  }

  /** A connection `c` with a slot, the words of the slot, the place of the right to its
      stripe, the hub's waiter entry and the content of its channel. */
  predicate LocalOk(c: nat, x: Conn, t: Slot, p: Place, w: Option<nat>, q: nat)
  {
    && x.at != Claim && x.at != Closed && p != Nowhere && (p == AtHub <==> x.at != Blocked)
    && StatusOk(x, t, p)
    && (x.at == PutHeader || t.header == x.header)
    && (Armed(x.at) || x.at == AimStatus || x.at == Blocked ==> t.owner == x.node)
    && (x.done == None <==> Claiming(x.at) || x.at == GetDone || x.at == FreeSlot)
    && q == (if p == Delivered then 1 else 0)
    && (x.at == Submit || (x.at == Blocked && p != Swapped && p != Delivered) ==> w == Some(c))
    && x.sent == x.returned + (if x.at == Blocked then [x.node] else [])
    && x.finished == x.returned + (if Late(p) then [x.node] else [])
  }

  function Content(s: State, x: Conn): (q: nat)
  {
    if x.done.Some? && x.done.value in s.chans then s.chans[x.done.value] else 0
  }

  /** Between the start of Next and its return the named node has a queue. */
  predicate Named(x: Conn, requests: map<nat, seq<Msg>>)
  {
    (x.at == Poll || x.at == AimHeader || x.at == AimOwner || x.at == AimStatus || Armed(x.at) || x.at == Blocked
     || (x.going && (x.at == Claim || Claiming(x.at) || x.at == GetDone))) ==>
    x.node in requests
  }

  predicate ConnOk(s: State, c: nat)
    requires Shaped(s) && c in s.conns
  {
    var x := s.conns[c];
    && Named(x, s.requests)
    && if x.slot == 0 then
         && (x.at == Home || x.at == Claim || x.at == Closed) && x.done == None && x.sent == x.finished == x.returned
       else
         && x.slot < SLOTS && s.holder[x.slot] == c && (x.done.Some? ==> x.done.value in s.chans)
         && LocalOk(c, x, s.slots[x.slot], s.place[x.slot], s.waiters[x.slot], Content(s, x))
  }

  predicate ConnsOk(s: State)
    requires Shaped(s)
  {
    forall c :: c in s.conns ==> ConnOk(s, c)
  }

  predicate HeldOk(s: State, k: nat)
    requires Shaped(s) && k < SLOTS
  {
    if s.place[k] == Nowhere then s.slots[k].status == Idle
    else k > 0 && s.holder[k] in s.conns && s.conns[s.holder[k]].slot == k
  }

  predicate HoldersOk(s: State)
    requires Shaped(s)
  {
    forall k :: 0 <= k < SLOTS ==> HeldOk(s, k)
  }

  predicate InUse(s: State, k: nat)
    requires Shaped(s)
  {
    0 < k < SLOTS && s.place[k] != Nowhere && s.holder[k] in s.conns
  }

  predicate IsWaiting(s: State, k: nat, h: nat)
  {
    h in s.handlers && s.handlers[h].slot == k && s.handlers[h].at == Waiting
  }

  /** The right to the stripe is where `place` says. */
  predicate Located(s: State, k: nat)
    requires Shaped(s) && InUse(s, k)
  {
    var n := s.conns[s.holder[k]].node;
    match s.place[k]
    case Requested => n in s.requests && Msg(k, Process) in s.requests[n]
    case Handling(h) => h in s.handlers && s.handlers[h].slot == k
    case Asked(h) => IsWaiting(s, k, h) && (Msg(k, Expand) in s.responses || s.dispatcher == GotExpand(k))
    case Growing(h, g) => IsWaiting(s, k, h) && g in s.growers && s.growers[g].slot == k
    case Answered(h) => IsWaiting(s, k, h) && n in s.requests && Msg(k, Granted) in s.requests[n]
    case Marked(h) => h in s.handlers && s.handlers[h].slot == k
    case Responded => Msg(k, Process) in s.responses
    case Popped => s.dispatcher == GotProcess(k)
    case Swapped => s.dispatcher == Holding(s.holder[k])
    case _ => true
  }

  predicate PlacesOk(s: State)
    requires Shaped(s)
  {
    forall k :: 0 <= k < SLOTS && InUse(s, k) ==> Located(s, k)
  }

  predicate HandlerPlace(at: HandlerAt, p: Place, h: nat)
  {
    match at
    case Waiting => p == Asked(h) || (p.Growing? && p.h == h) || p == Answered(h)
    case Respond => p == Marked(h)
    case _ => p == Handling(h)
  }

  predicate HandlerOk(s: State, h: nat)
    requires Shaped(s) && h in s.handlers
  {
    var y := s.handlers[h];
    && InUse(s, y.slot) && HandlerPlace(y.at, s.place[y.slot], h)
    && y.of == s.holder[y.slot] && y.node == s.conns[y.of].node
    && (y.at != Begin ==> y.header == s.conns[y.of].header)
    && (y.at == AskPush || y.at == Waiting ==> (y.node, y.slot) in s.askers && s.askers[(y.node, y.slot)] == h)
  }

  predicate HandlersOk(s: State)
    requires Shaped(s)
  {
    forall h :: h in s.handlers ==> HandlerOk(s, h)
  }

  predicate GrowerOk(s: State, g: nat)
    requires Shaped(s) && g in s.growers
  {
    var y := s.growers[g];
    && InUse(s, y.slot) && s.place[y.slot].Growing? && s.place[y.slot].g == g
    && y.node == s.conns[s.holder[y.slot]].node && y.at != Refused
  }

  predicate GrowersOk(s: State)
    requires Shaped(s)
  {
    forall g :: g in s.growers ==> GrowerOk(s, g)
  }

  predicate OneEach(q: seq<Msg>)
  {
    forall i, j :: 0 <= i < j < |q| ==> q[i].slot != q[j].slot
  }

  /** A message in the queue of node `n` stands for the right to its slot's stripe. */
  predicate RequestOk(s: State, n: nat, m: Msg)
    requires Shaped(s)
  {
    && InUse(s, m.slot) && s.conns[s.holder[m.slot]].node == n
    && if m.cmd == Process then s.place[m.slot] == Requested else m.cmd == Granted && s.place[m.slot].Answered?
  }

  predicate RequestsOk(s: State)
    requires Shaped(s)
  {
    forall n :: n in s.requests ==>
      OneEach(s.requests[n]) && forall i :: 0 <= i < |s.requests[n]| ==> RequestOk(s, n, s.requests[n][i])
  }

  predicate ResponseOk(s: State, m: Msg)
    requires Shaped(s)
  {
    && InUse(s, m.slot)
    && if m.cmd == Process then s.place[m.slot] == Responded else m.cmd == Expand && s.place[m.slot].Asked?
  }

  predicate ResponsesOk(s: State)
    requires Shaped(s)
  {
    OneEach(s.responses) && forall i :: 0 <= i < |s.responses| ==> ResponseOk(s, s.responses[i])
  }

  predicate DispatcherOk(s: State)
    requires Shaped(s)
  {
    match s.dispatcher
    case Free => true
    case GotProcess(k) => InUse(s, k) && s.place[k] == Popped
    case GotExpand(k) =>
      InUse(s, k) && s.place[k].Asked? && forall i :: 0 <= i < |s.responses| ==> s.responses[i].slot != k
    case Holding(c) =>
      && c in s.conns && InUse(s, s.conns[c].slot)
      && s.place[s.conns[c].slot] == Swapped && s.holder[s.conns[c].slot] == c
  }

  predicate ChansOk(s: State)
  {
    && (forall ch :: ch in s.pool ==> ch in s.chans && s.chans[ch] == 0)
    && (forall c :: c in s.conns && s.conns[c].done.Some? ==> s.conns[c].done.value !in s.pool)
    && forall c, d :: c in s.conns && d in s.conns && c != d && s.conns[c].done.Some? ==>
      s.conns[c].done != s.conns[d].done
  }

  predicate Inv(s: State)
  {
    && Shaped(s) && ConnsOk(s) && HoldersOk(s) && PlacesOk(s) && HandlersOk(s) && GrowersOk(s)
    && RequestsOk(s) && ResponsesOk(s) && DispatcherOk(s) && ChansOk(s)
  }

  lemma InitInv(s: State)
    requires Init(s)
    ensures Inv(s)
  {}

  // ---------- What a step on one slot leaves alone ----------

  /** Of the connections only `c` changes, and of the slots only `k`, which is its slot
      if it has one; slot 0 stands for none. */
  predicate Turn(s: State, s': State, c: nat, k: nat)
  {
    && Shaped(s) && Shaped(s') && k < SLOTS && c in s.conns && c in s'.conns
    && s'.conns == s.conns[c := s'.conns[c]]
    && s'.place == s.place[k := s'.place[k]] && s'.holder == s.holder[k := s'.holder[k]]
    && s'.slots == s.slots[k := s'.slots[k]] && s'.waiters == s.waiters[k := s'.waiters[k]]
    && (s.conns[c].slot == k || (s.conns[c].slot == 0 && s.place[k] == Nowhere))
    && (s'.conns[c].slot == k || (s'.conns[c].slot == 0 && s'.place[k] == Nowhere))
    && (s'.place[k] != Nowhere ==> s'.holder[k] == c)
    && (forall n :: n in s.requests ==> n in s'.requests)
    && (forall ch :: ch in s.chans ==> ch in s'.chans)
    && forall d :: d in s.conns && d != c && s.conns[d].done.Some? && s.conns[d].done.value in s.chans ==>
         s'.chans[s.conns[d].done.value] == s.chans[s.conns[d].done.value]
  }

  /** The slot, its holder and the holder's connection are as before. */
  predicate Undisturbed(s: State, s': State, j: nat)
    requires Shaped(s) && Shaped(s')
  {
    && InUse(s, j) && InUse(s', j) && s'.place[j] == s.place[j] && s'.holder[j] == s.holder[j]
    && s'.conns[s'.holder[j]] == s.conns[s.holder[j]]
  }

  lemma OtherSlot(s: State, s': State, c: nat, k: nat, j: nat)
    requires Shaped(s) && HoldersOk(s) && Turn(s, s', c, k) && InUse(s, j) && j != k
    ensures Undisturbed(s, s', j)
  {
    assert HeldOk(s, j);
  }

  lemma OtherConnSlot(s: State, s': State, c: nat, k: nat, d: nat)
    requires Turn(s, s', c, k) && ConnOk(s, c) && d in s.conns && d != c && ConnOk(s, d)
    ensures s.conns[d].slot == 0 || s.conns[d].slot != k
  {
    hide Named, Content;
  }

  lemma OtherConn(s: State, s': State, c: nat, k: nat, d: nat)
    requires Turn(s, s', c, k) && ConnOk(s, c) && d in s.conns && d != c && ConnOk(s, d)
    ensures d in s'.conns && ConnOk(s', d)
  {
    hide LocalOk;
    OtherConnSlot(s, s', c, k, d);
    var x := s.conns[d];
    assert s'.conns[d] == x;
    assert Content(s', x) == Content(s, x);
  }

  lemma TurnConns(s: State, s': State, c: nat, k: nat)
    requires Turn(s, s', c, k) && ConnsOk(s) && ConnOk(s', c)
    ensures ConnsOk(s')
  {
    hide Turn, ConnOk;
    TurnFacts(s, s', c, k);
    forall d | d in s'.conns ensures ConnOk(s', d) {
      if d != c { OtherConn(s, s', c, k, d); }
    }
  }

  lemma TurnFacts(s: State, s': State, c: nat, k: nat)
    requires Turn(s, s', c, k)
    ensures Shaped(s) && Shaped(s') && k < SLOTS && c in s.conns && c in s'.conns &&
      s'.conns == s.conns[c := s'.conns[c]]
  {}

  lemma TurnHolders(s: State, s': State, c: nat, k: nat)
    requires Shaped(s) && HoldersOk(s) && Turn(s, s', c, k)
    requires if s'.place[k] == Nowhere then s'.slots[k].status == Idle else k > 0
    ensures HoldersOk(s')
  {
    forall j | 0 <= j < SLOTS ensures HeldOk(s', j) {
      assert HeldOk(s, j);
    }
  }

  predicate NamesHandler(p: Place, h: nat)
  {
    (p.Handling? || p.Asked? || p.Growing? || p.Answered? || p.Marked?) && p.h == h
  }

  // Queues of requests: left alone, with a message for slot `k` added, or taken.

  predicate InRequests(p: Place) { p == Requested || p.Answered? }

  lemma RequestStays(s: State, s': State, n: nat, m: Msg)
    requires Shaped(s) && Shaped(s') && RequestOk(s, n, m) && Undisturbed(s, s', m.slot)
    ensures RequestOk(s', n, m)
  {}

  lemma RequestsKept(s: State, s': State, c: nat, k: nat)
    requires Turn(s, s', c, k) && HoldersOk(s) && RequestsOk(s)
    requires s'.requests == s.requests && !InRequests(s.place[k])
    ensures RequestsOk(s')
  {
    hide Turn, HoldersOk, OneEach, Undisturbed;
    TurnFacts(s, s', c, k);
    forall n, i | n in s'.requests && 0 <= i < |s'.requests[n]| ensures RequestOk(s', n, s'.requests[n][i]) {
      var m := s.requests[n][i];
      assert RequestOk(s, n, m);
      OtherSlot(s, s', c, k, m.slot);
      RequestStays(s, s', n, m);
    }
  }

  lemma RequestsPushed(s: State, s': State, c: nat, k: nat, n: nat, m: Msg)
    requires Turn(s, s', c, k) && HoldersOk(s) && RequestsOk(s)
    requires n in s.requests && s'.requests == s.requests[n := s.requests[n] + [m]]
    requires m.slot == k && !InRequests(s.place[k]) && RequestOk(s', n, m)
    ensures RequestsOk(s')
  {
    hide Turn, HoldersOk, Undisturbed;
    TurnFacts(s, s', c, k);
    forall b, i | b in s.requests && 0 <= i < |s.requests[b]|
      ensures RequestOk(s', b, s.requests[b][i]) && s.requests[b][i].slot != k
    {
      var r := s.requests[b][i];
      assert RequestOk(s, b, r);
      OtherSlot(s, s', c, k, r.slot);
      RequestStays(s, s', b, r);
    }
  }

  lemma RequestsTaken(s: State, s': State, c: nat, k: nat, n: nat)
    requires Turn(s, s', c, k) && HoldersOk(s) && RequestsOk(s)
    requires n in s.requests && s.requests[n] != [] && s.requests[n][0].slot == k
    requires s'.requests == s.requests[n := s.requests[n][1..]]
    ensures RequestsOk(s')
  {
    hide Turn, HoldersOk, Undisturbed;
    TurnFacts(s, s', c, k);
    assert RequestOk(s, n, s.requests[n][0]);
    forall b, i | b in s.requests && 0 <= i < |s.requests[b]| && (b != n || i > 0)
      ensures RequestOk(s', b, s.requests[b][i])
    {
      var r := s.requests[b][i];
      assert RequestOk(s, b, r);
      assert r.slot != k;
      OtherSlot(s, s', c, k, r.slot);
      RequestStays(s, s', b, r);
    }
  }

  // The queue of responses.

  predicate InResponses(p: Place) { p == Responded || p.Asked? }

  lemma ResponseStays(s: State, s': State, m: Msg)
    requires Shaped(s) && Shaped(s') && ResponseOk(s, m) && Undisturbed(s, s', m.slot)
    ensures ResponseOk(s', m)
  {}

  lemma ResponsesKept(s: State, s': State, c: nat, k: nat)
    requires Turn(s, s', c, k) && HoldersOk(s) && ResponsesOk(s)
    requires s'.responses == s.responses && forall i :: 0 <= i < |s.responses| ==> s.responses[i].slot != k
    ensures ResponsesOk(s')
  {
    hide Turn, HoldersOk, OneEach, Undisturbed;
    TurnFacts(s, s', c, k);
    forall i | 0 <= i < |s'.responses| ensures ResponseOk(s', s'.responses[i]) {
      OtherSlot(s, s', c, k, s.responses[i].slot);
      ResponseStays(s, s', s.responses[i]);
    }
  }

  lemma NoResponse(s: State, k: nat)
    requires Shaped(s) && ResponsesOk(s) && k < SLOTS && !InResponses(s.place[k])
    ensures forall i :: 0 <= i < |s.responses| ==> s.responses[i].slot != k
  {
    forall i | 0 <= i < |s.responses| ensures s.responses[i].slot != k { assert ResponseOk(s, s.responses[i]); }
  }

  lemma ResponsesPushed(s: State, s': State, c: nat, k: nat, m: Msg)
    requires Turn(s, s', c, k) && HoldersOk(s) && ResponsesOk(s)
    requires s'.responses == s.responses + [m] && m.slot == k && !InResponses(s.place[k]) && ResponseOk(s', m)
    ensures ResponsesOk(s')
  {
    hide Turn, HoldersOk, Undisturbed;
    TurnFacts(s, s', c, k);
    NoResponse(s, k);
    forall i | 0 <= i < |s.responses| ensures ResponseOk(s', s.responses[i]) {
      OtherSlot(s, s', c, k, s.responses[i].slot);
      ResponseStays(s, s', s.responses[i]);
    }
  }

  lemma ResponsesTaken(s: State, s': State, c: nat, k: nat)
    requires Turn(s, s', c, k) && HoldersOk(s) && ResponsesOk(s)
    requires s.responses != [] && s.responses[0].slot == k && s'.responses == s.responses[1..]
    ensures ResponsesOk(s') && forall i :: 0 <= i < |s'.responses| ==> s'.responses[i].slot != k
  {
    hide Turn, HoldersOk, Undisturbed;
    TurnFacts(s, s', c, k);
    forall i | 1 <= i < |s.responses| ensures ResponseOk(s', s.responses[i]) && s.responses[i].slot != k {
      OtherSlot(s, s', c, k, s.responses[i].slot);
      ResponseStays(s, s', s.responses[i]);
    }
  }

  // Handlers and growers: at most the one that `place` names changes.

  lemma HandlersTurn(s: State, s': State, c: nat, k: nat, h: nat)
    requires Turn(s, s', c, k) && HoldersOk(s) && HandlersOk(s)
    requires forall a :: a in s.handlers && a != h ==> !NamesHandler(s.place[k], a)
    requires forall a :: a in s'.handlers && a != h ==> a in s.handlers && s'.handlers[a] == s.handlers[a]
    requires forall a, b :: (a, b) in s.askers && b != k ==>
      (a, b) in s'.askers && s'.askers[(a, b)] == s.askers[(a, b)]
    requires h in s'.handlers ==> HandlerOk(s', h)
    ensures HandlersOk(s')
  {
    hide Turn, HoldersOk;
    TurnFacts(s, s', c, k);
    forall a | a in s'.handlers ensures HandlerOk(s', a) {
      if a != h {
        assert HandlerOk(s, a);
        OtherSlot(s, s', c, k, s.handlers[a].slot);
      }
    }
  }

  lemma GrowersTurn(s: State, s': State, c: nat, k: nat, g: nat)
    requires Turn(s, s', c, k) && HoldersOk(s) && GrowersOk(s)
    requires s.place[k].Growing? ==> s.place[k].g == g
    requires forall a :: a in s'.growers && a != g ==> a in s.growers && s'.growers[a] == s.growers[a]
    requires g in s'.growers ==> GrowerOk(s', g)
    ensures GrowersOk(s')
  {
    hide Turn, HoldersOk;
    TurnFacts(s, s', c, k);
    forall a | a in s'.growers ensures GrowerOk(s', a) {
      if a != g {
        assert GrowerOk(s, a);
        OtherSlot(s, s', c, k, s.growers[a].slot);
      }
    }
  }

  // The dispatcher, when it works on another slot or none.

  predicate DispatcherOn(s: State, k: nat)
  {
    match s.dispatcher
    case Free => false
    case GotProcess(j) => j == k
    case GotExpand(j) => j == k
    case Holding(c) => c in s.conns && s.conns[c].slot == k
  }

  lemma DispatcherKept(s: State, s': State, c: nat, k: nat)
    requires Turn(s, s', c, k) && HoldersOk(s) && DispatcherOk(s)
    requires s'.dispatcher == s.dispatcher && !DispatcherOn(s, k)
    requires forall i :: 0 <= i < |s'.responses| ==> s'.responses[i].slot == k || s'.responses[i] in s.responses
    ensures DispatcherOk(s')
  {
    hide Turn, HoldersOk;
    TurnFacts(s, s', c, k);
    match s.dispatcher
    case Free =>
    case GotProcess(j) => OtherSlot(s, s', c, k, j);
    case GotExpand(j) => OtherSlot(s, s', c, k, j);
    case Holding(d) => OtherSlot(s, s', c, k, s.conns[d].slot);
  }

  lemma DispatcherElsewhere(s: State, k: nat)
    requires Shaped(s) && DispatcherOk(s) && k < SLOTS
    requires s.place[k] != Popped && s.place[k] != Swapped && !s.place[k].Asked?
    ensures !DispatcherOn(s, k)
  {}

  /** Whatever carries the right to another slot is still there. */
  predicate Carried(s: State, s': State, k: nat)
  {
    && (forall n, i :: n in s.requests && 0 <= i < |s.requests[n]| && s.requests[n][i].slot != k ==>
          n in s'.requests && s.requests[n][i] in s'.requests[n])
    && (forall i :: 0 <= i < |s.responses| && s.responses[i].slot != k ==> s.responses[i] in s'.responses)
    && (forall h :: h in s.handlers && s.handlers[h].slot != k ==> h in s'.handlers && s'.handlers[h] == s.handlers[h])
    && (forall g :: g in s.growers && s.growers[g].slot != k ==> g in s'.growers && s'.growers[g] == s.growers[g])
    && (s'.dispatcher == s.dispatcher || s.dispatcher == Free || DispatcherOn(s, k))
  }

  lemma LocatedElsewhere(s: State, s': State, k: nat, j: nat)
    requires Shaped(s) && Shaped(s') && Undisturbed(s, s', j) && HeldOk(s, j) && Located(s, j) && Carried(s, s', k) &&
      j != k
    ensures Located(s', j)
  {}

  lemma PlacesTurn(s: State, s': State, c: nat, k: nat)
    requires Turn(s, s', c, k) && HoldersOk(s) && PlacesOk(s) && Carried(s, s', k)
    requires InUse(s', k) ==> Located(s', k)
    ensures PlacesOk(s')
  {
    hide Turn, Located, Carried;
    TurnFacts(s, s', c, k);
    forall j | 0 <= j < SLOTS && InUse(s', j) ensures Located(s', j) {
      if j != k {
        InUseBefore(s, s', c, k, j);
        OtherSlot(s, s', c, k, j);
        LocatedElsewhere(s, s', k, j);
      }
    }
  }

  lemma InUseBefore(s: State, s': State, c: nat, k: nat, j: nat)
    requires Turn(s, s', c, k) && HoldersOk(s) && j < SLOTS && j != k && InUse(s', j)
    ensures InUse(s, j)
  {
    assert HeldOk(s, j);
  }

  // ---------- Steps of the hub's connections ----------

  lemma HolderLocal(s: State, k: nat)
    requires Inv(s) && InUse(s, k)
    ensures var c := s.holder[k]; var x := s.conns[c];
      && x.slot == k && ConnOk(s, c) && (x.done.Some? ==> x.done.value in s.chans)
      && LocalOk(c, x, s.slots[k], s.place[k], s.waiters[k], Content(s, x)) && Located(s, k)
  {
    hide LocalOk, Located, Content, Named;
    assert HeldOk(s, k) && ConnOk(s, s.holder[k]);
  }

  lemma QuietKeeps(s: State, s': State, c: nat, k: nat)
    requires Inv(s) && Turn(s, s', c, k)
    requires s.place[k] == AtHub || s.place[k] == Nowhere
    requires if s'.place[k] == Nowhere then s'.slots[k].status == Idle else k > 0 && s'.place[k] == AtHub
    requires s'.requests == s.requests && s'.responses == s.responses && s'.handlers == s.handlers
    requires s'.askers == s.askers && s'.dispatcher == s.dispatcher && s'.growers == s.growers
    requires ConnOk(s', c) && ChansOk(s')
    ensures Inv(s')
  {
    hide Turn, ConnsOk, ConnOk, HoldersOk, PlacesOk, HandlersOk, GrowersOk, RequestsOk, ResponsesOk, DispatcherOk,
         ChansOk, HandlerOk, GrowerOk, DispatcherOn;
    TurnFacts(s, s', c, k);
    TurnConns(s, s', c, k);
    TurnHolders(s, s', c, k);
    DispatcherElsewhere(s, k);
    NoResponse(s, k);
    SameItems(s, s', k);
    PlacesTurn(s, s', c, k);
    RequestsKept(s, s', c, k);
    ResponsesKept(s, s', c, k);
    DispatcherKept(s, s', c, k);
    assert HandlersOk(s') by { QuietHandlers(s, s', c, k); }
    assert GrowersOk(s') by { QuietGrowers(s, s', c, k); }
  }

  lemma SameItems(s: State, s': State, k: nat)
    requires s'.requests == s.requests && s'.responses == s.responses && s'.handlers == s.handlers
    requires s'.dispatcher == s.dispatcher && s'.growers == s.growers
    ensures Carried(s, s', k)
  {}

  lemma QuietHandlers(s: State, s': State, c: nat, k: nat)
    requires Turn(s, s', c, k) && HoldersOk(s) && HandlersOk(s) && (s.place[k] == AtHub || s.place[k] == Nowhere)
    requires s'.handlers == s.handlers && s'.askers == s.askers
    ensures HandlersOk(s')
  {
    hide Turn, HoldersOk;
    TurnFacts(s, s', c, k);
    forall a | a in s'.handlers ensures HandlerOk(s', a) {
      assert HandlerOk(s, a);
      OtherSlot(s, s', c, k, s.handlers[a].slot);
    }
  }

  lemma QuietGrowers(s: State, s': State, c: nat, k: nat)
    requires Turn(s, s', c, k) && HoldersOk(s) && GrowersOk(s) && !s.place[k].Growing? && s'.growers == s.growers
    ensures GrowersOk(s')
  {
    hide Turn, HoldersOk;
    TurnFacts(s, s', c, k);
    forall a | a in s'.growers ensures GrowerOk(s', a) {
      assert GrowerOk(s, a);
      OtherSlot(s, s', c, k, s.growers[a].slot);
    }
  }

  /** Channels stay apart while no connection gets another one. */
  lemma SameChans(s: State, s': State, c: nat)
    requires ChansOk(s) && c in s.conns && c in s'.conns && s'.conns == s.conns[c := s'.conns[c]] && s'.pool == s.pool
    requires s'.conns[c].done == s.conns[c].done
    requires forall ch :: ch in s.chans ==> ch in s'.chans && (ch in s.pool ==> s'.chans[ch] == s.chans[ch])
    ensures ChansOk(s')
  {}

  lemma SlotlessKeeps(s: State, s': State, c: nat)
    requires Inv(s) && c in s.conns && s.conns[c].slot == 0 && c in s'.conns
    requires s' == s.(conns := s.conns[c := s'.conns[c]]) && s'.conns[c].slot == 0 && s'.conns[c].done == None
    requires ConnOk(s', c)
    ensures Inv(s')
  {
    hide ConnsOk, ConnOk, PlacesOk, HandlersOk, GrowersOk, RequestsOk, ResponsesOk, DispatcherOk, ChansOk;
    assert s.place[0] == Nowhere && s.slots[0].status == Idle by { assert HeldOk(s, 0); }
    assert s.conns[c].done == None by { assert ConnOk(s, c) by { NoDone(s, c); } NoDone(s, c); }
    assert Turn(s, s', c, 0);
    SameChans(s, s', c);
    QuietKeeps(s, s', c, 0);
  }

  lemma NoDone(s: State, c: nat)
    requires Inv(s) && c in s.conns
    ensures ConnOk(s, c) && (s.conns[c].slot == 0 ==> s.conns[c].done == None)
  {
    hide LocalOk, Named;
  }

  /** A connection changes its position and the like, but not its slot or channel. */
  lemma OwnTurn(s: State, s': State, c: nat)
    requires Inv(s) && c in s.conns && c in s'.conns && s.conns[c].slot != 0
    requires s' == s.(conns := s.conns[c := s'.conns[c]], slots := s'.slots, waiters := s'.waiters)
    requires s'.conns[c].slot == s.conns[c].slot && s'.conns[c].done == s.conns[c].done
    requires Shaped(s') && s.conns[c].slot < SLOTS
    requires s'.slots == s.slots[s.conns[c].slot := s'.slots[s.conns[c].slot]]
    requires s'.waiters == s.waiters[s.conns[c].slot := s'.waiters[s.conns[c].slot]]
    requires s.place[s.conns[c].slot] == AtHub && ConnOk(s', c)
    ensures Inv(s')
  {
    hide PlacesOk, HandlersOk, GrowersOk, RequestsOk, ResponsesOk, DispatcherOk, ChansOk, LocalOk, Named;
    var k := s.conns[c].slot;
    assert ConnOk(s, c);
    assert Turn(s, s', c, k);
    SameChans(s, s', c);
    QuietKeeps(s, s', c, k);
  }

  lemma LocalOf(s: State, c: nat)
    requires Inv(s) && c in s.conns
    ensures ConnOk(s, c)
  {
    hide ConnOk;
  }

  lemma AtHubIf(c: nat, x: Conn, t: Slot, p: Place, w: Option<nat>, q: nat)
    requires LocalOk(c, x, t, p, w, q) && x.at != Blocked
    ensures p == AtHub && q == 0
  {}

  /** The part of a connection's invariant that its slot does not enter. */
  lemma ConnFrom(s: State, c: nat)
    requires Shaped(s) && c in s.conns && 0 < s.conns[c].slot < SLOTS && Named(s.conns[c], s.requests)
    requires s.holder[s.conns[c].slot] == c && (s.conns[c].done.Some? ==> s.conns[c].done.value in s.chans)
    requires var x := s.conns[c]; LocalOk(c, x, s.slots[x.slot], s.place[x.slot], s.waiters[x.slot], Content(s, x))
    ensures ConnOk(s, c)
  {}

  lemma ConnParts(s: State, c: nat)
    requires Inv(s) && c in s.conns && s.conns[c].slot != 0
    ensures var x := s.conns[c];
      && 0 < x.slot < SLOTS && s.holder[x.slot] == c && Named(x, s.requests)
      && (x.done.Some? ==> x.done.value in s.chans)
      && LocalOk(c, x, s.slots[x.slot], s.place[x.slot], s.waiters[x.slot], Content(s, x))
  {
    hide LocalOk, Named, Content;
    assert ConnOk(s, c);
  }

  lemma BeginLocal(c: nat, x: Conn, t: Slot, w: Option<nat>, n: nat)
    requires LocalOk(c, x, t, AtHub, w, 0) && x.at == Home
    ensures LocalOk(c, x.(at := Poll, going := true, node := n), t, AtHub, w, 0)
    ensures LocalOk(c, x.(at := Unregister), t, AtHub, w, 0)
  {}

  lemma BeginKeeps(s: State, step: Step)
    requires Inv(s) && Enabled(s, step) && (step.BeginNext? || step.BeginClose?) && s.conns[step.c].slot != 0
    ensures Inv(Apply(s, step))
  {
    hide ConnsOk, HoldersOk, PlacesOk, HandlersOk, GrowersOk, RequestsOk, ResponsesOk, DispatcherOk, ChansOk, LocalOk,
         ConnOk;
    var s', c := Apply(s, step), step.c;
    var x := s.conns[c];
    ConnParts(s, c);
    var t, w := s.slots[x.slot], s.waiters[x.slot];
    AtHubIf(c, x, t, s.place[x.slot], w, Content(s, x));
    BeginLocal(c, x, t, w, s'.conns[c].node);
    ConnFrom(s', c);
    OwnTurn(s, s', c);
  }

  lemma SlotlessParts(s: State, c: nat)
    requires Inv(s) && c in s.conns && s.conns[c].slot == 0
    ensures var x := s.conns[c];
      && (x.at == Home || x.at == Claim || x.at == Closed) && x.done == None && x.sent == x.finished == x.returned
      && Named(x, s.requests)
  {
    hide LocalOk, Named;
    assert ConnOk(s, c);
  }

  lemma BeginSlotlessOk(s: State, step: Step)
    requires Inv(s) && Enabled(s, step) && (step.BeginNext? || step.BeginClaim? || step.BeginClose? || step.ClaimNone?)
    requires s.conns[step.c].slot == 0
    ensures var s', c := Apply(s, step), step.c;
      && Shaped(s') && c in s'.conns && s' == s.(conns := s.conns[c := s'.conns[c]])
      && s'.conns[c].slot == 0 && s'.conns[c].done == None && ConnOk(s', c)
  {
    hide ConnsOk, HoldersOk, PlacesOk, HandlersOk, GrowersOk, RequestsOk, ResponsesOk, DispatcherOk, ChansOk, LocalOk,
         HubStep, NodeStep, HandlerStep, DispatchStep, GrowerStep;
    SlotlessParts(s, step.c);
  }

  lemma BeginSlotless(s: State, step: Step)
    requires Inv(s) && Enabled(s, step) && (step.BeginNext? || step.BeginClaim? || step.BeginClose? || step.ClaimNone?)
    requires s.conns[step.c].slot == 0
    ensures Inv(Apply(s, step))
  {
    hide Inv, Apply, ConnOk;
    BeginSlotlessOk(s, step);
    SlotlessKeeps(s, Apply(s, step), step.c);
  }

  lemma FreeIsNowhere(s: State, k: nat)
    requires Inv(s) && k < SLOTS && s.slots[k].status == Idle
    ensures s.place[k] == Nowhere
  {
    hide ConnsOk, PlacesOk, HandlersOk, GrowersOk, RequestsOk, ResponsesOk, DispatcherOk, ChansOk;
    assert HeldOk(s, k);
    if s.place[k] != Nowhere { LocalOf(s, s.holder[k]); }
  }

  lemma ClaimLocal(c: nat, x: Conn, t: Slot, w: Option<nat>, k: nat)
    requires x.at == Claim && x.done == None && x.sent == x.finished == x.returned
    ensures LocalOk(c, x.(at := PutHeader, slot := k), t.(status := Busy), AtHub, w, 0)
  {}

  lemma ClaimKeeps(s: State, c: nat, k: nat)
    requires Inv(s) && Enabled(s, ClaimSlot(c, k))
    ensures Inv(Apply(s, ClaimSlot(c, k)))
  {
    hide ConnsOk, HoldersOk, PlacesOk, HandlersOk, GrowersOk, RequestsOk, ResponsesOk, DispatcherOk, ChansOk, LocalOk,
         ConnOk;
    var s' := Apply(s, ClaimSlot(c, k));
    ClaimingHasNoSlot(s, c);
    SlotlessParts(s, c);
    FreeIsNowhere(s, k);
    ClaimLocal(c, s.conns[c], s.slots[k], s.waiters[k], k);
    ConnFrom(s', c);
    assert Turn(s, s', c, k);
    SameChans(s, s', c);
    QuietKeeps(s, s', c, k);
  }

  lemma NewChan(s: State, c: nat, ch: nat)
    requires Inv(s) && c in s.conns && (ch in s.pool || ch !in s.chans)
    ensures forall d :: d in s.conns && s.conns[d].done.Some? ==> s.conns[d].done.value != ch
    ensures ch in s.chans ==> s.chans[ch] == 0
  {
    hide HoldersOk, PlacesOk, HandlersOk, GrowersOk, RequestsOk, ResponsesOk, DispatcherOk, LocalOk;
    forall d | d in s.conns && s.conns[d].done.Some? ensures s.conns[d].done.value != ch { assert ConnOk(s, d); }
  }

  lemma TakeDoneLocal(c: nat, x: Conn, t: Slot, w: Option<nat>, ch: nat, at: ConnAt)
    requires LocalOk(c, x, t, AtHub, w, 0) && x.at == GetDone && (at == Poll || at == Home)
    ensures LocalOk(c, x.(at := at, done := Some(ch)), t, AtHub, w, 0)
  {}

  lemma TakeDoneChans(s: State, s': State, c: nat, ch: nat)
    requires ChansOk(s) && c in s.conns && c in s'.conns && s'.conns == s.conns[c := s'.conns[c]]
    requires s'.conns[c].done == Some(ch) && s'.pool == s.pool - {ch} && (ch in s.chans ==> s.chans[ch] == 0)
    requires s'.chans == if ch in s.chans then s.chans else s.chans[ch := 0]
    requires forall d :: d in s.conns && s.conns[d].done.Some? ==> s.conns[d].done.value != ch
    ensures ChansOk(s')
  {}

  lemma TakeDoneTurn(s: State, c: nat, ch: nat)
    requires Inv(s) && Enabled(s, TakeDone(c, ch)) && s.conns[c].slot != 0
    ensures var s', k := Apply(s, TakeDone(c, ch)), s.conns[c].slot;
      Turn(s, s', c, k) && ConnOk(s', c) && k > 0 && s.place[k] == AtHub
  {
    hide ConnsOk, HoldersOk, PlacesOk, HandlersOk, GrowersOk, RequestsOk, ResponsesOk, DispatcherOk, LocalOk, ConnOk,
         ChansOk, HubStep, NodeStep, HandlerStep, DispatchStep, GrowerStep;
    var s', x := Apply(s, TakeDone(c, ch)), s.conns[c];
    ConnParts(s, c);
    var t, w := s.slots[x.slot], s.waiters[x.slot];
    AtHubIf(c, x, t, s.place[x.slot], w, Content(s, x));
    TakeDoneLocal(c, x, t, w, ch, s'.conns[c].at);
    NewChan(s, c, ch);
    ConnFrom(s', c);
  }

  lemma TakeDoneKeeps(s: State, c: nat, ch: nat)
    requires Inv(s) && Enabled(s, TakeDone(c, ch)) && s.conns[c].slot != 0
    ensures Inv(Apply(s, TakeDone(c, ch)))
  {
    hide ConnsOk, HoldersOk, PlacesOk, HandlersOk, GrowersOk, RequestsOk, ResponsesOk, DispatcherOk, LocalOk, ConnOk,
         ChansOk, Turn, HubStep, NodeStep, HandlerStep, DispatchStep, GrowerStep;
    var s' := Apply(s, TakeDone(c, ch));
    TakeDoneTurn(s, c, ch);
    NewChan(s, c, ch);
    TakeDoneChans(s, s', c, ch);
    QuietKeeps(s, s', c, s.conns[c].slot);
  }

  predicate OwnPosition(at: ConnAt)
  {
    Works(at) && at != Submit && at != PutBack && at != FreeSlot && at != Drain
  }

  lemma ClaimStepOk(c: nat, x: Conn, t: Slot, w: Option<nat>)
    requires LocalOk(c, x, t, AtHub, w, 0) && (x.at == PutHeader || x.at == PutOwner || x.at == PutStatus)
    ensures var r := OwnStep(c, x, t, w);
      LocalOk(c, r.0, r.1, AtHub, r.2, 0) && r.0.slot == x.slot && r.0.done == x.done
  {}

  lemma AimStepOk(c: nat, x: Conn, t: Slot, w: Option<nat>)
    requires LocalOk(c, x, t, AtHub, w, 0)
    requires x.at == Poll || x.at == AimHeader || x.at == AimOwner || x.at == AimStatus
    ensures var r := OwnStep(c, x, t, w);
      LocalOk(c, r.0, r.1, AtHub, r.2, 0) && r.0.slot == x.slot && r.0.done == x.done
  {}

  lemma LastStepOk(c: nat, x: Conn, t: Slot, w: Option<nat>)
    requires LocalOk(c, x, t, AtHub, w, 0) && (x.at == Register || x.at == Refresh || x.at == Unregister)
    ensures var r := OwnStep(c, x, t, w);
      LocalOk(c, r.0, r.1, AtHub, r.2, 0) && r.0.slot == x.slot && r.0.done == x.done
  {}

  lemma OwnStepOk(c: nat, x: Conn, t: Slot, w: Option<nat>)
    requires LocalOk(c, x, t, AtHub, w, 0) && OwnPosition(x.at)
    ensures var r := OwnStep(c, x, t, w);
      LocalOk(c, r.0, r.1, AtHub, r.2, 0) && r.0.slot == x.slot && r.0.done == x.done
  {
    hide LocalOk, OwnStep;
    match x.at
    case PutHeader => ClaimStepOk(c, x, t, w);
    case PutOwner => ClaimStepOk(c, x, t, w);
    case PutStatus => ClaimStepOk(c, x, t, w);
    case Register => LastStepOk(c, x, t, w);
    case Refresh => LastStepOk(c, x, t, w);
    case Unregister => LastStepOk(c, x, t, w);
    case _ => AimStepOk(c, x, t, w);
  }

  lemma OwnStepNamed(c: nat, x: Conn, t: Slot, w: Option<nat>, requests: map<nat, seq<Msg>>)
    requires Named(x, requests) && OwnPosition(x.at)
    ensures Named(OwnStep(c, x, t, w).0, requests)
  {}

  lemma HubWordsKeep(s: State, c: nat)
    requires Inv(s) && Enabled(s, Hub(c)) && OwnPosition(s.conns[c].at)
    ensures Inv(HubStep(s, c))
  {
    hide ConnsOk, HoldersOk, PlacesOk, HandlersOk, GrowersOk, RequestsOk, ResponsesOk, DispatcherOk, ChansOk, OwnStep,
         Named, LocalOk, ConnOk;
    var s', x := HubStep(s, c), s.conns[c];
    var t, w := s.slots[x.slot], s.waiters[x.slot];
    ConnParts(s, c);
    AtHubIf(c, x, t, s.place[x.slot], w, Content(s, x));
    OwnStepOk(c, x, t, w);
    OwnStepNamed(c, x, t, w, s.requests);
    assert s'.conns[c] == OwnStep(c, x, t, w).0;
    ConnFrom(s', c);
    OwnTurn(s, s', c);
  }

  lemma ChanStepOk(c: nat, x: Conn, t: Slot, w: Option<nat>)
    requires LocalOk(c, x, t, AtHub, w, 0)
    ensures x.at == Drain ==> x.done.Some? && LocalOk(c, x.(at := Register), t, AtHub, w, 0)
    ensures x.at == PutBack ==> x.done.Some? && LocalOk(c, x.(at := FreeSlot, done := None), t, AtHub, w, 0)
    ensures x.at == FreeSlot ==> x.done == None && x.sent == x.finished == x.returned
  {}

  lemma DrainKeeps(s: State, c: nat)
    requires Inv(s) && Enabled(s, Hub(c)) && s.conns[c].at == Drain
    ensures Inv(HubStep(s, c))
  {
    hide ConnsOk, HoldersOk, PlacesOk, HandlersOk, GrowersOk, RequestsOk, ResponsesOk, DispatcherOk, ChansOk, LocalOk,
         ConnOk;
    var s', x := HubStep(s, c), s.conns[c];
    ConnParts(s, c);
    var t, w := s.slots[x.slot], s.waiters[x.slot];
    AtHubIf(c, x, t, s.place[x.slot], w, Content(s, x));
    ChanStepOk(c, x, t, w);
    assert s'.chans == s.chans;
    ConnFrom(s', c);
    OwnTurn(s, s', c);
  }

  lemma PutBackChans(s: State, s': State, c: nat)
    requires ChansOk(s) && c in s.conns && s.conns[c].done.Some? && s.conns[c].done.value in s.chans &&
      Content(s, s.conns[c]) == 0
    requires c in s'.conns && s'.conns == s.conns[c := s'.conns[c]] && s'.conns[c].done == None
    requires s'.chans == s.chans && s'.pool == s.pool + {s.conns[c].done.value}
    ensures ChansOk(s')
  {}

  lemma PutBackKeeps(s: State, c: nat)
    requires Inv(s) && Enabled(s, Hub(c)) && s.conns[c].at == PutBack
    ensures Inv(HubStep(s, c))
  {
    hide ConnsOk, HoldersOk, PlacesOk, HandlersOk, GrowersOk, RequestsOk, ResponsesOk, DispatcherOk, ChansOk, LocalOk,
         ConnOk;
    var s', x := HubStep(s, c), s.conns[c];
    ConnParts(s, c);
    var t, w := s.slots[x.slot], s.waiters[x.slot];
    AtHubIf(c, x, t, s.place[x.slot], w, Content(s, x));
    ChanStepOk(c, x, t, w);
    ConnFrom(s', c);
    PutBackChans(s, s', c);
    assert Turn(s, s', c, x.slot);
    QuietKeeps(s, s', c, x.slot);
  }

  lemma SlotlessFrom(s: State, c: nat)
    requires Shaped(s) && c in s.conns
    requires var x := s.conns[c]; x.slot == 0 && x.at == Closed && x.done == None && x.sent == x.finished == x.returned
    ensures ConnOk(s, c)
  {}

  lemma FreeSlotKeeps(s: State, c: nat)
    requires Inv(s) && Enabled(s, Hub(c)) && s.conns[c].at == FreeSlot
    ensures Inv(HubStep(s, c))
  {
    hide ConnsOk, HoldersOk, PlacesOk, HandlersOk, GrowersOk, RequestsOk, ResponsesOk, DispatcherOk, ChansOk, LocalOk,
         ConnOk, Content;
    var s', x := HubStep(s, c), s.conns[c];
    ConnParts(s, c);
    var t, w := s.slots[x.slot], s.waiters[x.slot];
    AtHubIf(c, x, t, s.place[x.slot], w, Content(s, x));
    ChanStepOk(c, x, t, w);
    SlotlessFrom(s', c);
    SameChans(s, s', c);
    assert Turn(s, s', c, x.slot);
    QuietKeeps(s, s', c, x.slot);
  }

  // ---------- Steps that move the right to a stripe ----------

  /** The pieces of the invariant after a step, once each has been shown. */
  lemma Assemble(s: State, s': State, c: nat, k: nat)
    requires Inv(s) && Turn(s, s', c, k) && k > 0 && s'.place[k] != Nowhere && ConnOk(s', c) && Carried(s, s', k)
    requires Located(s', k) && HandlersOk(s') && GrowersOk(s') && RequestsOk(s') && ResponsesOk(s') && DispatcherOk(s')
    requires ChansOk(s')
    ensures Inv(s')
  {
    hide Turn, ConnsOk, ConnOk, HoldersOk, PlacesOk, HandlersOk, GrowersOk, RequestsOk, ResponsesOk, DispatcherOk,
         ChansOk, Located, Carried;
    TurnFacts(s, s', c, k);
    TurnConns(s, s', c, k);
    TurnHolders(s, s', c, k);
    PlacesTurn(s, s', c, k);
  }

  lemma SubmitLocal(c: nat, x: Conn, t: Slot, w: Option<nat>)
    requires LocalOk(c, x, t, AtHub, w, 0) && x.at == Submit
    ensures LocalOk(c, x.(at := Blocked, sent := x.sent + [x.node]), t, Requested, w, 0)
  {}

  lemma PushCarries(s: State, s': State, n: nat, m: Msg)
    requires n in s.requests && s'.requests == s.requests[n := s.requests[n] + [m]] && s'.responses == s.responses
    requires s'.handlers == s.handlers && s'.growers == s.growers && s'.dispatcher == s.dispatcher
    ensures Carried(s, s', m.slot) && m in s'.requests[n]
  {}

  lemma SubmitTurn(s: State, s': State, c: nat)
    requires Inv(s) && Enabled(s, Hub(c)) && s.conns[c].at == Submit && s' == HubStep(s, c)
    ensures Turn(s, s', c, s.conns[c].slot) && ConnOk(s', c) && 0 < s.conns[c].slot < SLOTS
    ensures s.place[s.conns[c].slot] == AtHub && s'.conns[c].done == s.conns[c].done
    ensures InUse(s', s.conns[c].slot) && s'.holder[s.conns[c].slot] == c
  {
    hide ConnsOk, HoldersOk, PlacesOk, HandlersOk, GrowersOk, RequestsOk, ResponsesOk, DispatcherOk, ChansOk, LocalOk,
         ConnOk, Content;
    var x := s.conns[c];
    ConnParts(s, c);
    var k, t, w := x.slot, s.slots[x.slot], s.waiters[x.slot];
    AtHubIf(c, x, t, s.place[k], w, Content(s, x));
    SubmitLocal(c, x, t, w);
    SameContent(s, s', x, s'.conns[c]);
    ConnFrom(s', c);
  }

  lemma SubmitKeeps(s: State, c: nat)
    requires Inv(s) && Enabled(s, Hub(c)) && s.conns[c].at == Submit
    ensures Inv(HubStep(s, c))
  {
    hide ConnsOk, HoldersOk, PlacesOk, HandlersOk, GrowersOk, RequestsOk, ResponsesOk, DispatcherOk, ChansOk, LocalOk,
         ConnOk, Carried, Content, DispatcherOn, Turn;
    var s', x, k := HubStep(s, c), s.conns[c], s.conns[c].slot;
    SubmitTurn(s, s', c);
    SameChans(s, s', c);
    QuietHandlers(s, s', c, k);
    QuietGrowers(s, s', c, k);
    PushCarries(s, s', x.node, Msg(k, Process));
    RequestsPushed(s, s', c, k, x.node, Msg(k, Process));
    NoResponse(s, k);
    ResponsesKept(s, s', c, k);
    DispatcherElsewhere(s, k);
    DispatcherKept(s, s', c, k);
    Assemble(s, s', c, k);
  }

  lemma SameContent(s: State, s': State, x: Conn, x': Conn)
    requires x'.done == x.done && s'.chans == s.chans
    ensures Content(s', x') == Content(s, x)
  {}

  /** Before the handler marks the slot, the place changes hands and nothing else does. */
  predicate Early(p: Place)
  {
    p == Requested || p.Handling? || p.Asked? || p.Growing? || p.Answered?
  }

  /** ... and so it does between the mark and the dispatcher's swap. */
  predicate Pending(p: Place) { p.Marked? || p == Responded || p == Popped }

  predicate Alike(p: Place, p': Place) { (Early(p) && Early(p')) || (Pending(p) && Pending(p')) }

  lemma AlikeLocal(c: nat, x: Conn, t: Slot, p: Place, p': Place, w: Option<nat>, q: nat)
    requires LocalOk(c, x, t, p, w, q) && Alike(p, p')
    ensures LocalOk(c, x, t, p', w, q)
  {}

  /** A step that only moves the place of slot `k` to one like it. */
  lemma PassTurn(s: State, s': State, k: nat)
    requires Inv(s) && InUse(s, k) && Shaped(s') && Alike(s.place[k], s'.place[k])
    requires s'.place == s.place[k := s'.place[k]] && s'.conns == s.conns && s'.slots == s.slots &&
      s'.waiters == s.waiters
    requires s'.holder == s.holder && s'.chans == s.chans && s'.pool == s.pool
    requires forall n :: n in s.requests ==> n in s'.requests
    ensures Turn(s, s', s.holder[k], k) && ConnOk(s', s.holder[k]) && ChansOk(s') && InUse(s', k)
    ensures s.conns[s.holder[k]].slot == k
  {
    hide ConnsOk, PlacesOk, HandlersOk, GrowersOk, RequestsOk, ResponsesOk, DispatcherOk, LocalOk, ConnOk;
    var c := s.holder[k];
    var x := s.conns[c];
    assert HeldOk(s, k);
    ConnParts(s, c);
    AlikeLocal(c, x, s.slots[k], s.place[k], s'.place[k], s.waiters[k], Content(s, x));
    SameContent(s, s', x, x);
    assert Named(x, s'.requests);
    ConnFrom(s', c);
  }

  lemma TakeCarries(s: State, s': State, n: nat)
    requires n in s.requests && s.requests[n] != [] && s'.requests == s.requests[n := s.requests[n][1..]]
    requires s'.responses == s.responses && s'.growers == s.growers && s'.dispatcher == s.dispatcher
    requires forall h :: h in s.handlers && s.handlers[h].slot != s.requests[n][0].slot ==>
      h in s'.handlers && s'.handlers[h] == s.handlers[h]
    ensures Carried(s, s', s.requests[n][0].slot)
  {}

  lemma RequestFacts(s: State, n: nat)
    requires Inv(s) && n in s.requests && s.requests[n] != []
    ensures RequestOk(s, n, s.requests[n][0])
  {
    hide RequestOk, ConnsOk, HoldersOk, PlacesOk, HandlersOk, GrowersOk, ResponsesOk, DispatcherOk, ChansOk;
  }

  lemma TakeProcessKeeps(s: State, n: nat, h: nat, plan: seq<Op>)
    requires Inv(s) && Enabled(s, NodeTake(n, h, plan)) && s.requests[n][0].cmd == Process
    ensures Inv(NodeStep(s, n, h, plan))
  {
    hide ConnsOk, HoldersOk, PlacesOk, HandlersOk, GrowersOk, RequestsOk, ResponsesOk, DispatcherOk, ChansOk, LocalOk,
         ConnOk, Carried, Turn, DispatcherOn;
    var s', k := NodeStep(s, n, h, plan), s.requests[n][0].slot;
    var c := s.holder[k];
    RequestFacts(s, n);
    PassTurn(s, s', k);
    HandlersTurn(s, s', c, k, h);
    QuietGrowers(s, s', c, k);
    RequestsTaken(s, s', c, k, n);
    NoResponse(s, k);
    ResponsesKept(s, s', c, k);
    DispatcherElsewhere(s, k);
    DispatcherKept(s, s', c, k);
    TakeCarries(s, s', n);
    Assemble(s, s', c, k);
  }

  lemma PlaceFacts(s: State, k: nat)
    requires Inv(s) && InUse(s, k)
    ensures Located(s, k)
  {
    hide Located, ConnsOk, HoldersOk, HandlersOk, GrowersOk, ResponsesOk, DispatcherOk, ChansOk, RequestsOk;
  }

  lemma HandlerFacts(s: State, h: nat)
    requires Inv(s) && h in s.handlers
    ensures HandlerOk(s, h)
  {
    hide HandlerOk, ConnsOk, HoldersOk, PlacesOk, GrowersOk, ResponsesOk, DispatcherOk, ChansOk, RequestsOk;
  }

  /** Blocks were granted: the node finds the handler that asked. */
  lemma TakeGrantedKeeps(s: State, n: nat, h: nat, plan: seq<Op>)
    requires Inv(s) && Enabled(s, NodeTake(n, h, plan)) && s.requests[n][0].cmd == Granted
    ensures Inv(NodeStep(s, n, h, plan))
  {
    hide ConnsOk, HoldersOk, PlacesOk, HandlersOk, GrowersOk, RequestsOk, ResponsesOk, DispatcherOk, ChansOk, LocalOk,
         ConnOk, Carried, Turn, DispatcherOn;
    var s', k := NodeStep(s, n, h, plan), s.requests[n][0].slot;
    var c := s.holder[k];
    RequestFacts(s, n);
    PlaceFacts(s, k);
    var a := s.place[k].h;
    HandlerFacts(s, a);
    assert s.askers[(n, k)] == a;
    PassTurn(s, s', k);
    HandlersTurn(s, s', c, k, a);
    QuietGrowers(s, s', c, k);
    RequestsTaken(s, s', c, k, n);
    NoResponse(s, k);
    ResponsesKept(s, s', c, k);
    DispatcherElsewhere(s, k);
    DispatcherKept(s, s', c, k);
    TakeCarries(s, s', n);
    Assemble(s, s', c, k);
  }

  lemma TakeExpandNever(s: State, n: nat)
    requires Inv(s) && n in s.requests && s.requests[n] != []
    ensures s.requests[n][0].cmd != Expand
  {
    RequestFacts(s, n);
  }

  /** A handler changes by itself: it reads the header word, works, or prepares to ask. */
  lemma HandlerAlone(s: State, s': State, h: nat)
    requires Inv(s) && h in s.handlers && s.handlers[h].at != Waiting && s.handlers[h].at != Respond
    requires s' == s.(handlers := s'.handlers, askers := s'.askers) && h in s'.handlers
    requires s'.handlers == s.handlers[h := s'.handlers[h]]
    requires var y, y' := s.handlers[h], s'.handlers[h];
      && y'.node == y.node && y'.slot == y.slot && y'.of == y.of && y'.at != Waiting && y'.at != Respond
      && y'.at != Begin
      && (y.at == Begin || y'.header == y.header) && (y.at == Begin ==> y'.header == s.slots[y.slot].header)
      && (y'.at == AskPush ==> (y.node, y.slot) in s'.askers && s'.askers[(y.node, y.slot)] == h)
    requires forall a, b :: (a, b) in s.askers && b != s.handlers[h].slot ==>
      (a, b) in s'.askers && s'.askers[(a, b)] == s.askers[(a, b)]
    ensures Inv(s')
  {
    hide ConnsOk, HoldersOk, PlacesOk, HandlersOk, GrowersOk, RequestsOk, ResponsesOk, DispatcherOk, ChansOk, LocalOk,
         ConnOk, Carried, Turn, DispatcherOn;
    var y := s.handlers[h];
    HandlerFacts(s, h);
    var k := y.slot;
    var c := s.holder[k];
    HolderHeader(s, k);
    PassTurn(s, s', k);
    HandlersTurn(s, s', c, k, h);
    QuietGrowers(s, s', c, k);
    RequestsKept(s, s', c, k);
    NoResponse(s, k);
    ResponsesKept(s, s', c, k);
    DispatcherElsewhere(s, k);
    DispatcherKept(s, s', c, k);
    assert Carried(s, s', k) by { HandlerCarries(s, s', k); }
    Assemble(s, s', c, k);
  }

  lemma HandlerCarries(s: State, s': State, k: nat)
    requires s'.requests == s.requests && s'.responses == s.responses && s'.growers == s.growers &&
      s'.dispatcher == s.dispatcher
    requires forall h :: h in s.handlers && s.handlers[h].slot != k ==>
      h in s'.handlers && s'.handlers[h] == s.handlers[h]
    ensures Carried(s, s', k)
  {}

  /** The header word a handler reads is its connection's. */
  lemma HolderHeader(s: State, k: nat)
    requires Inv(s) && InUse(s, k) && Early(s.place[k])
    ensures s.slots[k].header == s.conns[s.holder[k]].header && s.slots[k].owner == s.conns[s.holder[k]].node
  {
    hide ConnsOk, HoldersOk, PlacesOk, HandlersOk, GrowersOk, RequestsOk, ResponsesOk, DispatcherOk, ChansOk;
    HolderLocal(s, k);
  }

  lemma PushResponseCarries(s: State, s': State, m: Msg)
    requires s'.requests == s.requests && s'.responses == s.responses + [m] && s'.growers == s.growers &&
      s'.dispatcher == s.dispatcher
    requires forall h :: h in s.handlers && s.handlers[h].slot != m.slot ==>
      h in s'.handlers && s'.handlers[h] == s.handlers[h]
    ensures Carried(s, s', m.slot) && m in s'.responses
    ensures forall i :: 0 <= i < |s'.responses| ==> s'.responses[i].slot == m.slot || s'.responses[i] in s.responses
  {}

  lemma AskKeeps(s: State, h: nat)
    requires Inv(s) && Enabled(s, Handle(h, true)) && s.handlers[h].at == AskPush
    ensures Inv(HandlerStep(s, h, true))
  {
    hide ConnsOk, HoldersOk, PlacesOk, HandlersOk, GrowersOk, RequestsOk, ResponsesOk, DispatcherOk, ChansOk, LocalOk,
         ConnOk, Carried, Turn, DispatcherOn;
    var s', y := HandlerStep(s, h, true), s.handlers[h];
    HandlerFacts(s, h);
    var k := y.slot;
    var c := s.holder[k];
    PassTurn(s, s', k);
    HandlersTurn(s, s', c, k, h);
    QuietGrowers(s, s', c, k);
    RequestsKept(s, s', c, k);
    ResponsesPushed(s, s', c, k, Msg(k, Expand));
    DispatcherElsewhere(s, k);
    PushResponseCarries(s, s', Msg(k, Expand));
    DispatcherKept(s, s', c, k);
    Assemble(s, s', c, k);
  }

  lemma MarkLocal(c: nat, x: Conn, t: Slot, p: Place, h: nat, w: Option<nat>, q: nat)
    requires LocalOk(c, x, t, p, w, q) && Early(p)
    ensures LocalOk(c, x.(finished := x.finished + [x.node]), t.(status := Done), Marked(h), w, q)
  {}

  lemma MarkTurn(s: State, s': State, h: nat, k: nat)
    requires Inv(s) && h in s.handlers && s.handlers[h].slot == k && InUse(s, k) && s.place[k] == Handling(h)
    requires var c := s.holder[k]; var x := s.conns[c];
      s' == s.(conns := s.conns[c := x.(finished := x.finished + [x.node])], place := s.place[k := Marked(h)],
               slots := s.slots[k := s.slots[k].(status := Done)], handlers := s'.handlers)
    ensures Turn(s, s', s.holder[k], k) && ConnOk(s', s.holder[k]) && ChansOk(s') && InUse(s', k)
  {
    hide ConnsOk, HoldersOk, PlacesOk, HandlersOk, GrowersOk, RequestsOk, ResponsesOk, DispatcherOk, ChansOk, LocalOk,
         ConnOk, Content;
    var c := s.holder[k];
    var x := s.conns[c];
    HolderLocal(s, k);
    ConnParts(s, c);
    MarkLocal(c, x, s.slots[k], s.place[k], h, s.waiters[k], Content(s, x));
    SameContent(s, s', x, s'.conns[c]);
    ConnFrom(s', c);
    SameChans(s, s', c);
  }

  /** The handler is through: the slot is marked and the run counts. */
  lemma MarkKeeps(s: State, h: nat, pushed: bool)
    requires Inv(s) && Enabled(s, Handle(h, pushed)) && s.handlers[h].at == Run && s.handlers[h].todo == []
    ensures Inv(HandlerStep(s, h, pushed))
  {
    hide ConnsOk, HoldersOk, PlacesOk, HandlersOk, GrowersOk, RequestsOk, ResponsesOk, DispatcherOk, ChansOk, LocalOk,
         ConnOk, Carried, Turn, DispatcherOn;
    var s', y := HandlerStep(s, h, pushed), s.handlers[h];
    HandlerFacts(s, h);
    var k := y.slot;
    var c := s.holder[k];
    MarkTurn(s, s', h, k);
    HandlersTurn(s, s', c, k, h);
    QuietGrowers(s, s', c, k);
    RequestsKept(s, s', c, k);
    NoResponse(s, k);
    ResponsesKept(s, s', c, k);
    DispatcherElsewhere(s, k);
    DispatcherKept(s, s', c, k);
    HandlerCarries(s, s', k);
    Assemble(s, s', c, k);
  }

  lemma RespondKeeps(s: State, h: nat, pushed: bool)
    requires Inv(s) && Enabled(s, Handle(h, pushed)) && s.handlers[h].at == Respond
    ensures Inv(HandlerStep(s, h, pushed))
  {
    hide ConnsOk, HoldersOk, PlacesOk, HandlersOk, GrowersOk, RequestsOk, ResponsesOk, DispatcherOk, ChansOk, LocalOk,
         ConnOk, Carried, Turn, DispatcherOn;
    var s', y := HandlerStep(s, h, pushed), s.handlers[h];
    HandlerFacts(s, h);
    var k := y.slot;
    var c := s.holder[k];
    PassTurn(s, s', k);
    HandlersTurn(s, s', c, k, h);
    QuietGrowers(s, s', c, k);
    RequestsKept(s, s', c, k);
    ResponsesPushed(s, s', c, k, Msg(k, Process));
    DispatcherElsewhere(s, k);
    PushResponseCarries(s, s', Msg(k, Process));
    DispatcherKept(s, s', c, k);
    Assemble(s, s', c, k);
  }

  lemma ResponseFacts(s: State)
    requires Inv(s) && s.responses != []
    ensures ResponseOk(s, s.responses[0])
  {
    hide ResponseOk, ConnsOk, HoldersOk, PlacesOk, HandlersOk, GrowersOk, RequestsOk, DispatcherOk, ChansOk;
  }

  lemma TakeResponseCarries(s: State, s': State)
    requires s.responses != [] && s'.responses == s.responses[1..] && s.dispatcher == Free
    requires s'.requests == s.requests && s'.handlers == s.handlers && s'.growers == s.growers
    ensures Carried(s, s', s.responses[0].slot)
  {}

  lemma NoOneHandles(s: State, k: nat)
    requires Inv(s) && k < SLOTS && !Early(s.place[k]) && !s.place[k].Marked?
    ensures forall h :: h in s.handlers ==> s.handlers[h].slot != k && !NamesHandler(s.place[k], h)
  {
    forall h | h in s.handlers ensures s.handlers[h].slot != k { HandlerFacts(s, h); }
  }

  lemma HandlersAside(s: State, s': State, c: nat, k: nat)
    requires Turn(s, s', c, k) && HoldersOk(s) && HandlersOk(s)
    requires forall h :: h in s.handlers ==> s.handlers[h].slot != k
    requires s'.handlers == s.handlers && s'.askers == s.askers
    ensures HandlersOk(s')
  {
    hide Turn, HoldersOk;
    TurnFacts(s, s', c, k);
    forall a | a in s'.handlers ensures HandlerOk(s', a) {
      assert HandlerOk(s, a);
      OtherSlot(s, s', c, k, s.handlers[a].slot);
    }
  }

  lemma DispatchProcessKeeps(s: State, g: nat)
    requires Inv(s) && Enabled(s, Dispatch(g)) && s.dispatcher == Free && s.responses[0].cmd == Process
    ensures Inv(DispatchStep(s, g))
  {
    hide ConnsOk, HoldersOk, PlacesOk, HandlersOk, GrowersOk, RequestsOk, ResponsesOk, DispatcherOk, ChansOk, LocalOk,
         ConnOk, Carried, Turn, DispatcherOn;
    var s', k := DispatchStep(s, g), s.responses[0].slot;
    var c := s.holder[k];
    ResponseFacts(s);
    PassTurn(s, s', k);
    NoOneHandles(s, k);
    HandlersAside(s, s', c, k);
    QuietGrowers(s, s', c, k);
    RequestsKept(s, s', c, k);
    ResponsesTaken(s, s', c, k);
    TakeResponseCarries(s, s');
    assert DispatcherOk(s') by { DispatcherHas(s', k); }
    Assemble(s, s', c, k);
  }

  lemma DispatcherHas(s: State, k: nat)
    requires Shaped(s) && InUse(s, k)
    requires || (s.dispatcher == GotProcess(k) && s.place[k] == Popped)
             || (s.dispatcher == GotExpand(k) && s.place[k].Asked?
                 && forall i :: 0 <= i < |s.responses| ==> s.responses[i].slot != k)
    ensures DispatcherOk(s)
  {}

  lemma DispatchExpandKeeps(s: State, g: nat)
    requires Inv(s) && Enabled(s, Dispatch(g)) && s.dispatcher == Free && s.responses[0].cmd == Expand
    ensures Inv(DispatchStep(s, g))
  {
    hide ConnsOk, HoldersOk, PlacesOk, HandlersOk, GrowersOk, RequestsOk, ResponsesOk, DispatcherOk, ChansOk, LocalOk,
         ConnOk, Carried, Turn, DispatcherOn;
    var s', k := DispatchStep(s, g), s.responses[0].slot;
    var c := s.holder[k];
    ResponseFacts(s);
    PlaceFacts(s, k);
    PassTurn(s, s', k);
    var h := s.place[k].h;
    HandlerFacts(s, h);
    HandlersTurn(s, s', c, k, h);
    QuietGrowers(s, s', c, k);
    RequestsKept(s, s', c, k);
    ResponsesTaken(s, s', c, k);
    TakeResponseCarries(s, s');
    assert DispatcherOk(s') by { DispatcherHas(s', k); }
    Assemble(s, s', c, k);
  }

  lemma SwapLocal(c: nat, x: Conn, t: Slot, w: Option<nat>, q: nat)
    requires LocalOk(c, x, t, Popped, w, q)
    ensures w == Some(c) && q == 0 && LocalOk(c, x, t, Swapped, None, q)
  {}

  lemma SwapTurn(s: State, s': State, k: nat)
    requires Inv(s) && InUse(s, k) && s.place[k] == Popped
    requires s' == s.(place := s.place[k := Swapped], waiters := s.waiters[k := None], dispatcher := s'.dispatcher)
    ensures Turn(s, s', s.holder[k], k) && ConnOk(s', s.holder[k]) && ChansOk(s') && InUse(s', k)
    ensures s.waiters[k] == Some(s.holder[k]) && s.conns[s.holder[k]].slot == k
  {
    hide ConnsOk, HoldersOk, PlacesOk, HandlersOk, GrowersOk, RequestsOk, ResponsesOk, DispatcherOk, LocalOk, ConnOk,
         Content;
    var c := s.holder[k];
    var x := s.conns[c];
    HolderLocal(s, k);
    ConnParts(s, c);
    SwapLocal(c, x, s.slots[k], s.waiters[k], Content(s, x));
    SameContent(s, s', x, x);
    ConnFrom(s', c);
  }

  lemma DispatcherFacts(s: State)
    requires Inv(s)
    ensures DispatcherOk(s)
  {
    hide DispatcherOk, ConnsOk, HoldersOk, PlacesOk, HandlersOk, GrowersOk, RequestsOk, ResponsesOk, ChansOk;
  }

  /** The dispatcher finds the waiter of every completion it pops. */
  lemma SwapKeeps(s: State, g: nat)
    requires Inv(s) && Enabled(s, Dispatch(g)) && s.dispatcher.GotProcess?
    ensures Inv(DispatchStep(s, g))
    ensures s.waiters[s.dispatcher.slot] == Some(s.holder[s.dispatcher.slot])
  {
    hide ConnsOk, HoldersOk, PlacesOk, HandlersOk, GrowersOk, RequestsOk, ResponsesOk, ChansOk, LocalOk, ConnOk,
         Carried, Turn;
    var s', k := DispatchStep(s, g), s.dispatcher.slot;
    DispatcherFacts(s);
    var c := s.holder[k];
    SwapTurn(s, s.(place := s.place[k := Swapped], waiters := s.waiters[k := None], dispatcher := Holding(c)), k);
    NoOneHandles(s, k);
    HandlersAside(s, s', c, k);
    QuietGrowers(s, s', c, k);
    RequestsKept(s, s', c, k);
    NoResponse(s, k);
    ResponsesKept(s, s', c, k);
    assert DispatcherOk(s');
    DispatchCarries(s, s', k);
    Assemble(s, s', c, k);
  }

  lemma DispatchCarries(s: State, s': State, k: nat)
    requires s'.requests == s.requests && s'.responses == s.responses && s'.handlers == s.handlers && DispatcherOn(s, k)
    requires forall g :: g in s.growers && s.growers[g].slot != k ==> g in s'.growers && s'.growers[g] == s.growers[g]
    ensures Carried(s, s', k)
  {}

  lemma SendLocal(c: nat, x: Conn, t: Slot, w: Option<nat>, q: nat)
    requires LocalOk(c, x, t, Swapped, w, q)
    ensures q == 0 && x.done.Some? && LocalOk(c, x, t, Delivered, w, 1)
  {}

  lemma SendTurn(s: State, s': State, c: nat)
    requires Inv(s) && c in s.conns && 0 < s.conns[c].slot < SLOTS && s.place[s.conns[c].slot] == Swapped
    requires s.conns[c].done.Some? && s.conns[c].done.value in s.chans
    requires var x := s.conns[c];
      s' == s.(place := s.place[x.slot := Delivered], dispatcher := Free,
               chans := s.chans[x.done.value := s.chans[x.done.value] + 1])
    ensures Turn(s, s', c, s.conns[c].slot) && ConnOk(s', c) && ChansOk(s') && InUse(s', s.conns[c].slot)
  {
    hide ConnsOk, HoldersOk, PlacesOk, HandlersOk, GrowersOk, RequestsOk, ResponsesOk, DispatcherOk, LocalOk, ConnOk;
    var x := s.conns[c];
    ConnParts(s, c);
    SendLocal(c, x, s.slots[x.slot], s.waiters[x.slot], Content(s, x));
    assert Content(s', x) == 1;
    ConnFrom(s', c);
  }

  lemma SendKeeps(s: State, g: nat)
    requires Inv(s) && Enabled(s, Dispatch(g)) && s.dispatcher.Holding?
    ensures Inv(DispatchStep(s, g))
  {
    hide ConnsOk, HoldersOk, PlacesOk, HandlersOk, GrowersOk, RequestsOk, ResponsesOk, ChansOk, LocalOk, ConnOk,
         Carried, Turn;
    var s', c := DispatchStep(s, g), s.dispatcher.conn;
    DispatcherFacts(s);
    var k := s.conns[c].slot;
    SendTurn(s, s', c);
    NoOneHandles(s, k);
    HandlersAside(s, s', c, k);
    QuietGrowers(s, s', c, k);
    RequestsKept(s, s', c, k);
    NoResponse(s, k);
    ResponsesKept(s, s', c, k);
    assert DispatcherOk(s');
    DispatchCarries(s, s', k);
    Assemble(s, s', c, k);
  }

  lemma ReceiveLocal(c: nat, x: Conn, t: Slot, p: Place, w: Option<nat>, q: nat)
    requires LocalOk(c, x, t, p, w, q) && x.at == Blocked && q > 0
    ensures p == Delivered && q == 1
    ensures LocalOk(c, x.(at := Refresh, returned := x.returned + [x.node]), t, AtHub, w, 0)
  {}

  /** The channel that a completion is taken from is empty again, and no other changed. */
  lemma ReceiveChans(s: State, s': State, c: nat, ch: nat)
    requires ChansOk(s) && c in s.conns && c in s'.conns && s.conns[c].done == Some(ch) == s'.conns[c].done
    requires s'.conns == s.conns[c := s'.conns[c]] && s'.pool == s.pool && s'.chans == s.chans[ch := 0]
    ensures ChansOk(s')
    ensures forall d :: d in s.conns && d != c && s.conns[d].done.Some? && s.conns[d].done.value in s.chans ==>
      s'.chans[s.conns[d].done.value] == s.chans[s.conns[d].done.value]
  {}

  lemma ReceiveTurn(s: State, s': State, c: nat)
    requires Inv(s) && Enabled(s, Hub(c)) && s.conns[c].at == Blocked && s' == HubStep(s, c)
    ensures Turn(s, s', c, s.conns[c].slot) && ConnOk(s', c) && ChansOk(s') && InUse(s', s.conns[c].slot)
    ensures s.place[s.conns[c].slot] == Delivered
  {
    hide ConnsOk, HoldersOk, PlacesOk, HandlersOk, GrowersOk, RequestsOk, ResponsesOk, DispatcherOk, LocalOk, ConnOk,
         ChansOk;
    var x := s.conns[c];
    ConnParts(s, c);
    ReceiveLocal(c, x, s.slots[x.slot], s.place[x.slot], s.waiters[x.slot], Content(s, x));
    ReceiveChans(s, s', c, x.done.value);
    assert Content(s', s'.conns[c]) == 0;
    ConnFrom(s', c);
  }

  lemma ReceiveKeeps(s: State, c: nat)
    requires Inv(s) && Enabled(s, Hub(c)) && s.conns[c].at == Blocked
    ensures Inv(HubStep(s, c))
  {
    hide ConnsOk, HoldersOk, PlacesOk, HandlersOk, GrowersOk, RequestsOk, ResponsesOk, DispatcherOk, ChansOk, LocalOk,
         ConnOk, Carried, Turn, DispatcherOn;
    var s', k := HubStep(s, c), s.conns[c].slot;
    ReceiveTurn(s, s', c);
    NoOneHandles(s, k);
    HandlersAside(s, s', c, k);
    QuietGrowers(s, s', c, k);
    RequestsKept(s, s', c, k);
    NoResponse(s, k);
    ResponsesKept(s, s', c, k);
    DispatcherElsewhere(s, k);
    DispatcherKept(s, s', c, k);
    SameItems(s, s', k);
    Assemble(s, s', c, k);
  }

  // ---------- Steps of an expansion ----------

  lemma SpawnKeeps(s: State, g: nat)
    requires Inv(s) && Enabled(s, Dispatch(g)) && s.dispatcher.GotExpand?
    ensures Inv(DispatchStep(s, g))
  {
    hide ConnsOk, HoldersOk, PlacesOk, HandlersOk, GrowersOk, RequestsOk, ResponsesOk, ChansOk, LocalOk, ConnOk,
         Carried, Turn;
    var s', k := DispatchStep(s, g), s.dispatcher.slot;
    DispatcherFacts(s);
    var c := s.holder[k];
    PlaceFacts(s, k);
    HolderHeader(s, k);
    var h := s.place[k].h;
    HandlerFacts(s, h);
    PassTurn(s, s', k);
    HandlersTurn(s, s', c, k, h);
    GrowersTurn(s, s', c, k, g);
    RequestsKept(s, s', c, k);
    ResponsesKept(s, s', c, k);
    assert DispatcherOk(s');
    DispatchCarries(s, s', k);
    Assemble(s, s', c, k);
  }

  lemma GrowerFacts(s: State, g: nat)
    requires Inv(s) && g in s.growers
    ensures GrowerOk(s, g)
  {
    hide GrowerOk, ConnsOk, HoldersOk, PlacesOk, HandlersOk, RequestsOk, ResponsesOk, DispatcherOk, ChansOk;
  }

  /** The owner check of an expansion never refuses. */
  lemma GrowKeeps(s: State, g: nat)
    requires Inv(s) && Enabled(s, Expansion(g)) && s.growers[g].at != Reply
    ensures Inv(GrowerStep(s, g))
  {
    hide ConnsOk, HoldersOk, PlacesOk, HandlersOk, GrowersOk, RequestsOk, ResponsesOk, DispatcherOk, ChansOk, LocalOk,
         ConnOk, Carried, Turn, DispatcherOn;
    var s', k := GrowerStep(s, g), s.growers[g].slot;
    GrowerFacts(s, g);
    var c := s.holder[k];
    PlaceFacts(s, k);
    HolderHeader(s, k);
    var h := s.place[k].h;
    HandlerFacts(s, h);
    PassTurn(s, s', k);
    HandlersTurn(s, s', c, k, h);
    GrowersTurn(s, s', c, k, g);
    RequestsKept(s, s', c, k);
    NoResponse(s, k);
    ResponsesKept(s, s', c, k);
    DispatcherElsewhere(s, k);
    DispatcherKept(s, s', c, k);
    GrowerCarries(s, s', k);
    Assemble(s, s', c, k);
  }

  lemma GrowerCarries(s: State, s': State, k: nat)
    requires s'.responses == s.responses && s'.handlers == s.handlers && s'.dispatcher == s.dispatcher
    requires forall n :: n in s.requests ==> n in s'.requests && s.requests[n] <= s'.requests[n]
    requires forall g :: g in s.growers && s.growers[g].slot != k ==> g in s'.growers && s'.growers[g] == s.growers[g]
    ensures Carried(s, s', k)
  {
    assert forall n, i :: n in s.requests && 0 <= i < |s.requests[n]| ==> s.requests[n][i] == s'.requests[n][i];
  }

  lemma ReplyKeeps(s: State, g: nat)
    requires Inv(s) && Enabled(s, Expansion(g)) && s.growers[g].at == Reply
    ensures Inv(GrowerStep(s, g))
  {
    hide ConnsOk, HoldersOk, PlacesOk, HandlersOk, GrowersOk, RequestsOk, ResponsesOk, DispatcherOk, ChansOk, LocalOk,
         ConnOk, Carried, Turn, DispatcherOn;
    var s', y := GrowerStep(s, g), s.growers[g];
    var k := y.slot;
    GrowerFacts(s, g);
    var c := s.holder[k];
    PlaceFacts(s, k);
    var h := s.place[k].h;
    HandlerFacts(s, h);
    PassTurn(s, s', k);
    HandlersTurn(s, s', c, k, h);
    GrowersTurn(s, s', c, k, g);
    RequestsPushed(s, s', c, k, y.node, Msg(k, Granted));
    NoResponse(s, k);
    ResponsesKept(s, s', c, k);
    DispatcherElsewhere(s, k);
    DispatcherKept(s, s', c, k);
    GrowerCarries(s, s', k);
    Assemble(s, s', c, k);
  }

  // ---------- Whole runs ----------

  lemma HubKeeps(s: State, c: nat)
    requires Inv(s) && Enabled(s, Hub(c))
    ensures Inv(HubStep(s, c))
  {
    hide Inv, HubStep;
    match s.conns[c].at
    case Submit => SubmitKeeps(s, c);
    case Drain => DrainKeeps(s, c);
    case PutBack => PutBackKeeps(s, c);
    case FreeSlot => FreeSlotKeeps(s, c);
    case Blocked => ReceiveKeeps(s, c);
    case _ => HubWordsKeep(s, c);
  }

  lemma NodeKeeps(s: State, n: nat, h: nat, plan: seq<Op>)
    requires Inv(s) && Enabled(s, NodeTake(n, h, plan))
    ensures Inv(NodeStep(s, n, h, plan))
  {
    hide Inv, NodeStep;
    TakeExpandNever(s, n);
    if s.requests[n][0].cmd == Process { TakeProcessKeeps(s, n, h, plan); } else { TakeGrantedKeeps(s, n, h, plan); }
  }

  lemma HandlerKeeps(s: State, h: nat, pushed: bool)
    requires Inv(s) && Enabled(s, Handle(h, pushed))
    ensures Inv(HandlerStep(s, h, pushed))
  {
    hide Inv, HandlerStep;
    var y := s.handlers[h];
    if y.at == Respond { RespondKeeps(s, h, pushed); }
    else if y.at == Run && y.todo == [] { MarkKeeps(s, h, pushed); }
    else if y.at == AskPush && pushed { AskKeeps(s, h); }
    else { WorkKeeps(s, h, pushed); }
  }

  lemma WorkKeeps(s: State, h: nat, pushed: bool)
    requires Inv(s) && Enabled(s, Handle(h, pushed)) && s.handlers[h].at != Respond
    requires !(s.handlers[h].at == Run && s.handlers[h].todo == []) && !(s.handlers[h].at == AskPush && pushed)
    ensures Inv(HandlerStep(s, h, pushed))
  {
    hide Inv;
    HandlerAlone(s, HandlerStep(s, h, pushed), h);
  }

  lemma DispatchKeeps(s: State, g: nat)
    requires Inv(s) && Enabled(s, Dispatch(g))
    ensures Inv(DispatchStep(s, g))
  {
    hide Inv, DispatchStep;
    match s.dispatcher
    case Free =>
      ResponseFacts(s);
      if s.responses[0].cmd == Process { DispatchProcessKeeps(s, g); } else { DispatchExpandKeeps(s, g); }
    case GotProcess(_) => SwapKeeps(s, g);
    case GotExpand(_) => SpawnKeeps(s, g);
    case Holding(_) => SendKeeps(s, g);
  }

  lemma StepKeeps(s: State, step: Step)
    requires Inv(s) && Enabled(s, step)
    ensures Inv(Apply(s, step))
  {
    hide Inv, HubStep, NodeStep, HandlerStep, DispatchStep, GrowerStep;
    match step
    case BeginNext(c, _) => if s.conns[c].slot == 0 { BeginSlotless(s, step); } else { BeginKeeps(s, step); }
    case BeginClaim(c) => BeginSlotless(s, step);
    case BeginClose(c) => if s.conns[c].slot == 0 { BeginSlotless(s, step); } else { BeginKeeps(s, step); }
    case ClaimSlot(c, k) => ClaimKeeps(s, c, k);
    case ClaimNone(c) => ClaimingHasNoSlot(s, c); BeginSlotless(s, step);
    case TakeDone(c, ch) => TakingHasSlot(s, c); TakeDoneKeeps(s, c, ch);
    case Hub(c) => HubKeeps(s, c);
    case NodeTake(n, h, plan) => NodeKeeps(s, n, h, plan);
    case Handle(h, pushed) => HandlerKeeps(s, h, pushed);
    case Dispatch(g) => DispatchKeeps(s, g);
    case Expansion(g) => if s.growers[g].at == Reply { ReplyKeeps(s, g); } else { GrowKeeps(s, g); }
  }

  lemma ClaimingHasNoSlot(s: State, c: nat)
    requires Inv(s) && c in s.conns && s.conns[c].at == Claim
    ensures s.conns[c].slot == 0
  {
    hide ConnsOk, HoldersOk, PlacesOk, HandlersOk, GrowersOk, RequestsOk, ResponsesOk, DispatcherOk, ChansOk;
    LocalOf(s, c);
  }

  lemma TakingHasSlot(s: State, c: nat)
    requires Inv(s) && c in s.conns && s.conns[c].at == GetDone
    ensures s.conns[c].slot != 0
  {
    hide ConnsOk, HoldersOk, PlacesOk, HandlersOk, GrowersOk, RequestsOk, ResponsesOk, DispatcherOk, ChansOk;
    LocalOf(s, c);
  }

  /** Every state of every run satisfies the invariant. */
  lemma {:induction false} RunKeepsInv(run: seq<State>, i: nat)
    requires IsRun(run) && i < |run|
    ensures Inv(run[i])
  {
    hide Inv, Enabled, Apply;
    if i == 0 {
      InitInv(run[0]);
    } else {
      RunKeepsInv(run, i - 1);
      assert Next(run[i - 1], run[i]);
      var step :| Enabled(run[i - 1], step) && run[i] == Apply(run[i - 1], step);
      StepKeeps(run[i - 1], step);
    }
  }

  /** Where the completion of a handed-over stripe can be. */
  datatype Token = InRequestQueue(n: nat, i: nat) | InHandler(h: nat) | InResponseQueue(i: nat) | AtDispatcher
      | InChannel(c: nat)

  ghost predicate IsToken(s: State, k: nat, t: Token)
  {
    match t
    case InRequestQueue(n, i) => n in s.requests && i < |s.requests[n]| && s.requests[n][i] == Msg(k, Process)
    case InHandler(h) => h in s.handlers && s.handlers[h].slot == k
    case InResponseQueue(i) => i < |s.responses| && s.responses[i] == Msg(k, Process)
    case AtDispatcher => (s.dispatcher.GotProcess? || s.dispatcher.Holding?) && DispatcherOn(s, k)
    case InChannel(c) => c in s.conns && s.conns[c].slot == k && Content(s, s.conns[c]) > 0
  }

  /** While a connection waits, its completion is in exactly one place; otherwise it is in none. */
  ghost predicate OneToken(s: State, k: nat, waiting: bool)
  {
    if waiting then exists t :: IsToken(s, k, t) && forall u :: IsToken(s, k, u) ==> u == t
    else forall u :: !IsToken(s, k, u)
  }

  /** The token of a slot follows from its place. */
  predicate TokenPlace(t: Token, p: Place)
  {
    match t
    case InRequestQueue(_, _) => p == Requested
    case InHandler(h) => NamesHandler(p, h)
    case InResponseQueue(_) => p == Responded
    case AtDispatcher => p == Popped || p == Swapped
    case InChannel(_) => p == Delivered
  }

  lemma TokenTells(s: State, k: nat, t: Token)
    requires Inv(s) && k < SLOTS && IsToken(s, k, t)
    ensures TokenPlace(t, s.place[k]) && InUse(s, k)
    ensures t.InRequestQueue? ==> t.n == s.conns[s.holder[k]].node
    ensures t.InChannel? ==> t.c == s.holder[k]
  {
    hide ConnsOk, HoldersOk, PlacesOk, HandlersOk, GrowersOk, ChansOk;
    match t
    case InRequestQueue(n, i) => assert RequestOk(s, n, s.requests[n][i]);
    case InHandler(h) => HandlerFacts(s, h);
    case InResponseQueue(i) => assert ResponseOk(s, s.responses[i]);
    case AtDispatcher =>
    case InChannel(c) => ChannelTells(s, c);
  }

  lemma ChannelTells(s: State, c: nat)
    requires Inv(s) && c in s.conns && Content(s, s.conns[c]) > 0
    ensures 0 < s.conns[c].slot < SLOTS && s.place[s.conns[c].slot] == Delivered && s.holder[s.conns[c].slot] == c
    ensures InUse(s, s.conns[c].slot)
  {
    hide ConnsOk, HoldersOk, PlacesOk, HandlersOk, GrowersOk, RequestsOk, ResponsesOk, DispatcherOk, ChansOk;
    LocalOf(s, c);
  }

  lemma SameQueuePlace(q: seq<Msg>, i: nat, j: nat, k: nat)
    requires OneEach(q) && i < |q| && j < |q| && q[i].slot == k && q[j].slot == k
    ensures i == j
  {}

  /** Two completions of one slot are the same completion. */
  lemma TokensEqual(s: State, k: nat, t: Token, u: Token)
    requires Inv(s) && k < SLOTS && IsToken(s, k, t) && IsToken(s, k, u)
    ensures t == u
  {
    hide ConnsOk, HoldersOk, PlacesOk, HandlersOk, GrowersOk, DispatcherOk, ChansOk, OneEach, RequestOk, ResponseOk;
    TokenTells(s, k, t);
    TokenTells(s, k, u);
    if t.InRequestQueue? { SameQueuePlace(s.requests[t.n], t.i, u.i, k); }
    if t.InResponseQueue? { SameQueuePlace(s.responses, t.i, u.i, k); }
  }

  lemma TokenExists(s: State, k: nat) returns (t: Token)
    requires Inv(s) && InUse(s, k) && s.place[k] != AtHub
    ensures IsToken(s, k, t)
  {
    hide ConnsOk, HoldersOk, PlacesOk, HandlersOk, GrowersOk, RequestsOk, ResponsesOk, DispatcherOk, ChansOk;
    HolderLocal(s, k);
    var c := s.holder[k];
    var n := s.conns[c].node;
    match s.place[k] {
      case Requested =>
        var i :| 0 <= i < |s.requests[n]| && s.requests[n][i] == Msg(k, Process);
        t := InRequestQueue(n, i);
      case Responded =>
        var i :| 0 <= i < |s.responses| && s.responses[i] == Msg(k, Process);
        t := InResponseQueue(i);
      case Popped => t := AtDispatcher;
      case Swapped => t := AtDispatcher;
      case Delivered => t := InChannel(c);
      case Handling(h) => t := InHandler(h);
      case Asked(h) => t := InHandler(h);
      case Growing(h, _) => t := InHandler(h);
      case Answered(h) => t := InHandler(h);
      case Marked(h) => t := InHandler(h);
    }
  }

  /** In every state of every run, a connection that waits in Next has exactly one
      completion under way for its slot, and one that does not has none. */
  lemma ExactlyOneToken(run: seq<State>, i: nat, c: nat)
    requires IsRun(run) && i < |run| && c in run[i].conns && run[i].conns[c].slot != 0
    ensures OneToken(run[i], run[i].conns[c].slot, run[i].conns[c].at == Blocked)
  {
    hide IsRun, Inv, IsToken, LocalOk;
    var s := run[i];
    RunKeepsInv(run, i);
    WaitsIff(s, c);
    var k := s.conns[c].slot;
    if s.conns[c].at == Blocked {
      var t := TokenExists(s, k);
      forall u | IsToken(s, k, u) ensures u == t { TokensEqual(s, k, t, u); }
    } else {
      forall u ensures !IsToken(s, k, u) {
        if IsToken(s, k, u) { TokenTells(s, k, u); }
      }
    }
  }

  lemma WaitsIff(s: State, c: nat)
    requires Inv(s) && c in s.conns && s.conns[c].slot != 0
    ensures Shaped(s) && InUse(s, s.conns[c].slot) && s.holder[s.conns[c].slot] == c
    ensures s.conns[c].at == Blocked <==> s.place[s.conns[c].slot] != AtHub
  {
    hide ConnsOk, HoldersOk, PlacesOk, HandlersOk, GrowersOk, RequestsOk, ResponsesOk, DispatcherOk, ChansOk;
    ConnParts(s, c);
  }

  /** Who can touch the stripe of a slot: the connection outside its wait, a handler that
      is not waiting for blocks, or the hub's goroutine that adds blocks. */
  datatype User = TheConn(c: nat) | TheHandler(h: nat) | TheGrower(g: nat)

  predicate Uses(s: State, k: nat, u: User)
  {
    match u
    case TheConn(c) => c in s.conns && s.conns[c].slot == k && s.conns[c].at != Blocked
    case TheHandler(h) =>
      h in s.handlers && s.handlers[h].slot == k && s.handlers[h].at != Waiting && s.handlers[h].at != Respond
    case TheGrower(g) => g in s.growers && s.growers[g].slot == k
  }

  lemma UserTells(s: State, k: nat, u: User)
    requires Inv(s) && 0 < k < SLOTS && Uses(s, k, u)
    ensures match u
      case TheConn(c) => s.place[k] == AtHub && s.holder[k] == c
      case TheHandler(h) => s.place[k] == Handling(h)
      case TheGrower(g) => s.place[k].Growing? && s.place[k].g == g
  {
    hide ConnsOk, HoldersOk, PlacesOk, HandlersOk, GrowersOk, RequestsOk, ResponsesOk, DispatcherOk, ChansOk;
    match u
    case TheConn(c) => WaitsIff(s, c);
    case TheHandler(h) => HandlerFacts(s, h);
    case TheGrower(g) => GrowerFacts(s, g);
  }

  /** The hub and the nodes never hold a stripe together: in every state of every run at
      most one of them can touch it, and a handler has its connection's stripe on the
      node that the connection named. */
  lemma ExclusiveUse(run: seq<State>, i: nat, k: nat, u: User, v: User)
    requires IsRun(run) && i < |run| && 0 < k < SLOTS && Uses(run[i], k, u) && Uses(run[i], k, v)
    ensures u == v
  {
    hide IsRun, Inv, Uses;
    RunKeepsInv(run, i);
    UserTells(run[i], k, u);
    UserTells(run[i], k, v);
  }

  lemma RightStripe(run: seq<State>, i: nat, h: nat)
    requires IsRun(run) && i < |run| && h in run[i].handlers
    ensures var s, y := run[i], run[i].handlers[h];
      && y.of in s.conns && s.conns[y.of].slot == y.slot && s.conns[y.of].at == Blocked
      && y.node == s.conns[y.of].node && (y.at != Begin ==> y.header == s.conns[y.of].header)
  {
    hide IsRun, ConnsOk, HoldersOk, PlacesOk, HandlersOk, GrowersOk, RequestsOk, ResponsesOk, DispatcherOk, ChansOk,
         LocalOk;
    RunKeepsInv(run, i);
    HandlerFacts(run[i], h);
    HolderLocal(run[i], run[i].handlers[h].slot);
    WaitsIff(run[i], run[i].handlers[h].of);
  }

  /** Every nil return of Next matches exactly one handler run, returned or panicked, on
      the node that the call named: the finished runs are the returns, and one more at
      most while the connection waits. */
  lemma ReturnsMatchRuns(run: seq<State>, i: nat, c: nat)
    requires IsRun(run) && i < |run| && c in run[i].conns
    ensures var x := run[i].conns[c];
      && x.returned <= x.finished <= x.sent
      && (x.at != Blocked ==> x.returned == x.finished == x.sent)
      && (x.at == Blocked ==> x.sent == x.returned + [x.node])
  {
    hide IsRun, ConnsOk, HoldersOk, PlacesOk, HandlersOk, GrowersOk, RequestsOk, ResponsesOk, DispatcherOk, ChansOk,
         Content;
    RunKeepsInv(run, i);
    LocalOf(run[i], c);
  }

  /** Nothing on the way back is refused or stuck: the status poll of Next finds the slot
      ready or done at once, the owner check of an expansion passes, a completion finds its
      waiter and an empty channel, and granted blocks find the handler that waits for them. */
  lemma NothingRefused(run: seq<State>, i: nat)
    requires IsRun(run) && i < |run|
    ensures var s := run[i];
      && Shaped(s)
      && (forall c :: c in s.conns && s.conns[c].at == Poll ==>
            0 < s.conns[c].slot < SLOTS &&
              (s.slots[s.conns[c].slot].status == Ready || s.slots[s.conns[c].slot].status == Done))
      && (forall g :: g in s.growers ==> s.growers[g].at != Refused)
      && (s.dispatcher.GotProcess? ==> s.dispatcher.slot < SLOTS && s.waiters[s.dispatcher.slot].Some?)
      && (s.dispatcher.Holding? ==> CanDispatch(s, 0))
      && forall n :: n in s.requests && s.requests[n] != [] && s.requests[n][0].cmd == Granted ==> AskerWaits(s, n)
  {
    hide IsRun, ConnsOk, HoldersOk, PlacesOk, HandlersOk, GrowersOk, RequestsOk, ResponsesOk, DispatcherOk, ChansOk,
         LocalOk, ConnOk, AskerWaits;
    RunKeepsInv(run, i);
    var s := run[i];
    forall c | c in s.conns && s.conns[c].at == Poll
      ensures 0 < s.conns[c].slot < SLOTS &&
        (s.slots[s.conns[c].slot].status == Ready || s.slots[s.conns[c].slot].status == Done)
    {
      PollFinds(s, c);
    }
    forall g | g in s.growers ensures s.growers[g].at != Refused { GrowerFacts(s, g); }
    DispatcherGoesOn(s);
    forall n | n in s.requests && s.requests[n] != [] && s.requests[n][0].cmd == Granted ensures AskerWaits(s, n) {
      GrantFinds(s, n);
    }
  }

  /** The handler that asked for the blocks granted to node `n` next is waiting for them. */
  predicate AskerWaits(s: State, n: nat)
    requires n in s.requests && s.requests[n] != []
  {
    var key := (n, s.requests[n][0].slot);
    key in s.askers && s.askers[key] in s.handlers && s.handlers[s.askers[key]].at == Waiting
  }

  lemma PollFinds(s: State, c: nat)
    requires Inv(s) && c in s.conns && s.conns[c].at == Poll
    ensures 0 < s.conns[c].slot < SLOTS
    ensures s.slots[s.conns[c].slot].status == Ready || s.slots[s.conns[c].slot].status == Done
  {
    hide ConnsOk, HoldersOk, PlacesOk, HandlersOk, GrowersOk, RequestsOk, ResponsesOk, DispatcherOk, ChansOk;
    LocalOf(s, c);
  }

  lemma DispatcherGoesOn(s: State)
    requires Inv(s)
    ensures s.dispatcher.GotProcess? ==> s.dispatcher.slot < SLOTS && s.waiters[s.dispatcher.slot].Some?
    ensures s.dispatcher.Holding? ==> CanDispatch(s, 0)
  {
    hide ConnsOk, HoldersOk, PlacesOk, HandlersOk, GrowersOk, RequestsOk, ResponsesOk, ChansOk;
    DispatcherFacts(s);
    match s.dispatcher
    case GotProcess(k) => HolderLocal(s, k);
    case Holding(c) => HolderLocal(s, s.conns[c].slot);
    case _ =>
  }

  lemma GrantFinds(s: State, n: nat)
    requires Inv(s) && n in s.requests && s.requests[n] != [] && s.requests[n][0].cmd == Granted
    ensures AskerWaits(s, n)
  {
    hide ConnsOk, HoldersOk, PlacesOk, HandlersOk, GrowersOk, RequestsOk, ResponsesOk, DispatcherOk, ChansOk;
    RequestFacts(s, n);
    var k := s.requests[n][0].slot;
    PlaceFacts(s, k);
    HandlerFacts(s, s.place[k].h);
  }
}
