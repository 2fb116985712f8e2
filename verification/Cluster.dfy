/** A cluster of nodes as a step system. Every node runs an application thread, a send thread
    and a receive thread; a step is one critical section of one thread, one datagram leaving,
    or one datagram arriving, so any interleaving the locks allow is a run. The network may
    lose, reorder and duplicate datagrams but does not forge them: it remembers every datagram
    that ever left and hands out any of them, any number of times. */
module Cluster {
  import opened Messages
  import opened Sequences
  import opened Delivery
  import opened Retention
  import opened Contexts

  datatype AppPc =
    | AppIdle
    | AppHas(m: Msg)                      // clock counted, message not yet queued
    | AppAgeing                           // in handle_old_messages
    | AppResending(todo: seq<Outgoing>)   // retransmissions still to be queued

  datatype SendPc =
    | SendIdle
    | SendHas(o: Outgoing)
    | Broadcasting(m: Msg, todo: seq<nat>, target: set<nat>)

  datatype RecvPc =
    | RecvIdle
    | Got(m: Msg, s: nat)
    | ToAck(m: Msg, s: nat, v: Verdict)
    | ToStore(m: Msg, s: nat, v: Verdict)   // acknowledged, not yet stored
    | ToRequest(s: nat)
    | Found(m: Msg, s: nat)                 // retransmission made, not yet queued

  /** A node: its context, its threads, and the history of the run: the payloads broadcast (the
      one with clock c at index c - 1), the messages consumed, how many DATA messages have
      been moved to the sent buffer, and which of them left it. */
  datatype Node = Node(
    d: Context,
    app: AppPc,
    send: SendPc,
    recv: RecvPc,
    log: seq<Payload>,
    consumed: seq<Received>,
    buffered: nat,
    retired: set<nat>,
    purged: set<nat>,
    declared: bool,
    halted: bool)

  datatype Packet = Packet(src: nat, dst: nat, msg: Msg)

  datatype State = State(nodes: seq<Node>, net: set<Packet>)

  /** Every node's peers, as added before the threads start. */
  type Topology = seq<seq<nat>>

  ghost predicate TopologyOk(t: Topology) {
    forall p :: 0 <= p < |t| ==>
      Distinct(t[p]) && forall q :: q in t[p] ==> q < |t| && q < 16 && q != p
  }

  function FreshContext(t: Topology, p: nat): Context
    requires p < |t|
  {
    Context(p, t[p], {}, true, seq(|t|, i => 0), [], [], [], [])
  }

  function FreshNode(t: Topology, p: nat): Node
    requires p < |t|
  {
    Node(FreshContext(t, p), AppIdle, SendIdle, RecvIdle, [], [], 0, {}, {}, false, false)
  }

  ghost predicate Init(t: Topology, s: State) {
    && |s.nodes| == |t|
    && (forall p :: 0 <= p < |t| ==> s.nodes[p] == FreshNode(t, p))
    && s.net == {}
  }

  datatype Action =
    | AppSend(payload: Payload)
    | AppEnqueue
    | AppFind(todo: seq<Outgoing>)
    | AppDeclare(gone: seq<nat>)
    | AppResend
    | AppDone
    | AppReceive
    | SendTake
    | SendBegin
    | SendNext(lost: bool)
    | SendBuffer
    | SendOne(lost: bool)
    | RecvTake(pkt: Packet)
    | RecvCheck
    | RecvAck
    | RecvStore
    | RecvRequest
    | RecvRegister
    | RecvLookup
    | RecvResend

  /** The retransmissions an ageing round may choose: any buffered messages to any peers. */
  ghost predicate MayResend(d: Context, todo: seq<Outgoing>) {
    forall o :: o in todo ==> exists x, q :: x in d.sentBuf && q in d.peers && o == Resend(x, q)
  }

  function Alive(d: Context): seq<nat> { d.Targets() }

  ghost predicate Enabled(n: Node, a: Action) {
    && !n.halted
    && n.d.pid < |n.d.clock|
    && match a
       case AppSend(payload) =>
         n.app == AppIdle && Kept(payload) != [] && n.d.peers != [] && n.d.clock[n.d.pid] < MAX_CLOCK
       case AppEnqueue => n.app.AppHas?
       case AppFind(todo) => n.app == AppAgeing && MayResend(n.d, todo)
       case AppDeclare(gone) =>
         (n.app.AppAgeing? || n.app.AppResending?) && gone != [] && Distinct(gone) && AsSet(gone) <= AsSet(n.d.peers)
       case AppResend => n.app.AppResending? && n.app.todo != []
       case AppDone => n.app.AppAgeing? || (n.app.AppResending?)
       case AppReceive => n.app == AppIdle && n.d.deliveryQ != []
       case SendTake => n.send == SendIdle && n.d.sendQ != []
       case SendBegin => n.send.SendHas? && n.send.o.msg.kind.Data?
       case SendNext(_) => n.send.Broadcasting? && n.send.todo != []
       case SendBuffer => n.send.Broadcasting? && n.send.todo == []
       case SendOne(_) => n.send.SendHas? && !n.send.o.msg.kind.Data?
       case RecvTake(pkt) => n.recv == RecvIdle && pkt.dst == n.d.pid && pkt.src in n.d.peers
       case RecvCheck => n.recv.Got? && n.recv.m.Carries()
       case RecvAck => n.recv.ToAck?
       case RecvStore => n.recv.ToStore? && n.recv.s < |n.d.clock|
       case RecvRequest => n.recv.ToRequest? && n.recv.s < |n.d.clock|
       case RecvRegister => n.recv.Got? && n.recv.m.kind.Ack?
       case RecvLookup => n.recv.Got? && n.recv.m.kind.RetransmitReq?
       case RecvResend => n.recv.Found?
  }

  /** The clock whose message an acknowledgement takes out of the buffer. */
  function Retires(buf: seq<Sent>, c: nat, q: nat): set<nat> {
    var i := FirstSent(buf, c);
    if i < |buf| && buf[i].acked + {q} == buf[i].target then {c} else {}
  }

  function Clocks(buf: seq<Sent>): set<nat> { set x | x in buf :: x.msg.clock }

  /** The node after the step. */
  ghost function Local(n: Node, a: Action): Node
    requires Enabled(n, a)
  {
    match a
    case AppSend(payload) =>
      var next := n.d.clock[n.d.pid] + 1;
      n.(d := n.d.(clock := n.d.clock[n.d.pid := next]),
         log := n.log + [Kept(payload)],
         app := AppHas(Msg(Data, next, Kept(payload))))
    case AppEnqueue => n.(d := n.d.Enqueue(Outgoing(n.app.m, None)), app := AppAgeing)
    case AppFind(todo) => n.(app := AppResending(todo))
    case AppDeclare(gone) =>
      n.(d := n.d.HandleDead(gone),
         purged := n.purged + (Clocks(n.d.sentBuf) - Clocks(n.d.HandleDead(gone).sentBuf)),
         declared := true)
    case AppResend => n.(d := n.d.Enqueue(n.app.todo[0]), app := AppResending(n.app.todo[1..]))
    case AppDone => n.(app := AppIdle)
    case AppReceive =>
      n.(d := n.d.(deliveryQ := DelAt(n.d.deliveryQ, 0)), consumed := n.consumed + [n.d.deliveryQ[0]])
    case SendTake => n.(d := n.d.(sendQ := DelAt(n.d.sendQ, 0)), send := SendHas(n.d.sendQ[0]))
    case SendBegin => n.(send := Broadcasting(n.send.o.msg, Alive(n.d), AsSet(Alive(n.d))))
    case SendNext(_) => n.(send := n.send.(todo := n.send.todo[1..]))
    case SendBuffer =>
      n.(d := n.d.(sentBuf := n.d.sentBuf + [Sent(n.send.m, n.send.target, {})]),
         buffered := n.buffered + 1,
         send := SendIdle)
    case SendOne(_) => n.(send := SendIdle)
    case RecvTake(pkt) => n.(recv := Got(pkt.msg, pkt.src))
    case RecvCheck =>
      var v := n.d.Check(n.recv.s, n.recv.m.clock);
      if v == Error && n.recv.m.kind.Data? then n.(halted := true)
      else n.(recv := ToAck(n.recv.m, n.recv.s, v))
    case RecvAck =>
      if n.recv.m.clock == 65535 then n.(halted := true)
      else n.(d := n.d.Acknowledge(n.recv.m, n.recv.s),
         recv := if n.recv.v == Error then RecvIdle else ToStore(n.recv.m, n.recv.s, n.recv.v))
    case RecvStore =>
      if n.recv.v == Deliver then n.(d := n.d.Store(n.recv.m, n.recv.s), recv := RecvIdle)
      else n.(d := n.d.Keep(n.recv.m, n.recv.s), recv := ToRequest(n.recv.s))
    case RecvRequest => n.(d := n.d.Request(n.recv.s), recv := RecvIdle)
    case RecvRegister =>
      n.(d := n.d.Register(n.recv.m, n.recv.s),
         retired := n.retired + Retires(n.d.sentBuf, n.recv.m.clock, n.recv.s),
         recv := RecvIdle)
    case RecvLookup =>
      (match n.d.Lookup(n.recv.m.clock)
       case None => n.(recv := RecvIdle)
       case Some(m) => n.(recv := Found(m, n.recv.s)))
    case RecvResend => n.(d := n.d.Enqueue(Outgoing(n.recv.m, Some(n.recv.s))), recv := RecvIdle)
  }

  /** The datagram that leaves the node in the step, if any. */
  function Emits(p: nat, n: Node, a: Action): Option<Packet> {
    match a
    case SendNext(lost) =>
      if !lost && n.send.Broadcasting? && n.send.todo != [] then Some(Packet(p, n.send.todo[0], n.send.m)) else None
    case SendOne(lost) =>
      if !lost && n.send.SendHas? && n.send.o.dest.Some?
      then Some(Packet(p, n.send.o.dest.value, n.send.o.msg))
      else None
    case _ => None
  }

  function AsPackets(o: Option<Packet>): set<Packet> { if o.Some? then {o.value} else {} }

  /** Node `p` takes step `a`. */
  ghost predicate Step(s: State, p: nat, a: Action, s': State) {
    && p < |s.nodes|
    && Enabled(s.nodes[p], a)
    && (a.RecvTake? ==> a.pkt in s.net)
    && s' == State(s.nodes[p := Local(s.nodes[p], a)], s.net + AsPackets(Emits(p, s.nodes[p], a)))
  }

  ghost predicate Next(s: State, s': State) {
    exists p, a :: Step(s, p, a, s')
  }

  /** A run: a start state and what follows, one step at a time. */
  ghost predicate IsRun(t: Topology, run: seq<State>) {
    && |run| > 0
    && Init(t, run[0])
    && forall i, j {:trigger Next(run[i], run[j])} :: 0 <= i && j == i + 1 && j < |run| ==> Next(run[i], run[j])
  }
}
