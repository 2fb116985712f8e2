/** The invariant every run of the cluster keeps, and the proof that it does. What a node
    relies on about another one only ever grows, so a step has to be looked at on the one
    node that takes it. */
module ClusterInvariant {
  import opened Messages
  import opened Sequences
  import opened Delivery
  import opened Retention
  import opened Receiving
  import opened Cluster

  // ---- receipts ----

  predicate InHand(r: RecvPc, s: nat, c: nat) {
    r.ToStore? && r.s == s && r.m.clock == c
  }

  /** The node has received message `c` of `s`: delivered it, holds it, or is about to do one
      of the two. */
  predicate Has(n: Node, s: nat, c: nat) {
    && s < |n.d.clock|
    && (c <= n.d.clock[s] || IsHeld(n.d.held, s, c) || InHand(n.recv, s, c))
  }

  predicate HasAt(nodes: seq<Node>, q: nat, s: nat, c: nat) {
    q < |nodes| && Has(nodes[q], s, c)
  }

  // ---- what is sent ----

  predicate Genuine(log: seq<Payload>, m: Msg) {
    1 <= m.clock <= |log| && m.clock <= MAX_CLOCK && m.payload == log[m.clock - 1]
  }

  function DataIn(q: seq<Outgoing>): seq<Msg> {
    if q == [] then []
    else (if q[0].msg.kind.Data? then [q[0].msg] else []) + DataIn(q[1..])
  }

  function DataInHand(s: SendPc): seq<Msg> {
    match s
    case SendIdle => []
    case SendHas(o) => if o.msg.kind.Data? then [o.msg] else []
    case Broadcasting(m, _, _) => [m]
  }

  function DataAtApp(a: AppPc): seq<Msg> {
    if a.AppHas? then [a.m] else []
  }

  /** The DATA messages on their way to the sent buffer, in the order they will get there. */
  function Unsent(n: Node): seq<Msg> {
    DataInHand(n.send) + DataIn(n.d.sendQ) + DataAtApp(n.app)
  }

  /** `ms` are the messages of the log from clock `from + 1` on. */
  predicate LogFrom(log: seq<Payload>, from: nat, ms: seq<Msg>) {
    && from + |ms| <= |log|
    && forall k :: 0 <= k < |ms| ==> ms[k] == Msg(Data, from + 1 + k, log[from + k])
  }

  predicate InBuffer(buf: seq<Sent>, c: nat) {
    exists x :: x in buf && x.msg.clock == c
  }

  ghost predicate ShapeOk(t: Topology, p: nat, n: Node)
    requires p < |t|
  {
    && n.d.pid == p
    && n.d.peers == t[p]
    && |n.d.clock| == |t|
    && n.d.clock[p] == |n.log| <= MAX_CLOCK
    && (n.log != [] ==> n.d.peers != [])
    && (!n.declared ==> n.d.dead == {} && n.purged == {})
  }

  /** Conservation on the send side: the clocks handed out are split among the messages on
      their way, the sent buffer, and the messages retired from it or purged. */
  ghost predicate SendOk(n: Node) {
    && LogFrom(n.log, n.buffered, Unsent(n))
    && n.buffered + |Unsent(n)| == |n.log|
    && Increasing(n.d.sentBuf)
    && (forall x :: x in n.d.sentBuf ==> Genuine(n.log, x.msg) && x.msg.clock <= n.buffered)
    && (forall c: nat :: 1 <= c <= n.buffered <==> InBuffer(n.d.sentBuf, c) || c in n.retired || c in n.purged)
    && (forall c: nat :: InBuffer(n.d.sentBuf, c) ==> c !in n.retired && c !in n.purged)
    && n.retired !! n.purged
  }

  /** Before a declaration every message awaits all peers. */
  ghost predicate TargetsOk(n: Node) {
    !n.declared ==>
      && AwaitsAll(n.d.sentBuf, AsSet(n.d.peers))
      && (n.send.Broadcasting? ==> n.send.target == AsSet(n.d.peers))
  }

  // ---- what is in flight ----

  /** A datagram tells the truth: data is what its sender logged, an acknowledgement is backed
      by a receipt, and only messages that have been buffered are asked for. */
  ghost predicate PacketOk(t: Topology, nodes: seq<Node>, k: Packet)
    requires |nodes| == |t|
  {
    && k.src < |t| && k.dst < |t| && k.dst in t[k.src]
    && match k.msg.kind
       case Data => Genuine(nodes[k.src].log, k.msg) && k.msg.clock <= nodes[k.src].buffered + 1
       case Retransmit => Genuine(nodes[k.src].log, k.msg) && k.msg.clock <= nodes[k.src].buffered
       case Ack => 1 <= k.msg.clock && Has(nodes[k.src], k.dst, k.msg.clock)
       case RetransmitReq => 1 <= k.msg.clock <= nodes[k.dst].buffered
  }

  ghost predicate OutOk(t: Topology, nodes: seq<Node>, p: nat, o: Outgoing)
    requires |nodes| == |t|
  {
    o.msg.kind.Data? || (o.dest.Some? && PacketOk(t, nodes, Packet(p, o.dest.value, o.msg)))
  }

  ghost predicate QueueOk(t: Topology, nodes: seq<Node>, p: nat, n: Node)
    requires |nodes| == |t| && p < |t|
  {
    && (forall o :: o in n.d.sendQ ==> OutOk(t, nodes, p, o))
    && (n.send.SendHas? ==> OutOk(t, nodes, p, n.send.o))
    && (n.send.Broadcasting? ==> n.send.m.kind.Data? && forall q :: q in n.send.todo ==> q in t[p])
    && (n.app.AppResending? ==>
          forall o :: o in n.app.todo ==> o.msg.kind.Retransmit? && OutOk(t, nodes, p, o))
  }

  /** A data message that reached `p` from `s`. */
  ghost predicate ArrivedOk(t: Topology, nodes: seq<Node>, p: nat, s: nat, m: Msg)
    requires |nodes| == |t| && p < |t|
  {
    m.Carries() && s in t[p] && PacketOk(t, nodes, Packet(s, p, m))
  }

  ghost predicate RecvOk(t: Topology, nodes: seq<Node>, p: nat, n: Node)
    requires |nodes| == |t| && p < |t| && |n.d.clock| == |t|
  {
    match n.recv
    case RecvIdle => true
    case Got(m, s) => s in t[p] && PacketOk(t, nodes, Packet(s, p, m))
    case ToAck(m, s, v) =>
      && ArrivedOk(t, nodes, p, s, m)
      && v == CheckCausality(n.d.clock[s], m.clock)
    case ToStore(m, s, v) =>
      && ArrivedOk(t, nodes, p, s, m)
      && v == CheckCausality(n.d.clock[s], m.clock)
      && v != Error
    case ToRequest(s) => 
      s in t[p] && s < |t| && n.d.clock[s] + 1 <= nodes[s].buffered && n.d.clock[s] < MAX_CLOCK
    case Found(m, s) => s in t[p] && m.kind.Retransmit? && PacketOk(t, nodes, Packet(p, s, m))
  }

  // ---- what is received ----

  ghost predicate HeldOk(t: Topology, nodes: seq<Node>, p: nat, n: Node)
    requires |nodes| == |t| && p < |t|
  {
    && HeldOnce(n.d.held)
    && forall r :: r in n.d.held ==> ArrivedOk(t, nodes, p, r.sender, r.msg)
  }

  function IsFrom(s: nat): Received -> bool { (r: Received) => r.sender == s }

  /** The messages of `s` given to the application or queued for it. */
  function Delivered(n: Node, s: nat): seq<Received> {
    Select(n.consumed + n.d.deliveryQ, IsFrom(s))
  }

  /** `rs` are the first `k` messages of the log, once each and in order. */
  predicate InOrder(rs: seq<Received>, log: seq<Payload>, k: nat) {
    && |rs| == k <= |log|
    && forall i :: 0 <= i < k ==> rs[i].msg.clock == i + 1 && rs[i].msg.payload == log[i]
  }

  ghost predicate DeliveredOk(t: Topology, nodes: seq<Node>, p: nat, n: Node)
    requires |nodes| == |t| && p < |t| && |n.d.clock| == |t|
  {
    forall s :: s in t[p] && s < |t| ==>
      && InOrder(Delivered(n, s), nodes[s].log, n.d.clock[s])
      && n.d.clock[s] <= nodes[s].buffered + 1
  }

  /** Acknowledgements registered before a declaration are backed by receipts. */
  ghost predicate AckedOk(t: Topology, nodes: seq<Node>, p: nat, n: Node)
    requires |nodes| == |t| && p < |t|
  {
    !n.declared ==>
      && (forall x, q: nat :: x in n.d.sentBuf && q in x.acked ==> HasAt(nodes, q, p, x.msg.clock))
      && (forall c: nat, q: nat :: c in n.retired && q in t[p] ==> HasAt(nodes, q, p, c))
  }

  ghost predicate NodeOk(t: Topology, nodes: seq<Node>, p: nat, n: Node)
    requires |nodes| == |t| && p < |t|
  {
    && ShapeOk(t, p, n)
    && SendOk(n)
    && TargetsOk(n)
    && QueueOk(t, nodes, p, n)
    && RecvOk(t, nodes, p, n)
    && HeldOk(t, nodes, p, n)
    && DeliveredOk(t, nodes, p, n)
    && AckedOk(t, nodes, p, n)
  }

  ghost predicate Inv(t: Topology, s: State) {
    && TopologyOk(t)
    && |s.nodes| == |t|
    && (forall p :: 0 <= p < |t| ==> NodeOk(t, s.nodes, p, s.nodes[p]))
    && (forall k :: k in s.net ==> PacketOk(t, s.nodes, k))
  }

  // ---- what nodes rely on only grows ----

  ghost predicate NodeGrows(n: Node, n': Node) {
    && n.log <= n'.log
    && n.buffered <= n'.buffered
    && forall s, c :: Has(n, s, c) ==> Has(n', s, c)
  }

  ghost predicate Grows(nodes: seq<Node>, nodes': seq<Node>) {
    |nodes| == |nodes'| && forall p :: 0 <= p < |nodes| ==> NodeGrows(nodes[p], nodes'[p])
  }

  lemma PacketStaysOk(t: Topology, nodes: seq<Node>, nodes': seq<Node>, k: Packet)
    requires |nodes| == |t| && Grows(nodes, nodes') && PacketOk(t, nodes, k)
    ensures PacketOk(t, nodes', k)
  {
    assert NodeGrows(nodes[k.src], nodes'[k.src]) && NodeGrows(nodes[k.dst], nodes'[k.dst]);
  }

  lemma PacketsStayOk(t: Topology, nodes: seq<Node>, nodes': seq<Node>)
    requires |nodes| == |t| && Grows(nodes, nodes')
    ensures forall k :: PacketOk(t, nodes, k) ==> PacketOk(t, nodes', k)
  {
    forall k | PacketOk(t, nodes, k) ensures PacketOk(t, nodes', k) {
      PacketStaysOk(t, nodes, nodes', k);
    }
  }

  lemma RecvStaysOk(t: Topology, nodes: seq<Node>, nodes': seq<Node>, p: nat, n: Node)
    requires |nodes| == |t| && p < |t| && Grows(nodes, nodes') && |n.d.clock| == |t|
    requires RecvOk(t, nodes, p, n)
    ensures RecvOk(t, nodes', p, n)
  {
    match n.recv
    case ToRequest(s) =>
      assert NodeGrows(nodes[s], nodes'[s]);
    case _ =>
      PacketsStayOk(t, nodes, nodes');
  }

  lemma DeliveredStaysOk(t: Topology, nodes: seq<Node>, nodes': seq<Node>, p: nat, n: Node)
    requires |nodes| == |t| && p < |t| && Grows(nodes, nodes') && |n.d.clock| == |t|
    requires DeliveredOk(t, nodes, p, n)
    ensures DeliveredOk(t, nodes', p, n)
  {
    forall s | s in t[p] && s < |t|
      ensures InOrder(Delivered(n, s), nodes'[s].log, n.d.clock[s])
      ensures n.d.clock[s] <= nodes'[s].buffered + 1
    {
      assert NodeGrows(nodes[s], nodes'[s]);
      assert InOrder(Delivered(n, s), nodes[s].log, n.d.clock[s]);
    }
  }

  lemma AckedStaysOk(t: Topology, nodes: seq<Node>, nodes': seq<Node>, p: nat, n: Node)
    requires |nodes| == |t| && p < |t| && Grows(nodes, nodes')
    requires AckedOk(t, nodes, p, n)
    ensures AckedOk(t, nodes', p, n)
  {
    if !n.declared {
      forall x, q: nat | x in n.d.sentBuf && q in x.acked ensures HasAt(nodes', q, p, x.msg.clock) {
        assert HasAt(nodes, q, p, x.msg.clock);
        assert NodeGrows(nodes[q], nodes'[q]);
      }
      forall c: nat, q: nat | c in n.retired && q in t[p] ensures HasAt(nodes', q, p, c) {
        assert HasAt(nodes, q, p, c);
        assert NodeGrows(nodes[q], nodes'[q]);
      }
    }
  }

  lemma NodeStaysOk(t: Topology, nodes: seq<Node>, nodes': seq<Node>, p: nat, n: Node)
    requires |nodes| == |t| && p < |t| && Grows(nodes, nodes')
    requires NodeOk(t, nodes, p, n)
    ensures NodeOk(t, nodes', p, n)
  {
    PacketsStayOk(t, nodes, nodes');
    RecvStaysOk(t, nodes, nodes', p, n);
    DeliveredStaysOk(t, nodes, nodes', p, n);
    AckedStaysOk(t, nodes, nodes', p, n);
  }

  /** It is enough to look at the node that moved: its new value must satisfy the invariant
      where the others are as before, and so must what it emits. */
  lemma OneNodeMoves(t: Topology, s: State, p: nat, n': Node, out: set<Packet>)
    requires Inv(t, s) && p < |t|
    requires NodeGrows(s.nodes[p], n')
    requires NodeOk(t, s.nodes[p := n'], p, n')
    requires forall k :: k in out ==> PacketOk(t, s.nodes, k)
    ensures Inv(t, State(s.nodes[p := n'], s.net + out))
  {
    var nodes' := s.nodes[p := n'];
    assert Grows(s.nodes, nodes');
    PacketsStayOk(t, s.nodes, nodes');
    forall q | 0 <= q < |t| ensures NodeOk(t, nodes', q, nodes'[q]) {
      if q != p {
        NodeStaysOk(t, s.nodes, nodes', q, s.nodes[q]);
      }
    }
  }

  lemma {:induction false} InitOk(t: Topology, s: State)
    requires TopologyOk(t) && Init(t, s)
    ensures Inv(t, s)
  {
    forall p | 0 <= p < |t| ensures NodeOk(t, s.nodes, p, s.nodes[p]) {
      var n := FreshNode(t, p);
      assert s.nodes[p] == n;
      assert Unsent(n) == [];
      forall q | q in t[p] && q < |t| ensures InOrder(Delivered(n, q), s.nodes[q].log, n.d.clock[q]) {
        assert Delivered(n, q) == [];
      }
    }
  }
}
