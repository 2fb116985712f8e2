/** What holds in every state of every run of a cluster whose network loses, reorders and
    duplicates datagrams. */
module ClusterRuns {
  import opened Messages
  import opened Sequences
  import opened Delivery
  import opened Retention
  import opened Ageing
  import opened Cluster
  import opened ClusterInvariant
  import opened ClusterSteps
  import opened ClusterStore

  lemma LocalKeeps(t: Topology, nodes: seq<Node>, p: nat, n: Node, a: Action)
    requires Before(t, nodes, p, n, a) && nodes[p] == Local(n, a)
    requires a.RecvTake? ==> PacketOk(t, nodes, a.pkt)
    ensures After(t, nodes, p, n, a)
  {
    match a
    case AppSend(_) => AppSendKeeps(t, nodes, p, n, a);
    case AppEnqueue => AppEnqueueKeeps(t, nodes, p, n, a);
    case AppFind(_) => AppFindKeeps(t, nodes, p, n, a);
    case AppDeclare(_) => AppDeclareKeeps(t, nodes, p, n, a);
    case AppResend => AppResendKeeps(t, nodes, p, n, a);
    case AppDone => AppDoneKeeps(t, nodes, p, n, a);
    case AppReceive => AppReceiveKeeps(t, nodes, p, n, a);
    case SendTake => SendTakeKeeps(t, nodes, p, n, a);
    case SendBegin => SendBeginKeeps(t, nodes, p, n, a);
    case SendNext(_) => SendNextKeeps(t, nodes, p, n, a);
    case SendBuffer => SendBufferKeeps(t, nodes, p, n, a);
    case SendOne(_) => SendOneKeeps(t, nodes, p, n, a);
    case RecvTake(_) => RecvTakeKeeps(t, nodes, p, n, a);
    case RecvCheck => RecvCheckKeeps(t, nodes, p, n, a);
    case RecvAck => RecvAckKeeps(t, nodes, p, n, a);
    case RecvStore =>
      if n.recv.v == Deliver {
        DeliverKeeps(t, nodes, p, n, a);
      } else {
        HoldKeeps(t, nodes, p, n, a);
      }
    case RecvRequest => RecvRequestKeeps(t, nodes, p, n, a);
    case RecvRegister => RecvRegisterKeeps(t, nodes, p, n, a);
    case RecvLookup => RecvLookupKeeps(t, nodes, p, n, a);
    case RecvResend => RecvResendKeeps(t, nodes, p, n, a);
  }

  lemma EmitsOk(t: Topology, nodes: seq<Node>, p: nat, a: Action)
    requires TopologyOk(t) && |nodes| == |t| && p < |t|
    requires NodeOk(t, nodes, p, nodes[p]) && Enabled(nodes[p], a)
    ensures Emits(p, nodes[p], a).Some? ==> PacketOk(t, nodes, Emits(p, nodes[p], a).value)
  {
    if a.SendNext? {
      HandIsNext(nodes[p]);
      assert nodes[p].send.todo[0] in nodes[p].send.todo;
    }
  }

  lemma StepKeepsInv(t: Topology, s: State, p: nat, a: Action, s': State)
    requires Inv(t, s) && Step(s, p, a, s')
    ensures Inv(t, s') && Grows(s.nodes, s'.nodes)
  {
    var n := s.nodes[p];
    var n' := Local(n, a);
    LocalGrows(t, s.nodes, p, n, a);
    assert Grows(s.nodes, s'.nodes);
    NodeStaysOk(t, s.nodes, s'.nodes, p, n);
    if a.RecvTake? {
      PacketStaysOk(t, s.nodes, s'.nodes, a.pkt);
    }
    LocalKeeps(t, s'.nodes, p, n, a);
    EmitsOk(t, s.nodes, p, a);
    OneNodeMoves(t, s, p, n', AsPackets(Emits(p, n, a)));
  }

  lemma {:induction false} RunKeepsInv(t: Topology, run: seq<State>, i: nat)
    requires TopologyOk(t) && IsRun(t, run) && i < |run|
    ensures Inv(t, run[i])
  {
    if i == 0 {
      InitOk(t, run[0]);
    } else {
      RunKeepsInv(t, run, i - 1);
      assert Next(run[i - 1], run[i]);
      var p, a :| Step(run[i - 1], p, a, run[i]);
      StepKeepsInv(t, run[i - 1], p, a, run[i]);
    }
  }

  lemma RunGrows(t: Topology, run: seq<State>, j: nat, p: nat)
    requires TopologyOk(t) && IsRun(t, run) && 0 < j < |run| && p < |t|
    ensures |run[j - 1].nodes| == |run[j].nodes| == |t|
    ensures NodeGrows(run[j - 1].nodes[p], run[j].nodes[p])
  {
    RunKeepsInv(t, run, j - 1);
    assert Next(run[j - 1], run[j]);
    var q, a :| Step(run[j - 1], q, a, run[j]);
    StepKeepsInv(t, run[j - 1], q, a, run[j]);
    assert Grows(run[j - 1].nodes, run[j].nodes);
  }

  lemma GrowsOn(a: Node, b: Node, c: Node)
    requires NodeGrows(a, b) && NodeGrows(b, c)
    ensures NodeGrows(a, c)
  {
  }

  /** Nothing a node received, logged or buffered is ever taken back. */
  lemma {:induction false} ReceiptsStay(t: Topology, run: seq<State>, i: nat, j: nat, p: nat)
    requires TopologyOk(t) && IsRun(t, run) && i <= j < |run| && p < |t|
    ensures |run[i].nodes| == |run[j].nodes| == |t|
    ensures NodeGrows(run[i].nodes[p], run[j].nodes[p])
    decreases j - i
  {
    if i == j {
      RunKeepsInv(t, run, i);
    } else {
      ReceiptsStay(t, run, i, j - 1, p);
      RunGrows(t, run, j, p);
      GrowsOn(run[i].nodes[p], run[j - 1].nodes[p], run[j].nodes[p]);
    }
  }

  // ---- delivery ----

  function Payloads(rs: seq<Received>): (r: seq<Payload>)
    ensures |r| == |rs|
  {
    seq(|rs|, i requires 0 <= i < |rs| => rs[i].msg.payload)
  }

  /** Exactly once and in order: what node `p` has been given of sender `s`, consumed and
      queued together, is the beginning of what `s` sent, up to `p`'s clock for `s`; and what
      the application has consumed is a beginning of that. */
  lemma FifoPrefix(t: Topology, run: seq<State>, i: nat, p: nat, s: nat)
    requires TopologyOk(t) && IsRun(t, run) && i < |run| && p < |t| && s in t[p]
    ensures |run[i].nodes| == |t| && s < |t|
    ensures var n := run[i].nodes[p];
            var log := run[i].nodes[s].log;
            && s < |n.d.clock| && n.d.clock[s] <= |log|
            && Payloads(Delivered(n, s)) == log[..n.d.clock[s]]
            && (forall k :: 0 <= k < |Delivered(n, s)| ==> Delivered(n, s)[k].msg.clock == k + 1)
            && Payloads(Select(n.consumed, IsFrom(s))) <= log
  {
    RunKeepsInv(t, run, i);
    var n := run[i].nodes[p];
    var log := run[i].nodes[s].log;
    assert InOrder(Delivered(n, s), log, n.d.clock[s]);
    SelectConcat(n.consumed, n.d.deliveryQ, IsFrom(s));
    assert Payloads(Delivered(n, s)) == log[..n.d.clock[s]];
    var own := Select(n.consumed, IsFrom(s));
    assert own == Delivered(n, s)[..|own|];
    assert Payloads(own) == log[..|own|];
  }

  // ---- the send side ----

  predicate OnItsWay(n: Node, c: nat) {
    exists k :: 0 <= k < |Unsent(n)| && Unsent(n)[k].clock == c
  }

  /** Every clock a node has handed out is in exactly one place. */
  lemma SendSideConserves(t: Topology, run: seq<State>, i: nat, p: nat, c: nat)
    requires TopologyOk(t) && IsRun(t, run) && i < |run| && p < |t|
    ensures |run[i].nodes| == |t|
    ensures var n := run[i].nodes[p];
            var places := [OnItsWay(n, c), InBuffer(n.d.sentBuf, c), c in n.retired, c in n.purged];
            && (1 <= c <= |n.log| <==> exists k :: 0 <= k < 4 && places[k])
            && (forall j, k :: 0 <= j < k < 4 ==> !(places[j] && places[k]))
  {
    RunKeepsInv(t, run, i);
    var n := run[i].nodes[p];
    assert OnItsWay(n, c) <==> n.buffered < c <= |n.log| by {
      if n.buffered < c <= |n.log| {
        assert Unsent(n)[c - n.buffered - 1].clock == c;
      }
    }
    var places := [OnItsWay(n, c), InBuffer(n.d.sentBuf, c), c in n.retired, c in n.purged];
    assert places[0] == OnItsWay(n, c) && places[1] == InBuffer(n.d.sentBuf, c);
    assert places[2] == (c in n.retired) && places[3] == (c in n.purged);
  }

  /** The sent buffer, the send thread's hand and the send queue, read in this order, carry
      the clocks in strictly increasing order. */
  lemma ClocksLeaveInOrder(t: Topology, run: seq<State>, i: nat, p: nat)
    requires TopologyOk(t) && IsRun(t, run) && i < |run| && p < |t|
    ensures |run[i].nodes| == |t|
    ensures var n := run[i].nodes[p];
            && Increasing(n.d.sentBuf)
            && (forall x, k :: x in n.d.sentBuf && 0 <= k < |Unsent(n)| ==> x.msg.clock < Unsent(n)[k].clock)
            && (forall j, k :: 0 <= j < k < |Unsent(n)| ==> Unsent(n)[j].clock < Unsent(n)[k].clock)
  {
    RunKeepsInv(t, run, i);
  }

  // ---- recoverability ----

  /** A message is either with its receiver, or still on its way to the sent buffer, or in
      the sent buffer waiting for that receiver's acknowledgement. */
  lemma Recoverable(t: Topology, run: seq<State>, i: nat, p: nat, q: nat, c: nat)
    requires TopologyOk(t) && IsRun(t, run) && i < |run| && p < |t| && q in t[p]
    requires |run[i].nodes| == |t| && !run[i].nodes[p].declared
    requires 1 <= c <= |run[i].nodes[p].log|
    ensures var n := run[i].nodes[p];
            || HasAt(run[i].nodes, q, p, c)
            || OnItsWay(n, c)
            || exists x :: x in n.d.sentBuf && x.msg.clock == c && q in x.target && q !in x.acked
  {
    RunKeepsInv(t, run, i);
    SendSideConserves(t, run, i, p, c);
    var n := run[i].nodes[p];
    if InBuffer(n.d.sentBuf, c) {
      var x :| x in n.d.sentBuf && x.msg.clock == c;
      assert q in x.target;
    } else if c in n.retired {
      assert HasAt(run[i].nodes, q, p, c);
    }
  }

  /** Only messages that every peer has received are retired, and every acknowledgement, in
      flight or registered, is backed by a receipt. */
  lemma AcksAreBacked(t: Topology, run: seq<State>, i: nat, p: nat)
    requires TopologyOk(t) && IsRun(t, run) && i < |run| && p < |t|
    ensures |run[i].nodes| == |t|
    ensures forall k :: k in run[i].net && k.msg.kind.Ack? && k.src == p ==>
              HasAt(run[i].nodes, p, k.dst, k.msg.clock)
    ensures !run[i].nodes[p].declared ==>
              && (forall x, q: nat :: x in run[i].nodes[p].d.sentBuf && q in x.acked ==>
                   HasAt(run[i].nodes, q, p, x.msg.clock))
              && (forall c: nat, q: nat :: c in run[i].nodes[p].retired && q in t[p] ==>
                   HasAt(run[i].nodes, q, p, c))
  {
    RunKeepsInv(t, run, i);
  }

  /** A request for a message that the sender no longer buffers comes from a node that has
      received that message. */
  lemma GapRequestsAreServed(t: Topology, run: seq<State>, i: nat, p: nat, q: nat, c: nat)
    requires TopologyOk(t) && IsRun(t, run) && i < |run| && p < |t|
    requires |run[i].nodes| == |t| && !run[i].nodes[p].declared
    requires run[i].nodes[p].recv == Got(RequestMsg(c), q)
    requires run[i].nodes[p].d.Lookup(c).None?
    ensures HasAt(run[i].nodes, q, p, c)
  {
    RunKeepsInv(t, run, i);
    LookupFindsGenuine(run[i].nodes[p], c);
    assert c in run[i].nodes[p].retired;
  }

  /** Before its first declaration the context of a node is one that `Ageing` speaks of. */
  lemma UndeclaredInRuns(t: Topology, run: seq<State>, i: nat, p: nat)
    requires TopologyOk(t) && IsRun(t, run) && i < |run| && p < |t|
    requires |run[i].nodes| == |t| && !run[i].nodes[p].declared
    ensures Undeclared(run[i].nodes[p].d)
  {
    RunKeepsInv(t, run, i);
  }

  /** The ageing round of a run's first declaration, and every round before it, leaves at
      most six messages in the buffer. */
  lemma RoundsBoundBuffers(t: Topology, run: seq<State>, i: nat, p: nat)
    requires TopologyOk(t) && IsRun(t, run) && i < |run| && p < |t|
    requires |run[i].nodes| == |t| && !run[i].nodes[p].declared
    ensures run[i].nodes[p].d.Shaped()
    ensures |run[i].nodes[p].d.HandleOld().sentBuf| <= 6
  {
    UndeclaredInRuns(t, run, i, p);
    RoundBoundsBuffer(run[i].nodes[p].d);
  }
}
