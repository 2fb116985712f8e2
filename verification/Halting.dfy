/** When a process ends by itself: at a DATA message it has already been given. On links that
    keep the order this does not happen (`FifoLinks.NoExitNoneStranded`); here is when it does
    on links that do not, and a run in which it does. */
module Halting {
  import opened Messages
  import opened Sequences
  import opened Delivery
  import opened Cluster
  import opened ClusterInvariant
  import opened ClusterRuns
  import opened Connection
  import opened Overtaking

  // ---- in every run ----

  /** The receive thread has taken a DATA message that the node has been given before. */
  predicate AtStale(n: Node) {
    && n.recv.Got? && n.recv.m.kind.Data?
    && n.recv.s < |n.d.clock| && n.recv.m.clock <= n.d.clock[n.recv.s]
  }

  /** The node ends exactly at such a message, and does not get past one. */
  predicate EndsAtStale(n: Node, n': Node) {
    && (!n.halted && n'.halted ==> AtStale(n))
    && (AtStale(n) ==> n'.halted || AtStale(n'))
    && (n.halted ==> n'.halted)
  }

  lemma CheckHalts(t: Topology, nodes: seq<Node>, p: nat, n: Node, a: Action)
    requires TopologyOk(t) && |nodes| == |t| && p < |t| && NodeOk(t, nodes, p, n) && Enabled(n, a)
    ensures EndsAtStale(n, Local(n, a))
  {
    if a.RecvAck? {
      assert n.recv.m.clock <= MAX_CLOCK;
    }
  }

  lemma StepEndsAtStale(t: Topology, b: State, e: State, p: nat)
    requires Inv(t, b) && Next(b, e) && p < |t|
    ensures |b.nodes| == |e.nodes| == |t| && EndsAtStale(b.nodes[p], e.nodes[p])
  {
    var q, a :| Step(b, q, a, e);
    if q == p {
      CheckHalts(t, b.nodes, p, b.nodes[p], a);
    }
  }

  ghost predicate Ends(b: State, e: State, p: nat) {
    p < |b.nodes| == |e.nodes| && EndsAtStale(b.nodes[p], e.nodes[p])
  }

  /** In every run, the step that ends a process finds it at a DATA message it has been given
      before; and once there, it can only end. */
  lemma HaltsOnlyAtStale(t: Topology, run: seq<State>, j: nat, p: nat)
    requires TopologyOk(t) && IsRun(t, run) && 0 < j < |run| && p < |t|
    ensures Ends(run[j - 1], run[j], p)
  {
    var b, e := LastStep(t, run, j);
    StepEndsAtStale(t, b, e, p);
  }

  predicate StaleOrOver(s: State, p: nat) { p < |s.nodes| && (s.nodes[p].halted || AtStale(s.nodes[p])) }

  lemma {:induction false} NeverGetsPast(t: Topology, run: seq<State>, i: nat, j: nat, p: nat)
    requires TopologyOk(t) && IsRun(t, run) && i <= j < |run| && p < |t| && StaleOrOver(run[i], p)
    ensures StaleOrOver(run[j], p)
    decreases j - i
  {
    if i < j {
      NeverGetsPast(t, run, i, j - 1, p);
      HaltsOnlyAtStale(t, run, j, p);
      GoesOver(run[j - 1], run[j], p);
    }
  }

  lemma GoesOver(b: State, e: State, p: nat)
    requires StaleOrOver(b, p) && Ends(b, e, p)
    ensures StaleOrOver(e, p)
  {
  }

  // ---- a run in which a process ends ----

  function Resent(): Msg { Msg(Retransmit, 1, FIRST) }

  function Both(): seq<Sent> { [Buffered(FirstMsg()), Buffered(SecondMsg())] }

  function SenderWith(queue: seq<Outgoing>): Node { Sender(2, queue, Both(), [FIRST, SECOND], 2, {}) }

  function Holding(queue: seq<Outgoing>): Node { Receiver(0, queue, [Received(SecondMsg(), 0)], []) }

  function Given(): Node {
    Receiver(2, [ToSender(AckMsg(1))], [], [Received(Resent(), 0), Received(SecondMsg(), 0)])
  }

  /** The second message arrives first, and the receiver asks for the first one. */
  lemma AsksForFirst() returns (run: seq<State>, net: set<Packet>)
    ensures EndsIn(run, SenderWith([]), Holding([]), net)
    ensures Packet(0, 1, FirstMsg()) in net && Packet(1, 0, RequestMsg(1)) in net
  {
    var s, h := SenderWith([]), [Received(SecondMsg(), 0)];
    var ack, ask := ToSender(AckMsg(2)), ToSender(RequestMsg(1));
    net := {Packet(0, 1, FirstMsg()), Packet(0, 1, SecondMsg())};
    run := BothLeave();
    SecondIsHeld();
    run := Arrives(run, s, Receiver(0, [], [], []), net, SecondMsg(), Holding([ack, ask]).d);
    assert Receiver(0, [], [], []).(d := Holding([ack, ask]).d) == Holding([ack, ask]);
    assert [ack, ask] == [ack] + [ask] && [ask] == [ask] + [];
    run := Replies(run, s, 0, AckMsg(2), [ask], h, [], net);
    net := net + {Packet(1, 0, AckMsg(2))};
    run := Replies(run, s, 0, RequestMsg(1), [], h, [], net);
    net := net + {Packet(1, 0, RequestMsg(1))};
  }

  lemma FindsFirst()
    ensures SenderWith([]).d.HandleRequest(RequestMsg(1), 1) == SenderWith([Outgoing(Resent(), Some(1))]).d
  {
    assert [] + [Outgoing(Resent(), Some(1))] == [Outgoing(Resent(), Some(1))];
  }

  /** The sender answers. */
  lemma Answers(run: seq<State>, r: Node, net: set<Packet>) returns (run': seq<State>)
    requires EndsIn(run, SenderWith([]), r, net) && Packet(1, 0, RequestMsg(1)) in net
    ensures EndsIn(run', SenderWith([]), r, net + {Packet(0, 1, Resent())})
  {
    var n := SenderWith([]);
    var took, queued := n.(recv := Got(RequestMsg(1), 1)), SenderWith([Outgoing(Resent(), Some(1))]);
    run' := TakeInRuns(TwoNodes(), run, Packet(1, 0, RequestMsg(1)));
    assert [n, r][0 := took] == [took, r];
    var n';
    run', n' := DispatchInRuns(TwoNodes(), run', 0, RequestMsg(1), 1);
    FindsFirst();
    assert n' == queued;
    assert [took, r][0 := n'] == [queued, r];
    assert DelAt(queued.d.sendQ, 0) == [];
    assert Turned(queued) == n && TurnPackets(0, queued.d) == {Packet(0, 1, Resent())};
    run' := SendTurnInRuns(TwoNodes(), run', 0);
    assert [queued, r][0 := n] == [n, r];
  }

  lemma SecondDrains()
    ensures Drain([Received(SecondMsg(), 0)], 0, 1) == ([Received(SecondMsg(), 0)], [])
  {
    var h := [Received(SecondMsg(), 0)];
    assert FirstHeld(h, 0, 2) == 0 && DelSwap(h, 0) == [];
    assert FirstHeld([], 0, 3) == 0 && Drain([], 0, 2) == ([], []);
    assert [h[0]] + [] == h;
    DrainStep(h, 0, 1, []);
  }

  /** The answer overtakes the original: it is delivered, and the held message after it. */
  lemma AnswerIsDelivered()
    ensures Holding([]).d.HandleData(Resent(), 0) == Some(Given().d)
  {
    var d := Holding([]).d;
    SecondDrains();
    assert d.Check(0, 1) == Deliver;
    assert [0, 0][0 := 2] == [2, 0];
    assert [] + [ToSender(AckMsg(1))] == [ToSender(AckMsg(1))];
    assert [] + [Received(Resent(), 0)] + [Received(SecondMsg(), 0)] ==
           [Received(Resent(), 0), Received(SecondMsg(), 0)];
  }

  lemma OriginalIsStale()
    ensures Given().d.HandleData(FirstMsg(), 0) == None
  {
  }

  /** No datagram need be doubled or forged for a process to end: a retransmission that overtakes
      the message it repeats is enough. In state `i` the receiver has been given both messages
      and takes the original; in the last state it has ended. */
  lemma OvertakenByItsCopy() returns (run: seq<State>, i: nat)
    ensures TopologyOk(TwoNodes()) && IsRun(TwoNodes(), run) && i < |run| - 1
    ensures |run[i].nodes| == 2 && !run[i].nodes[1].halted && AtStale(run[i].nodes[1])
    ensures Payloads(run[i].nodes[1].d.deliveryQ) == [FIRST, SECOND]
    ensures |run[|run| - 1].nodes| == 2 && run[|run| - 1].nodes[1].halted
  {
    var net;
    TwoNodesOk();
    run, net := AsksForFirst();
    run := Answers(run, Holding([]), net);
    net := net + {Packet(0, 1, Resent())};
    AnswerIsDelivered();
    run := Arrives(run, SenderWith([]), Holding([]), net, Resent(), Given().d);
    assert Holding([]).(d := Given().d) == Given();
    run, i := TakesOriginal(run, SenderWith([]), net);
  }

  lemma TakesOriginal(run: seq<State>, s: Node, net: set<Packet>) returns (run': seq<State>, i: nat)
    requires EndsIn(run, s, Given(), net) && Packet(0, 1, FirstMsg()) in net
    ensures IsRun(TwoNodes(), run') && i < |run'| - 1
    ensures |run'[i].nodes| == 2 && !run'[i].nodes[1].halted && AtStale(run'[i].nodes[1])
    ensures Payloads(run'[i].nodes[1].d.deliveryQ) == [FIRST, SECOND]
    ensures |run'[|run'| - 1].nodes| == 2 && run'[|run'| - 1].nodes[1].halted
  {
    var took := Given().(recv := Got(FirstMsg(), 0));
    var mid := TakeInRuns(TwoNodes(), run, Packet(0, 1, FirstMsg()));
    assert [s, Given()][1 := took] == [s, took];
    i := |mid| - 1;
    assert Payloads(took.d.deliveryQ) == [FIRST, SECOND];
    OriginalIsStale();
    var n';
    run', n' := DispatchInRuns(TwoNodes(), mid, 1, FirstMsg(), 0);
    assert run'[i] == mid[i];
    assert n'.halted && run'[|run'| - 1].nodes == [s, took][1 := n'];
  }
}
