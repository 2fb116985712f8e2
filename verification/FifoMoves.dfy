/** How the cluster on FIFO links can go on from a state: single moves, and a node's threads
    coming to rest. */
module FifoMoves {
  import opened Messages
  import opened Sequences
  import opened Cluster
  import opened ClusterInvariant
  import opened Connection
  import opened FifoLinks

  // ---- how a state can go on ----

  /** What holds of a state and is kept by every step. */
  ghost predicate Closed(kept: Fifo -> bool) {
    forall a, b :: kept(a) && FifoNext(a, b) ==> kept(b)
  }

  /** A number of steps, none included, leads from `f` to `f'`. */
  ghost predicate Leads(f: Fifo, f': Fifo) {
    forall kept: Fifo -> bool :: Closed(kept) && kept(f) ==> kept(f')
  }

  lemma LeadsOn(a: Fifo, b: Fifo, c: Fifo)
    requires Leads(a, b) && Leads(b, c)
    ensures Leads(a, c)
  {
  }

  lemma LeadsStay(f: Fifo)
    ensures Leads(f, f)
  {
  }

  lemma LeadsNext(f: Fifo, f': Fifo)
    requires FifoNext(f, f')
    ensures Leads(f, f')
  {
  }

  lemma LeadsKeepsInv(t: Topology, f: Fifo, f': Fifo)
    requires FifoInv(t, f) && Leads(f, f')
    ensures FifoInv(t, f')
  {
    var kept := (g: Fifo) => FifoInv(t, g);
    forall a, b | kept(a) && FifoNext(a, b) ensures kept(b) {
      FifoNextOk(t, a, b);
    }
    assert Closed(kept);
  }

  ghost predicate CanEndIn(t: Topology, run: seq<Fifo>, f: Fifo) {
    exists run' :: run <= run' && IsFifoRun(t, run') && run'[|run'| - 1] == f
  }

  lemma EndsNext(t: Topology, run: seq<Fifo>, a: Fifo, b: Fifo)
    requires CanEndIn(t, run, a) && FifoNext(a, b)
    ensures CanEndIn(t, run, b)
  {
    var run' :| run <= run' && IsFifoRun(t, run') && run'[|run'| - 1] == a;
    ExtendFifoRun(t, run', b);
    assert run <= run' + [b];
  }

  /** A run can go on to any state its last one leads to. */
  lemma RunAlong(t: Topology, run: seq<Fifo>, f': Fifo) returns (run': seq<Fifo>)
    requires IsFifoRun(t, run) && Leads(run[|run| - 1], f')
    ensures run <= run' && IsFifoRun(t, run') && run'[|run'| - 1] == f'
  {
    var kept := (g: Fifo) => CanEndIn(t, run, g);
    forall a, b | kept(a) && FifoNext(a, b) ensures kept(b) {
      EndsNext(t, run, a, b);
    }
    assert Closed(kept) && kept(run[|run| - 1]);
    run' :| run <= run' && IsFifoRun(t, run') && run'[|run'| - 1] == f';
  }

  lemma ExtendFifoRun(t: Topology, run: seq<Fifo>, f': Fifo)
    requires IsFifoRun(t, run) && FifoNext(run[|run| - 1], f')
    ensures IsFifoRun(t, run + [f'])
  {
    var longer := run + [f'];
    forall i, j | 0 <= i && j == i + 1 && j < |longer| ensures FifoNext(longer[i], longer[j]) {
      if j < |run| {
        assert FifoNext(run[i], run[j]);
      }
    }
  }

  // ---- single moves ----

  /** Only the link from `x` to `y` may differ. */
  ghost predicate OnlyLink(links: Links, links': Links, x: nat, y: nat) {
    forall a: nat, b: nat :: (a, b) != (x, y) ==> Link(links', a, b) == Link(links, a, b)
  }

  /** What a node does by itself, losing what it sends, leaves the links alone. */
  lemma {:induction false} ByItself(f: Fifo, p: nat, actions: seq<Action>, n': Node) returns (f': Fifo)
    requires p < |f.s.nodes| && Quiet(actions) && Reaches(f.s.nodes[p], actions, n')
    ensures Leads(f, f') && f' == Fifo(State(f.s.nodes[p := n'], f.s.net), f.links)
    decreases |actions|
  {
    var nodes := f.s.nodes;
    if actions == [] {
      LeadsStay(f);
      assert nodes[p := n'] == nodes;
      return f;
    }
    var a, m := actions[0], Local(nodes[p], actions[0]);
    assert a in actions;
    var g := Fifo(State(nodes[p := m], f.s.net), f.links);
    assert f.s.net + AsPackets(None) == f.s.net;
    assert FifoStep(f, p, a, g);
    LeadsNext(f, g);
    f' := ByItself(g, p, actions[1..], n');
    LeadsOn(f, g, f');
    UpdateTwice(nodes, p, m, n');
  }

  /** ... and keeps the invariant. */
  lemma Acts(t: Topology, f: Fifo, p: nat, actions: seq<Action>, n': Node) returns (f': Fifo)
    requires FifoInv(t, f) && p < |t| && Quiet(actions) && Reaches(f.s.nodes[p], actions, n')
    ensures Leads(f, f') && FifoInv(t, f') && f' == Fifo(State(f.s.nodes[p := n'], f.s.net), f.links)
  {
    f' := ByItself(f, p, actions, n');
    LeadsKeepsInv(t, f, f');
  }

  /** A node that may act: it has not halted, and knows its own clock. */
  predicate Awake(n: Node) { !n.halted && n.d.Shaped() }

  lemma NodesAwake(t: Topology, f: Fifo, p: nat)
    requires FifoInv(t, f) && p < |t|
    ensures p < |f.s.nodes| && Awake(f.s.nodes[p])
  {
    assert NodeOk(t, f.s.nodes, p, f.s.nodes[p]);
  }

  lemma Takes(f: Fifo, x: nat, y: nat, m: Msg) returns (f': Fifo)
    requires y < |f.s.nodes| && Link(f.links, x, y) != [] && Link(f.links, x, y)[0] == m
    requires Packet(x, y, m) in f.s.net && Enabled(f.s.nodes[y], RecvTake(Packet(x, y, m)))
    ensures Leads(f, f') && f'.s == State(f.s.nodes[y := f.s.nodes[y].(recv := Got(m, x))], f.s.net)
    ensures Link(f'.links, x, y) == Link(f.links, x, y)[1..] && OnlyLink(f.links, f'.links, x, y)
  {
    var a := RecvTake(Packet(x, y, m));
    f' := Fifo(State(f.s.nodes[y := Local(f.s.nodes[y], a)], f.s.net), Carry(f.links, y, f.s.nodes[y], a));
    assert f.s.net + AsPackets(None) == f.s.net;
    assert FifoStep(f, y, a, f');
    LeadsNext(f, f');
  }

  lemma Sends(f: Fifo, p: nat, a: Action) returns (f': Fifo)
    requires p < |f.s.nodes| && Enabled(f.s.nodes[p], a) && Emits(p, f.s.nodes[p], a).Some?
    ensures Leads(f, f')
    ensures var k := Emits(p, f.s.nodes[p], a).value;
            && f'.s == State(f.s.nodes[p := Local(f.s.nodes[p], a)], f.s.net + {k})
            && Link(f'.links, k.src, k.dst) == Link(f.links, k.src, k.dst) + [k.msg]
            && OnlyLink(f.links, f'.links, k.src, k.dst)
  {
    var k := Emits(p, f.s.nodes[p], a).value;
    f' := Fifo(State(f.s.nodes[p := Local(f.s.nodes[p], a)], f.s.net + {k}), Carry(f.links, p, f.s.nodes[p], a));
    assert FifoStep(f, p, a, f');
    LeadsNext(f, f');
  }

  /** A link loses everything that is on it. */
  lemma {:induction false} Empties(f: Fifo, x: nat, y: nat) returns (f': Fifo)
    ensures Leads(f, f') && f'.s == f.s && Link(f'.links, x, y) == [] && OnlyLink(f.links, f'.links, x, y)
    decreases |Link(f.links, x, y)|
  {
    if Link(f.links, x, y) == [] {
      LeadsStay(f);
      return f;
    }
    var g := Fifo(f.s, f.links[(x, y) := DelAt(Link(f.links, x, y), 0)]);
    assert Loses(f, x, y, 0, g);
    LeadsNext(f, g);
    f' := Empties(g, x, y);
    LeadsOn(f, g, f');
  }

  // ---- a thread comes to rest ----

  /** The step the receive thread takes next. */
  function NextRecv(r: RecvPc): Action
    requires r != RecvIdle
  {
    match r
    case Got(m, _) => if m.Carries() then RecvCheck else if m.kind.Ack? then RecvRegister else RecvLookup
    case ToAck(_, _, _) => RecvAck
    case ToStore(_, _, _) => RecvStore
    case ToRequest(_) => RecvRequest
    case Found(_, _) => RecvResend
  }

  function ToGo(r: RecvPc): nat {
    match r
    case RecvIdle => 0
    case Got(_, _) => 4
    case ToAck(_, _, _) => 3
    case ToStore(_, _, _) => 2
    case ToRequest(_) => 1
    case Found(_, _) => 1
  }

  /** What the receive thread of a node can change. */
  ghost predicate HasReceived(n: Node, n': Node) {
    && n' == n.(d := n'.d, recv := n'.recv, retired := n'.retired, halted := n'.halted)
    && n'.d == n.d.(clock := n'.d.clock, sendQ := n'.d.sendQ, sentBuf := n'.d.sentBuf, held := n'.d.held,
                    deliveryQ := n'.d.deliveryQ)
    && |n'.d.clock| == |n.d.clock|
    && forall s :: 0 <= s < |n.d.clock| ==> n.d.clock[s] <= n'.d.clock[s]
  }

  lemma NextRecvMoves(n: Node)
    requires n.recv != RecvIdle && Enabled(n, NextRecv(n.recv))
    ensures HasReceived(n, Local(n, NextRecv(n.recv)))
  {
  }

  lemma NextRecvDescends(n: Node)
    requires n.recv != RecvIdle && Enabled(n, NextRecv(n.recv))
    ensures !Local(n, NextRecv(n.recv)).halted ==> ToGo(Local(n, NextRecv(n.recv)).recv) < ToGo(n.recv)
  {
  }

  lemma NextRecvEnabled(t: Topology, f: Fifo, x: nat)
    requires FifoInv(t, f) && x < |t| && f.s.nodes[x].recv != RecvIdle
    ensures Enabled(f.s.nodes[x], NextRecv(f.s.nodes[x].recv))
  {
    assert NodeOk(t, f.s.nodes, x, f.s.nodes[x]);
  }

  lemma NextRecvGoes(t: Topology, f: Fifo, x: nat)
    requires FifoInv(t, f) && x < |t| && f.s.nodes[x].recv != RecvIdle
    ensures var n := f.s.nodes[x]; var a := NextRecv(n.recv);
            && Enabled(n, a) && HasReceived(n, Local(n, a)) && ToGo(Local(n, a).recv) < ToGo(n.recv)
  {
    var n := f.s.nodes[x];
    NextRecvEnabled(t, f, x);
    NextRecvMoves(n);
    NextRecvDescends(n);
    NoExit(t, f, x, NextRecv(n.recv));
  }

  lemma ReceivesOn(t: Topology, f: Fifo, x: nat) returns (f': Fifo, n': Node)
    requires FifoInv(t, f) && x < |t| && f.s.nodes[x].recv != RecvIdle
    ensures Leads(f, f') && FifoInv(t, f') && f' == Fifo(State(f.s.nodes[x := n'], f.s.net), f.links)
    ensures HasReceived(f.s.nodes[x], n') && ToGo(n'.recv) < ToGo(f.s.nodes[x].recv)
  {
    var a := NextRecv(f.s.nodes[x].recv);
    NextRecvGoes(t, f, x);
    ReachesOne(f.s.nodes[x], a);
    n' := Local(f.s.nodes[x], a);
    f' := Acts(t, f, x, [a], n');
  }

  lemma ReceivedOn(a: Node, b: Node, c: Node)
    requires HasReceived(a, b) && HasReceived(b, c)
    ensures HasReceived(a, c)
  {
  }

  lemma {:induction false} FinishesReceiving(t: Topology, f: Fifo, x: nat) returns (f': Fifo, n': Node)
    requires FifoInv(t, f) && x < |t|
    ensures Leads(f, f') && FifoInv(t, f') && f' == Fifo(State(f.s.nodes[x := n'], f.s.net), f.links)
    ensures n'.recv == RecvIdle && HasReceived(f.s.nodes[x], n')
    decreases ToGo(f.s.nodes[x].recv)
  {
    var n := f.s.nodes[x];
    if n.recv == RecvIdle {
      LeadsStay(f);
      assert f.s.nodes[x := n] == f.s.nodes;
      return f, n;
    }
    var g, m := ReceivesOn(t, f, x);
    f', n' := FinishesReceiving(t, g, x);
    LeadsOn(f, g, f');
    ReceivedOn(n, m, n');
    UpdateTwice(f.s.nodes, x, m, n');
  }

  /** What the send thread of a node can change. */
  ghost predicate Flushed(n: Node, n': Node) {
    && n' == n.(d := n.d.(sendQ := n'.d.sendQ, sentBuf := n'.d.sentBuf), send := n'.send, buffered := n'.buffered)
    && n.buffered <= n'.buffered
  }

  lemma {:induction false} LosesBroadcast(n: Node) returns (actions: seq<Action>, n': Node)
    requires !n.halted && n.d.pid < |n.d.clock| && n.send.Broadcasting?
    ensures Quiet(actions) && Reaches(n, actions, n') && n' == n.(send := n.send.(todo := []))
    decreases if n.send.Broadcasting? then |n.send.todo| else 0
  {
    if n.send.todo == [] {
      return [], n;
    }
    var a := SendNext(true);
    ReachesOne(n, a);
    actions, n' := LosesBroadcast(Local(n, a));
    ReachesOn(n, [a], Local(n, a), actions, n');
    actions := [a] + actions;
  }

  lemma FinishesBroadcast(n: Node) returns (actions: seq<Action>, n': Node)
    requires !n.halted && n.d.pid < |n.d.clock| && n.send.Broadcasting?
    ensures Quiet(actions) && Reaches(n, actions, n') && Flushed(n, n')
    ensures n'.send == SendIdle && n'.d.sendQ == n.d.sendQ
  {
    var m;
    actions, m := LosesBroadcast(n);
    BufferIsStep(m);
    n' := Local(m, SendBuffer);
    ReachesOn(n, actions, m, [SendBuffer], n');
    actions := actions + [SendBuffer];
  }

  lemma FinishesSending(n: Node) returns (actions: seq<Action>, n': Node)
    requires !n.halted && n.d.pid < |n.d.clock|
    ensures Quiet(actions) && Reaches(n, actions, n') && Flushed(n, n')
    ensures n'.send == SendIdle && n'.d.sendQ == n.d.sendQ
  {
    match n.send
    case SendIdle => actions, n' := [], n;
    case Broadcasting(_, _, _) => actions, n' := FinishesBroadcast(n);
    case SendHas(o) =>
      if !o.msg.kind.Data? {
        ReachesOne(n, SendOne(true));
        actions, n' := [SendOne(true)], Local(n, SendOne(true));
      } else {
        var m := Local(n, SendBegin);
        ReachesOne(n, SendBegin);
        actions, n' := FinishesBroadcast(m);
        ReachesOn(n, [SendBegin], m, actions, n');
        actions := [SendBegin] + actions;
      }
  }

  /** The send thread sends, in vain, everything that is queued. */
  lemma {:induction false} LosesQueue(n: Node) returns (actions: seq<Action>, n': Node)
    requires !n.halted && n.d.pid < |n.d.clock|
    ensures Quiet(actions) && Reaches(n, actions, n') && Flushed(n, n')
    ensures n'.send == SendIdle && n'.d.sendQ == []
    decreases |n.d.sendQ|
  {
    var m;
    actions, m := FinishesSending(n);
    n' := m;
    if m.d.sendQ != [] {
      var taken, rest := Local(m, SendTake), [];
      ReachesOne(m, SendTake);
      rest, n' := LosesQueue(taken);
      ReachesOn(m, [SendTake], taken, rest, n');
      ReachesOn(n, actions, m, [SendTake] + rest, n');
      actions := actions + ([SendTake] + rest);
    }
  }
}
