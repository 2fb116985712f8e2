/** On links that lose datagrams but keep their order every gap can be closed: as long as the
    sender has declared nobody dead and can send one more message, the run can go on so that
    the receiver gets the message it waits for. The later message makes the receiver ask, and
    the sender still has what it is asked for. */
module Repair {
  import opened Messages
  import opened Sequences
  import opened Retention
  import opened Contexts
  import opened Cluster
  import opened ClusterInvariant
  import opened ClusterSteps
  import opened Connection
  import opened FifoLinks
  import opened FifoMoves

  // ---- the two nodes come to rest ----

  predicate Calm(n: Node) { n.recv == RecvIdle && n.send == SendIdle && n.d.sendQ == [] }

  /** What does not change while the threads other than the application come to rest. */
  predicate Settling(n: Node, n': Node) {
    && n'.app == n.app && n'.log == n.log && n'.declared == n.declared
    && n.buffered <= n'.buffered
    && |n'.d.clock| == |n.d.clock|
    && forall s :: 0 <= s < |n.d.clock| ==> n.d.clock[s] <= n'.d.clock[s]
  }

  lemma SettlingOn(a: Node, b: Node, c: Node)
    requires Settling(a, b) && Settling(b, c)
    ensures Settling(a, c)
  {
  }

  lemma CalmsSending(t: Topology, f: Fifo, x: nat) returns (f': Fifo, n': Node)
    requires FifoInv(t, f) && x < |t| && f.s.nodes[x].recv == RecvIdle
    ensures Leads(f, f') && FifoInv(t, f') && f' == Fifo(State(f.s.nodes[x := n'], f.s.net), f.links)
    ensures Calm(n') && Settling(f.s.nodes[x], n')
  {
    NodesAwake(t, f, x);
    var actions;
    actions, n' := LosesQueue(f.s.nodes[x]);
    f' := Acts(t, f, x, actions, n');
  }

  lemma Calms(t: Topology, f: Fifo, x: nat) returns (f': Fifo, n': Node)
    requires FifoInv(t, f) && x < |t|
    ensures Leads(f, f') && FifoInv(t, f') && f' == Fifo(State(f.s.nodes[x := n'], f.s.net), f.links)
    ensures Calm(n') && Settling(f.s.nodes[x], n')
  {
    var g, m := FinishesReceiving(t, f, x);
    f', n' := CalmsSending(t, g, x);
    LeadsOn(f, g, f');
    SettlingOn(f.s.nodes[x], m, n');
    UpdateTwice(f.s.nodes, x, m, n');
  }

  lemma LinksEmpty(t: Topology, f: Fifo, p: nat, q: nat) returns (f': Fifo)
    requires FifoInv(t, f) && p != q
    ensures Leads(f, f') && FifoInv(t, f') && f'.s == f.s
    ensures Link(f'.links, p, q) == [] && Link(f'.links, q, p) == []
  {
    var g := Empties(f, p, q);
    f' := Empties(g, q, p);
    LeadsOn(f, g, f');
    LeadsKeepsInv(t, f, f');
  }

  lemma Settles(t: Topology, f: Fifo, p: nat, q: nat) returns (f': Fifo)
    requires FifoInv(t, f) && p < |t| && q < |t| && p != q
    ensures Leads(f, f') && FifoInv(t, f')
    ensures Calm(f'.s.nodes[p]) && Settling(f.s.nodes[p], f'.s.nodes[p])
    ensures Calm(f'.s.nodes[q]) && Settling(f.s.nodes[q], f'.s.nodes[q])
    ensures Link(f'.links, p, q) == [] && Link(f'.links, q, p) == []
  {
    var g, n := Calms(t, f, p);
    var h, m := Calms(t, g, q);
    f' := LinksEmpty(t, h, p, q);
    LeadsOn(f, g, h);
    LeadsOn(f, h, f');
  }

  // ---- the sender sends one more message ----

  /** No ageing round is under way that will declare a peer dead. */
  ghost predicate NoneToDeclare(n: Node) {
    n.d.Shaped() && (n.app.AppAgeing? || n.app.AppResending? ==> n.d.Gone() == [])
  }

  /** A message counted but not yet queued, or a clock left for the next one. */
  predicate CanSend(n: Node) {
    n.app.AppHas? || (n.d.pid < |n.d.clock| && n.d.clock[n.d.pid] < MAX_CLOCK)
  }

  predicate AtCall(n: Node) { n.app.AppHas? || n.app == AppIdle }

  /** The application ends its round. */
  lemma EndsRound(n: Node) returns (actions: seq<Action>, n': Node)
    requires !n.halted && NoneToDeclare(n)
    ensures Quiet(actions) && Reaches(n, actions, n') && AtCall(n') && (n.app.AppHas? ==> n'.app == n.app)
    ensures n' == n.(d := n.d.(sendQ := n'.d.sendQ), app := n'.app)
  {
    if n.app.AppAgeing? {
      actions, n' := HandleOldIsSteps(n);
    } else if n.app.AppResending? {
      actions, n' := ResendsAreSteps(n);
    } else {
      actions, n' := [], n;
    }
  }

  lemma QueuesData(n: Node) returns (actions: seq<Action>, n': Node)
    requires !n.halted && n.d.Shaped() && n.d.peers != [] && n.d.sendQ == [] && AtCall(n) && CanSend(n)
    requires n.app.AppHas? ==> n.app.m.kind.Data?
    ensures Quiet(actions) && Reaches(n, actions, n')
    ensures n' == n.(d := n'.d, log := n'.log, app := AppAgeing)
    ensures n'.d == n.d.(clock := n'.d.clock, sendQ := n'.d.sendQ) && |n'.d.clock| == |n.d.clock|
    ensures |n'.d.sendQ| == 1 && n'.d.sendQ[0].msg.kind.Data?
  {
    if n.app.AppHas? {
      ReachesOne(n, AppEnqueue);
      return [AppEnqueue], Local(n, AppEnqueue);
    }
    n' := QueuedIsSteps(n, [7]);
    actions := [AppSend([7]), AppEnqueue];
  }

  lemma BeginsBroadcast(n: Node) returns (n': Node)
    requires !n.halted && n.d.pid < |n.d.clock| && n.send == SendIdle && n.d.dead == {}
    requires |n.d.sendQ| == 1 && n.d.sendQ[0].msg.kind.Data?
    ensures Reaches(n, [SendTake, SendBegin], n')
    ensures n' == n.(d := n.d.(sendQ := []), send := n'.send)
    ensures n'.send.Broadcasting? && n'.send.todo == n.d.peers
  {
    n' := TakeIsSteps(n);
    SelectAll(n.d.peers, IsMissing(n.d.dead));
    assert DelAt(n.d.sendQ, 0) == [];
  }

  /** The sender begins to broadcast a message to all its peers. */
  lemma StartsBroadcast(n: Node) returns (actions: seq<Action>, n': Node)
    requires !n.halted && n.d.Shaped() && n.d.peers != [] && Calm(n) && AtCall(n) && CanSend(n)
    requires n.app.AppHas? ==> n.app.m.kind.Data?
    requires n.d.dead == {}
    ensures Quiet(actions) && Reaches(n, actions, n')
    ensures n' == n.(d := n.d.(clock := n'.d.clock), log := n'.log, app := AppAgeing, send := n'.send)
    ensures n'.send.Broadcasting? && n'.send.todo == n.d.peers
  {
    var m;
    actions, m := QueuesData(n);
    n' := BeginsBroadcast(m);
    ReachesOn(n, actions, m, [SendTake, SendBegin], n');
    actions := actions + [SendTake, SendBegin];
  }

  lemma {:induction false} LosesUpTo(n: Node, q: nat) returns (actions: seq<Action>, n': Node)
    requires !n.halted && n.d.pid < |n.d.clock| && n.send.Broadcasting? && q in n.send.todo
    ensures Quiet(actions) && Reaches(n, actions, n')
    ensures n'.send.Broadcasting? && n' == n.(send := n.send.(todo := n'.send.todo))
    ensures n'.send.todo != [] && n'.send.todo[0] == q
    decreases if n.send.Broadcasting? then |n.send.todo| else 0
  {
    if n.send.todo[0] == q {
      return [], n;
    }
    var a := SendNext(true);
    ReachesOne(n, a);
    actions, n' := LosesUpTo(Local(n, a), q);
    ReachesOn(n, [a], Local(n, a), actions, n');
    actions := [a] + actions;
  }

  // ---- the message reaches the receiver ----

  lemma FinishesBroadcastAt(t: Topology, f: Fifo, p: nat) returns (f': Fifo, n': Node)
    requires FifoInv(t, f) && p < |t| && f.s.nodes[p].send.Broadcasting?
    ensures Leads(f, f') && FifoInv(t, f') && f' == Fifo(State(f.s.nodes[p := n'], f.s.net), f.links)
    ensures Flushed(f.s.nodes[p], n') && n'.send == SendIdle && n'.d.sendQ == f.s.nodes[p].d.sendQ
  {
    NodesAwake(t, f, p);
    var actions;
    actions, n' := FinishesBroadcast(f.s.nodes[p]);
    f' := Acts(t, f, p, actions, n');
  }

  lemma ReachesPeer(t: Topology, f: Fifo, p: nat, q: nat) returns (f': Fifo, n': Node)
    requires FifoInv(t, f) && p < |t|
    requires f.s.nodes[p].send.Broadcasting? && q in f.s.nodes[p].send.todo
    ensures Leads(f, f') && FifoInv(t, f') && f' == Fifo(State(f.s.nodes[p := n'], f.s.net), f.links)
    ensures n'.send.Broadcasting? && n' == f.s.nodes[p].(send := f.s.nodes[p].send.(todo := n'.send.todo))
    ensures n'.send.todo != [] && n'.send.todo[0] == q && Awake(n')
  {
    NodesAwake(t, f, p);
    var actions;
    actions, n' := LosesUpTo(f.s.nodes[p], q);
    f' := Acts(t, f, p, actions, n');
  }

  /** What node `p` puts on the link to `q`. */
  ghost predicate Gets(f: Fifo, f': Fifo, p: nat, q: nat, m: Msg) {
    && Packet(p, q, m) in f'.s.net
    && Link(f'.links, p, q) == Link(f.links, p, q) + [m]
    && OnlyLink(f.links, f'.links, p, q)
  }

  lemma PutsNext(t: Topology, f: Fifo, p: nat, q: nat) returns (f': Fifo, n': Node)
    requires FifoInv(t, f) && p < |t| && Awake(f.s.nodes[p])
    requires f.s.nodes[p].send.Broadcasting? && f.s.nodes[p].send.todo != [] && f.s.nodes[p].send.todo[0] == q
    ensures Leads(f, f') && FifoInv(t, f') && f'.s.nodes == f.s.nodes[p := n']
    ensures n'.send.Broadcasting? && n' == f.s.nodes[p].(send := f.s.nodes[p].send.(todo := n'.send.todo))
    ensures Gets(f, f', p, q, f.s.nodes[p].send.m)
  {
    n' := Local(f.s.nodes[p], SendNext(false));
    f' := Sends(f, p, SendNext(false));
    LeadsKeepsInv(t, f, f');
  }

  /** One datagram of a broadcast gets onto its link, and the message into the buffer. */
  lemma BroadcastReaches(t: Topology, f: Fifo, p: nat, q: nat) returns (f': Fifo, n': Node)
    requires FifoInv(t, f) && p < |t|
    requires f.s.nodes[p].send.Broadcasting? && q in f.s.nodes[p].send.todo
    ensures Leads(f, f') && FifoInv(t, f') && f'.s.nodes == f.s.nodes[p := n']
    ensures Flushed(f.s.nodes[p], n') && n'.send == SendIdle && n'.d.sendQ == f.s.nodes[p].d.sendQ
    ensures Gets(f, f', p, q, f.s.nodes[p].send.m)
  {
    var g, a := ReachesPeer(t, f, p, q);
    var h, b := PutsNext(t, g, p, q);
    f', n' := FinishesBroadcastAt(t, h, p);
    LeadsOn(f, g, h);
    LeadsOn(f, h, f');
    assert f.s.nodes[p := a][p := b][p := n'] == f.s.nodes[p := n'];
  }

  lemma CountedIsData(n: Node)
    requires SendOk(n) && n.app.AppHas?
    ensures n.app.m.kind.Data?
  {
    assert Unsent(n)[|Unsent(n)| - 1] == n.app.m;
  }

  lemma HandFits(t: Topology, f: Fifo, p: nat)
    requires FifoInv(t, f) && p < |t| && f.s.nodes[p].send.Broadcasting?
    ensures f.s.nodes[p].send.m.kind.Data? && f.s.nodes[p].buffered < f.s.nodes[p].send.m.clock <= MAX_CLOCK
  {
    assert NodeOk(t, f.s.nodes, p, f.s.nodes[p]);
    HandIsNext(f.s.nodes[p]);
  }

  lemma BroadcastBegins(t: Topology, f: Fifo, p: nat) returns (f': Fifo, n': Node)
    requires FifoInv(t, f) && p < |t| && t[p] != [] && !f.s.nodes[p].declared
    requires Calm(f.s.nodes[p]) && AtCall(f.s.nodes[p]) && CanSend(f.s.nodes[p])
    ensures Leads(f, f') && FifoInv(t, f') && f' == Fifo(State(f.s.nodes[p := n'], f.s.net), f.links)
    ensures var n := f.s.nodes[p];
            n' == n.(d := n.d.(clock := n'.d.clock), log := n'.log, app := AppAgeing, send := n'.send)
    ensures n'.send.Broadcasting? && n'.send.todo == t[p]
  {
    var n := f.s.nodes[p];
    NodesAwake(t, f, p);
    assert NodeOk(t, f.s.nodes, p, n);
    if n.app.AppHas? {
      CountedIsData(n);
    }
    var actions;
    actions, n' := StartsBroadcast(n);
    f' := Acts(t, f, p, actions, n');
  }

  /** A message newer than all that is buffered gets onto the link to `q`. */
  lemma DataReaches(t: Topology, f: Fifo, p: nat, q: nat) returns (f': Fifo, n': Node, m: Msg)
    requires FifoInv(t, f) && p < |t| && q in t[p] && !f.s.nodes[p].declared
    requires Calm(f.s.nodes[p]) && AtCall(f.s.nodes[p]) && CanSend(f.s.nodes[p])
    ensures Leads(f, f') && FifoInv(t, f') && f'.s.nodes == f.s.nodes[p := n']
    ensures Calm(n') && !n'.declared && f.s.nodes[p].buffered <= n'.buffered
    ensures Gets(f, f', p, q, m) && m.kind.Data? && f.s.nodes[p].buffered < m.clock <= MAX_CLOCK
  {
    var g, a := BroadcastBegins(t, f, p);
    HandFits(t, g, p);
    m := a.send.m;
    f', n' := BroadcastReaches(t, g, p, q);
    LeadsOn(f, g, f');
    UpdateTwice(f.s.nodes, p, a, n');
  }

  // ---- question and answer ----

  lemma TakesNext(t: Topology, f: Fifo, x: nat, y: nat, m: Msg) returns (f': Fifo)
    requires FifoInv(t, f) && x < |t| && y < |t| && x != y && x in t[y]
    requires f.s.nodes[y].recv == RecvIdle && Link(f.links, x, y) == [m]
    ensures Leads(f, f') && FifoInv(t, f') && f'.s.nodes == f.s.nodes[y := f.s.nodes[y].(recv := Got(m, x))]
    ensures Link(f'.links, x, y) == [] && OnlyLink(f.links, f'.links, x, y)
  {
    assert NodeOk(t, f.s.nodes, y, f.s.nodes[y]);
    assert LinkOk(f, x, y) && m in Link(f.links, x, y);
    f' := Takes(f, x, y, m);
    LeadsKeepsInv(t, f, f');
  }

  lemma ClockPerNode(t: Topology, f: Fifo, y: nat)
    requires FifoInv(t, f) && y < |t|
    ensures |f.s.nodes[y].d.clock| == |t|
  {
    assert NodeOk(t, f.s.nodes, y, f.s.nodes[y]);
  }

  lemma HandlesAlone(n: Node, m: Msg, s: nat, e: Context) returns (actions: seq<Action>, n': Node)
    requires !n.halted && n.d.pid < |n.d.clock| && s < |n.d.clock| && n.recv == Got(m, s)
    requires n.d.Dispatch(m, s) == Some(e)
    ensures Quiet(actions) && Reaches(n, actions, n')
    ensures n' == n.(d := e, recv := RecvIdle, retired := n'.retired)
  {
    actions, n' := DispatchIsSteps(n, m, s);
  }

  lemma Handles(t: Topology, f: Fifo, y: nat, m: Msg, x: nat, e: Context) returns (f': Fifo, n': Node)
    requires FifoInv(t, f) && y < |t| && x < |t| && f.s.nodes[y].recv == Got(m, x)
    requires f.s.nodes[y].d.Dispatch(m, x) == Some(e)
    ensures Leads(f, f') && FifoInv(t, f') && f' == Fifo(State(f.s.nodes[y := n'], f.s.net), f.links)
    ensures n' == f.s.nodes[y].(d := e, recv := RecvIdle, retired := n'.retired)
  {
    NodesAwake(t, f, y);
    ClockPerNode(t, f, y);
    var actions;
    actions, n' := HandlesAlone(f.s.nodes[y], m, x, e);
    f' := Acts(t, f, y, actions, n');
  }

  /** Node `y` takes the one datagram on its link from `x` and handles it. */
  lemma Hears(t: Topology, f: Fifo, x: nat, y: nat, m: Msg, e: Context) returns (f': Fifo, n': Node)
    requires FifoInv(t, f) && x < |t| && y < |t| && x != y && x in t[y]
    requires f.s.nodes[y].d.Dispatch(m, x) == Some(e)
    requires f.s.nodes[y].recv == RecvIdle && Link(f.links, x, y) == [m]
    ensures Leads(f, f') && FifoInv(t, f') && f'.s.nodes == f.s.nodes[y := n']
    ensures Link(f'.links, x, y) == [] && OnlyLink(f.links, f'.links, x, y)
    ensures n' == f.s.nodes[y].(d := e, retired := n'.retired)
  {
    var g := TakesNext(t, f, x, y, m);
    f', n' := Handles(t, g, y, m, x, e);
    LeadsOn(f, g, f');
    UpdateTwice(f.s.nodes, y, g.s.nodes[y], n');
  }

  lemma Fetches(t: Topology, f: Fifo, p: nat) returns (f': Fifo)
    requires FifoInv(t, f) && p < |t| && f.s.nodes[p].send == SendIdle && f.s.nodes[p].d.sendQ != []
    ensures Leads(f, f') && FifoInv(t, f')
    ensures var n := f.s.nodes[p];
            f' == Fifo(State(f.s.nodes[p := n.(d := n.d.(sendQ := DelAt(n.d.sendQ, 0)), send := SendHas(n.d.sendQ[0]))],
                             f.s.net), f.links)
  {
    NodesAwake(t, f, p);
    ReachesOne(f.s.nodes[p], SendTake);
    f' := Acts(t, f, p, [SendTake], Local(f.s.nodes[p], SendTake));
  }

  /** Node `p` sends `q` the one datagram it has queued. */
  lemma Says(t: Topology, f: Fifo, p: nat, q: nat, m: Msg) returns (f': Fifo, n': Node)
    requires FifoInv(t, f) && p < |t| && f.s.nodes[p].send == SendIdle && !m.kind.Data?
    requires f.s.nodes[p].d.sendQ == [Outgoing(m, Some(q))]
    ensures Leads(f, f') && FifoInv(t, f') && f'.s.nodes == f.s.nodes[p := n'] && Gets(f, f', p, q, m)
    ensures n' == f.s.nodes[p].(d := f.s.nodes[p].d.(sendQ := []))
  {
    var n := f.s.nodes[p];
    var g := Fetches(t, f, p);
    NodesAwake(t, g, p);
    n' := n.(d := n.d.(sendQ := []));
    f' := Sends(g, p, SendOne(false));
    LeadsOn(f, g, f');
    LeadsKeepsInv(t, f, f');
    UpdateTwice(f.s.nodes, p, g.s.nodes[p], n');
  }

  /** The oldest entry of the queue, an acknowledgement, is lost on its way. */
  lemma LosesFirst(t: Topology, f: Fifo, p: nat, first: Outgoing, rest: seq<Outgoing>) returns (f': Fifo, n': Node)
    requires FifoInv(t, f) && p < |t| && f.s.nodes[p].send == SendIdle && !first.msg.kind.Data?
    requires f.s.nodes[p].d.sendQ == [first] + rest
    ensures Leads(f, f') && FifoInv(t, f') && f' == Fifo(State(f.s.nodes[p := n'], f.s.net), f.links)
    ensures n' == f.s.nodes[p].(d := f.s.nodes[p].d.(sendQ := rest))
  {
    var n := f.s.nodes[p];
    NodesAwake(t, f, p);
    n' := n.(d := n.d.(sendQ := rest));
    assert DelAt([first] + rest, 0) == rest;
    ReachesTwo(n, SendTake, SendOne(true));
    f' := Acts(t, f, p, [SendTake, SendOne(true)], n');
  }

  /** The answers to a message beyond the next one: it is acknowledged, and the next one is
      asked for. */
  function AckAndAsk(p: nat, c: nat, next: nat): seq<Outgoing> {
    [Outgoing(AckMsg(c), Some(p))] + [Outgoing(RequestMsg(next), Some(p))]
  }

  lemma HoldAsks(d: Context, m: Msg, p: nat, next: nat) returns (e: Context)
    requires p < |d.clock| && m.kind.Data? && next == d.clock[p] + 1 < m.clock <= MAX_CLOCK && d.sendQ == []
    ensures d.Dispatch(m, p) == Some(e) && e.clock == d.clock && e.sendQ == AckAndAsk(p, m.clock, next)
  {
    e := d.Acknowledge(m, p).Keep(m, p).Request(p);
  }

  /** Node `q` holds the message and has the acknowledgement and its question queued. */
  lemma Wonders(t: Topology, f: Fifo, p: nat, q: nat, m: Msg, next: nat) returns (f': Fifo, n': Node)
    requires FifoInv(t, f) && p < |t| && q < |t| && p != q && p in t[q]
    requires Calm(f.s.nodes[q]) && Link(f.links, p, q) == [m]
    requires p < |f.s.nodes[q].d.clock| && m.kind.Data?
    requires next == f.s.nodes[q].d.clock[p] + 1 < m.clock <= MAX_CLOCK
    ensures Leads(f, f') && FifoInv(t, f') && f'.s.nodes == f.s.nodes[q := n']
    ensures n'.recv == RecvIdle && n'.send == SendIdle && n'.d.clock == f.s.nodes[q].d.clock
    ensures n'.d.sendQ == AckAndAsk(p, m.clock, next)
    ensures Link(f'.links, p, q) == [] && OnlyLink(f.links, f'.links, p, q)
  {
    var e := HoldAsks(f.s.nodes[q].d, m, p, next);
    f', n' := Hears(t, f, p, q, m, e);
  }

  lemma SaysSecond(t: Topology, f: Fifo, p: nat, q: nat, first: Outgoing, m: Msg) returns (f': Fifo, n': Node)
    requires FifoInv(t, f) && p < |t| && f.s.nodes[p].send == SendIdle
    requires !first.msg.kind.Data? && !m.kind.Data? && f.s.nodes[p].d.sendQ == [first] + [Outgoing(m, Some(q))]
    ensures Leads(f, f') && FifoInv(t, f') && f'.s.nodes == f.s.nodes[p := n'] && Gets(f, f', p, q, m)
    ensures n' == f.s.nodes[p].(d := f.s.nodes[p].d.(sendQ := []))
  {
    var g, a := LosesFirst(t, f, p, first, [Outgoing(m, Some(q))]);
    f', n' := Says(t, g, p, q, m);
    LeadsOn(f, g, f');
    UpdateTwice(f.s.nodes, p, a, n');
  }

  lemma SaysAck(t: Topology, f: Fifo, p: nat, q: nat, c: nat, next: nat) returns (f': Fifo, n': Node)
    requires FifoInv(t, f) && p < |t| && f.s.nodes[p].send == SendIdle
    requires f.s.nodes[p].d.sendQ == AckAndAsk(q, c, next)
    ensures Leads(f, f') && FifoInv(t, f') && f'.s.nodes == f.s.nodes[p := n']
    ensures Gets(f, f', p, q, RequestMsg(next)) && n' == f.s.nodes[p].(d := f.s.nodes[p].d.(sendQ := []))
  {
    f', n' := SaysSecond(t, f, p, q, Outgoing(AckMsg(c), Some(q)), RequestMsg(next));
  }

  lemma Asks(t: Topology, f: Fifo, p: nat, q: nat, m: Msg, next: nat) returns (f': Fifo, n': Node)
    requires FifoInv(t, f) && p < |t| && q < |t| && p != q && p in t[q]
    requires Calm(f.s.nodes[q]) && Link(f.links, p, q) == [m] && Link(f.links, q, p) == []
    requires p < |f.s.nodes[q].d.clock| && m.kind.Data?
    requires next == f.s.nodes[q].d.clock[p] + 1 < m.clock <= MAX_CLOCK
    ensures Leads(f, f') && FifoInv(t, f') && f'.s.nodes == f.s.nodes[q := n']
    ensures Calm(n') && n'.d.clock == f.s.nodes[q].d.clock
    ensures Link(f'.links, p, q) == [] && Link(f'.links, q, p) == [RequestMsg(next)]
  {
    var g, a := Wonders(t, f, p, q, m, next);
    f', n' := SaysAck(t, g, q, p, m.clock, next);
    LeadsOn(f, g, f');
    UpdateTwice(f.s.nodes, q, a, n');
  }

  /** What the receiver misses has not been retired. */
  lemma StillBuffered(t: Topology, f: Fifo, p: nat, q: nat, c: nat)
    requires FifoInv(t, f) && p < |t| && q < |t| && p != q && q in t[p]
    requires !f.s.nodes[p].declared && f.s.nodes[q].recv == RecvIdle
    requires p < |f.s.nodes[q].d.clock| && c == f.s.nodes[q].d.clock[p] + 1 <= f.s.nodes[p].buffered
    ensures f.s.nodes[p].d.Lookup(c).Some?
    ensures var m := f.s.nodes[p].d.Lookup(c).value; m.kind.Retransmit? && m.clock == c
  {
    var nodes := f.s.nodes;
    assert NodeOk(t, nodes, p, nodes[p]);
    assert LinkOk(f, p, q);
    assert !Has(nodes[q], p, c);
    assert c in nodes[p].retired ==> HasAt(nodes, q, p, c);
    LookupFindsGenuine(nodes[p], c);
  }

  lemma LookupAnswers(d: Context, p: nat, c: nat) returns (e: Context, r: Msg)
    requires d.Lookup(c).Some? && d.sendQ == []
    requires var m := d.Lookup(c).value; m.kind.Retransmit? && m.clock == c
    ensures d.Dispatch(RequestMsg(c), p) == Some(e) && e == d.(sendQ := [Outgoing(r, Some(p))])
    ensures r.kind.Retransmit? && r.clock == c
  {
    r := d.Lookup(c).value;
    e := d.Enqueue(Outgoing(r, Some(p)));
  }

  /** Node `p` has looked up what `q` asks for and queued it. */
  lemma Finds(t: Topology, f: Fifo, p: nat, q: nat, c: nat) returns (f': Fifo, n': Node, r: Msg)
    requires FifoInv(t, f) && p < |t| && q < |t| && p != q && q in t[p]
    requires !f.s.nodes[p].declared && Calm(f.s.nodes[p]) && f.s.nodes[q].recv == RecvIdle
    requires p < |f.s.nodes[q].d.clock| && c == f.s.nodes[q].d.clock[p] + 1 <= f.s.nodes[p].buffered
    requires Link(f.links, q, p) == [RequestMsg(c)]
    ensures Leads(f, f') && FifoInv(t, f') && f'.s.nodes == f.s.nodes[p := n'] && OnlyLink(f.links, f'.links, q, p)
    ensures n'.send == SendIdle && n'.d.sendQ == [Outgoing(r, Some(q))]
    ensures r.kind.Retransmit? && r.clock == c
  {
    StillBuffered(t, f, p, q, c);
    var e;
    e, r := LookupAnswers(f.s.nodes[p].d, q, c);
    f', n' := Hears(t, f, q, p, RequestMsg(c), e);
  }

  lemma Answers(t: Topology, f: Fifo, p: nat, q: nat, c: nat) returns (f': Fifo, n': Node, r: Msg)
    requires FifoInv(t, f) && p < |t| && q < |t| && p != q && q in t[p]
    requires !f.s.nodes[p].declared && Calm(f.s.nodes[p]) && f.s.nodes[q].recv == RecvIdle
    requires p < |f.s.nodes[q].d.clock| && c == f.s.nodes[q].d.clock[p] + 1 <= f.s.nodes[p].buffered
    requires Link(f.links, q, p) == [RequestMsg(c)] && Link(f.links, p, q) == []
    ensures Leads(f, f') && FifoInv(t, f') && f'.s.nodes == f.s.nodes[p := n']
    ensures Link(f'.links, p, q) == [r] && r.kind.Retransmit? && r.clock == c
  {
    var g, a;
    g, a, r := Finds(t, f, p, q, c);
    f', n' := Says(t, g, p, q, r);
    LeadsOn(f, g, f');
    UpdateTwice(f.s.nodes, p, a, n');
  }

  lemma NextIsDelivered(d: Context, r: Msg, p: nat) returns (e: Context)
    requires p < |d.clock| && r.kind.Retransmit? && r.clock == d.clock[p] + 1 <= MAX_CLOCK
    ensures d.Dispatch(r, p) == Some(e) && |e.clock| == |d.clock| && r.clock <= e.clock[p]
  {
    e := d.Acknowledge(r, p).Store(r, p);
  }

  lemma Fills(t: Topology, f: Fifo, p: nat, q: nat, r: Msg) returns (f': Fifo, n': Node)
    requires FifoInv(t, f) && p < |t| && q < |t| && p != q && p in t[q]
    requires f.s.nodes[q].recv == RecvIdle && Link(f.links, p, q) == [r] && r.kind.Retransmit?
    requires p < |f.s.nodes[q].d.clock| && r.clock == f.s.nodes[q].d.clock[p] + 1 <= MAX_CLOCK
    ensures Leads(f, f') && FifoInv(t, f') && f'.s.nodes == f.s.nodes[q := n']
    ensures |n'.d.clock| == |f.s.nodes[q].d.clock| && r.clock <= n'.d.clock[p]
  {
    var e := NextIsDelivered(f.s.nodes[q].d, r, p);
    f', n' := Hears(t, f, p, q, r, e);
  }

  // ---- the gap is closed ----

  /** The next message of `p` has been buffered, and `q` has not been given it. */
  predicate Lacks(f: Fifo, p: nat, q: nat) {
    && p < |f.s.nodes| && q < |f.s.nodes| && p < |f.s.nodes[q].d.clock|
    && f.s.nodes[q].d.clock[p] < f.s.nodes[p].buffered
  }

  predicate Given(f: Fifo, f': Fifo, p: nat, q: nat) {
    && q < |f.s.nodes| && q < |f'.s.nodes|
    && p < |f.s.nodes[q].d.clock| && p < |f'.s.nodes[q].d.clock|
    && f.s.nodes[q].d.clock[p] < f'.s.nodes[q].d.clock[p]
  }

  /** Both nodes at rest, the links between them empty, `p` about to send. */
  ghost predicate Rested(t: Topology, f: Fifo, p: nat, q: nat) {
    && FifoInv(t, f) && p < |t| && q < |t| && q in t[p] && p in t[q]
    && Calm(f.s.nodes[p]) && Calm(f.s.nodes[q]) && Link(f.links, p, q) == [] && Link(f.links, q, p) == []
    && !f.s.nodes[p].declared
  }

  /** A message of `p` beyond what `q` waits for is alone on the link to `q`. */
  ghost predicate Told(t: Topology, f: Fifo, p: nat, q: nat, m: Msg) {
    && FifoInv(t, f) && p < |t| && q < |t| && p != q && p in t[q]
    && Calm(f.s.nodes[p]) && Calm(f.s.nodes[q]) && Link(f.links, p, q) == [m] && Link(f.links, q, p) == []
    && !f.s.nodes[p].declared && Lacks(f, p, q)
    && m.kind.Data? && f.s.nodes[q].d.clock[p] + 1 < m.clock <= MAX_CLOCK
  }

  lemma TellsPeer(t: Topology, f: Fifo, p: nat, q: nat) returns (f': Fifo, m: Msg)
    requires Rested(t, f, p, q) && AtCall(f.s.nodes[p]) && CanSend(f.s.nodes[p]) && Lacks(f, p, q)
    ensures Leads(f, f') && Told(t, f', p, q, m) && f'.s.nodes[q] == f.s.nodes[q]
  {
    var n;
    f', n, m := DataReaches(t, f, p, q);
  }

  lemma AskedFor(t: Topology, f: Fifo, p: nat, q: nat, m: Msg) returns (f': Fifo)
    requires Told(t, f, p, q, m)
    ensures Leads(f, f') && FifoInv(t, f') && f'.s.nodes[p] == f.s.nodes[p] && Calm(f'.s.nodes[q])
    ensures f'.s.nodes[q].d.clock == f.s.nodes[q].d.clock
    ensures Link(f'.links, p, q) == [] && Link(f'.links, q, p) == [RequestMsg(f.s.nodes[q].d.clock[p] + 1)]
  {
    var n;
    f', n := Asks(t, f, p, q, m, f.s.nodes[q].d.clock[p] + 1);
  }

  lemma GivenWhatItAsked(t: Topology, f: Fifo, p: nat, q: nat, c: nat) returns (f': Fifo)
    requires FifoInv(t, f) && p < |t| && q < |t| && q in t[p] && p in t[q] && p != q
    requires Calm(f.s.nodes[p]) && Calm(f.s.nodes[q]) && !f.s.nodes[p].declared && Lacks(f, p, q)
    requires c == f.s.nodes[q].d.clock[p] + 1 <= MAX_CLOCK
    requires Link(f.links, p, q) == [] && Link(f.links, q, p) == [RequestMsg(c)]
    ensures Leads(f, f') && Given(f, f', p, q)
  {
    var g, a, r := Answers(t, f, p, q, c);
    var b;
    f', b := Fills(t, g, p, q, r);
    LeadsOn(f, g, f');
  }

  lemma BufferedFits(t: Topology, f: Fifo, p: nat)
    requires FifoInv(t, f) && p < |t|
    ensures f.s.nodes[p].buffered <= MAX_CLOCK
  {
    assert NodeOk(t, f.s.nodes, p, f.s.nodes[p]);
  }

  lemma ToldCloses(t: Topology, f: Fifo, p: nat, q: nat, m: Msg) returns (f': Fifo)
    requires Told(t, f, p, q, m) && q in t[p]
    ensures Leads(f, f') && Given(f, f', p, q)
  {
    BufferedFits(t, f, p);
    var g := AskedFor(t, f, p, q, m);
    f' := GivenWhatItAsked(t, g, p, q, f.s.nodes[q].d.clock[p] + 1);
    LeadsOn(f, g, f');
  }

  lemma RestedCloses(t: Topology, f: Fifo, p: nat, q: nat) returns (f': Fifo)
    requires Rested(t, f, p, q) && AtCall(f.s.nodes[p]) && CanSend(f.s.nodes[p]) && Lacks(f, p, q)
    ensures Leads(f, f') && Given(f, f', p, q)
  {
    var g, m := TellsPeer(t, f, p, q);
    f' := ToldCloses(t, g, p, q, m);
    LeadsOn(f, g, f');
  }

  lemma EndsRoundAt(t: Topology, f: Fifo, p: nat) returns (f': Fifo, n': Node)
    requires FifoInv(t, f) && p < |t| && NoneToDeclare(f.s.nodes[p])
    ensures Leads(f, f') && FifoInv(t, f') && f' == Fifo(State(f.s.nodes[p := n'], f.s.net), f.links)
    ensures AtCall(n') && (f.s.nodes[p].app.AppHas? ==> n'.app == f.s.nodes[p].app)
    ensures n' == f.s.nodes[p].(d := f.s.nodes[p].d.(sendQ := n'.d.sendQ), app := n'.app)
  {
    var actions;
    actions, n' := EndsRound(f.s.nodes[p]);
    f' := Acts(t, f, p, actions, n');
  }

  lemma OwnClock(t: Topology, f: Fifo, p: nat)
    requires FifoInv(t, f) && p < |t|
    ensures CanSend(f.s.nodes[p]) <==> f.s.nodes[p].app.AppHas? || |f.s.nodes[p].log| < MAX_CLOCK
  {
    assert NodeOk(t, f.s.nodes, p, f.s.nodes[p]);
  }

  /** The sender's round is over and both nodes are at rest. */
  lemma ComesToRest(t: Topology, f: Fifo, p: nat, q: nat) returns (f': Fifo)
    requires FifoInv(t, f) && p < |t| && q < |t| && q in t[p] && p in t[q]
    requires var n := f.s.nodes[p]; !n.declared && NoneToDeclare(n) && CanSend(n)
    ensures Leads(f, f') && Rested(t, f', p, q) && AtCall(f'.s.nodes[p]) && CanSend(f'.s.nodes[p])
    ensures Settling(f.s.nodes[q], f'.s.nodes[q]) && f.s.nodes[p].buffered <= f'.s.nodes[p].buffered
  {
    var g, n := EndsRoundAt(t, f, p);
    f' := Settles(t, g, p, q);
    LeadsOn(f, g, f');
    OwnClock(t, f, p);
    OwnClock(t, f', p);
  }

  lemma GapCloses(t: Topology, f: Fifo, p: nat, q: nat) returns (f': Fifo)
    requires FifoInv(t, f) && p < |t| && q < |t| && q in t[p] && p in t[q] && Lacks(f, p, q)
    requires var n := f.s.nodes[p]; !n.declared && NoneToDeclare(n) && CanSend(n)
    ensures Leads(f, f') && Given(f, f', p, q)
  {
    f' := ComesToRest(t, f, p, q);
    if f'.s.nodes[q].d.clock[p] == f.s.nodes[q].d.clock[p] {
      var g := RestedCloses(t, f', p, q);
      LeadsOn(f, f', g);
      f' := g;
    }
  }

  /** In every state of every run: if the sender has buffered the message its peer waits for,
      has declared nobody dead and is not about to, and can send once more, then the run can go
      on so that the peer is given that message. */
  lemma EveryGapCanClose(t: Topology, run: seq<Fifo>, p: nat, q: nat) returns (run': seq<Fifo>)
    requires TopologyOk(t) && IsFifoRun(t, run) && p < |t| && q < |t| && q in t[p] && p in t[q]
    requires Lacks(run[|run| - 1], p, q)
    requires var n := run[|run| - 1].s.nodes[p]; !n.declared && NoneToDeclare(n) && CanSend(n)
    ensures run <= run' && IsFifoRun(t, run')
    ensures Given(run[|run| - 1], run'[|run'| - 1], p, q)
  {
    var f := run[|run| - 1];
    FifoRunOk(t, run, |run| - 1);
    var f' := GapCloses(t, f, p, q);
    run' := RunAlong(t, run, f');
  }

  /** A held message shows that there is such a gap. */
  lemma HeldShowsGap(t: Topology, run: seq<Fifo>, i: nat, p: nat, q: nat, r: Received)
    requires TopologyOk(t) && IsFifoRun(t, run) && i < |run| && p < |t| && q < |t| && p in t[q]
    requires |run[i].s.nodes| == |t| && r in run[i].s.nodes[q].d.held && r.sender == p
    ensures Lacks(run[i], p, q)
    ensures run[i].s.nodes[q].d.clock[p] + 1 < r.msg.clock
  {
    FifoRunOk(t, run, i);
    var f := run[i];
    assert NodeOk(t, f.s.nodes, q, f.s.nodes[q]);
    assert ArrivedOk(t, f.s.nodes, q, p, r.msg);
    assert LinkOk(f, p, q);
  }
}
