/** The cluster on links that lose datagrams but keep their order. Its runs are runs of the
    cluster on the weaker network, so everything in `ClusterRuns` holds; what is added is
    that no node ever exits and that no early arrival is left behind. */
module FifoLinks {
  import opened Messages
  import opened Sequences
  import opened Delivery
  import opened Retention
  import opened Receiving
  import opened Cluster
  import opened ClusterInvariant
  import opened ClusterSteps
  import opened ClusterStore
  import opened ClusterRuns
  import opened Connection

  type Links = map<(nat, nat), seq<Msg>>

  function Link(links: Links, p: nat, q: nat): seq<Msg> {
    if (p, q) in links then links[(p, q)] else []
  }

  /** The cluster with the datagrams under way on each link, oldest first. */
  datatype Fifo = Fifo(s: State, links: Links)

  ghost predicate FifoInit(t: Topology, f: Fifo) {
    Init(t, f.s) && f.links == map[]
  }

  /** The links after node `p`, with value `n`, takes step `a`. */
  function Carry(links: Links, p: nat, n: Node, a: Action): Links {
    match Emits(p, n, a)
    case Some(k) => links[(k.src, k.dst) := Link(links, k.src, k.dst) + [k.msg]]
    case None =>
      if a.RecvTake? && Link(links, a.pkt.src, p) != []
      then links[(a.pkt.src, p) := Link(links, a.pkt.src, p)[1..]]
      else links
  }

  /** A step of a node; a datagram is taken from the front of its link. */
  ghost predicate FifoStep(f: Fifo, p: nat, a: Action, f': Fifo) {
    && Step(f.s, p, a, f'.s)
    && (a.RecvTake? ==> Link(f.links, a.pkt.src, p) != [] && Link(f.links, a.pkt.src, p)[0] == a.pkt.msg)
    && f'.links == Carry(f.links, p, f.s.nodes[p], a)
  }

  /** A link loses the datagram at position `i`. */
  ghost predicate Loses(f: Fifo, p: nat, q: nat, i: nat, f': Fifo) {
    && i < |Link(f.links, p, q)|
    && f' == Fifo(f.s, f.links[(p, q) := DelAt(Link(f.links, p, q), i)])
  }

  ghost predicate FifoNext(f: Fifo, f': Fifo) {
    || (exists p, a :: FifoStep(f, p, a, f'))
    || (exists p, q, i :: Loses(f, p, q, i, f'))
  }

  ghost predicate IsFifoRun(t: Topology, run: seq<Fifo>) {
    && |run| > 0
    && FifoInit(t, run[0])
    && forall i, j {:trigger FifoNext(run[i], run[j])} ::
         0 <= i && j == i + 1 && j < |run| ==> FifoNext(run[i], run[j])
  }

  // ---- the invariant of a link ----

  /** The receive thread is at work on a data message of `s`. */
  predicate Busy(r: RecvPc, s: nat) {
    (r.Got? || r.ToAck? || r.ToStore?) && r.s == s && r.m.Carries()
  }

  /** Clock `c` lies beyond everything node `n` has delivered or holds of `s`. */
  predicate Beyond(n: Node, s: nat, c: nat) {
    && s < |n.d.clock| && n.d.clock[s] < c
    && forall r :: r in n.d.held && r.sender == s ==> r.msg.clock < c
  }

  /** ... and beyond what its receive thread works on. */
  predicate Ahead(n: Node, s: nat, c: nat) {
    Beyond(n, s, c) && (Busy(n.recv, s) ==> n.recv.m.clock < c)
  }

  /** The least clock a DATA message that has not left for `q` can have. */
  function NextTo(n: Node, q: nat): nat {
    n.buffered + 1 + if n.send.Broadcasting? && q !in n.send.todo then 1 else 0
  }

  /** Every DATA message on a link is newer than the data before it. */
  predicate LinkOrder(link: seq<Msg>) {
    forall i, j :: 0 <= i < j < |link| && link[i].Carries() && link[j].kind.Data? ==> link[i].clock < link[j].clock
  }

  /** On the link from `x` to `y`, every DATA message is newer than the data before it, newer
      than all `y` has of `x`, and older than what has yet to leave; and nothing `y` holds of
      `x` is ready to be delivered. */
  ghost predicate LinkOk(f: Fifo, x: nat, y: nat)
    requires x < |f.s.nodes| && y < |f.s.nodes|
  {
    var link, n, next := Link(f.links, x, y), f.s.nodes[y], NextTo(f.s.nodes[x], y);
    && (forall m :: m in link ==> Packet(x, y, m) in f.s.net)
    && LinkOrder(link)
    && (forall m :: m in link && m.kind.Data? ==> Ahead(n, x, m.clock))
    && (forall m :: m in link && m.Carries() ==> m.clock < next)
    && Ahead(n, x, next)
    && (Busy(n.recv, x) && n.recv.m.kind.Data? ==> Beyond(n, x, n.recv.m.clock))
    && DrainedFor(n.d, x)
  }

  ghost predicate FifoInv(t: Topology, f: Fifo) {
    && Inv(t, f.s)
    && (forall p :: 0 <= p < |t| ==>
          !f.s.nodes[p].halted && (f.s.nodes[p].send.Broadcasting? ==> Distinct(f.s.nodes[p].send.todo)))
    && (forall x, y :: 0 <= x < |t| && 0 <= y < |t| && x != y ==> LinkOk(f, x, y))
  }

  lemma FifoInitOk(t: Topology, f: Fifo)
    requires TopologyOk(t) && FifoInit(t, f)
    ensures FifoInv(t, f)
  {
    InitOk(t, f.s);
    forall x, y | 0 <= x < |t| && 0 <= y < |t| && x != y ensures LinkOk(f, x, y) {
      FirstLinkOk(t, f, x, y);
    }
  }

  lemma FirstLinkOk(t: Topology, f: Fifo, x: nat, y: nat)
    requires FifoInit(t, f) && x < |t| && y < |t|
    ensures LinkOk(f, x, y)
  {
    assert f.s.nodes[x] == FreshNode(t, x) && f.s.nodes[y] == FreshNode(t, y);
    assert Link(f.links, x, y) == [];
  }

  // ---- losing a datagram ----

  lemma LosesOk(t: Topology, f: Fifo, p: nat, q: nat, i: nat, f': Fifo)
    requires FifoInv(t, f) && Loses(f, p, q, i, f')
    ensures FifoInv(t, f')
  {
    forall x, y | 0 <= x < |t| && 0 <= y < |t| && x != y ensures LinkOk(f', x, y) {
      assert LinkOk(f, x, y);
      if x == p && y == q {
        LinkLosesOk(f, x, y, i, f');
      }
    }
  }

  lemma LinkLosesOk(f: Fifo, x: nat, y: nat, i: nat, f': Fifo)
    requires x < |f.s.nodes| && y < |f.s.nodes| && LinkOk(f, x, y) && Loses(f, x, y, i, f')
    ensures LinkOk(f', x, y)
  {
    var link, link' := Link(f.links, x, y), Link(f'.links, x, y);
    assert forall m :: m in link' ==> m in link;
    assert forall j :: 0 <= j < |link'| ==> link'[j] == link[if j < i then j else j + 1];
  }

  // ---- the sender moves ----

  /** The clocks still to leave never go back, and the links only get what has just left. */
  lemma SenderMoves(t: Topology, f: Fifo, x: nat, y: nat, a: Action, f': Fifo)
    requires FifoInv(t, f) && FifoStep(f, x, a, f') && x < |t| && y < |t| && x != y
    ensures LinkOk(f', x, y)
  {
    var n := f.s.nodes[x];
    var link, link' := Link(f.links, x, y), Link(f'.links, x, y);
    assert LinkOk(f, x, y);
    assert f'.s.nodes[y] == f.s.nodes[y];
    NextGrows(n, y, a);
    EmitsOk(t, f.s.nodes, x, a);
    match Emits(x, n, a)
    case Some(k) =>
      if k.dst == y {
        assert link' == link + [k.msg];
        EmittedFits(t, f, x, y, a);
        PushOk(f, x, y, k.msg, f');
      } else {
        assert link' == link;
      }
    case None =>
      assert link' == link;
  }

  lemma NextGrows(n: Node, y: nat, a: Action)
    requires Enabled(n, a) && (n.send.Broadcasting? ==> Distinct(n.send.todo))
    ensures NextTo(n, y) <= NextTo(Local(n, a), y)
  {
    if a.SendNext? {
      assert y in n.send.todo[1..] ==> y in n.send.todo;
    }
  }

  lemma EmittedFits(t: Topology, f: Fifo, x: nat, y: nat, a: Action)
    requires FifoInv(t, f) && x < |t| && y < |t| && Enabled(f.s.nodes[x], a)
    requires Emits(x, f.s.nodes[x], a).Some? && Emits(x, f.s.nodes[x], a).value.dst == y
    ensures var n, m := f.s.nodes[x], Emits(x, f.s.nodes[x], a).value.msg;
            && (m.kind.Data? ==> m.clock == NextTo(n, y))
            && (m.Carries() ==> m.clock < NextTo(Local(n, a), y))
  {
    var n := f.s.nodes[x];
    EmitsOk(t, f.s.nodes, x, a);
    assert NodeOk(t, f.s.nodes, x, n);
    if a.SendNext? {
      HandIsNext(n);
      assert n.send.todo[0] == y && y in n.send.todo;
      assert y !in n.send.todo[1..];
    }
  }

  lemma PushOk(f: Fifo, x: nat, y: nat, m: Msg, f': Fifo)
    requires x < |f.s.nodes| == |f'.s.nodes| && y < |f.s.nodes|
    requires LinkOk(f, x, y) && f'.s.nodes[y] == f.s.nodes[y]
    requires Link(f'.links, x, y) == Link(f.links, x, y) + [m]
    requires f.s.net + {Packet(x, y, m)} <= f'.s.net
    requires NextTo(f.s.nodes[x], y) <= NextTo(f'.s.nodes[x], y)
    requires m.kind.Data? ==> m.clock == NextTo(f.s.nodes[x], y)
    requires m.Carries() ==> m.clock < NextTo(f'.s.nodes[x], y)
    ensures LinkOk(f', x, y)
  {
    var link := Link(f.links, x, y);
    assert forall i :: 0 <= i < |link| ==> link[i] in link;
  }

  // ---- the receiver moves ----

  lemma TakeMoves(f: Fifo, y: nat, a: Action, f': Fifo, x: nat)
    requires a.RecvTake? && FifoStep(f, y, a, f') && x < |f.s.nodes| && x != y
    ensures |f'.s.nodes| == |f.s.nodes| && f.s.net <= f'.s.net && f'.s.nodes[x] == f.s.nodes[x]
    ensures f'.s.nodes[y] == f.s.nodes[y].(recv := Got(a.pkt.msg, a.pkt.src))
    ensures if a.pkt.src == x then
              && Link(f.links, x, y) != [] && a.pkt.msg == Link(f.links, x, y)[0]
              && Link(f'.links, x, y) == Link(f.links, x, y)[1..]
            else Link(f'.links, x, y) == Link(f.links, x, y)
  {
  }

  lemma TakeOk(f: Fifo, y: nat, a: Action, f': Fifo, x: nat)
    requires a.RecvTake? && FifoStep(f, y, a, f') && x < |f.s.nodes| && x != y && LinkOk(f, x, y)
    ensures LinkOk(f', x, y)
  {
    TakeMoves(f, y, a, f', x);
    if a.pkt.src == x {
      PopOk(f, x, y, a.pkt.msg, f');
    } else {
      SameReachOk(f, x, y, f');
    }
  }

  lemma PopOk(f: Fifo, x: nat, y: nat, m: Msg, f': Fifo)
    requires x < |f.s.nodes| == |f'.s.nodes| && y < |f.s.nodes| && x != y
    requires LinkOk(f, x, y) && Link(f.links, x, y) != [] && m == Link(f.links, x, y)[0]
    requires f'.s.nodes[y] == f.s.nodes[y].(recv := Got(m, x)) && f'.s.nodes[x] == f.s.nodes[x]
    requires Link(f'.links, x, y) == Link(f.links, x, y)[1..] && f.s.net <= f'.s.net
    ensures LinkOk(f', x, y)
  {
    var link := Link(f.links, x, y);
    assert m in link;
    assert forall d :: d in link[1..] ==> d in link;
    TailOrder(link);
  }

  lemma TailOrder(link: seq<Msg>)
    requires LinkOrder(link) && link != []
    ensures LinkOrder(link[1..])
    ensures link[0].Carries() ==> forall d :: d in link[1..] && d.kind.Data? ==> link[0].clock < d.clock
  {
    forall d | d in link[1..] && d.kind.Data? && link[0].Carries() ensures link[0].clock < d.clock {
      var i :| 0 <= i < |link[1..]| && link[1..][i] == d;
      assert link[i + 1] == d;
    }
    assert forall i :: 0 <= i < |link[1..]| ==> link[1..][i] == link[i + 1];
  }

  /** The step changes nothing of what `n` has of `x`, and takes up no message of `x`. */
  predicate SameReach(n: Node, n': Node, x: nat) {
    && x < |n.d.clock| == |n'.d.clock|
    && n'.d.clock[x] == n.d.clock[x]
    && n'.d.held == n.d.held
    && (Busy(n'.recv, x) ==> Busy(n.recv, x) && n'.recv.m == n.recv.m)
  }

  lemma SameReachOk(f: Fifo, x: nat, y: nat, f': Fifo)
    requires x < |f.s.nodes| == |f'.s.nodes| && y < |f.s.nodes|
    requires LinkOk(f, x, y) && SameReach(f.s.nodes[y], f'.s.nodes[y], x)
    requires f'.s.nodes[x] == f.s.nodes[x]
    requires Link(f'.links, x, y) == Link(f.links, x, y) && f.s.net <= f'.s.net
    ensures LinkOk(f', x, y)
  {
  }

  lemma StepKeepsReach(n: Node, a: Action, x: nat)
    requires Enabled(n, a) && !a.RecvTake? && !a.RecvStore? && x < |n.d.clock| && x != n.d.pid
    ensures SameReach(n, Local(n, a), x)
  {
  }

  /** Storing message `w` of `x` moves the reach of `y` to it and what waited behind it, all of
      it older than anything that could still come as DATA. */
  lemma StoreReach(n: Node, x: nat, w: Msg, d: nat)
    requires x < |n.d.clock| && Beyond(n, x, d) && w.clock < d && w.clock == n.d.clock[x] + 1
    ensures n.d.Store(w, x).clock[x] < d
    ensures forall r :: r in n.d.Store(w, x).held ==> r in n.d.held
  {
    if w.kind.Retransmit? {
      DrainReach(n.d.held, x, n.d.clock[x] + 1, d);
      DrainMembers(n.d.held, x, n.d.clock[x] + 1);
    }
  }

  lemma DrainReach(held: seq<Received>, x: nat, delivered: nat, d: nat)
    requires delivered < d && forall r :: r in held && r.sender == x ==> r.msg.clock < d
    ensures delivered + |Drain(held, x, delivered).0| < d
  {
    var out := Drain(held, x, delivered).0;
    DrainIsMaximalRun(held, x, delivered);
    if |out| > 0 {
      assert out[|out| - 1] in held;
    }
  }

  lemma StoreDrains(n: Node, x: nat, w: Msg)
    requires x < |n.d.clock| && HeldOnce(n.d.held) && DrainedFor(n.d, x)
    requires w.clock == n.d.clock[x] + 1 && w.Carries()
    requires w.kind.Data? ==> Beyond(n, x, w.clock)
    ensures DrainedFor(n.d.Store(w, x), x)
  {
    if w.kind.Retransmit? {
      DrainEmptiesRun(n.d.held, x, n.d.clock[x] + 1);
    } else if w.kind.Data? {
      assert forall r :: r in n.d.held ==> r.sender != x;
    }
  }

  lemma StoreOtherSender(n: Node, x: nat, q: nat, w: Msg)
    requires x < |n.d.clock| && q < |n.d.clock| && x != q
    ensures n.d.Store(w, q).clock[x] == n.d.clock[x]
    ensures forall r :: r in n.d.Store(w, q).held ==> r in n.d.held
  {
    if w.kind.Retransmit? {
      DrainMembers(n.d.held, q, n.d.clock[q] + 1);
    }
  }

  lemma StoreOk(t: Topology, f: Fifo, y: nat, a: Action, f': Fifo, x: nat)
    requires FifoInv(t, f) && a.RecvStore? && FifoStep(f, y, a, f') && x < |t| && y < |t| && x != y
    ensures LinkOk(f', x, y)
  {
    assert LinkOk(f, x, y);
    assert NodeOk(t, f.s.nodes, y, f.s.nodes[y]);
    StoreSteps(t, f.s.nodes, y, f.s.nodes[y], x);
    StoreLinkOk(f, x, y, f');
  }

  /** After the store, `n` is ahead of nothing it was not ahead of before, and drained. */
  ghost predicate StoreFits(n: Node, n': Node, x: nat) {
    && x < |n'.d.clock|
    && DrainedFor(n'.d, x)
    && !Busy(n'.recv, x)
    && forall c :: Ahead(n, x, c) ==> Ahead(n', x, c)
  }

  lemma StoreLinkOk(f: Fifo, x: nat, y: nat, f': Fifo)
    requires x < |f.s.nodes| == |f'.s.nodes| && y < |f.s.nodes|
    requires LinkOk(f, x, y) && StoreFits(f.s.nodes[y], f'.s.nodes[y], x)
    requires f'.s.nodes[x] == f.s.nodes[x]
    requires Link(f'.links, x, y) == Link(f.links, x, y) && f.s.net <= f'.s.net
    ensures LinkOk(f', x, y)
  {
  }

  lemma StoreSteps(t: Topology, nodes: seq<Node>, y: nat, n: Node, x: nat)
    requires |nodes| == |t| && y < |t| && NodeOk(t, nodes, y, n) && Enabled(n, RecvStore)
    requires x < |t| && x != y && DrainedFor(n.d, x)
    requires Busy(n.recv, x) && n.recv.m.kind.Data? ==> Beyond(n, x, n.recv.m.clock)
    ensures StoreFits(n, Local(n, RecvStore), x)
  {
    var m, q := n.recv.m, n.recv.s;
    if n.recv.v == Deliver {
      if q == x {
        StoreDrains(n, x, m);
        forall c: nat | Ahead(n, x, c) ensures Ahead(Local(n, RecvStore), x, c) {
          StoreReach(n, x, m, c);
        }
      } else {
        StoreOtherSender(n, x, q, m);
      }
    } else {
      KeepFits(n, x);
    }
  }

  lemma KeepFits(n: Node, x: nat)
    requires Enabled(n, RecvStore) && n.recv.v == Hold && x < |n.d.clock| && DrainedFor(n.d, x)
    requires n.recv.m.Carries()
    requires n.recv.v == CheckCausality(n.d.clock[n.recv.s], n.recv.m.clock)
    ensures StoreFits(n, Local(n, RecvStore), x)
  {
    var n' := Local(n, RecvStore);
    assert forall r :: r in n'.d.held ==> r in n.d.held || r == Received(n.recv.m, n.recv.s);
  }

  lemma ReceiverMoves(t: Topology, f: Fifo, x: nat, y: nat, a: Action, f': Fifo)
    requires FifoInv(t, f) && FifoStep(f, y, a, f') && x < |t| && y < |t| && x != y
    ensures LinkOk(f', x, y)
  {
    if a.RecvTake? {
      assert LinkOk(f, x, y);
      TakeOk(f, y, a, f', x);
    } else if a.RecvStore? {
      StoreOk(t, f, y, a, f', x);
    } else {
      assert LinkOk(f, x, y);
      assert NodeOk(t, f.s.nodes, y, f.s.nodes[y]);
      EmitsOk(t, f.s.nodes, y, a);
      StepKeepsReach(f.s.nodes[y], a, x);
      OtherLinks(f, x, y, a, f');
      SameReachOk(f, x, y, f');
    }
  }

  /** What a node emits does not go onto a link that leads to it. */
  lemma OtherLinks(f: Fifo, x: nat, y: nat, a: Action, f': Fifo)
    requires FifoStep(f, y, a, f') && !a.RecvTake? && x != y
    ensures Link(f'.links, x, y) == Link(f.links, x, y)
  {
  }

  // ---- runs ----

  /** The exit in the DATA case of `handle_data_msg` is not reached. */
  lemma NoExit(t: Topology, f: Fifo, p: nat, a: Action)
    requires FifoInv(t, f) && p < |t| && Enabled(f.s.nodes[p], a)
    ensures !Local(f.s.nodes[p], a).halted
  {
    var n := f.s.nodes[p];
    assert NodeOk(t, f.s.nodes, p, n);
    if a.RecvCheck? {
      assert LinkOk(f, n.recv.s, p);
    }
  }

  lemma TodoStaysDistinct(t: Topology, n: Node, p: nat, a: Action)
    requires p < |t| && TopologyOk(t) && n.d.peers == t[p] && Enabled(n, a)
    requires n.send.Broadcasting? ==> Distinct(n.send.todo)
    ensures var n' := Local(n, a); n'.send.Broadcasting? ==> Distinct(n'.send.todo)
  {
    if a.SendBegin? {
      SelectDistinct(n.d.peers, IsMissing(n.d.dead));
    }
  }

  lemma FifoStepOk(t: Topology, f: Fifo, p: nat, a: Action, f': Fifo)
    requires FifoInv(t, f) && FifoStep(f, p, a, f')
    ensures FifoInv(t, f')
  {
    StepKeepsInv(t, f.s, p, a, f'.s);
    NoExit(t, f, p, a);
    assert NodeOk(t, f.s.nodes, p, f.s.nodes[p]);
    TodoStaysDistinct(t, f.s.nodes[p], p, a);
    forall x, y | 0 <= x < |t| && 0 <= y < |t| && x != y ensures LinkOk(f', x, y) {
      LinkStepOk(t, f, p, a, f', x, y);
    }
  }

  lemma LinkStepOk(t: Topology, f: Fifo, p: nat, a: Action, f': Fifo, x: nat, y: nat)
    requires FifoInv(t, f) && FifoStep(f, p, a, f') && x < |t| && y < |t| && x != y
    ensures LinkOk(f', x, y)
  {
    if x == p {
      SenderMoves(t, f, x, y, a, f');
    } else if y == p {
      ReceiverMoves(t, f, x, y, a, f');
    } else {
      assert LinkOk(f, x, y);
      OthersMove(f, x, y, p, a, f');
    }
  }

  lemma OthersMove(f: Fifo, x: nat, y: nat, p: nat, a: Action, f': Fifo)
    requires x < |f.s.nodes| && y < |f.s.nodes| && LinkOk(f, x, y)
    requires FifoStep(f, p, a, f') && x != p && y != p
    ensures LinkOk(f', x, y)
  {
    assert Link(f'.links, x, y) == Link(f.links, x, y);
    assert f'.s.nodes[x] == f.s.nodes[x] && f'.s.nodes[y] == f.s.nodes[y];
    SameReachOk(f, x, y, f');
  }

  lemma FifoNextOk(t: Topology, f: Fifo, f': Fifo)
    requires FifoInv(t, f) && FifoNext(f, f')
    ensures FifoInv(t, f')
  {
    if exists p, a :: FifoStep(f, p, a, f') {
      var p, a :| FifoStep(f, p, a, f');
      FifoStepOk(t, f, p, a, f');
    } else {
      var p, q, i :| Loses(f, p, q, i, f');
      LosesOk(t, f, p, q, i, f');
    }
  }

  lemma {:induction false} FifoRunOk(t: Topology, run: seq<Fifo>, i: nat)
    requires TopologyOk(t) && IsFifoRun(t, run) && i < |run|
    ensures FifoInv(t, run[i])
  {
    if i == 0 {
      FifoInitOk(t, run[0]);
    } else {
      FifoRunOk(t, run, i - 1);
      FifoNextOk(t, run[i - 1], run[i]);
    }
  }

  /** A run on FIFO links, with the losses left out, is a run of the cluster: everything
      `ClusterRuns` states holds here too. */
  lemma {:induction false} FifoRunIsRun(t: Topology, run: seq<Fifo>, i: nat) returns (plain: seq<State>)
    requires IsFifoRun(t, run) && i < |run|
    ensures IsRun(t, plain) && plain[|plain| - 1] == run[i].s
  {
    if i == 0 {
      return [run[0].s];
    }
    plain := FifoRunIsRun(t, run, i - 1);
    var f, f' := run[i - 1], run[i];
    assert FifoNext(f, f');
    if exists p, a :: FifoStep(f, p, a, f') {
      assert Next(f.s, f'.s);
      ExtendRun(t, plain, f'.s);
      plain := plain + [f'.s];
    }
  }

  /** On links that only lose, no node ever exits, and whatever a node holds of a sender still
      waits for a message before it. */
  lemma NoExitNoneStranded(t: Topology, run: seq<Fifo>, i: nat, p: nat, s: nat)
    requires TopologyOk(t) && IsFifoRun(t, run) && i < |run| && p < |t| && s in t[p]
    ensures |run[i].s.nodes| == |t| && s < |run[i].s.nodes[p].d.clock|
    ensures !run[i].s.nodes[p].halted
    ensures DrainedFor(run[i].s.nodes[p].d, s)
  {
    FifoRunOk(t, run, i);
    assert NodeOk(t, run[i].s.nodes, p, run[i].s.nodes[p]);
    assert LinkOk(run[i], s, p);
  }

  /** When a sender that has declared nobody dead has nothing unsent and nothing
      unacknowledged, each of its peers whose receive thread is idle has been given all of its
      messages, in order, and holds none. */
  lemma QuietSenderIsComplete(t: Topology, run: seq<Fifo>, i: nat, p: nat, q: nat)
    requires TopologyOk(t) && IsFifoRun(t, run) && i < |run|
    requires p < |t| && q in t[p] && q < |t| && p in t[q]
    requires |run[i].s.nodes| == |t|
    requires var n := run[i].s.nodes[p]; !n.declared && Unsent(n) == [] && n.d.sentBuf == []
    requires run[i].s.nodes[q].recv == RecvIdle
    ensures Payloads(Delivered(run[i].s.nodes[q], p)) == run[i].s.nodes[p].log
    ensures forall r :: r in run[i].s.nodes[q].d.held ==> r.sender != p
  {
    FifoRunOk(t, run, i);
    var nodes := run[i].s.nodes;
    var n, m := nodes[p], nodes[q];
    assert NodeOk(t, nodes, p, n) && NodeOk(t, nodes, q, m);
    assert LinkOk(run[i], p, q);
    assert InOrder(Delivered(m, p), n.log, m.d.clock[p]);
    AllReceived(t, nodes, p, q);
    NoGapLeft(m, p, |n.log|);
    assert forall r :: r in m.d.held ==> ArrivedOk(t, nodes, q, r.sender, r.msg);
    assert Payloads(Delivered(m, p)) == n.log;
  }

  lemma AllReceived(t: Topology, nodes: seq<Node>, p: nat, q: nat)
    requires |nodes| == |t| && p < |t| && q < |t| && q in t[p] && NodeOk(t, nodes, p, nodes[p])
    requires !nodes[p].declared && Unsent(nodes[p]) == [] && nodes[p].d.sentBuf == []
    ensures forall c: nat :: 1 <= c <= |nodes[p].log| ==> Has(nodes[q], p, c)
  {
    forall c: nat | 1 <= c <= |nodes[p].log| ensures Has(nodes[q], p, c) {
      assert c in nodes[p].retired;
      assert HasAt(nodes, q, p, c);
    }
  }

  /** Without a gap nothing can be waiting. */
  lemma NoGapLeft(n: Node, s: nat, k: nat)
    requires s < |n.d.clock| && n.d.clock[s] <= k && n.recv == RecvIdle
    requires forall c: nat :: 1 <= c <= k ==> Has(n, s, c)
    requires DrainedFor(n.d, s)
    ensures n.d.clock[s] == k
  {
    var next := n.d.clock[s] + 1;
    assert next <= k ==> Has(n, s, next);
  }
}
