/** The one step that delivers: storing an arrived message keeps every sender's messages in
    order, once each. */
module ClusterStore {
  import opened Messages
  import opened Sequences
  import opened Delivery
  import opened Contexts
  import opened Receiving
  import opened Cluster
  import opened ClusterInvariant
  import opened ClusterSteps

  lemma DrainMembers(held: seq<Received>, s: nat, delivered: nat)
    ensures forall r :: r in held <==> r in Drain(held, s, delivered).0 || r in Drain(held, s, delivered).1
  {
    DrainConserves(held, s, delivered);
    var (out, rest) := Drain(held, s, delivered);
    forall r ensures r in held <==> r in out || r in rest {
      assert r in held <==> r in multiset(out) + multiset(rest);
    }
  }

  /** What a node gives the application when it stores `m`: the message, then what waited. */
  function Out(n: Node, m: Msg, s: nat): seq<Received>
    requires s < |n.d.clock|
  {
    if m.kind.Retransmit? then Drain(n.d.held, s, n.d.clock[s] + 1).0 else []
  }

  lemma HeldIsGenuine(t: Topology, nodes: seq<Node>, p: nat, n: Node, s: nat, r: Received)
    requires |nodes| == |t| && p < |t| && s < |t| && HeldOk(t, nodes, p, n) && r in n.d.held && r.sender == s
    ensures Genuine(nodes[s].log, r.msg) && r.msg.clock <= nodes[s].buffered + 1
  {
    assert ArrivedOk(t, nodes, p, r.sender, r.msg);
  }

  lemma OutIsRun(t: Topology, nodes: seq<Node>, p: nat, n: Node, m: Msg, s: nat)
    requires |nodes| == |t| && p < |t| && s < |t| && |n.d.clock| == |t|
    requires HeldOk(t, nodes, p, n)
    ensures forall k :: 0 <= k < |Out(n, m, s)| ==>
              && Out(n, m, s)[k].sender == s
              && Out(n, m, s)[k].msg.clock == n.d.clock[s] + 2 + k
              && Genuine(nodes[s].log, Out(n, m, s)[k].msg)
              && Out(n, m, s)[k].msg.clock <= nodes[s].buffered + 1
  {
    var out := Out(n, m, s);
    forall k | 0 <= k < |out|
      ensures out[k].sender == s && out[k].msg.clock == n.d.clock[s] + 2 + k
      ensures Genuine(nodes[s].log, out[k].msg) && out[k].msg.clock <= nodes[s].buffered + 1
    {
      OutAt(n, m, s, k);
      HeldIsGenuine(t, nodes, p, n, s, out[k]);
    }
  }

  lemma OutAt(n: Node, m: Msg, s: nat, k: nat)
    requires s < |n.d.clock| && k < |Out(n, m, s)|
    ensures var r := Out(n, m, s)[k]; r in n.d.held && r.sender == s && r.msg.clock == n.d.clock[s] + 2 + k
  {
    var from := n.d.clock[s] + 1;
    DrainIsMaximalRun(n.d.held, s, from);
    assert Matches(Drain(n.d.held, s, from).0[k], s, from + 1 + k);
  }

  /** `out` continues what was delivered of `s` with genuine messages. */
  ghost predicate Continues(nodes: seq<Node>, s: nat, k: nat, out: seq<Received>) {
    && s < |nodes|
    && (forall x :: x in out ==> x.sender == s)
    && (forall i :: 0 <= i < |out| ==>
          && out[i].msg.clock == k + 1 + i
          && Genuine(nodes[s].log, out[i].msg)
          && out[i].msg.clock <= nodes[s].buffered + 1)
  }

  lemma StoreContinues(t: Topology, nodes: seq<Node>, p: nat, n: Node, m: Msg, s: nat)
    requires |nodes| == |t| && p < |t| && |n.d.clock| == |t|
    requires HeldOk(t, nodes, p, n) && ArrivedOk(t, nodes, p, s, m)
    requires m.clock == n.d.clock[s] + 1
    ensures Continues(nodes, s, n.d.clock[s], [Received(m, s)] + Out(n, m, s))
  {
    OutIsRun(t, nodes, p, n, m, s);
  }

  lemma DeliverDeliveredOk(t: Topology, nodes: seq<Node>, p: nat, n: Node, n': Node, s: nat, out: seq<Received>)
    requires |nodes| == |t| && p < |t| && |n.d.clock| == |t| && s < |t|
    requires DeliveredOk(t, nodes, p, n) && Continues(nodes, s, n.d.clock[s], out)
    requires n'.consumed + n'.d.deliveryQ == (n.consumed + n.d.deliveryQ) + out
    requires n'.d.clock == n.d.clock[s := n.d.clock[s] + |out|]
    ensures DeliveredOk(t, nodes, p, n')
  {
    forall q | q in t[p] && q < |t|
      ensures InOrder(Delivered(n', q), nodes[q].log, n'.d.clock[q])
      ensures n'.d.clock[q] <= nodes[q].buffered + 1
    {
      DeliveredGains(n, n', out, s, q);
      assert InOrder(Delivered(n, q), nodes[q].log, n.d.clock[q]);
      if q == s {
        RunGoesOn(Delivered(n, q), out, nodes[q].log, n.d.clock[q]);
        if |out| > 0 {
          assert out[|out| - 1].msg.clock <= nodes[s].buffered + 1;
        }
      }
    }
  }

  lemma DeliveredGains(n: Node, n': Node, out: seq<Received>, s: nat, q: nat)
    requires n'.consumed + n'.d.deliveryQ == (n.consumed + n.d.deliveryQ) + out
    requires forall x :: x in out ==> x.sender == s
    ensures Delivered(n', q) == if q == s then Delivered(n, q) + out else Delivered(n, q)
  {
    SelectConcat(n.consumed + n.d.deliveryQ, out, IsFrom(q));
    if q == s {
      SelectAll(out, IsFrom(q));
    } else {
      SelectNone(out, IsFrom(q));
    }
  }

  lemma RunGoesOn(rs: seq<Received>, out: seq<Received>, log: seq<Payload>, k: nat)
    requires InOrder(rs, log, k)
    requires forall i :: 0 <= i < |out| ==> out[i].msg.clock == k + 1 + i && Genuine(log, out[i].msg)
    ensures InOrder(rs + out, log, k + |out|)
  {
    if |out| > 0 {
      assert Genuine(log, out[|out| - 1].msg);
    }
    forall i | 0 <= i < k + |out|
      ensures (rs + out)[i].msg.clock == i + 1 && (rs + out)[i].msg.payload == log[i]
    {
      if i >= k {
        assert Genuine(log, out[i - k].msg);
      }
    }
  }

  lemma StoreKeepsHeld(t: Topology, nodes: seq<Node>, p: nat, n: Node, n': Node, m: Msg, s: nat)
    requires |nodes| == |t| && p < |t| && s < |n.d.clock|
    requires HeldOk(t, nodes, p, n) && n'.d == n.d.Store(m, s)
    ensures HeldOk(t, nodes, p, n')
  {
    if m.kind.Retransmit? {
      DrainKeepsOnce(n.d.held, s, n.d.clock[s] + 1);
      DrainMembers(n.d.held, s, n.d.clock[s] + 1);
    }
  }

  lemma StoreDelivers(t: Topology, nodes: seq<Node>, p: nat, n: Node, n': Node, m: Msg, s: nat)
    requires |nodes| == |t| && p < |t| && |n.d.clock| == |t|
    requires HeldOk(t, nodes, p, n) && DeliveredOk(t, nodes, p, n) && ArrivedOk(t, nodes, p, s, m)
    requires m.clock == n.d.clock[s] + 1
    requires n'.d == n.d.Store(m, s) && n'.consumed == n.consumed
    ensures DeliveredOk(t, nodes, p, n')
  {
    var out := [Received(m, s)] + Out(n, m, s);
    StoreContinues(t, nodes, p, n, m, s);
    assert n'.consumed + n'.d.deliveryQ == (n.consumed + n.d.deliveryQ) + out;
    DeliverDeliveredOk(t, nodes, p, n, n', s, out);
  }

  lemma DeliverKeeps(t: Topology, nodes: seq<Node>, p: nat, n: Node, a: Action)
    requires Before(t, nodes, p, n, a) && a.RecvStore? && n.recv.v == Deliver
    ensures After(t, nodes, p, n, a)
  {
    var n' := Local(n, a);
    StoreDelivers(t, nodes, p, n, n', n.recv.m, n.recv.s);
    StoreKeepsHeld(t, nodes, p, n, n', n.recv.m, n.recv.s);
    ReceiveSideMoves(t, nodes, p, n, n');
  }

  lemma HoldKeeps(t: Topology, nodes: seq<Node>, p: nat, n: Node, a: Action)
    requires Before(t, nodes, p, n, a) && a.RecvStore? && n.recv.v == Hold
    ensures After(t, nodes, p, n, a)
  {
    var n' := Local(n, a);
    if !IsHeld(n.d.held, n.recv.s, n.recv.m.clock) {
      AddKeepsOnce(n.d.held, Received(n.recv.m, n.recv.s));
    }
    assert HeldOk(t, nodes, p, n');
    ReceiveSideMoves(t, nodes, p, n, n');
  }

  // ---- receipts are never taken back ----

  lemma StoreKeepsReceipts(n: Node, a: Action)
    requires Enabled(n, a) && a.RecvStore?
    requires n.recv.v == CheckCausality(n.d.clock[n.recv.s], n.recv.m.clock) != Error
    ensures forall s, c :: Has(n, s, c) ==> Has(Local(n, a), s, c)
  {
    var n' := Local(n, a);
    forall s: nat, c: nat | Has(n, s, c) ensures Has(n', s, c) {
      if n.recv.v == Deliver {
        StoreKeepsHeldOrDelivers(n.d, n.recv.m, n.recv.s, s, c);
      } else {
        KeepKeepsHeld(n.d, n.recv.m, n.recv.s, s, c);
      }
    }
  }

  lemma StoreKeepsHeldOrDelivers(d: Context, m: Msg, q: nat, s: nat, c: nat)
    requires q < |d.clock| && s < |d.clock|
    ensures IsHeld(d.held, s, c) ==> IsHeld(d.Store(m, q).held, s, c) || c <= d.Store(m, q).clock[s]
  {
    if m.kind.Retransmit? && IsHeld(d.held, s, c) {
      DrainKeepsHeldOrDelivers(d.held, q, d.clock[q] + 1, s, c);
    }
  }

  lemma DrainKeepsHeldOrDelivers(held: seq<Received>, q: nat, delivered: nat, s: nat, c: nat)
    requires IsHeld(held, s, c)
    ensures var (out, rest) := Drain(held, q, delivered);
            IsHeld(rest, s, c) || (s == q && c <= delivered + |out|)
  {
    var r :| r in held && Matches(r, s, c);
    DrainMembers(held, q, delivered);
    DrainIsMaximalRun(held, q, delivered);
  }

  lemma KeepKeepsHeld(d: Context, m: Msg, q: nat, s: nat, c: nat)
    ensures IsHeld(d.held, s, c) ==> IsHeld(d.Keep(m, q).held, s, c)
    ensures s == q && c == m.clock ==> IsHeld(d.Keep(m, q).held, s, c)
  {
    var e := d.Keep(m, q);
    if IsHeld(d.held, s, c) {
      var r :| r in d.held && Matches(r, s, c);
      assert r in e.held;
    } else if s == q && c == m.clock {
      assert Received(m, s) in e.held && Matches(Received(m, s), s, c);
    }
  }

  /** No step of a node takes back a receipt, a logged payload or a buffered message. */
  lemma LocalGrows(t: Topology, nodes: seq<Node>, p: nat, n: Node, a: Action)
    requires |nodes| == |t| && p < |t| && NodeOk(t, nodes, p, n) && Enabled(n, a)
    ensures NodeGrows(n, Local(n, a))
  {
    if a.RecvStore? {
      StoreKeepsReceipts(n, a);
    } else {
      OthersKeepReceipts(n, a);
    }
  }

  lemma OthersKeepReceipts(n: Node, a: Action)
    requires Enabled(n, a) && !a.RecvStore?
    ensures NodeGrows(n, Local(n, a))
  {
    var n' := Local(n, a);
    assert n'.d.held == n.d.held;
    assert |n'.d.clock| == |n.d.clock| && forall s :: 0 <= s < |n.d.clock| ==> n.d.clock[s] <= n'.d.clock[s];
    assert n.recv.ToStore? ==> n'.recv == n.recv;
  }
}
