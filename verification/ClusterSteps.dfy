/** Every step keeps the invariant, thread by thread. */
module ClusterSteps {
  import opened Messages
  import opened Sequences
  import opened Delivery
  import opened Retention
  import opened Ageing
  import opened Cluster
  import opened ClusterInvariant

  /** Step `a` of node `p`, whose value is `n` before it, among nodes that may already show
      what the step adds. */
  ghost predicate Before(t: Topology, nodes: seq<Node>, p: nat, n: Node, a: Action) {
    && |nodes| == |t| && p < |t| && TopologyOk(t)
    && NodeOk(t, nodes, p, n)
    && Enabled(n, a)
    && n.log <= nodes[p].log && n.buffered <= nodes[p].buffered
  }

  ghost predicate After(t: Topology, nodes: seq<Node>, p: nat, n: Node, a: Action)
    requires |nodes| == |t| && p < |t| && Enabled(n, a)
  {
    NodeOk(t, nodes, p, Local(n, a))
  }

  lemma {:induction false} DataInPush(q: seq<Outgoing>, o: Outgoing)
    ensures DataIn(q + [o]) == DataIn(q) + (if o.msg.kind.Data? then [o.msg] else [])
  {
    if q == [] {
      assert q + [o] == [o];
      assert DataIn([o][1..]) == [];
    } else {
      var longer, tail := q + [o], q[1..];
      DataInPush(tail, o);
      assert longer[0] == q[0] && longer[1..] == tail + [o];
      var head := if q[0].msg.kind.Data? then [q[0].msg] else [];
      Regroup(head, DataIn(tail), if o.msg.kind.Data? then [o.msg] else []);
    }
  }

  lemma DataInPop(q: seq<Outgoing>)
    requires q != []
    ensures DataIn(q) == (if q[0].msg.kind.Data? then [q[0].msg] else []) + DataIn(DelAt(q, 0))
  {
    assert DelAt(q, 0) == q[1..];
  }

  /** Queueing a message other than DATA that tells the truth. */
  lemma EnqueueKeeps(t: Topology, nodes: seq<Node>, p: nat, n: Node, o: Outgoing)
    requires |nodes| == |t| && p < |t| && NodeOk(t, nodes, p, n)
    requires !o.msg.kind.Data? && OutOk(t, nodes, p, o)
    ensures NodeOk(t, nodes, p, n.(d := n.d.Enqueue(o)))
  {
    var n' := n.(d := n.d.Enqueue(o));
    DataInPush(n.d.sendQ, o);
    assert Unsent(n') == Unsent(n);
    assert SendOk(n');
  }

  /** Moving only the receive thread. */
  lemma RecvMoves(t: Topology, nodes: seq<Node>, p: nat, n: Node, r: RecvPc)
    requires |nodes| == |t| && p < |t| && NodeOk(t, nodes, p, n)
    requires RecvOk(t, nodes, p, n.(recv := r))
    ensures NodeOk(t, nodes, p, n.(recv := r))
  {
    assert Unsent(n.(recv := r)) == Unsent(n);
    assert SendOk(n.(recv := r));
  }

  /** Only what belongs to receiving differs. */
  predicate SameSendSide(n: Node, n': Node) {
    && n' == n.(d := n.d.(clock := n'.d.clock, held := n'.d.held, deliveryQ := n'.d.deliveryQ), recv := n'.recv)
    && n.d.pid < |n.d.clock| == |n'.d.clock| && n'.d.clock[n.d.pid] == n.d.clock[n.d.pid]
  }

  lemma ReceiveSideMoves(t: Topology, nodes: seq<Node>, p: nat, n: Node, n': Node)
    requires |nodes| == |t| && p < |t| && NodeOk(t, nodes, p, n) && SameSendSide(n, n')
    requires RecvOk(t, nodes, p, n') && HeldOk(t, nodes, p, n') && DeliveredOk(t, nodes, p, n')
    ensures NodeOk(t, nodes, p, n')
  {
    assert Unsent(n') == Unsent(n);
    assert SendOk(n');
  }

  // ---- the application thread ----

  lemma AppSendKeeps(t: Topology, nodes: seq<Node>, p: nat, n: Node, a: Action)
    requires Before(t, nodes, p, n, a) && a.AppSend?
    ensures After(t, nodes, p, n, a)
  {
    var n' := Local(n, a);
    assert Unsent(n') == Unsent(n) + [n'.app.m];
  }

  lemma AppEnqueueKeeps(t: Topology, nodes: seq<Node>, p: nat, n: Node, a: Action)
    requires Before(t, nodes, p, n, a) && a.AppEnqueue?
    ensures After(t, nodes, p, n, a)
  {
    var n' := Local(n, a);
    assert Unsent(n)[|Unsent(n)| - 1] == n.app.m;
    DataInPush(n.d.sendQ, Outgoing(n.app.m, None));
    assert Unsent(n') == Unsent(n);
  }

  lemma AppFindKeeps(t: Topology, nodes: seq<Node>, p: nat, n: Node, a: Action)
    requires Before(t, nodes, p, n, a) && a.AppFind?
    ensures After(t, nodes, p, n, a)
  {
    BufferedMayBeResent(t, nodes, p, n, a.todo);
    AppMoves(t, nodes, p, n, AppResending(a.todo));
  }

  lemma BufferedMayBeResent(t: Topology, nodes: seq<Node>, p: nat, n: Node, todo: seq<Outgoing>)
    requires TopologyOk(t) && |nodes| == |t| && p < |t|
    requires SendOk(n) && n.d.peers == t[p] && MayResend(n.d, todo)
    requires n.log <= nodes[p].log && n.buffered <= nodes[p].buffered
    ensures forall o :: o in todo ==> o.msg.kind.Retransmit? && OutOk(t, nodes, p, o)
  {
    forall o | o in todo ensures o.msg.kind.Retransmit? && OutOk(t, nodes, p, o) {
      var x, q :| x in n.d.sentBuf && q in n.d.peers && o == Resend(x, q);
      assert Genuine(n.log, x.msg);
    }
  }

  lemma AppResendKeeps(t: Topology, nodes: seq<Node>, p: nat, n: Node, a: Action)
    requires Before(t, nodes, p, n, a) && a.AppResend?
    ensures After(t, nodes, p, n, a)
  {
    assert n.app.todo[0] in n.app.todo;
    EnqueueKeeps(t, nodes, p, n, n.app.todo[0]);
    AppMoves(t, nodes, p, n.(d := n.d.Enqueue(n.app.todo[0])), AppResending(n.app.todo[1..]));
  }

  /** Moving only the application thread, with no message in its hand. */
  lemma AppMoves(t: Topology, nodes: seq<Node>, p: nat, n: Node, app: AppPc)
    requires |nodes| == |t| && p < |t| && NodeOk(t, nodes, p, n)
    requires !n.app.AppHas? && !app.AppHas?
    requires QueueOk(t, nodes, p, n.(app := app))
    ensures NodeOk(t, nodes, p, n.(app := app))
  {
    assert Unsent(n.(app := app)) == Unsent(n);
    assert SendOk(n.(app := app));
  }

  lemma AppDoneKeeps(t: Topology, nodes: seq<Node>, p: nat, n: Node, a: Action)
    requires Before(t, nodes, p, n, a) && a.AppDone?
    ensures After(t, nodes, p, n, a)
  {
    AppMoves(t, nodes, p, n, AppIdle);
  }

  lemma AppReceiveKeeps(t: Topology, nodes: seq<Node>, p: nat, n: Node, a: Action)
    requires Before(t, nodes, p, n, a) && a.AppReceive?
    ensures After(t, nodes, p, n, a)
  {
    var n' := Local(n, a);
    assert Unsent(n') == Unsent(n);
    assert n'.consumed + n'.d.deliveryQ == n.consumed + n.d.deliveryQ;
  }

  lemma AppDeclareKeeps(t: Topology, nodes: seq<Node>, p: nat, n: Node, a: Action)
    requires Before(t, nodes, p, n, a) && a.AppDeclare?
    ensures After(t, nodes, p, n, a)
  {
    AppDeclareSendOk(n, a.gone);
  }

  lemma AppDeclareSendOk(n: Node, gone: seq<nat>)
    requires SendOk(n) && Enabled(n, AppDeclare(gone))
    ensures SendOk(Local(n, AppDeclare(gone)))
  {
    var n' := Local(n, AppDeclare(gone));
    assert Unsent(n') == Unsent(n);
    PurgedBuffer(n.d.sentBuf, AsSet(gone));
  }

  lemma PurgedBuffer(buf: seq<Sent>, gone: set<nat>)
    requires Increasing(buf)
    ensures Increasing(Purge(buf, gone))
    ensures forall y :: y in Purge(buf, gone) ==> exists x :: x in buf && y.msg == x.msg
    ensures forall c: nat :: InBuffer(Purge(buf, gone), c) <==> c in Clocks(Purge(buf, gone))
    ensures forall c: nat :: InBuffer(buf, c) <==> c in Clocks(buf)
    ensures forall c: nat :: InBuffer(Purge(buf, gone), c) ==> InBuffer(buf, c)
  {
    var marked := MarkAll(buf, gone);
    MarkKeepsOrder(buf, gone);
    SelectKeepsOrder(marked, IsUnstable());
    forall y | y in Purge(buf, gone) ensures exists x :: x in buf && y.msg == x.msg {
      SelectMembers(marked, IsUnstable(), y);
      var i :| 0 <= i < |marked| && marked[i] == y;
      assert buf[i] in buf;
    }
  }

  // ---- the send thread ----

  lemma SendTakeKeeps(t: Topology, nodes: seq<Node>, p: nat, n: Node, a: Action)
    requires Before(t, nodes, p, n, a) && a.SendTake?
    ensures After(t, nodes, p, n, a)
  {
    var n' := Local(n, a);
    DataInPop(n.d.sendQ);
    assert Unsent(n') == Unsent(n);
    assert n.d.sendQ[0] in n.d.sendQ;
  }

  lemma SendBeginKeeps(t: Topology, nodes: seq<Node>, p: nat, n: Node, a: Action)
    requires Before(t, nodes, p, n, a) && a.SendBegin?
    ensures After(t, nodes, p, n, a)
  {
    var n' := Local(n, a);
    BroadcastsToLiving(n);
    assert Unsent(n') == Unsent(n);
    assert SendOk(n');
  }

  lemma BroadcastsToLiving(n: Node)
    ensures forall q :: q in Alive(n.d) <==> q in n.d.peers && q !in n.d.dead
    ensures n.d.dead == {} ==> AsSet(Alive(n.d)) == AsSet(n.d.peers)
  {
    forall q ensures q in Alive(n.d) <==> q in n.d.peers && q !in n.d.dead {
      SelectMembers(n.d.peers, IsMissing(n.d.dead), q);
    }
  }

  lemma HandIsNext(n: Node)
    requires SendOk(n) && n.send.Broadcasting?
    ensures n.buffered < |n.log| && n.send.m == Msg(Data, n.buffered + 1, n.log[n.buffered])
    ensures Unsent(n)[0] == n.send.m
  {
    assert Unsent(n)[0] == n.send.m;
  }

  lemma SendNextKeeps(t: Topology, nodes: seq<Node>, p: nat, n: Node, a: Action)
    requires Before(t, nodes, p, n, a) && a.SendNext?
    ensures After(t, nodes, p, n, a)
  {
    var n' := Local(n, a);
    assert Unsent(n') == Unsent(n);
  }

  lemma SendBufferKeeps(t: Topology, nodes: seq<Node>, p: nat, n: Node, a: Action)
    requires Before(t, nodes, p, n, a) && a.SendBuffer?
    ensures After(t, nodes, p, n, a)
  {
    var n' := Local(n, a);
    HandIsNext(n);
    SendBufferSendOk(n, n');
    SendBufferTargetsOk(n, n');
    SendBufferAckedOk(t, nodes, p, n, n');
  }

  lemma SendBufferAckedOk(t: Topology, nodes: seq<Node>, p: nat, n: Node, n': Node)
    requires |nodes| == |t| && p < |t|
    requires AckedOk(t, nodes, p, n) && Enabled(n, SendBuffer) && n' == Local(n, SendBuffer)
    ensures AckedOk(t, nodes, p, n')
  {
  }

  lemma SendBufferTargetsOk(n: Node, n': Node)
    requires TargetsOk(n) && Enabled(n, SendBuffer) && n' == Local(n, SendBuffer)
    requires n.d.peers != []
    ensures TargetsOk(n')
  {
    assert n.d.peers[0] in AsSet(n.d.peers);
  }

  lemma SendBufferSendOk(n: Node, n': Node)
    requires SendOk(n) && Enabled(n, SendBuffer) && n' == Local(n, SendBuffer) && |n.log| <= MAX_CLOCK
    ensures SendOk(n')
  {
    HandIsNext(n);
    SendBufferUnsent(n, n');
    BufferGains(n, n', Sent(n.send.m, n.send.target, {}));
  }

  lemma SendBufferUnsent(n: Node, n': Node)
    requires LogFrom(n.log, n.buffered, Unsent(n))
    requires Enabled(n, SendBuffer) && n' == Local(n, SendBuffer)
    ensures |Unsent(n)| == 1 + |Unsent(n')|
    ensures LogFrom(n'.log, n'.buffered, Unsent(n'))
  {
    assert Unsent(n) == [n.send.m] + Unsent(n');
    forall k | 0 <= k < |Unsent(n')|
      ensures Unsent(n')[k] == Msg(Data, n'.buffered + 1 + k, n'.log[n'.buffered + k])
    {
      assert Unsent(n')[k] == Unsent(n)[k + 1];
    }
  }

  lemma BufferGains(n: Node, n': Node, x: Sent)
    requires SendOk(n) && n'.d.sentBuf == n.d.sentBuf + [x]
    requires x.msg.clock == n.buffered + 1 && n'.buffered == n.buffered + 1
    ensures Increasing(n'.d.sentBuf)
    ensures forall c: nat :: InBuffer(n'.d.sentBuf, c) <==> InBuffer(n.d.sentBuf, c) || c == n.buffered + 1
  {
    var buf, buf' := n.d.sentBuf, n'.d.sentBuf;
    assert forall i :: 0 <= i < |buf| ==> buf[i] in buf;
    assert buf'[|buf|] == x;
    forall c: nat ensures InBuffer(buf', c) <==> InBuffer(buf, c) || c == n.buffered + 1 {
      if InBuffer(buf, c) {
        var y :| y in buf && y.msg.clock == c;
        assert y in buf';
      }
    }
  }

  lemma SendOneKeeps(t: Topology, nodes: seq<Node>, p: nat, n: Node, a: Action)
    requires Before(t, nodes, p, n, a) && a.SendOne?
    ensures After(t, nodes, p, n, a)
  {
    var n' := Local(n, a);
    assert Unsent(n') == Unsent(n);
  }

  // ---- the receive thread ----

  lemma RecvTakeKeeps(t: Topology, nodes: seq<Node>, p: nat, n: Node, a: Action)
    requires Before(t, nodes, p, n, a) && a.RecvTake? && PacketOk(t, nodes, a.pkt)
    ensures After(t, nodes, p, n, a)
  {
    RecvMoves(t, nodes, p, n, Got(a.pkt.msg, a.pkt.src));
  }

  lemma RecvCheckKeeps(t: Topology, nodes: seq<Node>, p: nat, n: Node, a: Action)
    requires Before(t, nodes, p, n, a) && a.RecvCheck?
    ensures After(t, nodes, p, n, a)
  {
    var m, s := n.recv.m, n.recv.s;
    var v := n.d.Check(s, m.clock);
    if v == Error && m.kind.Data? {
      assert Unsent(Local(n, a)) == Unsent(n);
      assert SendOk(Local(n, a));
    } else {
      RecvMoves(t, nodes, p, n, ToAck(m, s, v));
    }
  }

  lemma RecvAckKeeps(t: Topology, nodes: seq<Node>, p: nat, n: Node, a: Action)
    requires Before(t, nodes, p, n, a) && a.RecvAck? && nodes[p] == Local(n, a)
    ensures After(t, nodes, p, n, a)
  {
    var m, s, v := n.recv.m, n.recv.s, n.recv.v;
    var o := Outgoing(AckMsg(m.clock), Some(s));
    assert m.clock != 65535;
    assert Has(nodes[p], s, m.clock);
    EnqueueKeeps(t, nodes, p, n, o);
    RecvMoves(t, nodes, p, n.(d := n.d.Enqueue(o)), if v == Error then RecvIdle else ToStore(m, s, v));
  }

  lemma RecvRequestKeeps(t: Topology, nodes: seq<Node>, p: nat, n: Node, a: Action)
    requires Before(t, nodes, p, n, a) && a.RecvRequest?
    ensures After(t, nodes, p, n, a)
  {
    var o := Outgoing(RequestMsg(n.d.clock[n.recv.s] + 1), Some(n.recv.s));
    EnqueueKeeps(t, nodes, p, n, o);
    RecvMoves(t, nodes, p, n.(d := n.d.Enqueue(o)), RecvIdle);
  }

  lemma RecvResendKeeps(t: Topology, nodes: seq<Node>, p: nat, n: Node, a: Action)
    requires Before(t, nodes, p, n, a) && a.RecvResend?
    ensures After(t, nodes, p, n, a)
  {
    var o := Outgoing(n.recv.m, Some(n.recv.s));
    EnqueueKeeps(t, nodes, p, n, o);
    RecvMoves(t, nodes, p, n.(d := n.d.Enqueue(o)), RecvIdle);
  }

  lemma RecvLookupKeeps(t: Topology, nodes: seq<Node>, p: nat, n: Node, a: Action)
    requires Before(t, nodes, p, n, a) && a.RecvLookup?
    ensures After(t, nodes, p, n, a)
  {
    LookupFindsGenuine(n, n.recv.m.clock);
    match n.d.Lookup(n.recv.m.clock)
    case None => RecvMoves(t, nodes, p, n, RecvIdle);
    case Some(m) => RecvMoves(t, nodes, p, n, Found(m, n.recv.s));
  }

  lemma LookupFindsGenuine(n: Node, c: nat)
    requires SendOk(n)
    ensures n.d.Lookup(c).Some? <==> InBuffer(n.d.sentBuf, c)
    ensures n.d.Lookup(c).Some? ==>
              var m := n.d.Lookup(c).value;
              m.kind.Retransmit? && m.clock == c <= n.buffered && Genuine(n.log, m)
  {
    var i := FirstSent(n.d.sentBuf, c);
    if i < |n.d.sentBuf| {
      assert n.d.sentBuf[i] in n.d.sentBuf;
    }
  }

  lemma RecvRegisterKeeps(t: Topology, nodes: seq<Node>, p: nat, n: Node, a: Action)
    requires Before(t, nodes, p, n, a) && a.RecvRegister?
    ensures After(t, nodes, p, n, a)
  {
    RegisterSendOk(n, a);
    RegisterTargetsOk(n, a);
    RegisterAckedOk(t, nodes, p, n, a);
  }

  /** What an acknowledgement makes of the buffer, member by member. */
  lemma RegisterIs(buf: seq<Sent>, c: nat, q: nat)
    requires Increasing(buf)
    ensures var i, r := FirstSent(buf, c), RegisterAck(buf, c, q);
            && Increasing(r)
            && (i == |buf| ==> r == buf)
            && (i < |buf| ==>
                  var x := buf[i].(acked := buf[i].acked + {q});
                  forall y :: y in r <==> (y == x && x.acked != x.target) || (y in buf && y.msg.clock != c))
  {
    var i := FirstSent(buf, c);
    if i < |buf| {
      RemoveOne(buf, i);
      ReplaceOne(buf, i, buf[i].(acked := buf[i].acked + {q}));
    }
  }

  /** Every buffered message was buffered before, with the same bitmap or the new bit. */
  lemma RegisterOrigin(buf: seq<Sent>, c: nat, q: nat, y: Sent) returns (x: Sent)
    requires Increasing(buf) && y in RegisterAck(buf, c, q)
    ensures x in buf && y.msg == x.msg && (y == x || (x.msg.clock == c && y.acked == x.acked + {q}))
  {
    RegisterIs(buf, c, q);
    x := y;
    var i := FirstSent(buf, c);
    if i < |buf| && y.msg.clock == c {
      x := buf[i];
    }
  }

  lemma RegisterMembers(buf: seq<Sent>, c: nat, q: nat)
    requires Increasing(buf)
    ensures Increasing(RegisterAck(buf, c, q))
    ensures forall y :: y in RegisterAck(buf, c, q) ==> exists x :: x in buf && y.msg == x.msg
  {
    RegisterIs(buf, c, q);
    forall y | y in RegisterAck(buf, c, q) ensures exists x :: x in buf && y.msg == x.msg {
      var x := RegisterOrigin(buf, c, q, y);
    }
  }

  lemma RegisterClocks(buf: seq<Sent>, c: nat, q: nat)
    requires Increasing(buf)
    ensures forall b: nat :: InBuffer(RegisterAck(buf, c, q), b) <==> InBuffer(buf, b) && b !in Retires(buf, c, q)
    ensures forall b :: b in Retires(buf, c, q) ==> InBuffer(buf, b)
  {
    forall b: nat ensures InBuffer(RegisterAck(buf, c, q), b) <==> InBuffer(buf, b) && b !in Retires(buf, c, q) {
      RegisterClock(buf, c, q, b);
    }
    var i := FirstSent(buf, c);
    if i < |buf| {
      assert buf[i] in buf;
    }
  }

  lemma RegisterClock(buf: seq<Sent>, c: nat, q: nat, b: nat)
    requires Increasing(buf)
    ensures InBuffer(RegisterAck(buf, c, q), b) <==> InBuffer(buf, b) && b !in Retires(buf, c, q)
  {
    RegisterIs(buf, c, q);
    var i, r := FirstSent(buf, c), RegisterAck(buf, c, q);
    if i < |buf| {
      var x := buf[i].(acked := buf[i].acked + {q});
      assert buf[i] in buf;
      if b == c {
        assert x in r <==> x.acked != x.target;
      } else if InBuffer(buf, b) {
        var y :| y in buf && y.msg.clock == b;
        assert y in r;
      }
    }
  }

  lemma RegisterSendOk(n: Node, a: Action)
    requires SendOk(n) && Enabled(n, a) && a.RecvRegister?
    ensures SendOk(Local(n, a))
  {
    assert Unsent(Local(n, a)) == Unsent(n);
    RegisterMembers(n.d.sentBuf, n.recv.m.clock, n.recv.s);
    RegisterClocks(n.d.sentBuf, n.recv.m.clock, n.recv.s);
  }

  lemma RegisterTargetsOk(n: Node, a: Action)
    requires SendOk(n) && TargetsOk(n) && Enabled(n, a) && a.RecvRegister? && n.recv.s in n.d.peers
    ensures TargetsOk(Local(n, a))
  {
    if !n.declared {
      AckRetiresOnLast(n.d.sentBuf, n.recv.m.clock, n.recv.s, AsSet(n.d.peers));
    }
  }

  lemma RegisterAckedOk(t: Topology, nodes: seq<Node>, p: nat, n: Node, a: Action)
    requires |nodes| == |t| && p < |t| && Enabled(n, a) && a.RecvRegister?
    requires SendOk(n) && TargetsOk(n) && AckedOk(t, nodes, p, n) && n.d.peers == t[p]
    requires HasAt(nodes, n.recv.s, p, n.recv.m.clock)
    ensures AckedOk(t, nodes, p, Local(n, a))
  {
    var buf, c, q := n.d.sentBuf, n.recv.m.clock, n.recv.s;
    if !n.declared {
      forall y, r: nat | y in RegisterAck(buf, c, q) && r in y.acked ensures HasAt(nodes, r, p, y.msg.clock) {
        var x := RegisterOrigin(buf, c, q, y);
      }
      forall r: nat | c in Retires(buf, c, q) && r in t[p] ensures HasAt(nodes, r, p, c) {
        var x := buf[FirstSent(buf, c)];
        assert x in buf && r in x.acked + {q};
      }
    }
  }
}
