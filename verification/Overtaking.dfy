/** What `FifoLinks.QuietSenderIsComplete` says of links that keep the order fails on links
    that do not: a run in which one message overtakes another and stays behind for good. */
module Overtaking {
  import opened Messages
  import opened Sequences
  import opened Delivery
  import opened Retention
  import opened Contexts
  import opened Cluster
  import opened ClusterInvariant
  import opened ClusterRuns
  import opened Connection

  const FIRST: Payload := [7]
  const SECOND: Payload := [8]

  function TwoNodes(): Topology { [[1], [0]] }

  function FirstMsg(): Msg { Msg(Data, 1, FIRST) }
  function SecondMsg(): Msg { Msg(Data, 2, SECOND) }

  function Sender(clock: nat, queue: seq<Outgoing>, buf: seq<Sent>, log: seq<Payload>, buffered: nat,
                  retired: set<nat>): Node
  {
    Node(Context(0, [1], {}, true, [clock, 0], queue, buf, [], []),
         AppIdle, SendIdle, RecvIdle, log, [], buffered, retired, {}, false, false)
  }

  function Receiver(clock: nat, queue: seq<Outgoing>, held: seq<Received>, delivered: seq<Received>): Node {
    Node(Context(1, [0], {}, true, [clock, 0], queue, [], held, delivered),
         AppIdle, SendIdle, RecvIdle, [], [], 0, {}, {}, false, false)
  }

  /** The run ends in the state. */
  ghost predicate EndsIn(run: seq<State>, s: Node, r: Node, net: set<Packet>) {
    IsRun(TwoNodes(), run) && run[|run| - 1] == State([s, r], net)
  }

  lemma Start() returns (run: seq<State>)
    ensures EndsIn(run, Sender(0, [], [], [], 0, {}), Receiver(0, [], [], []), {})
  {
    var t, zeros := TwoNodes(), seq(2, i => 0);
    assert zeros == [0, 0];
    assert FreshNode(t, 0) == Sender(0, [], [], [], 0, {});
    assert FreshNode(t, 1) == Receiver(0, [], [], []);
    run := [State([FreshNode(t, 0), FreshNode(t, 1)], {})];
  }

  /** The sender sends a payload; nothing is buffered yet, so the ageing round does nothing. */
  lemma Sends(run: seq<State>, c: nat, queue: seq<Outgoing>, log: seq<Payload>, r: Node, net: set<Packet>,
              payload: Payload)
      returns (run': seq<State>)
    requires EndsIn(run, Sender(c, queue, [], log, 0, {}), r, net) && c < 2 && Kept(payload) == payload != []
    ensures EndsIn(run',
                   Sender(c + 1, queue + [Outgoing(Msg(Data, c + 1, payload), None)], [], log + [payload], 0, {}),
                   r, net)
  {
    var n := Sender(c, queue, [], log, 0, {});
    var next := Sender(c + 1, queue + [Outgoing(Msg(Data, c + 1, payload), None)], [], log + [payload], 0, {});
    assert [c, 0][0 := c + 1] == [c + 1, 0];
    assert n.d.Queued(payload) == next.d;
    assert n.d.Send(payload) == Ok(next.d);
    var n';
    run', n' := SendInRuns(TwoNodes(), run, 0, payload);
    assert n' == next;
    assert [n, r][0 := n'] == [n', r];
  }

  function Buffered(m: Msg): Sent { Sent(m, {1}, {}) }

  /** One turn of the sender's send thread. */
  lemma Broadcasts(run: seq<State>, m: Msg, queue: seq<Outgoing>, buf: seq<Sent>, log: seq<Payload>, b: nat, r: Node,
                   net: set<Packet>)
      returns (run': seq<State>)
    requires EndsIn(run, Sender(2, [Outgoing(m, None)] + queue, buf, log, b, {}), r, net) && m.kind.Data?
    ensures EndsIn(run', Sender(2, queue, buf + [Buffered(m)], log, b + 1, {}), r, net + {Packet(0, 1, m)})
  {
    var n := Sender(2, [Outgoing(m, None)] + queue, buf, log, b, {});
    OneTarget(n.d, 1);
    assert DelAt(n.d.sendQ, 0) == queue;
    assert TurnPackets(0, n.d) == {Packet(0, 1, m)};
    assert Turned(n) == Sender(2, queue, buf + [Buffered(m)], log, b + 1, {});
    run' := SendTurnInRuns(TwoNodes(), run, 0);
    assert [n, r][0 := Turned(n)] == [Turned(n), r];
  }

  lemma OneTarget(d: Context, q: nat)
    requires d.peers == [q] && d.dead == {}
    ensures d.Targets() == [q] && AsSet(d.Targets()) == {q}
  {
    assert [q][..0] == [];
    assert Select([q][..0], IsMissing(d.dead)) == [];
    assert [] + [q] == [q];
  }

  /** The receiver takes a data message and handles it. */
  lemma Arrives(run: seq<State>, s: Node, r: Node, net: set<Packet>, m: Msg, d: Context) returns (run': seq<State>)
    requires EndsIn(run, s, r, net) && Packet(0, 1, m) in net
    requires !r.halted && r.recv == RecvIdle && r.d.pid == 1 && r.d.peers == [0] && |r.d.clock| == 2
    requires m.Carries() && r.d.HandleData(m, 0) == Some(d)
    ensures EndsIn(run', s, r.(d := d), net)
  {
    var took := r.(recv := Got(m, 0));
    var mid := TakeInRuns(TwoNodes(), run, Packet(0, 1, m));
    assert [s, r][1 := took] == [s, took];
    var n';
    run', n' := DispatchInRuns(TwoNodes(), mid, 1, m, 0);
    assert r.retired + {} == r.retired;
    assert n' == r.(d := d);
    assert [s, took][1 := n'] == [s, n'];
  }

  /** One turn of the receiver's send thread. */
  lemma Replies(run: seq<State>, s: Node, clock: nat, m: Msg, queue: seq<Outgoing>, held: seq<Received>,
                delivered: seq<Received>, net: set<Packet>) returns (run': seq<State>)
    requires EndsIn(run, s, Receiver(clock, [Outgoing(m, Some(0))] + queue, held, delivered), net) && !m.kind.Data?
    ensures EndsIn(run', s, Receiver(clock, queue, held, delivered), net + {Packet(1, 0, m)})
  {
    var n := Receiver(clock, [Outgoing(m, Some(0))] + queue, held, delivered);
    assert DelAt(n.d.sendQ, 0) == queue;
    assert Turned(n) == Receiver(clock, queue, held, delivered);
    run' := SendTurnInRuns(TwoNodes(), run, 1);
    assert [s, n][1 := Turned(n)] == [s, Turned(n)];
  }

  /** The acknowledgement of the only message with that clock retires it. */
  lemma Acknowledged(run: seq<State>, buf: seq<Sent>, m: Msg, i: nat, log: seq<Payload>, retired: set<nat>, r: Node,
                     net: set<Packet>)
      returns (run': seq<State>)
    requires EndsIn(run, Sender(2, [], buf, log, 2, retired), r, net) && Packet(1, 0, AckMsg(m.clock)) in net
    requires i < |buf| && buf[i] == Buffered(m) && forall j :: 0 <= j < i ==> buf[j].msg.clock != m.clock
    ensures EndsIn(run', Sender(2, [], DelAt(buf, i), log, 2, retired + {m.clock}), r, net)
  {
    var n, ack := Sender(2, [], buf, log, 2, retired), AckMsg(m.clock);
    var took := n.(recv := Got(ack, 1));
    var mid := TakeInRuns(TwoNodes(), run, Packet(1, 0, ack));
    assert [n, r][0 := took] == [took, r];
    var n';
    run', n' := DispatchInRuns(TwoNodes(), mid, 0, ack, 1);
    assert FirstSent(buf, m.clock) == i && {} + {1} == {1};
    assert [took, r][0 := n'] == [n', r];
  }

  /** Both messages are sent, and the datagrams leave. */
  lemma BothLeave() returns (run: seq<State>)
    ensures EndsIn(run, Sender(2, [], [Buffered(FirstMsg()), Buffered(SecondMsg())], [FIRST, SECOND], 2, {}),
                   Receiver(0, [], [], []), {Packet(0, 1, FirstMsg()), Packet(0, 1, SecondMsg())})
  {
    var one, two := Outgoing(FirstMsg(), None), Outgoing(SecondMsg(), None);
    var r, log := Receiver(0, [], [], []), [FIRST, SECOND];
    run := Start();
    run := Sends(run, 0, [], [], r, {}, FIRST);
    assert [] + [one] == [one] && [] + [FIRST] == [FIRST];
    run := Sends(run, 1, [one], [FIRST], r, {}, SECOND);
    assert [one] + [two] == [one, two] && [FIRST] + [SECOND] == log;
    run := Broadcasts(run, FirstMsg(), [two], [], log, 0, r, {});
    assert [] + [Buffered(FirstMsg())] == [Buffered(FirstMsg())] && [two] + [] == [two];
    run := Broadcasts(run, SecondMsg(), [], [Buffered(FirstMsg())], log, 1, r, {} + {Packet(0, 1, FirstMsg())});
    assert [Buffered(FirstMsg())] + [Buffered(SecondMsg())] == [Buffered(FirstMsg()), Buffered(SecondMsg())];
    assert {} + {Packet(0, 1, FirstMsg())} + {Packet(0, 1, SecondMsg())} ==
           {Packet(0, 1, FirstMsg()), Packet(0, 1, SecondMsg())};
  }

  function ToSender(m: Msg): Outgoing { Outgoing(m, Some(0)) }

  lemma SecondIsHeld()
    ensures Receiver(0, [], [], []).d.HandleData(SecondMsg(), 0) ==
            Some(Receiver(0, [ToSender(AckMsg(2)), ToSender(RequestMsg(1))], [Received(SecondMsg(), 0)], []).d)
  {
    var d := Receiver(0, [], [], []).d;
    assert !IsHeld([], 0, 2);
    assert [] + [ToSender(AckMsg(2))] + [ToSender(RequestMsg(1))] == [ToSender(AckMsg(2)), ToSender(RequestMsg(1))];
    assert [] + [Received(SecondMsg(), 0)] == [Received(SecondMsg(), 0)];
    assert d.Check(0, 2) == Hold;
  }

  lemma FirstIsDelivered()
    ensures var h := [Received(SecondMsg(), 0)];
            Receiver(0, [ToSender(AckMsg(2)), ToSender(RequestMsg(1))], h, []).d.HandleData(FirstMsg(), 0) ==
            Some(Receiver(1, [ToSender(AckMsg(2)), ToSender(RequestMsg(1)), ToSender(AckMsg(1))], h,
                          [Received(FirstMsg(), 0)]).d)
  {
    var h := [Received(SecondMsg(), 0)];
    var d := Receiver(0, [ToSender(AckMsg(2)), ToSender(RequestMsg(1))], h, []).d;
    assert d.Check(0, 1) == Deliver;
    assert [0, 0][0 := 1] == [1, 0];
    assert [ToSender(AckMsg(2)), ToSender(RequestMsg(1))] + [ToSender(AckMsg(1))] ==
           [ToSender(AckMsg(2)), ToSender(RequestMsg(1)), ToSender(AckMsg(1))];
    assert [] + [Received(FirstMsg(), 0)] + [] == [Received(FirstMsg(), 0)];
  }

  /** The second message arrives first. */
  lemma SecondOvertakes(run: seq<State>, s: Node, net: set<Packet>) returns (run': seq<State>)
    requires EndsIn(run, s, Receiver(0, [], [], []), net)
    requires Packet(0, 1, FirstMsg()) in net && Packet(0, 1, SecondMsg()) in net
    ensures EndsIn(run', s, Receiver(1, [ToSender(AckMsg(2)), ToSender(RequestMsg(1)), ToSender(AckMsg(1))],
                                     [Received(SecondMsg(), 0)], [Received(FirstMsg(), 0)]), net)
  {
    var r0 := Receiver(0, [], [], []);
    var r1 := Receiver(0, [ToSender(AckMsg(2)), ToSender(RequestMsg(1))], [Received(SecondMsg(), 0)], []);
    var r2 := Receiver(1, [ToSender(AckMsg(2)), ToSender(RequestMsg(1)), ToSender(AckMsg(1))],
                       [Received(SecondMsg(), 0)], [Received(FirstMsg(), 0)]);
    SecondIsHeld();
    run' := Arrives(run, s, r0, net, SecondMsg(), r1.d);
    assert r0.(d := r1.d) == r1;
    FirstIsDelivered();
    run' := Arrives(run', s, r1, net, FirstMsg(), r2.d);
    assert r1.(d := r2.d) == r2;
  }

  lemma AllReplied(run: seq<State>, s: Node, held: seq<Received>, delivered: seq<Received>, net: set<Packet>)
      returns (run': seq<State>, net': set<Packet>)
    requires EndsIn(run, s,
                    Receiver(1, [ToSender(AckMsg(2)), ToSender(RequestMsg(1)), ToSender(AckMsg(1))], held, delivered),
                    net)
    ensures EndsIn(run', s, Receiver(1, [], held, delivered), net')
    ensures Packet(1, 0, AckMsg(1)) in net' && Packet(1, 0, AckMsg(2)) in net'
  {
    var a2, q1, a1 := ToSender(AckMsg(2)), ToSender(RequestMsg(1)), ToSender(AckMsg(1));
    assert [a2, q1, a1] == [a2] + [q1, a1] && [q1, a1] == [q1] + [a1] && [a1] == [a1] + [];
    run' := Replies(run, s, 1, AckMsg(2), [q1, a1], held, delivered, net);
    net' := net + {Packet(1, 0, AckMsg(2))};
    run' := Replies(run', s, 1, RequestMsg(1), [a1], held, delivered, net');
    net' := net' + {Packet(1, 0, RequestMsg(1))};
    run' := Replies(run', s, 1, AckMsg(1), [], held, delivered, net');
    net' := net' + {Packet(1, 0, AckMsg(1))};
  }

  /** The sender has nothing unsent and nothing unacknowledged, both nodes are idle, and still
      the receiver holds, with a payload, the very message it waits for; asked for it, the
      sender would find nothing. */
  ghost predicate LeftBehind(s: Node, r: Node)
    requires |r.d.clock| == 2
  {
    var next := r.d.clock[0] + 1;
    && !s.declared && !s.halted && Unsent(s) == [] && s.d.sentBuf == [] && s.recv == RecvIdle && next <= |s.log|
    && !r.halted && r.recv == RecvIdle && r.send == SendIdle && r.d.sendQ == [] && r.app == AppIdle
    && IsHeld(r.d.held, 0, next) && (forall x :: x in r.d.held ==> x.msg.payload != [])
    && s.d.Lookup(next) == None && Spent(s, next)
  }

  lemma EndIsLeftBehind(retired: set<nat>)
    ensures LeftBehind(Sender(2, [], [], [FIRST, SECOND], 2, retired),
                       Receiver(1, [], [Received(SecondMsg(), 0)], [Received(FirstMsg(), 0)]))
  {
    var r := Receiver(1, [], [Received(SecondMsg(), 0)], [Received(FirstMsg(), 0)]);
    assert Matches(r.d.held[0], 0, 2) && r.d.held[0] in r.d.held;
  }

  lemma BothAcknowledged(run: seq<State>, r: Node, net: set<Packet>) returns (run': seq<State>)
    requires EndsIn(run, Sender(2, [], [Buffered(FirstMsg()), Buffered(SecondMsg())], [FIRST, SECOND], 2, {}), r, net)
    requires Packet(1, 0, AckMsg(1)) in net && Packet(1, 0, AckMsg(2)) in net
    ensures EndsIn(run', Sender(2, [], [], [FIRST, SECOND], 2, {} + {2} + {1}), r, net)
  {
    var b1, b2, log := Buffered(FirstMsg()), Buffered(SecondMsg()), [FIRST, SECOND];
    run' := Acknowledged(run, [b1, b2], SecondMsg(), 1, log, {}, r, net);
    assert DelAt([b1, b2], 1) == [b1];
    run' := Acknowledged(run', [b1], FirstMsg(), 0, log, {} + {2}, r, net);
    assert DelAt([b1], 0) == [];
  }

  lemma OvertakingRun() returns (run: seq<State>, net: set<Packet>)
    ensures EndsIn(run, Sender(2, [], [], [FIRST, SECOND], 2, {} + {2} + {1}),
                   Receiver(1, [], [Received(SecondMsg(), 0)], [Received(FirstMsg(), 0)]), net)
  {
    var h, d := [Received(SecondMsg(), 0)], [Received(FirstMsg(), 0)];
    var s := Sender(2, [], [Buffered(FirstMsg()), Buffered(SecondMsg())], [FIRST, SECOND], 2, {});
    net := {Packet(0, 1, FirstMsg()), Packet(0, 1, SecondMsg())};
    run := BothLeave();
    run := SecondOvertakes(run, s, net);
    run, net := AllReplied(run, s, h, d, net);
    run := BothAcknowledged(run, Receiver(1, [], h, d), net);
  }

  lemma TwoNodesOk()
    ensures TopologyOk(TwoNodes())
  {
  }

  /** On a network that lets one message overtake another, a run comes to such a state. */
  lemma OvertakenIsLeftBehind() returns (run: seq<State>)
    ensures TopologyOk(TwoNodes()) && IsRun(TwoNodes(), run)
    ensures var nodes := run[|run| - 1].nodes;
            |nodes| == 2 && |nodes[1].d.clock| == 2 && LeftBehind(nodes[0], nodes[1])
  {
    var net;
    run, net := OvertakingRun();
    TwoNodesOk();
    EndIsLeftBehind({} + {2} + {1});
  }

  // ---- and it stays behind ----

  predicate Copy(m: Msg, c: nat) { m.Carries() && m.clock == c }

  /** Message `c` has left the node's buffer, and no copy of it is on its way out. */
  ghost predicate Spent(n: Node, c: nat) {
    && n.d.pid < |n.d.clock| && 1 <= c <= n.d.clock[n.d.pid]
    && !InBuffer(n.d.sentBuf, c)
    && (forall o :: o in n.d.sendQ ==> !Copy(o.msg, c))
    && (n.send.SendHas? ==> !Copy(n.send.o.msg, c))
    && (n.send.Broadcasting? ==> n.send.m.clock != c)
    && (n.app.AppHas? ==> n.app.m.clock != c)
    && (n.app.AppResending? ==> forall o :: o in n.app.todo ==> !Copy(o.msg, c))
    && (n.recv.Found? ==> n.recv.m.clock != c)
  }

  lemma AppKeepsSpent(n: Node, a: Action, c: nat)
    requires Enabled(n, a) && Spent(n, c)
    requires a.AppSend? || a.AppEnqueue? || a.AppFind? || a.AppResend? || a.AppDone? || a.AppReceive?
    ensures Spent(Local(n, a), c)
  {
    var n' := Local(n, a);
    if a.AppFind? {
      forall o | o in a.todo ensures !Copy(o.msg, c) {
        var x, q :| x in n.d.sentBuf && q in n.d.peers && o == Resend(x, q);
        assert x.msg.clock != c;
      }
    }
  }

  lemma DeclareKeepsSpent(n: Node, a: Action, c: nat)
    requires Enabled(n, a) && Spent(n, c) && a.AppDeclare?
    ensures Spent(Local(n, a), c)
  {
    forall y | y in Purge(n.d.sentBuf, AsSet(a.gone)) ensures y.msg.clock != c {
      SelectMembers(MarkAll(n.d.sentBuf, AsSet(a.gone)), IsUnstable(), y);
      var i :| 0 <= i < |n.d.sentBuf| && MarkAll(n.d.sentBuf, AsSet(a.gone))[i] == y;
      assert n.d.sentBuf[i] in n.d.sentBuf;
    }
  }

  lemma SendKeepsSpent(n: Node, a: Action, c: nat)
    requires Enabled(n, a) && Spent(n, c)
    requires a.SendTake? || a.SendBegin? || a.SendNext? || a.SendBuffer? || a.SendOne?
    ensures Spent(Local(n, a), c)
  {
    if a.SendTake? {
      assert n.d.sendQ[0] in n.d.sendQ;
    }
  }

  lemma RegisterKeepsSpent(n: Node, a: Action, c: nat)
    requires Enabled(n, a) && Spent(n, c) && a.RecvRegister?
    ensures Spent(Local(n, a), c)
  {
    var buf, r := n.d.sentBuf, Local(n, a).d.sentBuf;
    var i := FirstSent(buf, n.recv.m.clock);
    forall y | y in r ensures y.msg.clock != c {
      var j :| 0 <= j < |r| && r[j] == y;
      assert y.msg == (if |r| == |buf| || j < i then buf[j] else buf[j + 1]).msg;
    }
  }

  lemma LookupKeepsSpent(n: Node, c: nat)
    requires Enabled(n, RecvLookup) && Spent(n, c)
    ensures Spent(Local(n, RecvLookup), c)
  {
    var i := FirstSent(n.d.sentBuf, n.recv.m.clock);
    assert i < |n.d.sentBuf| ==> n.d.sentBuf[i] in n.d.sentBuf;
  }

  lemma StoreKeepsSpent(n: Node, c: nat)
    requires Enabled(n, RecvStore) && Spent(n, c) && n.recv.s != n.d.pid
    ensures Spent(Local(n, RecvStore), c)
  {
    var d' := Local(n, RecvStore).d;
    assert d'.sentBuf == n.d.sentBuf && d'.sendQ == n.d.sendQ && d'.clock[n.d.pid] == n.d.clock[n.d.pid];
  }

  lemma RecvKeepsSpent(n: Node, a: Action, c: nat)
    requires Enabled(n, a) && Spent(n, c)
    requires a.RecvTake? || a.RecvCheck? || a.RecvAck? || a.RecvRequest? || a.RecvResend?
    ensures Spent(Local(n, a), c)
  {
  }

  lemma StepKeepsSpent(n: Node, a: Action, c: nat, p: nat)
    requires Enabled(n, a) && Spent(n, c) && (a.RecvStore? ==> n.recv.s != n.d.pid)
    ensures Spent(Local(n, a), c)
    ensures Emits(p, n, a).Some? ==> !Copy(Emits(p, n, a).value.msg, c)
  {
    match a
    case AppDeclare(_) => DeclareKeepsSpent(n, a, c);
    case RecvRegister => RegisterKeepsSpent(n, a, c);
    case RecvLookup => LookupKeepsSpent(n, c);
    case RecvStore => StoreKeepsSpent(n, c);
    case SendTake => SendKeepsSpent(n, a, c);
    case SendBegin => SendKeepsSpent(n, a, c);
    case SendNext(_) => SendKeepsSpent(n, a, c);
    case SendBuffer => SendKeepsSpent(n, a, c);
    case SendOne(_) => SendKeepsSpent(n, a, c);
    case AppSend(_) => AppKeepsSpent(n, a, c);
    case AppEnqueue => AppKeepsSpent(n, a, c);
    case AppFind(_) => AppKeepsSpent(n, a, c);
    case AppResend => AppKeepsSpent(n, a, c);
    case AppDone => AppKeepsSpent(n, a, c);
    case AppReceive => AppKeepsSpent(n, a, c);
    case _ => RecvKeepsSpent(n, a, c);
  }

  lemma SpentStep(t: Topology, b: State, x: nat, a: Action, e: State, p: nat, c: nat)
    requires TopologyOk(t) && Inv(t, b) && Step(b, x, a, e) && p < |t| && Spent(b.nodes[p], c)
    ensures |e.nodes| == |t| && Spent(e.nodes[p], c)
    ensures forall k :: k in e.net && k.src == p && Copy(k.msg, c) ==> k in b.net
  {
    EmitsFrom(x, b.nodes[x], a);
    if x == p {
      NotItself(t, b, p);
      StepKeepsSpent(b.nodes[p], a, c, p);
    }
  }

  lemma NotItself(t: Topology, b: State, p: nat)
    requires Inv(t, b) && p < |t|
    ensures b.nodes[p].recv.ToStore? ==> b.nodes[p].recv.s != b.nodes[p].d.pid
  {
    assert NodeOk(t, b.nodes, p, b.nodes[p]);
  }

  /** From one state to a later one, `c` stays spent at `p`, and no copy of it has left. */
  ghost predicate StaysSpent(b: State, e: State, p: nat, c: nat) {
    && p < |b.nodes| == |e.nodes|
    && (Spent(b.nodes[p], c) ==>
          && Spent(e.nodes[p], c)
          && forall k :: k in e.net && k.src == p && Copy(k.msg, c) ==> k in b.net)
  }

  lemma StaysSpentNext(t: Topology, b: State, e: State, p: nat, c: nat)
    requires TopologyOk(t) && Inv(t, b) && Next(b, e) && p < |t|
    ensures StaysSpent(b, e, p, c)
  {
    var x, a :| Step(b, x, a, e);
    if Spent(b.nodes[p], c) {
      SpentStep(t, b, x, a, e, p, c);
    }
  }

  /** The step that led to state `j` of a run. */
  lemma LastStep(t: Topology, run: seq<State>, j: nat) returns (b: State, e: State)
    requires TopologyOk(t) && IsRun(t, run) && 0 < j < |run|
    ensures b == run[j - 1] && e == run[j] && Inv(t, b) && Next(b, e)
  {
    RunKeepsInv(t, run, j - 1);
    b, e := run[j - 1], run[j];
  }

  lemma StaysSpentOn(a: State, b: State, e: State, p: nat, c: nat)
    requires StaysSpent(a, b, p, c) && StaysSpent(b, e, p, c)
    ensures StaysSpent(a, e, p, c)
  {
  }

  lemma SpentAt(t: Topology, run: seq<State>, j: nat, p: nat, c: nat)
    requires TopologyOk(t) && IsRun(t, run) && 0 < j < |run| && p < |t|
    ensures StaysSpent(run[j - 1], run[j], p, c)
  {
    var b, e := LastStep(t, run, j);
    StaysSpentNext(t, b, e, p, c);
  }

  /** A message that is spent is never sent again: whatever copies of it the network may still
      hand out have left before. */
  lemma {:induction false} NeverSentAgain(t: Topology, run: seq<State>, i: nat, j: nat, p: nat, c: nat)
    requires TopologyOk(t) && IsRun(t, run) && i <= j < |run| && p < |t|
    ensures StaysSpent(run[i], run[j], p, c)
    decreases j - i
  {
    if i == j {
      RunKeepsInv(t, run, i);
    } else {
      NeverSentAgain(t, run, i, j - 1, p, c);
      SpentAt(t, run, j, p, c);
      StaysSpentOn(run[i], run[j - 1], run[j], p, c);
    }
  }

  lemma EmitsFrom(p: nat, n: Node, a: Action)
    ensures Emits(p, n, a).Some? ==> Emits(p, n, a).value.src == p
  {
  }

  /** The receive thread is at work on a copy of message `c` of `s`. */
  predicate AtWork(r: RecvPc, s: nat, c: nat) {
    (r.Got? || r.ToAck? || r.ToStore?) && r.s == s && Copy(r.m, c)
  }

  lemma ClockStays(n: Node, a: Action, s: nat)
    requires Enabled(n, a) && s < |n.d.clock| && s != n.d.pid && !AtWork(n.recv, s, n.d.clock[s] + 1)
    requires n.recv.ToStore? ==>
               n.recv.s < |n.d.clock| && n.recv.m.Carries()
               && n.recv.v == CheckCausality(n.d.clock[n.recv.s], n.recv.m.clock)
    ensures s < |Local(n, a).d.clock| && Local(n, a).d.clock[s] == n.d.clock[s]
  {
  }

  lemma ClockStep(t: Topology, b: State, x: nat, a: Action, e: State, q: nat, s: nat)
    requires TopologyOk(t) && Inv(t, b) && Step(b, x, a, e) && q < |t| && s in t[q] && s < |t|
    requires s < |b.nodes[q].d.clock| && !AtWork(b.nodes[q].recv, s, b.nodes[q].d.clock[s] + 1)
    ensures |e.nodes| == |t| && s < |e.nodes[q].d.clock| && e.nodes[q].d.clock[s] == b.nodes[q].d.clock[s]
  {
    if x == q {
      assert NodeOk(t, b.nodes, q, b.nodes[q]);
      ClockStays(b.nodes[q], a, s);
    }
  }

  /** The clock for `s` moves only from a state in which the receive thread works on a copy of
      the very next message. */
  ghost predicate ClockHolds(b: State, e: State, q: nat, s: nat) {
    && q < |b.nodes| == |e.nodes| && s < |b.nodes[q].d.clock|
    && (!AtWork(b.nodes[q].recv, s, b.nodes[q].d.clock[s] + 1) ==>
          s < |e.nodes[q].d.clock| && e.nodes[q].d.clock[s] == b.nodes[q].d.clock[s])
  }

  lemma ClockNext(t: Topology, b: State, e: State, q: nat, s: nat)
    requires TopologyOk(t) && Inv(t, b) && Next(b, e) && q < |t| && s in t[q] && s < |t|
    ensures ClockHolds(b, e, q, s)
  {
    var x, a :| Step(b, x, a, e);
    assert NodeOk(t, b.nodes, q, b.nodes[q]);
    if !AtWork(b.nodes[q].recv, s, b.nodes[q].d.clock[s] + 1) {
      ClockStep(t, b, x, a, e, q, s);
    }
  }

  lemma ClockAt(t: Topology, run: seq<State>, j: nat, q: nat, s: nat)
    requires TopologyOk(t) && IsRun(t, run) && 0 < j < |run| && q < |t| && s in t[q] && s < |t|
    ensures ClockHolds(run[j - 1], run[j], q, s)
  {
    var b, e := LastStep(t, run, j);
    ClockNext(t, b, e, q, s);
  }

  /** Node `q` of the state, if it is there, is not at work on a copy of message `c` of `s`. */
  ghost predicate Idles(b: State, q: nat, s: nat, c: nat) {
    q < |b.nodes| && !AtWork(b.nodes[q].recv, s, c)
  }

  ghost predicate ClockIs(b: State, q: nat, s: nat, c: nat) {
    q < |b.nodes| && s < |b.nodes[q].d.clock| && b.nodes[q].d.clock[s] == c
  }

  lemma ClockGoesOn(b: State, e: State, q: nat, s: nat, c: nat)
    requires ClockIs(b, q, s, c) && Idles(b, q, s, c + 1) && ClockHolds(b, e, q, s)
    ensures ClockIs(e, q, s, c)
  {
  }

  /** A node's clock for a sender stays where it is until its receive thread works on a copy of
      the very next message, whatever else arrives. */
  lemma {:induction false} OnlyACopyHelps(t: Topology, run: seq<State>, i: nat, j: nat, q: nat, s: nat, c: nat)
    requires TopologyOk(t) && IsRun(t, run) && i <= j < |run| && q < |t| && s in t[q] && s < |t|
    requires ClockIs(run[i], q, s, c)
    requires forall k :: i <= k < j ==> Idles(run[k], q, s, c + 1)
    ensures ClockIs(run[j], q, s, c)
    decreases j - i
  {
    if i < j {
      OnlyACopyHelps(t, run, i, j - 1, q, s, c);
      ClockAt(t, run, j, q, s);
      ClockGoesOn(run[j - 1], run[j], q, s, c);
    }
  }
}
