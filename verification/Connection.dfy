/** A call that nobody interrupts, as the class `Node` performs it, is a sequence of steps of
    the cluster. So every state the calls lead to is one the runs of `ClusterRuns` and
    `FifoLinks` speak about. */
module Connection {
  import opened Messages
  import opened Sequences
  import opened Delivery
  import opened Retention
  import opened Ageing
  import opened Contexts
  import opened Cluster

  /** Node `n` taking the steps `actions` by itself becomes `n'`. */
  ghost predicate Reaches(n: Node, actions: seq<Action>, n': Node)
    decreases |actions|
  {
    if actions == [] then n' == n
    else Enabled(n, actions[0]) && Reaches(Local(n, actions[0]), actions[1..], n')
  }

  /** Steps that neither take a datagram from the network nor give it one. */
  predicate Quiet(actions: seq<Action>) {
    forall a :: a in actions ==> !a.RecvTake? && (a.SendNext? || a.SendOne? ==> a.lost)
  }

  predicate Alone(actions: seq<Action>) {
    forall a :: a in actions ==> !a.RecvTake?
  }

  /** The datagrams node `p` gives to the network in the steps. */
  ghost function Emitted(p: nat, n: Node, actions: seq<Action>): set<Packet>
    decreases |actions|
  {
    if actions == [] || !Enabled(n, actions[0]) then {}
    else AsPackets(Emits(p, n, actions[0])) + Emitted(p, Local(n, actions[0]), actions[1..])
  }

  lemma {:induction false} QuietEmitsNothing(p: nat, n: Node, actions: seq<Action>)
    requires Quiet(actions)
    ensures Emitted(p, n, actions) == {}
    decreases |actions|
  {
    if actions != [] && Enabled(n, actions[0]) {
      assert actions[0] in actions;
      QuietEmitsNothing(p, Local(n, actions[0]), actions[1..]);
    }
  }

  lemma {:induction false} EmittedOn(p: nat, n: Node, first: seq<Action>, m: Node, then': seq<Action>)
    requires Reaches(n, first, m)
    ensures Emitted(p, n, first + then') == Emitted(p, n, first) + Emitted(p, m, then')
    decreases |first|
  {
    if first == [] {
      assert first + then' == then';
    } else {
      assert (first + then')[0] == first[0] && (first + then')[1..] == first[1..] + then';
      EmittedOn(p, Local(n, first[0]), first[1..], m, then');
    }
  }

  lemma {:induction false} ReachesOn(n: Node, first: seq<Action>, m: Node, then': seq<Action>, n': Node)
    requires Reaches(n, first, m) && Reaches(m, then', n')
    ensures Reaches(n, first + then', n')
    decreases |first|
  {
    if first == [] {
      assert first + then' == then';
    } else {
      ReachesOn(Local(n, first[0]), first[1..], m, then', n');
      assert (first + then')[0] == first[0] && (first + then')[1..] == first[1..] + then';
    }
  }

  lemma ReachesOne(n: Node, a: Action)
    requires Enabled(n, a)
    ensures Reaches(n, [a], Local(n, a))
  {
    assert [a][1..] == [];
  }

  lemma ReachesTwo(n: Node, a: Action, b: Action)
    requires Enabled(n, a) && Enabled(Local(n, a), b)
    ensures Reaches(n, [a, b], Local(Local(n, a), b))
  {
    ReachesOne(Local(n, a), b);
    assert [a, b][1..] == [b];
  }

  // ---- a datagram is handled ----

  /** What the steps leave of the node: a new context, the receive thread idle. */
  predicate Handled(n: Node, r: Option<Context>, n': Node) {
    && n' == n.(d := n'.d, recv := n'.recv, retired := n'.retired, halted := n'.halted)
    && match r
       case Some(d) => !n'.halted && n'.d == d && n'.recv == RecvIdle
       case None => n'.halted && n'.d == n.d
  }

  lemma AckIsSteps(n: Node, m: Msg, s: nat, v: Verdict)
    requires !n.halted && n.d.pid < |n.d.clock| && n.recv == Got(m, s)
    requires m.Carries() && v == n.d.Check(s, m.clock) && !(v == Error && m.kind.Data?) && m.clock != 65535
    ensures Reaches(n, [RecvCheck, RecvAck],
                    n.(d := n.d.Acknowledge(m, s), recv := if v == Error then RecvIdle else ToStore(m, s, v)))
  {
    ReachesTwo(n, RecvCheck, RecvAck);
  }

  lemma StoreIsSteps(n: Node, m: Msg, s: nat, v: Verdict) returns (actions: seq<Action>, n': Node)
    requires !n.halted && n.d.pid < |n.d.clock| && s < |n.d.clock| && n.recv == ToStore(m, s, v)
    ensures Quiet(actions) && Reaches(n, actions, n')
    ensures n' == n.(d := if v == Deliver then n.d.Store(m, s) else n.d.Keep(m, s).Request(s), recv := RecvIdle)
  {
    if v == Deliver {
      ReachesOne(n, RecvStore);
      return [RecvStore], Local(n, RecvStore);
    }
    ReachesTwo(n, RecvStore, RecvRequest);
    return [RecvStore, RecvRequest], Local(Local(n, RecvStore), RecvRequest);
  }

  lemma DataIsSteps(n: Node, m: Msg, s: nat) returns (actions: seq<Action>, n': Node)
    requires !n.halted && n.d.pid < |n.d.clock| && s < |n.d.clock| && n.recv == Got(m, s)
    requires m.Carries()
    ensures Quiet(actions) && Reaches(n, actions, n') && Handled(n, n.d.HandleData(m, s), n')
    ensures n'.retired == n.retired
  {
    var v := n.d.Check(s, m.clock);
    if v == Error && m.kind.Data? {
      ReachesOne(n, RecvCheck);
      return [RecvCheck], Local(n, RecvCheck);
    }
    if m.clock == 65535 {
      ReachesTwo(n, RecvCheck, RecvAck);
      return [RecvCheck, RecvAck], Local(Local(n, RecvCheck), RecvAck);
    }
    AckIsSteps(n, m, s, v);
    actions := [RecvCheck, RecvAck];
    n' := n.(d := n.d.Acknowledge(m, s), recv := if v == Error then RecvIdle else ToStore(m, s, v));
    if v != Error {
      var acked := n';
      var rest;
      rest, n' := StoreIsSteps(acked, m, s, v);
      ReachesOn(n, actions, acked, rest, n');
      actions := actions + rest;
    }
  }

  lemma RequestIsSteps(n: Node, m: Msg, s: nat) returns (actions: seq<Action>, n': Node)
    requires !n.halted && n.d.pid < |n.d.clock| && n.recv == Got(m, s) && m.kind.RetransmitReq?
    ensures Quiet(actions) && Reaches(n, actions, n') && Handled(n, Some(n.d.HandleRequest(m, s)), n')
    ensures n'.retired == n.retired
  {
    if n.d.Lookup(m.clock).None? {
      ReachesOne(n, RecvLookup);
      return [RecvLookup], Local(n, RecvLookup);
    }
    ReachesTwo(n, RecvLookup, RecvResend);
    return [RecvLookup, RecvResend], Local(Local(n, RecvLookup), RecvResend);
  }

  /** One datagram handled without interruption, by the dispatch of the receive thread. */
  lemma DispatchIsSteps(n: Node, m: Msg, s: nat) returns (actions: seq<Action>, n': Node)
    requires !n.halted && n.d.pid < |n.d.clock| && s < |n.d.clock| && n.recv == Got(m, s)
    ensures Quiet(actions) && Reaches(n, actions, n') && Handled(n, n.d.Dispatch(m, s), n')
    ensures n'.retired == n.retired + if m.kind.Ack? then Retires(n.d.sentBuf, m.clock, s) else {}
  {
    match m.kind
    case Data => actions, n' := DataIsSteps(n, m, s);
    case Retransmit => actions, n' := DataIsSteps(n, m, s);
    case Ack =>
      ReachesOne(n, RecvRegister);
      actions, n' := [RecvRegister], Local(n, RecvRegister);
    case RetransmitReq => actions, n' := RequestIsSteps(n, m, s);
  }

  // ---- an ageing round ----

  lemma {:induction false} RoundMembers(peers: seq<nat>, ms: seq<Sent>, o: Outgoing)
    requires o in RetransmitRound(peers, ms)
    ensures exists x, q :: x in ms && q in peers && o == Resend(x, q)
  {
    if ms != [] {
      var init, x := ms[..|ms| - 1], ms[|ms| - 1];
      assert ms == init + [x];
      UnackedMembers(peers, x);
      if o in RetransmitRound(peers, init) {
        RoundMembers(peers, init, o);
      } else {
        var to := RetransmitTo(x, Unacked(peers, x));
        var j :| 0 <= j < |to| && to[j] == o;
        assert o == Resend(x, Unacked(peers, x)[j]);
      }
    }
  }

  lemma ToResendIsBuffered(d: Context, x: Sent)
    requires d.Shaped() && x in d.ToResend()
    ensures exists y :: y in d.sentBuf && y.msg == x.msg
  {
    var young := Select(d.OldOnes(), IsYoung(d.Now()));
    var i :| 0 <= i < |d.ToResend()| && d.ToResend()[i] == x;
    assert young[i] in young && young[i].msg == x.msg;
    SelectMembers(d.OldOnes(), IsYoung(d.Now()), young[i]);
    SelectMembers(d.sentBuf, IsOld(d.Now()), young[i]);
  }

  lemma RoundMayResend(d: Context)
    requires d.Shaped()
    ensures MayResend(d, RetransmitRound(d.peers, d.ToResend()))
  {
    var todo := RetransmitRound(d.peers, d.ToResend());
    forall o | o in todo ensures exists x, q :: x in d.sentBuf && q in d.peers && o == Resend(x, q) {
      RoundMembers(d.peers, d.ToResend(), o);
      var x, q :| x in d.ToResend() && q in d.peers && o == Resend(x, q);
      ToResendIsBuffered(d, x);
      var y :| y in d.sentBuf && y.msg == x.msg;
      assert o == Resend(y, q);
    }
  }

  lemma GoneIsSound(d: Context)
    requires d.Shaped()
    ensures Distinct(d.Gone()) && AsSet(d.Gone()) <= AsSet(d.peers)
  {
    CollectMembers(d.peers, Select(d.OldOnes(), IsDead(d.Now())));
  }

  /** Queueing the retransmissions one by one. */
  lemma {:induction false} ResendsAreSteps(n: Node) returns (actions: seq<Action>, n': Node)
    requires !n.halted && n.d.pid < |n.d.clock| && n.app.AppResending?
    ensures Quiet(actions) && Reaches(n, actions, n')
    ensures n' == n.(d := n.d.(sendQ := n.d.sendQ + n.app.todo), app := AppIdle)
    decreases |n.app.todo|
  {
    if n.app.todo == [] {
      ReachesOne(n, AppDone);
      assert n.d.sendQ + [] == n.d.sendQ;
      return [AppDone], Local(n, AppDone);
    }
    var m := Local(n, AppResend);
    actions, n' := ResendsAreSteps(m);
    ReachesOne(n, AppResend);
    ReachesOn(n, [AppResend], m, actions, n');
    assert n.d.sendQ + n.app.todo == (n.d.sendQ + [n.app.todo[0]]) + n.app.todo[1..];
    actions := [AppResend] + actions;
  }

  /** The declaration comes between choosing the retransmissions and queueing them. */
  lemma DeclareIsSteps(n: Node, todo: seq<Outgoing>) returns (actions: seq<Action>, n': Node)
    requires !n.halted && n.app == AppAgeing && n.d.Shaped() && MayResend(n.d, todo)
    ensures Quiet(actions) && Reaches(n, actions, n')
    ensures n'.d == (if n.d.Gone() == [] then n.d else n.d.HandleDead(n.d.Gone()))
    ensures n' == n.(d := n'.d, app := AppResending(todo), purged := n'.purged, declared := n'.declared)
    ensures n.d.Gone() == [] ==> n'.purged == n.purged && n'.declared == n.declared
  {
    GoneIsSound(n.d);
    var found := Local(n, AppFind(todo));
    if n.d.Gone() == [] {
      ReachesOne(n, AppFind(todo));
      return [AppFind(todo)], found;
    }
    ReachesTwo(n, AppFind(todo), AppDeclare(n.d.Gone()));
    return [AppFind(todo), AppDeclare(n.d.Gone())], Local(found, AppDeclare(n.d.Gone()));
  }

  /** `handle_old_messages` run as one step. */
  lemma HandleOldIsSteps(n: Node) returns (actions: seq<Action>, n': Node)
    requires !n.halted && n.app == AppAgeing && n.d.Shaped()
    ensures Quiet(actions) && Reaches(n, actions, n')
    ensures n'.d == n.d.HandleOld()
    ensures n' == n.(d := n'.d, app := AppIdle, purged := n'.purged, declared := n'.declared)
    ensures n.d.sentBuf == [] || n.d.Gone() == [] ==> n'.purged == n.purged && n'.declared == n.declared
  {
    if n.d.sentBuf == [] || n.d.peers == [] || n.d.OldOnes() == [] {
      ReachesOne(n, AppDone);
      return [AppDone], Local(n, AppDone);
    }
    RoundMayResend(n.d);
    var first, m := DeclareIsSteps(n, RetransmitRound(n.d.peers, n.d.ToResend()));
    var rest;
    rest, n' := ResendsAreSteps(m);
    ReachesOn(n, first, m, rest, n');
    actions := first + rest;
  }

  lemma SendIsQueued(d: Context, payload: Payload)
    requires d.Shaped() && Kept(payload) != [] && d.peers != []
    ensures d.Queued(Kept(payload)).Shaped() && d.Send(payload) == Ok(d.Queued(Kept(payload)).HandleOld())
  {
  }

  lemma QueuedIsSteps(n: Node, payload: Payload) returns (m: Node)
    requires !n.halted && n.app == AppIdle && n.d.Shaped()
    requires Kept(payload) != [] && n.d.peers != [] && n.d.Now() < MAX_CLOCK
    ensures Reaches(n, [AppSend(payload), AppEnqueue], m)
    ensures m == n.(d := n.d.Queued(Kept(payload)), log := n.log + [Kept(payload)], app := AppAgeing)
  {
    ReachesTwo(n, AppSend(payload), AppEnqueue);
    m := Local(Local(n, AppSend(payload)), AppEnqueue);
  }

  /** What a call of `cbc_send` leaves: a refused payload changes nothing, and with an empty
      buffer nobody is declared dead. */
  predicate Returned(n: Node, payload: Payload, n': Node)
    requires n.d.Shaped()
  {
    match n.d.Send(payload)
    case Err(_) => n' == n
    case Ok(d) =>
      && n' == n.(d := d, log := n.log + [Kept(payload)], purged := n'.purged, declared := n'.declared)
      && (n.d.sentBuf == [] ==> n'.purged == n.purged && n'.declared == n.declared)
  }

  /** One call of `cbc_send`, for any payload. */
  lemma SendIsSteps(n: Node, payload: Payload) returns (actions: seq<Action>, n': Node)
    requires !n.halted && n.app == AppIdle && n.d.Shaped() && n.d.Now() < MAX_CLOCK
    ensures Quiet(actions) && Reaches(n, actions, n') && Returned(n, payload, n')
  {
    if n.d.Send(payload).Err? {
      return [], n;
    }
    SendIsQueued(n.d, payload);
    var m := QueuedIsSteps(n, payload);
    var rest;
    rest, n' := HandleOldIsSteps(m);
    ReachesOn(n, [AppSend(payload), AppEnqueue], m, rest, n');
    actions := [AppSend(payload), AppEnqueue] + rest;
  }

  // ---- a turn of the send thread ----

  /** The datagrams of one turn of the send thread, none of them lost. */
  function TurnPackets(p: nat, d: Context): set<Packet>
    requires d.sendQ != []
  {
    var o := d.sendQ[0];
    if o.msg.kind.Data? then set q | q in d.Targets() :: Packet(p, q, o.msg)
    else if o.dest.Some? then {Packet(p, o.dest.value, o.msg)} else {}
  }

  function PacketsTo(p: nat, m: Msg, todo: seq<nat>): set<Packet> { set q | q in todo :: Packet(p, q, m) }

  /** The node after one turn of its send thread. */
  function Turned(n: Node): Node
    requires n.d.sendQ != []
  {
    n.(d := n.d.SendTurn(), buffered := n.buffered + if n.d.sendQ[0].msg.kind.Data? then 1 else 0)
  }

  lemma {:induction false} BroadcastIsSteps(n: Node, p: nat) returns (actions: seq<Action>, n': Node)
    requires !n.halted && n.d.pid < |n.d.clock| && n.send.Broadcasting?
    ensures Alone(actions) && Reaches(n, actions, n') && n' == n.(send := n.send.(todo := []))
    ensures Emitted(p, n, actions) == PacketsTo(p, n.send.m, n.send.todo)
    decreases if n.send.Broadcasting? then |n.send.todo| else 0
  {
    var todo := n.send.todo;
    if todo == [] {
      return [], n;
    }
    var a := SendNext(false);
    var next := Local(n, a);
    actions, n' := BroadcastIsSteps(next, p);
    ReachesOne(n, a);
    ReachesOn(n, [a], next, actions, n');
    EmittedOn(p, n, [a], next, actions);
    EmittedOne(p, n, a);
    PacketsToOne(p, n.send.m, todo);
    actions := [a] + actions;
  }

  lemma PacketsToOne(p: nat, m: Msg, todo: seq<nat>)
    requires todo != []
    ensures PacketsTo(p, m, todo) == {Packet(p, todo[0], m)} + PacketsTo(p, m, todo[1..])
  {
    assert forall q :: q in todo <==> q == todo[0] || q in todo[1..];
  }

  lemma EmittedOne(p: nat, n: Node, a: Action)
    requires Enabled(n, a)
    ensures Emitted(p, n, [a]) == AsPackets(Emits(p, n, a))
  {
    assert [a][1..] == [];
  }

  lemma BufferIsStep(n: Node)
    requires !n.halted && n.d.pid < |n.d.clock| && n.send.Broadcasting? && n.send.todo == []
    ensures Reaches(n, [SendBuffer], Local(n, SendBuffer))
    ensures Local(n, SendBuffer) ==
            n.(d := n.d.(sentBuf := n.d.sentBuf + [Sent(n.send.m, n.send.target, {})]),
               buffered := n.buffered + 1, send := SendIdle)
  {
    ReachesOne(n, SendBuffer);
  }

  lemma TakeIsSteps(n: Node) returns (begun: Node)
    requires !n.halted && n.d.pid < |n.d.clock| && n.send == SendIdle && n.d.sendQ != []
    requires n.d.sendQ[0].msg.kind.Data?
    ensures Reaches(n, [SendTake, SendBegin], begun)
    ensures begun == n.(d := n.d.(sendQ := DelAt(n.d.sendQ, 0)),
                        send := Broadcasting(n.d.sendQ[0].msg, n.d.Targets(), AsSet(n.d.Targets())))
  {
    ReachesTwo(n, SendTake, SendBegin);
    begun := Local(Local(n, SendTake), SendBegin);
  }

  lemma OneIsSteps(n: Node, p: nat) returns (actions: seq<Action>)
    requires !n.halted && n.d.pid < |n.d.clock| && n.send == SendIdle && n.d.sendQ != []
    requires !n.d.sendQ[0].msg.kind.Data?
    ensures Alone(actions) && Reaches(n, actions, Turned(n)) && Emitted(p, n, actions) == TurnPackets(p, n.d)
  {
    var taken := Local(n, SendTake);
    actions := [SendTake, SendOne(false)];
    ReachesTwo(n, SendTake, SendOne(false));
    EmittedOne(p, taken, SendOne(false));
    assert actions[1..] == [SendOne(false)];
  }

  lemma DataTurnIsSteps(n: Node, p: nat) returns (actions: seq<Action>)
    requires !n.halted && n.d.pid < |n.d.clock| && n.send == SendIdle && n.d.sendQ != []
    requires n.d.sendQ[0].msg.kind.Data?
    ensures Alone(actions) && Reaches(n, actions, Turned(n)) && Emitted(p, n, actions) == TurnPackets(p, n.d)
  {
    var first, last := [SendTake, SendBegin], [SendBuffer];
    var begun := TakeIsSteps(n);
    var rest, sent := BroadcastIsSteps(begun, p);
    BufferIsStep(sent);
    assert Local(sent, SendBuffer) == Turned(n);
    ReachesOn(begun, rest, sent, last, Turned(n));
    ReachesOn(n, first, begun, rest + last, Turned(n));
    QuietEmitsNothing(p, n, first);
    QuietEmitsNothing(p, sent, last);
    EmittedOn(p, begun, rest, sent, last);
    EmittedOn(p, n, first, begun, rest + last);
    actions := first + (rest + last);
  }

  /** One turn of the send thread, with nothing in between, and what it sends. */
  lemma SendTurnIsSteps(n: Node, p: nat) returns (actions: seq<Action>, n': Node)
    requires !n.halted && n.d.pid < |n.d.clock| && n.send == SendIdle && n.d.sendQ != []
    ensures Alone(actions) && Reaches(n, actions, n') && n'.d == n.d.SendTurn() && n' == Turned(n)
    ensures Emitted(p, n, actions) == TurnPackets(p, n.d)
  {
    n' := Turned(n);
    if n.d.sendQ[0].msg.kind.Data? {
      actions := DataTurnIsSteps(n, p);
    } else {
      actions := OneIsSteps(n, p);
    }
  }

  // ---- in runs ----

  /** A run can go on with what one of its nodes does by itself. */
  lemma {:induction false} RunGoesOn(t: Topology, run: seq<State>, p: nat, actions: seq<Action>, n': Node)
      returns (run': seq<State>)
    requires IsRun(t, run) && p < |run[|run| - 1].nodes|
    requires Alone(actions) && Reaches(run[|run| - 1].nodes[p], actions, n')
    ensures run <= run' && IsRun(t, run')
    ensures var s := run[|run| - 1];
            run'[|run'| - 1] == State(s.nodes[p := n'], s.net + Emitted(p, s.nodes[p], actions))
    decreases |actions|
  {
    var s := run[|run| - 1];
    if actions == [] {
      assert s.nodes[p := n'] == s.nodes;
      return run;
    }
    var n, a := s.nodes[p], actions[0];
    var m, out := Local(n, a), AsPackets(Emits(p, n, a));
    assert a in actions;
    var s' := State(s.nodes[p := m], s.net + out);
    assert Step(s, p, a, s');
    ExtendRun(t, run, s');
    run' := RunGoesOn(t, run + [s'], p, actions[1..], n');
    UpdateTwice(s.nodes, p, m, n');
    assert (s.net + out) + Emitted(p, m, actions[1..]) == s.net + Emitted(p, n, actions);
    assert run <= run + [s'];
  }

  lemma ExtendRun(t: Topology, run: seq<State>, s': State)
    requires IsRun(t, run) && Next(run[|run| - 1], s')
    ensures IsRun(t, run + [s'])
  {
    var longer := run + [s'];
    forall i, j | 0 <= i && j == i + 1 && j < |longer| ensures Next(longer[i], longer[j]) {
      if j < |run| {
        assert Next(run[i], run[j]);
      }
    }
  }

  /** Every run can go on with a datagram that has left, taken by its receiver. */
  lemma TakeInRuns(t: Topology, run: seq<State>, k: Packet) returns (run': seq<State>)
    requires IsRun(t, run) && k in run[|run| - 1].net && k.dst < |run[|run| - 1].nodes|
    requires Enabled(run[|run| - 1].nodes[k.dst], RecvTake(k))
    ensures run <= run' && IsRun(t, run')
    ensures var s := run[|run| - 1];
            run'[|run'| - 1] == State(s.nodes[k.dst := s.nodes[k.dst].(recv := Got(k.msg, k.src))], s.net)
  {
    var s := run[|run| - 1];
    var s' := State(s.nodes[k.dst := Local(s.nodes[k.dst], RecvTake(k))], s.net);
    assert s.net + AsPackets(None) == s.net;
    assert Step(s, k.dst, RecvTake(k), s');
    ExtendRun(t, run, s');
    run' := run + [s'];
  }

  /** Every run can go on by handling, as one call, the datagram a receive thread has taken. */
  lemma DispatchInRuns(t: Topology, run: seq<State>, p: nat, m: Msg, s: nat) returns (run': seq<State>, n': Node)
    requires IsRun(t, run) && p < |run[|run| - 1].nodes|
    requires var n := run[|run| - 1].nodes[p];
             !n.halted && n.d.pid < |n.d.clock| && s < |n.d.clock| && n.recv == Got(m, s)
    ensures run <= run' && IsRun(t, run')
    ensures var b := run[|run| - 1]; run'[|run'| - 1] == State(b.nodes[p := n'], b.net)
    ensures var n := run[|run| - 1].nodes[p];
            && Handled(n, n.d.Dispatch(m, s), n')
            && n'.retired == n.retired + if m.kind.Ack? then Retires(n.d.sentBuf, m.clock, s) else {}
  {
    var actions;
    actions, n' := DispatchIsSteps(run[|run| - 1].nodes[p], m, s);
    QuietEmitsNothing(p, run[|run| - 1].nodes[p], actions);
    run' := RunGoesOn(t, run, p, actions, n');
  }

  /** Every run can go on with one whole call of `cbc_send` by an idle application. */
  lemma SendInRuns(t: Topology, run: seq<State>, p: nat, payload: Payload) returns (run': seq<State>, n': Node)
    requires IsRun(t, run) && p < |run[|run| - 1].nodes|
    requires var n := run[|run| - 1].nodes[p];
             !n.halted && n.app == AppIdle && n.d.Shaped() && n.d.Now() < MAX_CLOCK
    ensures run <= run' && IsRun(t, run')
    ensures var b := run[|run| - 1]; run'[|run'| - 1] == State(b.nodes[p := n'], b.net)
    ensures var n := run[|run| - 1].nodes[p]; n.d.Shaped() && Returned(n, payload, n')
  {
    var actions;
    actions, n' := SendIsSteps(run[|run| - 1].nodes[p], payload);
    QuietEmitsNothing(p, run[|run| - 1].nodes[p], actions);
    run' := RunGoesOn(t, run, p, actions, n');
  }

  /** Every run can go on with one call of `cbc_receive` by an idle application. */
  lemma ReceiveInRuns(t: Topology, run: seq<State>, p: nat) returns (run': seq<State>, n': Node)
    requires IsRun(t, run) && p < |run[|run| - 1].nodes|
    requires var n := run[|run| - 1].nodes[p]; !n.halted && n.app == AppIdle && n.d.pid < |n.d.clock|
    ensures run <= run' && IsRun(t, run')
    ensures var b := run[|run| - 1]; run'[|run'| - 1] == State(b.nodes[p := n'], b.net)
    ensures var n := run[|run| - 1].nodes[p];
            if n.d.deliveryQ == [] then n' == n
            else n' == n.(d := n.d.(deliveryQ := DelAt(n.d.deliveryQ, 0)), consumed := n.consumed + [n.d.deliveryQ[0]])
  {
    var s := run[|run| - 1];
    var n := s.nodes[p];
    if n.d.deliveryQ == [] {
      assert s.nodes[p := n] == s.nodes;
      return run, n;
    }
    n' := Local(n, AppReceive);
    ReachesOne(n, AppReceive);
    QuietEmitsNothing(p, n, [AppReceive]);
    run' := RunGoesOn(t, run, p, [AppReceive], n');
  }

  /** Every run can go on with one turn of an idle send thread, all of whose datagrams leave. */
  lemma SendTurnInRuns(t: Topology, run: seq<State>, p: nat) returns (run': seq<State>)
    requires IsRun(t, run) && p < |run[|run| - 1].nodes|
    requires var n := run[|run| - 1].nodes[p];
             !n.halted && n.d.pid < |n.d.clock| && n.send == SendIdle && n.d.sendQ != []
    ensures run <= run' && IsRun(t, run')
    ensures var b := run[|run| - 1];
            run'[|run'| - 1] == State(b.nodes[p := Turned(b.nodes[p])], b.net + TurnPackets(p, b.nodes[p].d))
  {
    var actions, n' := SendTurnIsSteps(run[|run| - 1].nodes[p], p);
    run' := RunGoesOn(t, run, p, actions, n');
  }
}
