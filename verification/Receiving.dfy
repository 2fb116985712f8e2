/** What one call of `handle_data_msg` does to the buffer of early arrivals. */
module Receiving {
  import opened Messages
  import opened Sequences
  import opened Delivery
  import opened Retention
  import opened Contexts

  /** No two held messages have the same sender and clock. */
  predicate HeldOnce(held: seq<Received>) {
    forall i, j :: 0 <= i < |held| && 0 <= j < |held| && Matches(held[i], held[j].sender, held[j].msg.clock) ==> i == j
  }

  /** No held message of `s` is ready: each waits for at least one missing message. */
  predicate DrainedFor(d: Context, s: nat)
    requires s < |d.clock|
  {
    forall r :: r in d.held && r.sender == s ==> r.msg.clock >= d.clock[s] + 2
  }

  /** The message fills a gap but does not drain what waited behind it: a DATA message is
      delivered although its successor is already held. */
  predicate LeavesReady(d: Context, m: Msg, s: nat)
    requires s < |d.clock|
  {
    m.kind.Data? && d.Check(s, m.clock) == Deliver && IsHeld(d.held, s, m.clock + 1)
  }

  lemma DelSwapMembers(held: seq<Received>, i: nat)
    requires i < |held| && HeldOnce(held)
    ensures HeldOnce(DelSwap(held, i))
    ensures forall r :: r in DelSwap(held, i) <==> r in held && r != held[i]
  {
    var less := DelSwap(held, i);
    forall r | r in held && r != held[i] ensures r in less {
      var j :| 0 <= j < |held| && held[j] == r;
      assert less[if j == |held| - 1 then i else j] == r;
    }
  }

  lemma {:induction false} DrainEmptiesRun(held: seq<Received>, s: nat, delivered: nat)
    requires HeldOnce(held)
    requires forall r :: r in held && r.sender == s ==> r.msg.clock >= delivered + 1
    ensures var (out, rest) := Drain(held, s, delivered);
            forall r :: r in rest && r.sender == s ==> r.msg.clock >= delivered + |out| + 2
    ensures HeldOnce(Drain(held, s, delivered).1)
    decreases |held|
  {
    var i := FirstHeld(held, s, delivered + 1);
    if i < |held| {
      DelSwapMembers(held, i);
      forall r | r in DelSwap(held, i) && r.sender == s ensures r.msg.clock >= delivered + 2 {
        var j :| 0 <= j < |held| && held[j] == r;
        assert Matches(held[i], held[j].sender, held[j].msg.clock) ==> i == j;
      }
      DrainEmptiesRun(DelSwap(held, i), s, delivered + 1);
    } else {
      assert forall r :: r in held ==> !Matches(r, s, delivered + 1);
    }
  }

  lemma {:induction false} DrainKeepsOnce(held: seq<Received>, s: nat, delivered: nat)
    requires HeldOnce(held)
    ensures HeldOnce(Drain(held, s, delivered).1)
    decreases |held|
  {
    var i := FirstHeld(held, s, delivered + 1);
    if i < |held| {
      DelSwapMembers(held, i);
      DrainKeepsOnce(DelSwap(held, i), s, delivered + 1);
    }
  }

  // ---- the exits and the replies ----

  /** When a data message ends the process: a DATA message that is not new, and any data message
      with clock 65535. */
  lemma ExitsIff(d: Context, m: Msg, s: nat)
    requires s < |d.clock| && m.Carries()
    ensures d.HandleData(m, s).None? <==> m.clock == 65535 || (m.kind.Data? && m.clock <= d.clock[s])
  {
  }

  /** The clocks a sender may use are those the receiver of the next message survives. */
  lemma UsableIff(d: Context, m: Msg, s: nat)
    requires s < |d.clock| && m.Carries() && m.clock == d.clock[s] + 1 <= 65535
    ensures d.HandleData(m, s).Some? <==> m.clock <= MAX_CLOCK
  {
  }

  /** A retransmission that is not new is acknowledged once more and changes nothing else. */
  lemma StaleIsAcknowledged(d: Context, m: Msg, s: nat)
    requires s < |d.clock| && m.kind.Retransmit? && m.clock <= d.clock[s] && m.clock != 65535
    ensures d.HandleData(m, s) == Some(d.(sendQ := d.sendQ + [Outgoing(Msg(Ack, m.clock, []), Some(s))]))
  {
  }

  /** What a data message that does not end the process makes the node send: one acknowledgement
      of its clock, and if it comes too early a request for the message after the last one
      delivered. The buffer of the node's own messages and its peers are not touched. */
  lemma RepliesAre(d: Context, m: Msg, s: nat)
    requires s < |d.clock| && d.clock[s] < 65535 && m.Carries() && d.HandleData(m, s).Some?
    ensures var e := d.HandleData(m, s).value;
            && e == d.(clock := e.clock, sendQ := e.sendQ, held := e.held, deliveryQ := e.deliveryQ)
            && e.sendQ == d.sendQ + [Outgoing(Msg(Ack, m.clock, []), Some(s))] +
                          (if m.clock > d.clock[s] + 1
                           then [Outgoing(Msg(RetransmitReq, d.clock[s] + 1, []), Some(s))] else [])
  {
    var acked := d.Acknowledge(m, s);
    if m.clock > d.clock[s] + 1 {
      assert (d.clock[s] + 1) % 65536 == d.clock[s] + 1;
    } else {
      assert acked.sendQ + [] == acked.sendQ;
    }
  }

  /** What becomes of the message: the next one is delivered, with what is held right behind it
      only if it is a retransmission; a later one is held; one that is not new is dropped. */
  lemma ArrivalIs(d: Context, m: Msg, s: nat)
    requires s < |d.clock| && m.Carries() && d.HandleData(m, s).Some?
    ensures var e := d.HandleData(m, s).value;
            if m.clock <= d.clock[s] then
              e.clock == d.clock && e.deliveryQ == d.deliveryQ && e.held == d.held
            else if m.clock == d.clock[s] + 1 then
              && d.deliveryQ + [Received(m, s)] <= e.deliveryQ
              && e.clock == d.clock[s := d.clock[s] + |e.deliveryQ| - |d.deliveryQ|]
              && (m.kind.Data? ==> e.deliveryQ == d.deliveryQ + [Received(m, s)] && e.held == d.held)
            else
              && e.clock == d.clock && e.deliveryQ == d.deliveryQ
              && e.held == d.held + if IsHeld(d.held, s, m.clock) then [] else [Received(m, s)]
  {
    if m.clock > d.clock[s] + 1 {
      assert d.held + [] == d.held;
    } else if m.clock == d.clock[s] + 1 {
      var e := d.Store(m, s);
      var all := d.deliveryQ + [Received(m, s)];
      assert all + [] == all;
      assert e.deliveryQ[..|all|] == all;
    }
  }

  /** A request is answered exactly if the message is buffered: with one retransmission of it, to
      whoever asked; nothing else changes. */
  lemma RequestIsAnswered(d: Context, c: nat, q: nat)
    ensures (forall x :: x in d.sentBuf ==> x.msg.clock != c) ==> d.HandleRequest(RequestMsg(c), q) == d
    ensures Increasing(d.sentBuf) ==>
              forall x :: x in d.sentBuf && x.msg.clock == c ==>
                d.HandleRequest(RequestMsg(c), q) ==
                d.(sendQ := d.sendQ + [Outgoing(Msg(Retransmit, c, x.msg.payload), Some(q))])
  {
    var i := FirstSent(d.sentBuf, c);
    if i < |d.sentBuf| {
      assert d.sentBuf[i] in d.sentBuf;
      if Increasing(d.sentBuf) {
        OnlyOneWith(d.sentBuf, i);
      }
    } else {
      assert forall j :: 0 <= j < |d.sentBuf| ==> d.sentBuf[j].msg.clock != c;
    }
  }

  /** The buffer never holds a message twice. */
  lemma HandleDataHoldsOnce(d: Context, m: Msg, s: nat)
    requires s < |d.clock| && HeldOnce(d.held) && d.HandleData(m, s).Some?
    ensures HeldOnce(d.HandleData(m, s).value.held)
  {
    if d.Check(s, m.clock) == Deliver && m.kind.Retransmit? {
      DrainKeepsOnce(d.held, s, d.clock[s] + 1);
    }
    if !IsHeld(d.held, s, m.clock) {
      AddKeepsOnce(d.held, Received(m, s));
    }
  }

  lemma AddKeepsOnce(held: seq<Received>, r: Received)
    requires HeldOnce(held) && !IsHeld(held, r.sender, r.msg.clock)
    ensures HeldOnce(held + [r])
  {
    assert forall i :: 0 <= i < |held| ==> held[i] in held && !Matches(held[i], r.sender, r.msg.clock);
  }

  /** Messages of the sender stay undrained after a call exactly if the call is the one case
      the code leaves out: only a retransmission looks at the held buffer. */
  lemma DrainedUnlessLeft(d: Context, m: Msg, s: nat)
    requires s < |d.clock| && HeldOnce(d.held) && DrainedFor(d, s)
    requires m.Carries() && d.HandleData(m, s).Some?
    ensures DrainedFor(d.HandleData(m, s).value, s) <==> !LeavesReady(d, m, s)
  {
    match d.Check(s, m.clock)
    case Error =>
    case Deliver => StoreDrainsUnless(d.Acknowledge(m, s), m, s);
    case Hold => KeepDrained(d.Acknowledge(m, s), m, s);
  }

  lemma StoreDrainsUnless(d: Context, m: Msg, s: nat)
    requires s < |d.clock| && HeldOnce(d.held) && DrainedFor(d, s) && m.Carries() && m.clock == d.clock[s] + 1
    ensures DrainedFor(d.Store(m, s), s) <==> !(m.kind.Data? && IsHeld(d.held, s, m.clock + 1))
  {
    if m.kind.Retransmit? {
      DrainEmptiesRun(d.held, s, d.clock[s] + 1);
    } else if IsHeld(d.held, s, m.clock + 1) {
      var r :| r in d.held && Matches(r, s, m.clock + 1);
      assert r in d.Store(m, s).held;
    }
  }

  lemma KeepDrained(d: Context, m: Msg, s: nat)
    requires s < |d.clock| && DrainedFor(d, s) && d.clock[s] + 1 < m.clock
    ensures DrainedFor(d.Keep(m, s).Request(s), s)
  {
    assert forall r :: r in d.Keep(m, s).held ==> r in d.held || r == Received(m, s);
  }

  /** Messages of the other senders and their clocks are not touched. */
  lemma OtherSendersUntouched(d: Context, m: Msg, s: nat, r: Received)
    requires s < |d.clock| && d.HandleData(m, s).Some? && r.sender != s
    ensures multiset(d.HandleData(m, s).value.held)[r] == multiset(d.held)[r]
    ensures multiset(d.HandleData(m, s).value.deliveryQ)[r] == multiset(d.deliveryQ)[r]
    ensures forall t :: 0 <= t < |d.clock| && t != s ==> d.HandleData(m, s).value.clock[t] == d.clock[t]
  {
    if d.Check(s, m.clock) == Deliver {
      StoreLeavesOthers(d, m, s, r);
    }
  }

  lemma StoreLeavesOthers(d: Context, m: Msg, s: nat, r: Received)
    requires s < |d.clock| && r.sender != s
    ensures multiset(d.Store(m, s).held)[r] == multiset(d.held)[r]
    ensures multiset(d.Store(m, s).deliveryQ)[r] == multiset(d.deliveryQ)[r]
  {
    var out, rest := StoreIs(d, m, s);
    DrainedLeavesOthers(d, m, s, r, out, rest);
    AddsOnlyFrom(d.deliveryQ, Received(m, s), out, r);
  }

  lemma DrainedLeavesOthers(d: Context, m: Msg, s: nat, r: Received, out: seq<Received>, rest: seq<Received>)
    requires s < |d.clock| && r.sender != s && (out, rest) == Drained(d, m, s)
    ensures multiset(rest)[r] == multiset(d.held)[r] && forall x :: x in out ==> x.sender == s
  {
    if m.kind.Retransmit? {
      DrainLeavesOthers(d.held, s, d.clock[s] + 1, r);
      DrainSenders(d.held, s, d.clock[s] + 1, out);
    }
  }

  lemma DrainSenders(held: seq<Received>, s: nat, delivered: nat, out: seq<Received>)
    requires out == Drain(held, s, delivered).0
    ensures forall x :: x in out ==> x.sender == s
  {
    DrainIsMaximalRun(held, s, delivered);
  }

  lemma AddsOnlyFrom(q: seq<Received>, first: Received, out: seq<Received>, r: Received)
    requires r.sender != first.sender && forall x :: x in out ==> x.sender == first.sender
    ensures multiset(q + [first] + out)[r] == multiset(q)[r]
  {
    assert r !in [first] && r !in out;
  }

  /** Nothing is lost between the two buffers: what a call adds to them together is the
      arriving message, or nothing if it was there before. */
  lemma BuffersConserve(d: Context, m: Msg, s: nat)
    requires s < |d.clock| && d.HandleData(m, s).Some?
    ensures var e := d.HandleData(m, s).value;
            multiset(e.deliveryQ) + multiset(e.held) ==
              multiset(d.deliveryQ) + multiset(d.held) +
              (if d.Check(s, m.clock) == Error || (d.Check(s, m.clock) == Hold && IsHeld(d.held, s, m.clock))
               then multiset{} else multiset{Received(m, s)})
  {
    if d.Check(s, m.clock) == Deliver {
      StoreConserves(d, m, s);
    }
  }

  lemma StoreConserves(d: Context, m: Msg, s: nat)
    requires s < |d.clock|
    ensures var e := d.Store(m, s);
            multiset(e.deliveryQ) + multiset(e.held) ==
              multiset(d.deliveryQ) + multiset(d.held) + multiset{Received(m, s)}
  {
    var out, rest := StoreIs(d, m, s);
    HeldSplits(d, m, s, out, rest);
    MoveConserves(d.deliveryQ, Received(m, s), out, rest, d.held);
  }

  function Drained(d: Context, m: Msg, s: nat): (seq<Received>, seq<Received>)
    requires s < |d.clock|
  {
    if m.kind.Retransmit? then Drain(d.held, s, d.clock[s] + 1) else ([], d.held)
  }

  /** A store delivers the message and then `out`, and keeps `rest`. */
  lemma StoreIs(d: Context, m: Msg, s: nat) returns (out: seq<Received>, rest: seq<Received>)
    requires s < |d.clock|
    ensures (out, rest) == Drained(d, m, s)
    ensures d.Store(m, s).deliveryQ == d.deliveryQ + [Received(m, s)] + out && d.Store(m, s).held == rest
  {
    out, rest := Drained(d, m, s).0, Drained(d, m, s).1;
  }

  lemma HeldSplits(d: Context, m: Msg, s: nat, out: seq<Received>, rest: seq<Received>)
    requires s < |d.clock| && (out, rest) == Drained(d, m, s)
    ensures multiset(out) + multiset(rest) == multiset(d.held)
  {
    if m.kind.Retransmit? {
      var from := d.clock[s] + 1;
      DrainConserves(d.held, s, from);
      assert out == Drain(d.held, s, from).0 && rest == Drain(d.held, s, from).1;
    } else {
      assert multiset(out) == multiset{} && rest == d.held;
    }
  }

  lemma MoveConserves<T>(q: seq<T>, x: T, out: seq<T>, rest: seq<T>, held: seq<T>)
    requires multiset(out) + multiset(rest) == multiset(held)
    ensures multiset(q + [x] + out) + multiset(rest) == multiset(q) + multiset(held) + multiset{x}
  {
    assert multiset(q + [x] + out) == multiset(q) + multiset{x} + multiset(out);
  }

  /** The case left out does happen when messages overtake each other: clock 3 is held, clock
      2 arrives late as DATA, and 3 stays behind although everything before it is delivered.
      It has been acknowledged, so its sender need not keep it. */
  lemma ReorderingStrands()
    ensures exists d: Context, m: Msg, s: nat ::
      && s < |d.clock| && HeldOnce(d.held) && DrainedFor(d, s) && m.kind.Data?
      && m.payload != [] && (forall r :: r in d.held ==> r.msg.payload != [])
      && d.HandleData(m, s).Some?
      && var e := d.HandleData(m, s).value;
         IsHeld(e.held, s, e.clock[s] + 1) && e.sendQ == d.sendQ + [Outgoing(AckMsg(m.clock), Some(s))]
  {
    var early := Received(Msg(Data, 3, [7]), 1);
    var d := Context(0, [1], {}, true, [0, 1], [], [], [early], []);
    var m := Msg(Data, 2, [7]);
    var e := d.HandleData(m, 1).value;
    assert early in e.held && Matches(early, 1, e.clock[1] + 1);
  }
}
