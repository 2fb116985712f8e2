/** The broadcast context with its buffers updated in place, as `receive.c` and `send.c` do
    it. Every method is proved against the function of `Contexts` for its critical section. */
module Nodes {
  import opened Messages
  import opened Sequences
  import opened Delivery
  import opened Retention
  import opened Contexts
  import opened Bitmaps

  class Peer {
    const pid: nat
    var alive: bool

    constructor (pid: nat)
      ensures this.pid == pid && alive
    {
      this.pid := pid;
      alive := true;
    }
  }

  /** An entry of `sent_msg_buffer`; the ageing round holds references to it as well. */
  class SentMsg {
    const msg: Msg
    const target: nat
    var bitmap: nat

    /** `cbc_sent_msg_create`: the target is narrowed to 16 bits. */
    constructor (msg: Msg, target: nat)
      ensures this.msg == msg && this.target == target % 0x10000 && bitmap == 0
    {
      this.msg := msg;
      this.target := target % 0x10000;
      bitmap := 0;
    }

    ghost function Value(): Sent
      reads this
    {
      Sent(msg, Bits(target), Bits(bitmap))
    }
  }

  function Pids(peers: seq<Peer>): (r: seq<nat>)
    ensures |r| == |peers|
  {
    seq(|peers|, i requires 0 <= i < |peers| => peers[i].pid)
  }

  ghost function DeadPids(peers: seq<Peer>): set<nat>
    reads peers
  {
    set i | 0 <= i < |peers| && !peers[i].alive :: peers[i].pid
  }

  ghost function Values(s: seq<SentMsg>): (r: seq<Sent>)
    reads s
    ensures |r| == |s|
  {
    seq(|s|, i requires 0 <= i < |s| reads s => s[i].Value())
  }

  /** Where the loop of `try_deliver_held_msgs` ends: the delivery queue, the buffer, the clock. */
  function LoopEnd(q: seq<Received>, held: seq<Received>, s: nat, c: nat): (seq<Received>, seq<Received>, nat)
    decreases |held|
  {
    var i := FirstHeld(held, s, c + 1);
    if i == |held| then (q, held, c) else LoopEnd(q + [held[i]], DelSwap(held, i), s, c + 1)
  }

  lemma {:induction false} LoopEndIsDrain(q: seq<Received>, held: seq<Received>, s: nat, c: nat)
    ensures var all := Drain(held, s, c); LoopEnd(q, held, s, c) == (q + all.0, all.1, c + |all.0|)
    decreases |held|
  {
    var i := FirstHeld(held, s, c + 1);
    if i == |held| {
      assert q + [] == q;
    } else {
      var less := DelSwap(held, i);
      LoopEndIsDrain(q + [held[i]], less, s, c + 1);
      DrainStep(held, s, c, less);
      Regroup(q, [held[i]], Drain(less, s, c + 1).0);
    }
  }

  class Node {
    const pid: nat
    const clock: array<nat>
    const peers: seq<Peer>
    var connected: bool
    var sendQ: seq<Outgoing>
    var sentBuf: seq<SentMsg>
    var held: seq<Received>
    var deliveryQ: seq<Received>

    ghost predicate Valid()
      reads this, sentBuf
    {
      && pid < clock.Length
      && Distinct(Pids(peers))
      && (forall p :: p in peers ==> p.pid < 16 && p.pid < clock.Length && p.pid != pid)
      && Distinct(sentBuf)
      && (forall x :: x in sentBuf ==> Fits(x.target) && Fits(x.bitmap))
    }

    /** The context as a value. */
    ghost function Abs(): Context
      reads this, clock, peers, sentBuf
    {
      Context(pid, Pids(peers), DeadPids(peers), connected, clock[..], sendQ, Values(sentBuf), held, deliveryQ)
    }

    /** `cbc_init` and `cbc_add_peer`, for a node among `maxPids` and the pids of its peers. */
    constructor (pid: nat, maxPids: nat, peers: seq<Peer>)
      requires pid < maxPids
      requires Distinct(Pids(peers))
      requires forall p :: p in peers ==> p.pid < 16 && p.pid < maxPids && p.pid != pid && p.alive
      ensures Valid() && fresh(clock)
      ensures Abs() == Context(pid, Pids(peers), {}, true, seq(maxPids, i => 0), [], [], [], [])
    {
      this.pid := pid;
      this.peers := peers;
      var c := new nat[maxPids](i => 0);
      clock := c;
      connected := true;
      sendQ, sentBuf, held, deliveryQ := [], [], [], [];
      new;
      assert clock[..] == seq(maxPids, i => 0);
    }

    // ---- receive.c ----

    /** `check_msg_causality`. */
    function CheckMsgCausality(s: nat, c: nat): (v: Verdict)
      reads clock
    {
      if s >= clock.Length then Error
      else if clock[s] + 1 == c then Deliver
      else if clock[s] + 1 < c then Hold
      else Error
    }

    /** `cbc_receive`. */
    method Receive() returns (r: Option<Received>)
      requires Valid()
      modifies this`deliveryQ
      ensures Valid()
      ensures old(deliveryQ) == [] ==> r == None && deliveryQ == []
      ensures old(deliveryQ) != [] ==> r == Some(old(deliveryQ)[0]) && deliveryQ == DelAt(old(deliveryQ), 0)
    {
      if |deliveryQ| > 0 {
        r := Some(deliveryQ[0]);
        deliveryQ := DelAt(deliveryQ, 0);
      } else {
        r := None;
      }
    }

    /** `ack_received_message`; `ok` is false where the process exits. */
    method AckReceivedMessage(c: nat, s: nat) returns (ok: bool)
      requires Valid() && s in Pids(peers)
      modifies this`sendQ
      ensures Valid() && ok == (c != 65535)
      ensures sendQ == if ok then old(sendQ) + [Outgoing(AckMsg(c), Some(s))] else old(sendQ)
    {
      if c == 65535 {
        return false;
      }
      sendQ := sendQ + [Outgoing(AckMsg(c), Some(s))];
      return true;
    }

    /** `request_retransmission`. */
    method RequestRetransmission(s: nat)
      requires Valid() && s in Pids(peers) && s < clock.Length
      modifies this`sendQ
      ensures Valid() && Abs() == old(Abs()).Request(s)
    {
      var expected := clock[s] + 1;
      sendQ := sendQ + [Outgoing(RequestMsg(expected % 65536), Some(s))];
    }

    /** The inner loop of `try_deliver_held_msgs`: moves the first held message that is ready,
        if there is one. */
    method DeliverOneHeld(s: nat) returns (found: bool)
      requires s < clock.Length
      modifies this`held, this`deliveryQ, clock
      ensures found == (FirstHeld(old(held), s, old(clock[s]) + 1) < |old(held)|)
      ensures !found ==> held == old(held) && deliveryQ == old(deliveryQ) && clock[s] == old(clock[s])
      ensures found ==>
                var i := FirstHeld(old(held), s, old(clock[s]) + 1);
                && held == DelSwap(old(held), i)
                && deliveryQ == old(deliveryQ) + [old(held)[i]]
                && clock[s] == old(clock[s]) + 1
      ensures forall j :: 0 <= j < clock.Length && j != s ==> clock[j] == old(clock[j])
    {
      var i := 0;
      while i < |held|
        invariant i <= |held|
        invariant forall j :: 0 <= j < i ==> !Matches(held[j], s, clock[s] + 1)
      {
        if held[i].sender == s && CheckMsgCausality(s, held[i].msg.clock) == Deliver {
          deliveryQ := deliveryQ + [held[i]];
          held := DelSwap(held, i);
          clock[s] := clock[s] + 1;
          return true;
        }
        i := i + 1;
      }
      return false;
    }

    /** `try_deliver_held_msgs`. */
    method TryDeliverHeldMsgs(s: nat)
      requires s < clock.Length
      modifies this`held, this`deliveryQ, clock
      ensures var out := Drain(old(held), s, old(clock[s]));
              && held == out.1
              && deliveryQ == old(deliveryQ) + out.0
              && clock[s] == old(clock[s]) + |out.0|
      ensures forall j :: 0 <= j < clock.Length && j != s ==> clock[j] == old(clock[j])
    {
      ghost var goal := LoopEnd(deliveryQ, held, s, clock[s]);
      LoopEndIsDrain(deliveryQ, held, s, clock[s]);
      var found := true;
      while found
        invariant goal == if found then LoopEnd(deliveryQ, held, s, clock[s]) else (deliveryQ, held, clock[s])
        invariant forall j :: 0 <= j < clock.Length && j != s ==> clock[j] == old(clock[j])
        decreases found, |held|
      {
        found := DeliverOneHeld(s);
      }
    }

    /** `handle_data_msg`; `ok` is false where the process exits. */
    method HandleDataMsg(m: Msg, s: nat) returns (ok: bool)
      requires Valid() && s in Pids(peers) && s < clock.Length && m.Carries()
      modifies this`sendQ, this`held, this`deliveryQ, clock
      ensures Valid()
      ensures var r := old(Abs()).HandleData(m, s);
              ok == r.Some? && Abs() == if ok then r.value else old(Abs())
    {
      var causality := CheckMsgCausality(s, m.clock);
      match causality {
        case Error =>
          if m.kind.Retransmit? {
            ok := AckReceivedMessage(m.clock, s);
            return;
          }
          return false;
        case Deliver =>
          ok := DeliverMsg(m, s);
        case Hold =>
          ok := HoldMsg(m, s);
      }
    }

    /** The deliver case. */
    method DeliverMsg(m: Msg, s: nat) returns (ok: bool)
      requires Valid() && s in Pids(peers) && s < clock.Length
      modifies this`sendQ, this`held, this`deliveryQ, clock
      ensures Valid() && ok == (m.clock != 65535)
      ensures Abs() == if ok then old(Abs()).Acknowledge(m, s).Store(m, s) else old(Abs())
    {
      ok := AckReceivedMessage(m.clock, s);
      if ok {
        StoreMsg(m, s);
      }
    }

    /** The hold case. */
    method HoldMsg(m: Msg, s: nat) returns (ok: bool)
      requires Valid() && s in Pids(peers) && s < clock.Length
      modifies this`sendQ, this`held
      ensures Valid() && ok == (m.clock != 65535)
      ensures Abs() == if ok then old(Abs()).Acknowledge(m, s).Keep(m, s).Request(s) else old(Abs())
    {
      ok := AckReceivedMessage(m.clock, s);
      if ok {
        KeepMsg(m, s);
        RequestRetransmission(s);
      }
    }

    /** The recv_lock section of the deliver case. */
    method StoreMsg(m: Msg, s: nat)
      requires s < clock.Length
      modifies this`held, this`deliveryQ, clock
      ensures var d := old(Abs()).Store(m, s);
              held == d.held && deliveryQ == d.deliveryQ && clock[..] == d.clock
    {
      clock[s] := clock[s] + 1;
      deliveryQ := deliveryQ + [Received(m, s)];
      if m.kind.Retransmit? {
        TryDeliverHeldMsgs(s);
      }
      ghost var d := old(Abs()).Store(m, s);
      assert clock[s] == d.clock[s];
      assert deliveryQ == d.deliveryQ;
    }

    /** The search of the hold case: a message held already is dropped. */
    method KeepMsg(m: Msg, s: nat)
      modifies this`held
      ensures held == old(Abs()).Keep(m, s).held
    {
      var alreadyHeld := false;
      var i := 0;
      while i < |held|
        invariant i <= |held|
        invariant alreadyHeld <==> exists j :: 0 <= j < i && Matches(held[j], s, m.clock)
      {
        if held[i].msg.clock == m.clock && held[i].sender == s {
          alreadyHeld := true;
        }
        i := i + 1;
      }
      assert alreadyHeld <==> IsHeld(held, s, m.clock);
      if !alreadyHeld {
        held := held + [Received(m, s)];
      }
    }

    /** `register_ack`. */
    method RegisterAckFrom(m: Msg, s: nat)
      requires Valid() && s < 16
      modifies this`sentBuf, sentBuf
      ensures Valid()
      ensures Abs() == old(Abs()).Register(m, s)
    {
      ghost var buf := Values(sentBuf);
      var idx := FindSent(m.clock);
      if idx < |sentBuf| {
        SetAckBit(idx, s);
        assert Values(sentBuf)[idx] == sentBuf[idx].Value();
        SameBits(sentBuf[idx].bitmap, sentBuf[idx].target);
        if sentBuf[idx].bitmap == sentBuf[idx].target {
          RemoveSent(idx);
        }
      }
      assert Values(sentBuf) == RegisterAck(buf, m.clock, s);
    }

    method RemoveSent(i: nat)
      requires Valid() && i < |sentBuf|
      modifies this`sentBuf
      ensures Valid() && sentBuf == DelAt(old(sentBuf), i)
      ensures Values(sentBuf) == DelAt(old(Values(sentBuf)), i)
    {
      ghost var buf := sentBuf;
      sentBuf := DelAt(sentBuf, i);
      assert forall j :: 0 <= j < |sentBuf| ==> sentBuf[j] == buf[if j < i then j else j + 1];
    }

    /** `ack_bitmap |= 1 << s`. */
    method SetAckBit(i: nat, s: nat)
      requires Valid() && i < |sentBuf| && s < 16
      modifies sentBuf[i]
      ensures Valid()
      ensures var buf := old(Values(sentBuf));
              Values(sentBuf) == buf[i := buf[i].(acked := buf[i].acked + {s})]
    {
      var x := sentBuf[i];
      SetBit(x.bitmap, s);
      x.bitmap := Or(x.bitmap, s);
      assert forall j :: 0 <= j < |sentBuf| && j != i ==> sentBuf[j] != x;
    }

    /** The search for a buffered message by its clock. */
    method FindSent(c: nat) returns (i: nat)
      ensures i == FirstSent(Values(sentBuf), c)
    {
      ghost var buf := Values(sentBuf);
      i := 0;
      while i < |sentBuf|
        invariant i <= |sentBuf|
        invariant forall j :: 0 <= j < i ==> buf[j].msg.clock != c
      {
        assert buf[i].msg == sentBuf[i].msg;
        if sentBuf[i].msg.clock == c {
          return;
        }
        i := i + 1;
      }
    }

    /** `queue_retransmission`. */
    method QueueRetransmission(m: Msg, s: nat)
      requires Valid()
      modifies this`sendQ
      ensures Valid() && Abs() == old(Abs()).HandleRequest(m, s)
    {
      var i := FindSent(m.clock);
      if i < |sentBuf| {
        var r := Msg(Retransmit, m.clock, sentBuf[i].msg.payload);
        sendQ := sendQ + [Outgoing(r, Some(s))];
      }
    }

    /** The dispatch of `cbc_recv_thread` on a message from peer `s`. */
    method ReceiveMsg(m: Msg, s: nat) returns (ok: bool)
      requires Valid() && s in Pids(peers) && s < clock.Length && s < 16
      modifies this`sendQ, this`held, this`deliveryQ, this`sentBuf, clock, sentBuf
      ensures Valid()
      ensures var r := old(Abs()).Dispatch(m, s);
              ok == r.Some? && Abs() == if ok then r.value else old(Abs())
    {
      match m.kind
      case Data => ok := HandleDataMsg(m, s);
      case Retransmit => ok := HandleDataMsg(m, s);
      case Ack => RegisterAckFrom(m, s); ok := true;
      case RetransmitReq => QueueRetransmission(m, s); ok := true;
    }

    // ---- send.c ----

    /** `find_unacked_peers`. */
    method FindUnackedPeers(x: SentMsg) returns (targets: seq<nat>)
      requires Valid()
      ensures targets == Unacked(Pids(peers), x.Value())
    {
      ghost var pids, f := Pids(peers), IsMissing(Bits(x.bitmap));
      targets := [];
      var j := 0;
      while j < |peers|
        invariant j <= |peers| && targets == Select(pids[..j], f)
      {
        SelectNext(pids, j, f);
        assert peers[j] in peers;
        if !HasBit(x.bitmap, peers[j].pid) {
          targets := targets + [peers[j].pid];
        }
        j := j + 1;
      }
      assert pids[..j] == pids;
    }

    /** `find_old_messages`, given the clock `n` in 16 bits. */
    method FindOldMessages(now: nat, ghost n: nat) returns (olds: seq<SentMsg>)
      requires Valid() && now == n % 0x10000
      ensures Values(olds) == Select(Values(sentBuf), IsOld(n))
      ensures forall x :: x in olds ==> x in sentBuf
    {
      SameAges(n, now);
      ghost var buf, f := Values(sentBuf), IsOld(n);
      olds := [];
      var i := 0;
      while i < |sentBuf|
        invariant i <= |sentBuf| && Values(olds) == Select(buf[..i], f)
        invariant forall x :: x in olds ==> x in sentBuf
      {
        var x := sentBuf[i];
        assert x in sentBuf && buf[i] == x.Value();
        SameBits(x.bitmap, x.target);
        SelectNext(buf, i, f);
        if Age(now, x.msg.clock) >= OLD_THRESHOLD && x.bitmap != x.target {
          assert Values(olds + [x]) == Values(olds) + [x.Value()];
          olds := olds + [x];
        }
        i := i + 1;
      }
      assert buf[..i] == buf;
    }

    /** `find_dead_peers`; the empty sequence stands for the null pointer as well. */
    method FindDeadPeers(ms: seq<SentMsg>) returns (dead: seq<nat>)
      requires Valid()
      ensures dead == DeadPeers(Pids(peers), Values(ms))
    {
      ghost var pids, vs := Pids(peers), Values(ms);
      dead := [];
      var i := 0;
      while i < |ms|
        invariant i <= |ms| && dead == Collect(pids, vs[..i])
        invariant forall x :: x in vs[..i] ==> Unacked(pids, x) != []
      {
        assert vs[i] == ms[i].Value() && vs[..i + 1] == vs[..i] + [vs[i]] && vs[..i + 1][..i] == vs[..i];
        var targets := FindUnackedPeers(ms[i]);
        if |targets| == 0 {
          assert vs[i] in vs;
          return [];
        }
        dead := AddTargets(dead, targets);
        i := i + 1;
      }
      assert vs[..i] == vs;
    }

    /** `handle_dead_peers`. */
    method HandleDeadPeers(gone: seq<nat>)
      requires Valid() && gone != [] && forall q :: q in gone ==> q in Pids(peers) && q < 16
      modifies this`connected, this`sentBuf, peers`alive, sentBuf`bitmap
      ensures Valid()
      ensures var d := old(Abs()).HandleDead(gone);
              connected == d.connected && DeadPids(peers) == d.dead && Values(sentBuf) == d.sentBuf
      ensures forall x :: x in old(sentBuf) ==> x.Value() == Mark(old(x.Value()), AsSet(gone))
    {
      CountRemaining(gone);
      MarkPeersDead(peers, gone);
      AckAndPurge(gone);
    }

    /** The test of `handle_dead_peers` for too few remaining peers. */
    method CountRemaining(gone: seq<nat>)
      modifies this`connected
      ensures connected == (old(connected) && |peers| - |gone| >= 1 && |peers| - |gone| >= |peers| / 2)
    {
      var left := |peers| - |gone|;
      if left < 1 {
        connected := false;
      }
      if left < |peers| / 2 {
        connected := false;
      }
    }

    /** The part of `handle_dead_peers` that treats messages to dead peers as acknowledged. */
    method AckAndPurge(gone: seq<nat>)
      requires Valid() && forall q :: q in gone ==> q < 16
      modifies this`sentBuf, sentBuf`bitmap
      ensures Valid()
      ensures Values(sentBuf) == Purge(old(Values(sentBuf)), AsSet(gone))
      ensures forall x :: x in old(sentBuf) ==> x.Value() == Mark(old(x.Value()), AsSet(gone))
    {
      ghost var buf := Values(sentBuf);
      AckForDead(sentBuf, gone);
      assert forall i :: 0 <= i < |sentBuf| ==> sentBuf[i] in sentBuf;
      assert Values(sentBuf) == MarkAll(buf, AsSet(gone));
      PurgeSent();
    }

    /** The purge loop of `handle_dead_peers`: fully acknowledged messages are taken out one by
        one, and the search starts over after each. */
    method PurgeSent()
      requires Valid()
      modifies this`sentBuf
      ensures Valid() && forall x :: x in sentBuf ==> x in old(sentBuf)
      ensures Values(sentBuf) == Select(old(Values(sentBuf)), IsUnstable())
    {
      var stopSearching := false;
      while !stopSearching
        invariant Valid() && forall x :: x in sentBuf ==> x in old(sentBuf)
        invariant Select(Values(sentBuf), IsUnstable()) == Select(old(Values(sentBuf)), IsUnstable())
        invariant stopSearching ==> forall x :: x in Values(sentBuf) ==> IsUnstable()(x)
        decreases |sentBuf|, !stopSearching
      {
        stopSearching := true;
        var i := FindStable();
        if i < |sentBuf| {
          stopSearching := false;
          SelectDelSkipped(Values(sentBuf), i, IsUnstable());
          RemoveSent(i);
        }
      }
      SelectAll(Values(sentBuf), IsUnstable());
    }

    /** The search loop of the purge. */
    method FindStable() returns (i: nat)
      requires Valid()
      ensures i <= |sentBuf|
      ensures i < |sentBuf| ==> !IsUnstable()(Values(sentBuf)[i])
      ensures i == |sentBuf| ==> forall x :: x in Values(sentBuf) ==> IsUnstable()(x)
    {
      ghost var vs := Values(sentBuf);
      i := 0;
      while i < |sentBuf|
        invariant i <= |sentBuf| && forall j :: 0 <= j < i ==> IsUnstable()(vs[j])
      {
        assert sentBuf[i] in sentBuf && vs[i] == sentBuf[i].Value();
        SameBits(sentBuf[i].bitmap, sentBuf[i].target);
        if sentBuf[i].bitmap == sentBuf[i].target {
          return;
        }
        i := i + 1;
      }
    }

    /** `queue_retransmit_messages`. */
    method QueueRetransmitMessages(x: SentMsg, targets: seq<nat>)
      modifies this`sendQ
      ensures sendQ == old(sendQ) + RetransmitTo(x.Value(), targets)
    {
      ghost var all := RetransmitTo(x.Value(), targets);
      var j := 0;
      while j < |targets|
        invariant j <= |targets| && sendQ == old(sendQ) + all[..j]
      {
        sendQ := sendQ + [Outgoing(Msg(Retransmit, x.msg.clock, x.msg.payload), Some(targets[j]))];
        assert all[..j + 1] == all[..j] + [Resend(x.Value(), targets[j])];
        j := j + 1;
      }
    }

    /** `retransmit_messages`. */
    method RetransmitMessages(ms: seq<SentMsg>)
      requires Valid()
      modifies this`sendQ
      ensures sendQ == old(sendQ) + RetransmitRound(Pids(peers), Values(ms))
    {
      ghost var pids, vs := Pids(peers), Values(ms);
      ghost var goal := sendQ + RetransmitRound(pids, vs);
      var rest := ms;
      assert vs[..|ms|] == vs;
      while |rest| > 0
        invariant Valid() && rest == ms[..|rest|]
        invariant sendQ + RetransmitRound(pids, vs[..|rest|]) == goal
      {
        var n := |rest| - 1;
        var x := rest[n];
        assert vs[n] == x.Value();
        RoundPops(pids, vs, n, sendQ);
        rest := rest[..n];
        var any := ResendOne(x);
        if !any {
          return;
        }
      }
    }

    /** Queues one message for the peers it misses, if there are any. */
    method ResendOne(x: SentMsg) returns (any: bool)
      requires Valid()
      modifies this`sendQ
      ensures Valid() && any == (Unacked(Pids(peers), x.Value()) != [])
      ensures sendQ == if any then old(sendQ) + RetransmitTo(x.Value(), Unacked(Pids(peers), x.Value())) else old(sendQ)
    {
      var targets := FindUnackedPeers(x);
      any := |targets| > 0;
      if any {
        QueueRetransmitMessages(x, targets);
      }
    }

    /** The first half of `handle_old_messages`: the peers to declare dead and the messages to
        retransmit; `any` is false if no message is old. */
    method CollectRound() returns (any: bool, gone: seq<nat>, young: seq<SentMsg>)
      requires Valid()
      ensures Abs().Shaped() && any == (Abs().OldOnes() != [])
      ensures gone == Abs().Gone() && Values(young) == Select(Abs().OldOnes(), IsYoung(Abs().Now()))
      ensures forall x :: x in young ==> x in sentBuf
    {
      var now := clock[pid] % 0x10000;
      var oldMsgs := FindOldMessages(now, clock[pid]);
      any := |oldMsgs| > 0;
      var dead;
      dead, young := FilterDeadMessages(now, clock[pid], oldMsgs);
      gone := [];
      if |dead| > 0 {
        gone := FindDeadPeers(dead);
      }
    }

    /** `handle_old_messages`. */
    method HandleOldMessages()
      requires Valid()
      modifies this`connected, this`sentBuf, this`sendQ, peers`alive, sentBuf`bitmap
      ensures Valid()
      ensures Abs() == old(Abs()).HandleOld()
    {
      ghost var d := Abs();
      if |sentBuf| == 0 || |peers| == 0 {
        return;
      }
      var any, gone, young := CollectRound();
      if !any {
        return;
      }
      GoneArePeers(d.peers, Select(d.OldOnes(), IsDead(d.Now())));
      DeclareAndResend(gone, young);
      RoundIs(d, gone, if gone == [] then d else d.HandleDead(gone), Abs());
    }

    /** The second half of `handle_old_messages`. The list shares its messages with the
        buffer, so a declaration shows in it. */
    method DeclareAndResend(gone: seq<nat>, young: seq<SentMsg>)
      requires Valid() && forall q :: q in gone ==> q in Pids(peers)
      requires forall x :: x in young ==> x in sentBuf
      modifies this`connected, this`sentBuf, this`sendQ, peers`alive, sentBuf`bitmap
      ensures Valid()
      ensures var d := old(Abs()); var h := if gone == [] then d else d.HandleDead(gone);
              connected == h.connected && DeadPids(peers) == h.dead && Values(sentBuf) == h.sentBuf
      ensures var ms := old(Values(young));
              sendQ == old(sendQ) +
                RetransmitRound(Pids(peers), if gone == [] then ms else MarkAll(ms, AsSet(gone)))
    {
      Declare(gone, young);
      RetransmitMessages(young);
    }

    /** The declaration, as it shows in the list as well. */
    method Declare(gone: seq<nat>, ghost young: seq<SentMsg>)
      requires Valid() && forall q :: q in gone ==> q in Pids(peers)
      requires forall x :: x in young ==> x in sentBuf
      modifies this`connected, this`sentBuf, peers`alive, sentBuf`bitmap
      ensures Valid()
      ensures var d := old(Abs()); var h := if gone == [] then d else d.HandleDead(gone);
              connected == h.connected && DeadPids(peers) == h.dead && Values(sentBuf) == h.sentBuf
      ensures var ms := old(Values(young)); Values(young) == if gone == [] then ms else MarkAll(ms, AsSet(gone))
    {
      if |gone| > 0 {
        PidsSmall();
        HandleDeadPeers(gone);
        assert forall i :: 0 <= i < |young| ==> young[i] in young;
      }
    }

    /** The two critical sections of `cbc_send`: the new clock, and the DATA message. */
    method CountAndQueue(kept: Payload)
      requires Valid()
      modifies this`sendQ, clock
      ensures Valid() && Abs().Shaped() && old(Abs()).Shaped() && Abs() == old(Abs()).Queued(kept)
    {
      ghost var d := Abs();
      clock[pid] := clock[pid] + 1;
      sendQ := sendQ + [Outgoing(Msg(Data, clock[pid] % 65536, kept), None)];
      assert clock[..] == d.clock[pid := d.clock[pid] + 1];
    }

    /** `cbc_send`. */
    method Send(payload: Payload) returns (r: Result<()>)
      requires Valid()
      modifies this`connected, this`sentBuf, this`sendQ, clock, peers`alive, sentBuf`bitmap
      ensures Valid() && old(Abs()).Shaped()
      ensures match old(Abs()).Send(payload)
              case Err(e) => r == Err(e) && Abs() == old(Abs())
              case Ok(d) => r == Ok(()) && Abs() == d
    {
      if |payload| == 0 {
        return Err("Invalid arguments");
      }
      if |peers| == 0 {
        return Err("No peers to send to");
      }
      var len := |payload| % 65536;
      if len == 0 {
        return Err("Invalid header or payload");
      }
      QueueAndAge(payload[..len]);
      return Ok(());
    }

    method QueueAndAge(kept: Payload)
      requires Valid()
      modifies this`connected, this`sentBuf, this`sendQ, clock, peers`alive, sentBuf`bitmap
      ensures Valid() && old(Abs()).Shaped() && old(Abs()).Queued(kept).Shaped()
      ensures Abs() == old(Abs()).Queued(kept).HandleOld()
    {
      CountAndQueue(kept);
      HandleOldMessages();
    }

    /** The pid loop of `broadcast`: the bitmap of the peers the message goes to. */
    method Broadcast() returns (target: nat, dests: seq<nat>)
      requires Valid()
      ensures dests == Select(Pids(peers), IsMissing(DeadPids(peers)))
      ensures Bits(target) == AsSet(dests) && Fits(target)
    {
      ghost var pids, f := Pids(peers), IsMissing(DeadPids(peers));
      EmptyBitmap();
      target, dests := 0, [];
      var i := 0;
      while i < |peers|
        invariant i <= |peers| && dests == Select(pids[..i], f)
        invariant Bits(target) == AsSet(dests) && Fits(target)
      {
        assert peers[i] in peers && pids[i] == peers[i].pid;
        SelectNext(pids, i, f);
        AliveIsMissing(peers, i);
        if peers[i].alive {
          SetBit(target, peers[i].pid);
          target := Or(target, peers[i].pid);
          assert AsSet(dests + [peers[i].pid]) == AsSet(dests) + {peers[i].pid};
          dests := dests + [peers[i].pid];
        }
        i := i + 1;
      }
      assert pids[..i] == pids;
    }

    /** The queue section of `cbc_send_thread`. */
    method TakeOutgoing() returns (o: Outgoing)
      requires Valid() && sendQ != []
      modifies this`sendQ
      ensures Valid() && o == old(sendQ)[0] && sendQ == DelAt(old(sendQ), 0)
    {
      o := sendQ[0];
      sendQ := DelAt(sendQ, 0);
    }

    /** The buffer section of `cbc_send_thread`: the target passes through 16 bits. */
    method BufferSent(m: Msg, target: nat)
      requires Valid() && Fits(target)
      modifies this`sentBuf
      ensures Valid()
      ensures Values(sentBuf) == old(Values(sentBuf)) + [Sent(m, Bits(target), {})]
    {
      EmptyBitmap();
      var x := new SentMsg(m, target);
      ValuesPush(sentBuf, x);
      sentBuf := sentBuf + [x];
    }

    /** One turn of `cbc_send_thread`: what is sent, and to whom. */
    method SendTurn() returns (o: Outgoing, dests: seq<nat>)
      requires Valid() && sendQ != []
      modifies this`sendQ, this`sentBuf
      ensures Valid() && Abs() == old(Abs()).SendTurn() && o == old(sendQ)[0]
      ensures dests == if o.msg.kind.Data? then old(Abs()).Targets()
                       else if o.dest.Some? then [o.dest.value] else []
    {
      o := TakeOutgoing();
      if o.msg.kind.Data? {
        var target;
        target, dests := Broadcast();
        BufferSent(o.msg, target);
      } else {
        dests := if o.dest.Some? then [o.dest.value] else [];
      }
    }

    lemma PidsSmall()
      requires Valid()
      ensures forall q :: q in Pids(peers) ==> q < 16
    {
      forall q | q in Pids(peers) ensures q < 16 {
        var i :| 0 <= i < |peers| && Pids(peers)[i] == q;
        assert peers[i] in peers;
      }
    }
  }

  /** `cbc_init` and `cbc_add_peer`: a pid that is not below the number of processes is refused. */
  method CreateNode(pid: nat, maxPids: nat, peers: seq<Peer>) returns (r: Result<Node>)
    requires Distinct(Pids(peers))
    requires forall p :: p in peers ==> p.pid < 16 && p.pid < maxPids && p.pid != pid && p.alive
    ensures r.Err? <==> maxPids == 0 || pid >= maxPids
    ensures r.Ok? ==>
              && fresh(r.value) && fresh(r.value.clock) && r.value.Valid()
              && r.value.Abs() == Context(pid, Pids(peers), {}, true, seq(maxPids, i => 0), [], [], [], [])
  {
    if maxPids == 0 || pid >= maxPids {
      return Err("[cbc_init] args");
    }
    var node := new Node(pid, maxPids, peers);
    return Ok(node);
  }

  lemma RoundPops(pids: seq<nat>, vs: seq<Sent>, n: nat, queue: seq<Outgoing>)
    requires n < |vs|
    ensures var targets := Unacked(pids, vs[n]);
            queue + RetransmitRound(pids, vs[..n + 1]) ==
            if targets == [] then queue
            else (queue + RetransmitTo(vs[n], targets)) + RetransmitRound(pids, vs[..n])
  {
    assert vs[..n + 1][..n] == vs[..n];
  }

  /** The fields `handle_old_messages` changes, taken together. */
  lemma RoundIs(d: Context, gone: seq<nat>, h: Context, e: Context)
    requires d.Shaped() && d.sentBuf != [] && d.peers != [] && d.OldOnes() != []
    requires gone == d.Gone() && h == if gone == [] then d else d.HandleDead(gone)
    requires e.pid == d.pid && e.peers == d.peers && e.clock == d.clock
    requires e.held == d.held && e.deliveryQ == d.deliveryQ
    requires e.connected == h.connected && e.dead == h.dead && e.sentBuf == h.sentBuf
    requires var ms := Select(d.OldOnes(), IsYoung(d.Now()));
             e.sendQ == d.sendQ + RetransmitRound(d.peers, if gone == [] then ms else MarkAll(ms, AsSet(gone)))
    ensures e == d.HandleOld()
  {
  }

  /** The list the round computes with is made of peers. */
  lemma GoneArePeers(pids: seq<nat>, ms: seq<Sent>)
    ensures forall q :: q in DeadPeers(pids, ms) ==> q in pids
  {
    CollectMembers(pids, ms);
  }

  /** Computing ages from the clock in 16 bits makes no difference. */
  lemma SameAges(n: nat, now: nat)
    requires now == n % 0x10000
    ensures forall c: nat :: Age(now, c) == Age(n, c)
  {
  }

  /** Adds the targets that are not listed yet. */
  method AddTargets(dead0: seq<nat>, targets: seq<nat>) returns (dead: seq<nat>)
    ensures dead == AddNew(dead0, targets)
  {
    dead := dead0;
    var j := 0;
    while j < |targets|
      invariant j <= |targets| && dead == AddNew(dead0, targets[..j])
    {
      var k := ArrFind(dead, targets[j]);
      assert targets[..j + 1][..j] == targets[..j];
      if k == -1 {
        dead := dead + [targets[j]];
      }
      j := j + 1;
    }
    assert targets[..j] == targets;
  }

  lemma PeersApart(peers: seq<Peer>, i: nat)
    requires Distinct(Pids(peers)) && i < |peers|
    ensures forall j :: 0 <= j < |peers| && j != i ==> peers[j] != peers[i]
  {
    var pids := Pids(peers);
    forall j | 0 <= j < |peers| && j != i ensures peers[j] != peers[i] {
      assert pids[j] == peers[j].pid && pids[i] == peers[i].pid;
    }
  }

  /** Marks the listed peers dead. */
  method MarkPeersDead(peers: seq<Peer>, gone: seq<nat>)
    requires Distinct(Pids(peers))
    modifies peers`alive
    ensures DeadPids(peers) == old(DeadPids(peers)) + (AsSet(gone) * AsSet(Pids(peers)))
  {
    var i := 0;
    while i < |peers|
      invariant i <= |peers|
      invariant forall k :: 0 <= k < |peers| ==>
                  peers[k].alive == (old(peers[k].alive) && !(k < i && peers[k].pid in gone))
    {
      var k := ArrFind(gone, peers[i].pid);
      if k != -1 {
        PeersApart(peers, i);
        peers[i].alive := false;
      }
      i := i + 1;
    }
    assert forall k :: 0 <= k < |peers| ==> Pids(peers)[k] == peers[k].pid;
  }

  /** Sets the bits of the dead peers in every message. */
  method AckForDead(ms: seq<SentMsg>, gone: seq<nat>)
    requires Distinct(ms) && forall q :: q in gone ==> q < 16
    requires forall x :: x in ms ==> Fits(x.bitmap)
    modifies ms`bitmap
    ensures forall x :: x in ms ==> Fits(x.bitmap) && x.Value() == Mark(old(x.Value()), AsSet(gone))
  {
    var i := 0;
    while i < |ms|
      invariant i <= |ms|
      invariant forall k :: 0 <= k < i ==> Fits(ms[k].bitmap) && ms[k].Value() == Mark(old(ms[k].Value()), AsSet(gone))
      invariant forall k :: i <= k < |ms| ==> ms[k].bitmap == old(ms[k].bitmap)
    {
      AckAll(ms[i], gone);
      i := i + 1;
    }
  }

  method AckAll(x: SentMsg, gone: seq<nat>)
    requires Fits(x.bitmap) && forall q :: q in gone ==> q < 16
    modifies x`bitmap
    ensures Fits(x.bitmap) && Bits(x.bitmap) == old(Bits(x.bitmap)) + AsSet(gone)
  {
    var j := 0;
    while j < |gone|
      invariant j <= |gone| && Fits(x.bitmap)
      invariant Bits(x.bitmap) == old(Bits(x.bitmap)) + AsSet(gone[..j])
    {
      assert gone[..j + 1] == gone[..j] + [gone[j]] && gone[j] in gone;
      SetBit(x.bitmap, gone[j]);
      x.bitmap := Or(x.bitmap, gone[j]);
      j := j + 1;
    }
    assert gone[..j] == gone;
  }

  lemma AliveIsMissing(peers: seq<Peer>, i: nat)
    requires Distinct(Pids(peers)) && i < |peers|
    ensures peers[i].alive <==> peers[i].pid !in DeadPids(peers)
  {
    var pids := Pids(peers);
    if peers[i].pid in DeadPids(peers) {
      var k :| 0 <= k < |peers| && !peers[k].alive && peers[k].pid == peers[i].pid;
      assert pids[k] == pids[i];
    }
  }

  /** `arrfind`. */
  method ArrFind(arr: seq<nat>, q: nat) returns (i: int)
    ensures i == -1 <==> q !in arr
    ensures i != -1 ==> 0 <= i < |arr| && arr[i] == q
  {
    i := 0;
    while i < |arr|
      invariant 0 <= i <= |arr| && q !in arr[..i]
    {
      if arr[i] == q {
        return;
      }
      i := i + 1;
    }
    return -1;
  }

  lemma ValuesDelAt(s: seq<SentMsg>, i: nat)
    requires i < |s|
    ensures Values(DelAt(s, i)) == DelAt(Values(s), i)
  {
  }

  lemma ValuesPush(s: seq<SentMsg>, x: SentMsg)
    ensures Values(s + [x]) == Values(s) + [x.Value()]
  {
  }

  /** The search loop of `filter_dead_messages`. */
  method FindDead(now: nat, ghost n: nat, ms: seq<SentMsg>) returns (i: nat)
    requires now == n % 0x10000
    ensures i <= |ms| && forall x :: x in Values(ms)[..i] ==> !IsDead(n)(x)
    ensures i < |ms| ==> IsDead(n)(Values(ms)[i])
  {
    SameAges(n, now);
    ghost var vs := Values(ms);
    i := 0;
    while i < |ms|
      invariant i <= |ms| && forall j :: 0 <= j < i ==> !IsDead(n)(vs[j])
    {
      assert vs[i] == ms[i].Value();
      if Age(now, ms[i].msg.clock) >= DEAD_THRESHOLD {
        return;
      }
      i := i + 1;
    }
  }

  lemma MoveDead(now: nat, vs: seq<Sent>, i: nat)
    requires i < |vs| && IsDead(now)(vs[i]) && forall x :: x in vs[..i] ==> !IsDead(now)(x)
    ensures Select(vs, IsDead(now)) == [vs[i]] + Select(DelAt(vs, i), IsDead(now))
    ensures Select(vs, IsYoung(now)) == Select(DelAt(vs, i), IsYoung(now))
  {
    SelectNone(vs[..i], IsDead(now));
    SelectDelFirst(vs, i, IsDead(now));
    SelectDelSkipped(vs, i, IsYoung(now));
  }

  lemma MoveOneDead(now: nat, dead: seq<Sent>, vs: seq<Sent>, i: nat)
    requires i < |vs| && IsDead(now)(vs[i]) && forall x :: x in vs[..i] ==> !IsDead(now)(x)
    ensures dead + Select(vs, IsDead(now)) == (dead + [vs[i]]) + Select(DelAt(vs, i), IsDead(now))
    ensures Select(vs, IsYoung(now)) == Select(DelAt(vs, i), IsYoung(now))
  {
    MoveDead(now, vs, i);
    Regroup(dead, [vs[i]], Select(DelAt(vs, i), IsDead(now)));
  }

  lemma OnlyYoungLeft(now: nat, vs: seq<Sent>)
    requires forall x :: x in vs ==> !IsDead(now)(x)
    ensures Select(vs, IsDead(now)) == [] && Select(vs, IsYoung(now)) == vs
  {
    SelectNone(vs, IsDead(now));
    SelectAll(vs, IsYoung(now));
  }

  /** One turn of `filter_dead_messages`: the first dead message changes lists. */
  method MoveFirstDead(now: nat, ghost n: nat, dead: seq<SentMsg>, young: seq<SentMsg>)
    returns (moved: bool, dead': seq<SentMsg>, young': seq<SentMsg>)
    requires now == n % 0x10000
    ensures Values(dead') + Select(Values(young'), IsDead(n)) == Values(dead) + Select(Values(young), IsDead(n))
    ensures Select(Values(young'), IsYoung(n)) == Select(Values(young), IsYoung(n))
    ensures forall x :: x in dead' || x in young' ==> x in dead || x in young
    ensures if moved then |young'| == |young| - 1
            else young' == young && forall x :: x in Values(young) ==> !IsDead(n)(x)
  {
    var i := FindDead(now, n, young);
    if i == |young| {
      assert Values(young)[..i] == Values(young);
      return false, dead, young;
    }
    MoveOneDead(n, Values(dead), Values(young), i);
    ValuesDelAt(young, i);
    ValuesPush(dead, young[i]);
    return true, dead + [young[i]], DelAt(young, i);
  }

  /** `filter_dead_messages`: the dead messages are taken out of the list one by one, and the
      search starts over after each. */
  method FilterDeadMessages(now: nat, ghost n: nat, ms: seq<SentMsg>)
    returns (dead: seq<SentMsg>, young: seq<SentMsg>)
    requires now == n % 0x10000
    ensures Values(dead) == Select(Values(ms), IsDead(n))
    ensures Values(young) == Select(Values(ms), IsYoung(n))
    ensures forall x :: x in dead || x in young ==> x in ms
  {
    dead, young := [], ms;
    var keepSearching := true;
    while keepSearching
      invariant forall x :: x in dead || x in young ==> x in ms
      invariant Values(dead) + Select(Values(young), IsDead(n)) == Select(Values(ms), IsDead(n))
      invariant Select(Values(young), IsYoung(n)) == Select(Values(ms), IsYoung(n))
      invariant !keepSearching ==> forall x :: x in Values(young) ==> !IsDead(n)(x)
      decreases |young|, keepSearching
    {
      keepSearching, dead, young := MoveFirstDead(now, n, dead, young);
    }
    OnlyYoungLeft(n, Values(young));
  }
}
