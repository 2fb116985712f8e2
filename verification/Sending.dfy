/** What one call of `cbc_send` and one turn of the send thread do to a context, in numbers. */
module Sending {
  import opened Messages
  import opened Sequences
  import opened Retention
  import opened Contexts
  import opened Cluster
  import opened Connection

  /** A payload is broadcast whole exactly if it is shorter than 65536 bytes. Of a longer one the
      beginning is kept, as much as it exceeds a multiple of 65536. */
  lemma KeptIs(payload: Payload)
    ensures Kept(payload) == payload <==> |payload| < 65536
    ensures Kept(payload) <= payload && |Kept(payload)| < 65536
    ensures |payload| >= 65536 ==> |Kept(payload)| == |Kept(payload[65536..])|
  {
    if |payload| < 65536 {
      assert payload[..|payload|] == payload;
    }
  }

  /** The three error returns: an empty payload, no peers, and a length that is a multiple of
      65536. */
  lemma RefusesIff(d: Context, payload: Payload)
    requires d.Shaped()
    ensures d.Send(payload).Err? <==>
            payload == [] || d.peers == [] || |payload| % 65536 == 0
  {
  }

  /** A call that is not refused counts the message, queues it with the whole payload, and then
      runs the ageing round, which queues only retransmissions. */
  lemma SendsWhole(d: Context, payload: Payload)
    requires d.Shaped() && d.peers != [] && 0 < |payload| < 65536
    ensures d.Send(payload).Ok?
    ensures var e := d.Send(payload).value;
            && |d.sendQ| < |e.sendQ| && d.sendQ <= e.sendQ
            && e.sendQ[|d.sendQ|] == Outgoing(Msg(Data, (d.Now() + 1) % 65536, payload), None)
            && (forall i :: |d.sendQ| < i < |e.sendQ| ==> e.sendQ[i].msg.kind.Retransmit?)
            && e.clock == d.clock[d.pid := d.Now() + 1]
  {
    KeptIs(payload);
    var queued := d.Queued(payload);
    assert d.Send(payload) == Ok(queued.HandleOld());
    RoundOnlyResends(queued);
  }

  lemma RoundOnlyResends(d: Context)
    requires d.Shaped()
    ensures d.sendQ <= d.HandleOld().sendQ && d.HandleOld().clock == d.clock
    ensures forall i :: |d.sendQ| <= i < |d.HandleOld().sendQ| ==> d.HandleOld().sendQ[i].msg.kind.Retransmit?
  {
    RoundIsResends(d.peers, d.ToResend());
  }

  lemma {:induction false} RoundIsResends(peers: seq<nat>, ms: seq<Sent>)
    ensures forall o :: o in RetransmitRound(peers, ms) ==> o.msg.kind.Retransmit?
  {
    if ms != [] {
      RoundIsResends(peers, ms[..|ms| - 1]);
    }
  }

  function Living(d: Context): set<nat> { set q | q in d.peers && q !in d.dead }

  /** A turn of the send thread takes the oldest entry. A DATA message goes into the buffer as the
      last one, awaiting exactly the peers that are not dead, none of which has acknowledged it
      yet; anything else leaves no trace. */
  lemma TurnIs(d: Context)
    requires d.sendQ != []
    ensures var e, first := d.SendTurn(), d.sendQ[0];
            && d.sendQ == [first] + e.sendQ
            && e == d.(sendQ := e.sendQ, sentBuf := e.sentBuf)
            && e.sentBuf == d.sentBuf + if first.msg.kind.Data?
                                        then [Sent(first.msg, Living(d), {})] else []
  {
    assert d.sendQ == [d.sendQ[0]] + d.sendQ[1..];
    assert DelAt(d.sendQ, 0) == d.sendQ[1..];
    assert d.sentBuf + [] == d.sentBuf;
    forall q ensures q in AsSet(d.Targets()) <==> q in Living(d) {
      SelectMembers(d.peers, IsMissing(d.dead), q);
    }
    assert AsSet(d.Targets()) == Living(d);
  }

  /** The datagrams of a turn: a DATA message goes to every peer that is not dead, anything else
      to its one address. */
  lemma TurnReaches(p: nat, d: Context, k: Packet)
    requires d.sendQ != []
    ensures var first := d.sendQ[0];
            k in TurnPackets(p, d) <==>
              && k.src == p && k.msg == first.msg
              && if first.msg.kind.Data? then k.dst in d.peers && k.dst !in d.dead else first.dest == Some(k.dst)
  {
    SelectMembers(d.peers, IsMissing(d.dead), k.dst);
    if d.sendQ[0].msg.kind.Data? && k.dst in d.Targets() && k == Packet(p, k.dst, d.sendQ[0].msg) {
      assert k in TurnPackets(p, d);
    }
  }
}
