/** A broadcast context (`cbcast_t`) as a value, and what each critical section of the
    three threads does to it. The class `Node` refines these functions; the cluster of
    `Cluster.dfy` interleaves them. */
module Contexts {
  import opened Messages
  import opened Sequences
  import opened Delivery
  import opened Retention

  /** What `cbc_send` broadcasts of a payload: its length is narrowed to 16 bits on the way to
      the header. */
  function Kept(payload: Payload): Payload { payload[..|payload| % 65536] }

  datatype Context = Context(
    pid: nat,
    peers: seq<nat>,
    dead: set<nat>,
    connected: bool,
    clock: seq<nat>,
    sendQ: seq<Outgoing>,
    sentBuf: seq<Sent>,
    held: seq<Received>,
    deliveryQ: seq<Received>)
  {
    /** What `cbc_init` and `cbc_add_peer` establish: a clock entry for every pid, distinct
        peers other than the node itself. */
    predicate Shaped() {
      && pid < |clock|
      && Distinct(peers)
      && (forall q :: q in peers ==> q < |clock| && q != pid)
    }

    function Now(): nat
      requires Shaped()
    {
      clock[pid]
    }

    function Enqueue(o: Outgoing): Context { this.(sendQ := sendQ + [o]) }

    /** `check_msg_causality`, with its bounds test. */
    function Check(s: nat, c: nat): Verdict {
      if s >= |clock| then Error else CheckCausality(clock[s], c)
    }

    /** The recv_lock section of the deliver case: count, deliver, and drain after a
        retransmission. */
    function Store(m: Msg, s: nat): Context
      requires s < |clock|
    {
      var delivered := clock[s] + 1;
      var out := if m.kind.Retransmit? then Drain(held, s, delivered) else ([], held);
      this.(clock := clock[s := delivered + |out.0|],
            deliveryQ := deliveryQ + [Received(m, s)] + out.0,
            held := out.1)
    }

    /** The recv_lock section of the hold case: a message already held is dropped. */
    function Keep(m: Msg, s: nat): Context {
      if IsHeld(held, s, m.clock) then this else this.(held := held + [Received(m, s)])
    }

    /** `request_retransmission`: the header clock is 16 bits wide. */
    function Request(s: nat): Context
      requires s < |clock|
    {
      Enqueue(Outgoing(RequestMsg((clock[s] + 1) % 65536), Some(s)))
    }

    function Acknowledge(m: Msg, s: nat): Context { Enqueue(Outgoing(AckMsg(m.clock), Some(s))) }

    /** `handle_data_msg`; `None` is the exit of the process. */
    function HandleData(m: Msg, s: nat): Option<Context> {
      match Check(s, m.clock)
      case Error =>
        if m.kind.Retransmit? && m.clock != 65535 then Some(Acknowledge(m, s)) else None
      case Deliver =>
        if m.clock == 65535 then None else Some(Acknowledge(m, s).Store(m, s))
      case Hold =>
        if m.clock == 65535 then None else Some(Acknowledge(m, s).Keep(m, s).Request(s))
    }

    function Register(m: Msg, s: nat): Context { this.(sentBuf := RegisterAck(sentBuf, m.clock, s)) }

    /** What `queue_retransmission` finds in the buffer. */
    function Lookup(c: nat): Option<Msg> {
      var i := FirstSent(sentBuf, c);
      if i == |sentBuf| then None else Some(Msg(Retransmit, c, sentBuf[i].msg.payload))
    }

    function HandleRequest(m: Msg, s: nat): Context {
      match Lookup(m.clock)
      case None => this
      case Some(r) => Enqueue(Outgoing(r, Some(s)))
    }

    /** The dispatch of `cbc_recv_thread`. */
    function Dispatch(m: Msg, s: nat): Option<Context> {
      match m.kind
      case Data => HandleData(m, s)
      case Retransmit => HandleData(m, s)
      case Ack => Some(Register(m, s))
      case RetransmitReq => Some(HandleRequest(m, s))
    }

    // ---- ageing ----

    /** `handle_dead_peers` for a list of distinct peers. */
    function HandleDead(gone: seq<nat>): Context {
      var left := |peers| - |gone|;
      this.(connected := connected && !(left < 1) && !(left < |peers| / 2),
            dead := dead + (AsSet(gone) * AsSet(peers)),
            sentBuf := Purge(sentBuf, AsSet(gone)))
    }

    function OldOnes(): seq<Sent>
      requires Shaped()
    {
      Select(sentBuf, IsOld(Now()))
    }

    /** The peers `handle_old_messages` is about to declare dead. */
    function Gone(): seq<nat>
      requires Shaped()
    {
      DeadPeers(peers, Select(OldOnes(), IsDead(Now())))
    }

    /** The messages a round retransmits. They share their bitmaps with the buffer, so after
        a declaration the dead peers' bits are set in them. */
    function ToResend(): seq<Sent>
      requires Shaped()
    {
      var young := Select(OldOnes(), IsYoung(Now()));
      if Gone() == [] then young else MarkAll(young, AsSet(Gone()))
    }

    /** `handle_old_messages`, run as one step. */
    function HandleOld(): Context
      requires Shaped()
    {
      if sentBuf == [] || peers == [] || OldOnes() == [] then this
      else
        var declared := if Gone() == [] then this else HandleDead(Gone());
        declared.(sendQ := sendQ + RetransmitRound(peers, ToResend()))
    }

    /** The context of `cbc_send` when the ageing round begins. */
    function Queued(kept: Payload): Context
      requires Shaped()
    {
      var next := clock[pid] + 1;
      this.(clock := clock[pid := next]).Enqueue(Outgoing(Msg(Data, next % 65536, kept), None))
    }

    /** `cbc_send`. */
    function Send(payload: Payload): Result<Context>
      requires Shaped()
    {
      var kept := Kept(payload);
      if payload == [] then Err("Invalid arguments")
      else if peers == [] then Err("No peers to send to")
      else if kept == [] then Err("Invalid header or payload")
      else Ok(Queued(kept).HandleOld())
    }

    // ---- the send thread ----

    /** The peers a DATA message goes to. */
    function Targets(): seq<nat> { Select(peers, IsMissing(dead)) }

    /** One turn of `cbc_send_thread`. */
    function SendTurn(): Context
      requires sendQ != []
    {
      var taken := this.(sendQ := DelAt(sendQ, 0));
      if sendQ[0].msg.kind.Data?
      then taken.(sentBuf := sentBuf + [Sent(sendQ[0].msg, AsSet(Targets()), {})])
      else taken
    }
  }
}
