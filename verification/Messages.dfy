/** Messages, and the records the broadcast context keeps about them. */
module Messages {
  newtype Byte = x: int | 0 <= x < 256

  type Payload = seq<Byte>

  datatype Option<+T> = None | Some(value: T)

  datatype Result<+T> = Ok(value: T) | Err(error: string)

  datatype Kind = Data | Ack | RetransmitReq | Retransmit

  /** A message: `len` of the header is the length of the payload. */
  datatype Msg = Msg(kind: Kind, clock: nat, payload: Payload) {
    predicate Carries() { kind.Data? || kind.Retransmit? }
  }

  /** An entry of `send_queue`; only DATA has no address. */
  datatype Outgoing = Outgoing(msg: Msg, dest: Option<nat>)

  /** An entry of `held_msg_buffer` and `delivery_queue`. */
  datatype Received = Received(msg: Msg, sender: nat)

  /** The value of an entry of `sent_msg_buffer`: the bitmaps as sets of pids. */
  datatype Sent = Sent(msg: Msg, target: set<nat>, acked: set<nat>)

  /** The largest clock a sender may use: 65535 ends the process of whoever acknowledges it. */
  const MAX_CLOCK: nat := 65534

  function AckMsg(c: nat): Msg { Msg(Ack, c, []) }

  function RequestMsg(c: nat): Msg { Msg(RetransmitReq, c, []) }

  function RetransmitMsg(m: Msg): Msg { Msg(Retransmit, m.clock, m.payload) }
}
