/** Messages as bytes: how they are created, written into a datagram, cut to size by the
    receive thread and read back. Headers are in the byte order of a little-endian host. */
module Wire {
  import opened Messages
  import opened Contexts

  /** The packed header: a 32-bit kind and two 16-bit fields. */
  datatype Header = Header(kind: nat, clock: nat, len: nat)

  /** A message in memory; `buffer` is the payload with its terminator, if there is one. */
  datatype WireMsg = WireMsg(header: Header, buffer: Option<seq<Byte>>)

  const DATA: nat := 1
  const ACK: nat := 2
  const RETRANSMIT_REQ: nat := 3
  const RETRANSMIT: nat := 4

  const HEADER_SIZE: nat := 8

  predicate HeaderOnly(kind: nat) { kind == ACK || kind == RETRANSMIT_REQ }

  predicate Full(kind: nat) { kind == DATA || kind == RETRANSMIT }

  /** The fields fit their widths, and a payload comes with one byte for its terminator. */
  predicate InMemory(m: WireMsg) {
    && m.header.kind < 0x1_0000_0000 && m.header.clock < 0x1_0000 && m.header.len < 0x1_0000
    && (m.buffer.Some? ==> |m.buffer.value| == m.header.len + 1)
    && (Full(m.header.kind) ==> m.buffer.Some?)
    && (HeaderOnly(m.header.kind) ==> m.buffer.None?)
  }

  // ---- numbers as bytes ----

  function Pow256(n: nat): nat { if n == 0 then 1 else 256 * Pow256(n - 1) }

  /** The `n` low bytes of `x`, the lowest first. */
  function LowBytes(x: nat, n: nat): (r: seq<Byte>)
    ensures |r| == n
  {
    if n == 0 then [] else [(x % 256) as Byte] + LowBytes(x / 256, n - 1)
  }

  function Number(b: seq<Byte>): nat {
    if b == [] then 0 else b[0] as nat + 256 * Number(b[1..])
  }

  lemma {:induction false} NumberOfLowBytes(x: nat, n: nat)
    requires x < Pow256(n)
    ensures Number(LowBytes(x, n)) == x
  {
    if n > 0 {
      NumberOfLowBytes(x / 256, n - 1);
      assert LowBytes(x, n)[1..] == LowBytes(x / 256, n - 1);
    }
  }

  lemma Widths()
    ensures Pow256(2) == 0x1_0000 && Pow256(4) == 0x1_0000_0000
  {
    assert Pow256(1) == 256;
    assert Pow256(3) == 0x100_0000;
  }

  function HeaderBytes(h: Header): (r: seq<Byte>)
    ensures |r| == HEADER_SIZE
  {
    LowBytes(h.kind, 4) + LowBytes(h.clock, 2) + LowBytes(h.len, 2)
  }

  function ReadHeader(b: seq<Byte>): Header
    requires |b| >= HEADER_SIZE
  {
    Header(Number(b[..4]), Number(b[4..6]), Number(b[6..8]))
  }

  lemma HeaderReadsBack(h: Header, rest: seq<Byte>)
    requires h.kind < 0x1_0000_0000 && h.clock < 0x1_0000 && h.len < 0x1_0000
    ensures ReadHeader(HeaderBytes(h) + rest) == h
  {
    Widths();
    NumberOfLowBytes(h.kind, 4);
    NumberOfLowBytes(h.clock, 2);
    NumberOfLowBytes(h.len, 2);
    var b := HeaderBytes(h) + rest;
    assert b[..4] == LowBytes(h.kind, 4);
    assert b[4..6] == LowBytes(h.clock, 2);
    assert b[6..8] == LowBytes(h.len, 2);
  }

  // ---- what the functions of message.c compute ----

  /** `cbc_msg_create`, given the payload and the length in 16 bits. */
  function Create(kind: nat, payload: seq<Byte>, len: nat): Option<Result<WireMsg>>
    requires len <= |payload|
  {
    if HeaderOnly(kind) then Some(Ok(WireMsg(Header(kind, 0, 0), None)))
    else if !Full(kind) then None
    else if len == 0 then Some(Err("Invalid header or payload"))
    else Some(Ok(WireMsg(Header(kind, 0, len), Some(payload[..len] + [0]))))
  }

  /** The bytes of `cbc_msg_serialize`: `None` where it gives none. */
  function Encode(m: WireMsg): Option<seq<Byte>> {
    if HeaderOnly(m.header.kind) then Some(HeaderBytes(m.header))
    else if Full(m.header.kind) && m.buffer.Some? && m.header.len > 0
    then Some(HeaderBytes(m.header) + m.buffer.value)
    else None
  }

  /** What the receive thread takes of a datagram: it is dropped if it is shorter than its
      header says, and cut if it is longer. */
  function Cut(datagram: seq<Byte>): Option<seq<Byte>> {
    if |datagram| < HEADER_SIZE then None
    else
      var size := HEADER_SIZE + ReadHeader(datagram).len;
      if |datagram| < size then None else Some(datagram[..size])
  }

  /** `cbc_msg_deserialize`. Kinds it does not know are read like payload messages. */
  function Decode(b: seq<Byte>): Result<WireMsg>
    requires |b| >= HEADER_SIZE && |b| == HEADER_SIZE + ReadHeader(b).len
  {
    var h := ReadHeader(b);
    if HeaderOnly(h.kind) then Ok(WireMsg(h, None))
    else if h.len == 0 then Err("Invalid header length")
    else Ok(WireMsg(h, Some(b[HEADER_SIZE..] + [0])))
  }

  lemma CutKeepsHeader(datagram: seq<Byte>)
    requires Cut(datagram).Some?
    ensures var b := Cut(datagram).value;
            |b| >= HEADER_SIZE && ReadHeader(b) == ReadHeader(datagram) && |b| == HEADER_SIZE + ReadHeader(b).len
  {
    var b := Cut(datagram).value;
    assert b[..4] == datagram[..4] && b[4..6] == datagram[4..6] && b[6..8] == datagram[6..8];
  }

  /** A datagram as the receive thread sees it; dropped ones and broken ones are `None`. */
  function Receive(datagram: seq<Byte>): Option<WireMsg> {
    match Cut(datagram)
    case None => None
    case Some(b) =>
      CutKeepsHeader(datagram);
      match Decode(b)
      case Err(_) => None
      case Ok(m) => Some(m)
  }

  // ---- the functions as they work on memory ----

  /** `memcpy` into a buffer. */
  method MemCpy(dst: array<Byte>, at: nat, src: seq<Byte>)
    requires at + |src| <= dst.Length
    modifies dst
    ensures dst[..] == old(dst[..at]) + src + old(dst[at + |src|..])
  {
    var i := 0;
    while i < |src|
      invariant i <= |src|
      invariant forall k :: 0 <= k < dst.Length ==>
                  dst[k] == if at <= k < at + i then src[k - at] else old(dst[k])
    {
      dst[at + i] := src[i];
      i := i + 1;
    }
  }

  /** `cbc_msg_create`; nothing where the process exits. */
  method CreateMsg(kind: nat, payload: seq<Byte>, len: nat) returns (r: Option<Result<WireMsg>>)
    requires len <= |payload|
    ensures r == Create(kind, payload, len)
  {
    if HeaderOnly(kind) {
      return Some(Ok(WireMsg(Header(kind, 0, 0), None)));
    }
    if !Full(kind) {
      return None;
    }
    if len == 0 {
      return Some(Err("Invalid header or payload"));
    }
    var buffer := new Byte[len + 1](_ => 0);
    MemCpy(buffer, 0, payload[..len]);
    buffer[len] := 0;
    assert buffer[..] == payload[..len] + [0];
    return Some(Ok(WireMsg(Header(kind, 0, len), Some(buffer[..]))));
  }

  /** `serialize_full`. */
  method SerializeFull(m: WireMsg) returns (out: Option<array<Byte>>)
    requires InMemory(m)
    ensures out.None? <==> m.buffer.None? || m.header.len == 0
    ensures out.Some? ==> fresh(out.value) && out.value[..] == HeaderBytes(m.header) + m.buffer.value
  {
    if m.buffer.None? || m.header.len == 0 {
      return None;
    }
    var payloadSize := m.header.len + 1;
    var serialized := new Byte[HEADER_SIZE + payloadSize](_ => 0);
    MemCpy(serialized, 0, HeaderBytes(m.header));
    MemCpy(serialized, HEADER_SIZE, m.buffer.value);
    assert serialized[..] == HeaderBytes(m.header) + m.buffer.value;
    return Some(serialized);
  }

  /** `cbc_msg_serialize`, for a kind that exists. */
  method Serialize(m: WireMsg) returns (out: Option<array<Byte>>)
    requires InMemory(m) && (HeaderOnly(m.header.kind) || Full(m.header.kind))
    ensures out.Some? == Encode(m).Some?
    ensures out.Some? ==> fresh(out.value) && out.value[..] == Encode(m).value
  {
    if HeaderOnly(m.header.kind) {
      var serialized := new Byte[HEADER_SIZE](_ => 0);
      MemCpy(serialized, 0, HeaderBytes(m.header));
      assert serialized[..] == HeaderBytes(m.header);
      return Some(serialized);
    }
    out := SerializeFull(m);
  }

  /** `cbc_msg_deserialize` on a buffer that holds what its header says. */
  method Deserialize(bytes: array<Byte>) returns (r: Result<WireMsg>)
    requires bytes.Length >= HEADER_SIZE && bytes.Length == HEADER_SIZE + ReadHeader(bytes[..]).len
    ensures r == Decode(bytes[..])
  {
    var header := ReadHeader(bytes[..]);
    if HeaderOnly(header.kind) {
      return Ok(WireMsg(header, None));
    }
    if header.len == 0 {
      return Err("Invalid header length");
    }
    var payload := new Byte[header.len + 1](_ => 0);
    MemCpy(payload, 0, bytes[HEADER_SIZE..]);
    payload[header.len] := 0;
    assert payload[..] == bytes[..][HEADER_SIZE..] + [0];
    return Ok(WireMsg(header, Some(payload[..])));
  }

  // ---- round trips ----

  /** What a datagram loses when it is cut is exactly the terminator of its payload. */
  lemma CutsTheTerminator(m: WireMsg)
    requires InMemory(m) && Encode(m).Some?
    ensures Full(m.header.kind) ==>
              Cut(Encode(m).value) == Some(HeaderBytes(m.header) + m.buffer.value[..m.header.len])
    ensures HeaderOnly(m.header.kind) ==>
              Cut(Encode(m).value) == if m.header.len == 0 then Encode(m) else None
  {
    var b := Encode(m).value;
    if Full(m.header.kind) {
      HeaderReadsBack(m.header, m.buffer.value);
      assert b[..HEADER_SIZE + m.header.len] == HeaderBytes(m.header) + m.buffer.value[..m.header.len];
    } else {
      HeaderReadsBack(m.header, []);
      assert b == HeaderBytes(m.header) + [];
      assert m.header.len == 0 ==> b[..HEADER_SIZE] == b;
    }
  }

  /** Which messages survive the wire: those with a payload if it is not empty and ends with
      its terminator, those without one if their header claims none. */
  lemma SurvivesIff(m: WireMsg)
    requires InMemory(m) && (HeaderOnly(m.header.kind) || Full(m.header.kind))
    ensures Encode(m).Some? && Receive(Encode(m).value) == Some(m) <==>
            if HeaderOnly(m.header.kind) then m.header.len == 0
            else m.header.len > 0 && m.buffer.value[m.header.len] == 0
  {
    if Encode(m).Some? {
      CutsTheTerminator(m);
      var len := m.header.len;
      if HeaderOnly(m.header.kind) {
        HeaderReadsBack(m.header, []);
        assert HeaderBytes(m.header) + [] == HeaderBytes(m.header);
      } else {
        var kept := m.buffer.value[..len];
        HeaderReadsBack(m.header, kept);
        assert (HeaderBytes(m.header) + kept)[HEADER_SIZE..] == kept;
        assert kept + [0] == m.buffer.value <==> m.buffer.value[len] == 0;
      }
    }
  }

  /** The messages of the protocol, with a clock that fits its field. */
  predicate Sendable(m: Msg) {
    m.clock < 0x1_0000 && |m.payload| < 0x1_0000 && (m.Carries() <==> m.payload != [])
  }

  function KindNumber(k: Kind): nat {
    match k
    case Data => DATA
    case Ack => ACK
    case RetransmitReq => RETRANSMIT_REQ
    case Retransmit => RETRANSMIT
  }

  /** The message `cbc_msg_create` makes, with the clock its caller stores in it. */
  function ToWire(m: Msg): WireMsg
    requires Sendable(m)
  {
    var created := Create(KindNumber(m.kind), m.payload, |m.payload|).value.value;
    created.(header := created.header.(clock := m.clock))
  }

  /** The message the receive thread dispatches on. */
  function FromWire(w: WireMsg): Option<Msg> {
    var payload := if w.buffer.Some? && |w.buffer.value| > 0 then w.buffer.value[..|w.buffer.value| - 1] else [];
    if w.header.kind == DATA then Some(Msg(Data, w.header.clock, payload))
    else if w.header.kind == ACK then Some(Msg(Ack, w.header.clock, payload))
    else if w.header.kind == RETRANSMIT_REQ then Some(Msg(RetransmitReq, w.header.clock, payload))
    else if w.header.kind == RETRANSMIT then Some(Msg(Retransmit, w.header.clock, payload))
    else None
  }

  /** Every message of the protocol arrives as it was sent. */
  lemma MessagesTravel(m: Msg)
    requires Sendable(m)
    ensures InMemory(ToWire(m)) && Encode(ToWire(m)).Some?
    ensures Receive(Encode(ToWire(m)).value) == Some(ToWire(m))
    ensures FromWire(ToWire(m)) == Some(m)
  {
    var w := ToWire(m);
    if m.Carries() {
      assert w.buffer.value == m.payload + [0];
    }
    SurvivesIff(w);
  }

  // ---- the layout ----

  lemma TwoBytes(x: nat)
    requires x < 65536
    ensures LowBytes(x, 2) == [(x % 256) as Byte, (x / 256) as Byte]
  {
    assert LowBytes(x / 256, 1) == [(x / 256) as Byte];
  }

  lemma FourBytes(x: nat)
    requires x < 256
    ensures LowBytes(x, 4) == [x as Byte, 0, 0, 0]
  {
    TwoBytes(0);
    assert LowBytes(0, 3) == [0] + LowBytes(0, 2);
  }

  lemma HeaderIs(kind: nat, c: nat, n: nat)
    requires kind < 256 && c < 65536 && n < 65536
    ensures HeaderBytes(Header(kind, c, n)) ==
            [kind as Byte, 0, 0, 0, (c % 256) as Byte, (c / 256) as Byte, (n % 256) as Byte, (n / 256) as Byte]
  {
    FourBytes(kind);
    TwoBytes(c);
    TwoBytes(n);
  }

  /** The bytes of a message without a payload: four of the kind, 2 or 3, two of the clock and two
      of the length, each with the low byte first. */
  lemma ControlBytes(c: nat)
    requires c < 65536
    ensures Encode(ToWire(Msg(Ack, c, []))) == Some([2, 0, 0, 0, (c % 256) as Byte, (c / 256) as Byte, 0, 0])
    ensures Encode(ToWire(Msg(RetransmitReq, c, []))) ==
            Some([3, 0, 0, 0, (c % 256) as Byte, (c / 256) as Byte, 0, 0])
  {
    HeaderIs(2, c, 0);
    HeaderIs(3, c, 0);
  }

  lemma FullBytes(kind: nat, c: nat, payload: Payload)
    requires kind < 256 && c < 65536 && |payload| < 65536
    ensures var n := |payload|;
            HeaderBytes(Header(kind, c, n)) + (payload + [0]) ==
            [kind as Byte] +
            ([0, 0, 0, (c % 256) as Byte, (c / 256) as Byte, (n % 256) as Byte, (n / 256) as Byte] + payload + [0])
  {
    HeaderIs(kind, c, |payload|);
  }

  /** The bytes of a message with a payload: kind 1, or 4 for a retransmission, the clock, the
      length of the payload, the payload and its terminator. */
  lemma PayloadBytes(c: nat, payload: Payload)
    requires c < 65536 && 0 < |payload| < 65536
    ensures var n := |payload|;
            var rest := [0, 0, 0, (c % 256) as Byte, (c / 256) as Byte, (n % 256) as Byte, (n / 256) as Byte] +
                        payload + [0];
            && Encode(ToWire(Msg(Data, c, payload))) == Some([1] + rest)
            && Encode(ToWire(Msg(Retransmit, c, payload))) == Some([4] + rest)
  {
    FullBytes(1, c, payload);
    FullBytes(4, c, payload);
    assert payload[..|payload|] == payload;
  }

  /** The message that `cbc_send` creates holds what is kept of the payload, and its terminator. */
  lemma CreatedIsKept(payload: Payload)
    requires payload != []
    ensures var r := Create(DATA, payload, |payload| % 65536);
            && r.Some? && (r.value.Ok? <==> Kept(payload) != [])
            && (r.value.Ok? ==> r.value.value == WireMsg(Header(1, 0, |Kept(payload)|), Some(Kept(payload) + [0])))
  {
  }

  /** `cbc_send` hands the length of the payload on in 16 bits: the message it creates carries
      all of a payload exactly if that is shorter than 65536 bytes, and none is created exactly
      for multiples of 65536. */
  lemma WholePayloadIff(payload: seq<Byte>)
    requires payload != []
    ensures var r := Create(DATA, payload, |payload| % 65536);
            && r.Some?
            && (r.value.Ok? && r.value.value.buffer == Some(payload + [0]) <==> |payload| < 65536)
            && (r.value.Err? <==> |payload| % 65536 == 0)
  {
    var len := |payload| % 65536;
    if |payload| < 65536 {
      assert payload[..len] == payload;
    } else {
      assert |payload[..len] + [0]| < |payload + [0]|;
    }
  }

  /** The message created for the payload carries all of it in a datagram of at most `limit`
      bytes. `broadcast` ignores that `sendto` refuses larger ones. */
  predicate LeavesWhole(payload: seq<Byte>, limit: nat) {
    var r := Create(DATA, payload, |payload| % 65536);
    && r.Some? && r.value.Ok?
    && r.value.value.buffer == Some(payload + [0])
    && Encode(r.value.value).Some? && |Encode(r.value.value).value| <= limit
  }

  /** What a payload has to fit into, for a socket that sends at most `limit` bytes at once: its
      length field, and a datagram together with the header and the terminator. */
  lemma LeavesWholeIff(payload: seq<Byte>, limit: nat)
    requires payload != []
    ensures LeavesWhole(payload, limit) <==> |payload| < 65536 && |payload| + HEADER_SIZE + 1 <= limit
  {
    WholePayloadIff(payload);
  }

  /** The most a UDP datagram over IPv4 can carry: 65535 bytes less the headers of IP and UDP. */
  const UDP_LIMIT: nat := 65535 - 20 - 8

  lemma LeavesByUdpIff(payload: seq<Byte>)
    requires payload != []
    ensures LeavesWhole(payload, UDP_LIMIT) <==> |payload| <= 65498
  {
    LeavesWholeIff(payload, UDP_LIMIT);
  }
}
