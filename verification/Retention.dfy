/** The send side of a node as functions on values: the buffer of unstable messages, its
    acknowledgements, and the ageing round of `send.c`. */
module Retention {
  import opened Messages
  import opened Sequences

  const OLD_THRESHOLD: nat := 2
  const DEAD_THRESHOLD: nat := 6

  function AsSet(s: seq<nat>): set<nat> { set q | q in s }

  /** The age of a message, in the 16 bits the code computes it in. */
  function Age(now: nat, clock: nat): (a: nat)
    ensures clock <= now < 65536 ==> a == now - clock
  {
    (now - clock) % 65536
  }

  function IsOld(now: nat): Sent -> bool {
    (x: Sent) => Age(now, x.msg.clock) >= OLD_THRESHOLD && x.acked != x.target
  }

  function IsDead(now: nat): Sent -> bool {
    (x: Sent) => Age(now, x.msg.clock) >= DEAD_THRESHOLD
  }

  function IsYoung(now: nat): Sent -> bool {
    (x: Sent) => Age(now, x.msg.clock) < DEAD_THRESHOLD
  }

  /** The ages in numbers: a message is retransmitted from age 2 on, and at age 6 it makes the
      round declare whoever misses it. */
  lemma AgesInNumbers(now: nat, x: Sent)
    requires x.msg.clock <= now < 65536
    ensures IsOld(now)(x) <==> now - x.msg.clock >= 2 && x.acked != x.target
    ensures IsDead(now)(x) <==> now - x.msg.clock >= 6
    ensures IsYoung(now)(x) <==> now - x.msg.clock <= 5
  {
    assert Age(now, x.msg.clock) == now - x.msg.clock;
  }

  function IsUnstable(): Sent -> bool {
    (x: Sent) => x.acked != x.target
  }

  function IsMissing(acked: set<nat>): nat -> bool {
    (q: nat) => q !in acked
  }

  // ---- acknowledgements ----

  /** The index of the first buffered message with clock `c`, or the length. */
  function FirstSent(buf: seq<Sent>, c: nat): (i: nat)
    ensures i <= |buf|
    ensures i < |buf| ==> buf[i].msg.clock == c
    ensures forall j :: 0 <= j < i ==> buf[j].msg.clock != c
  {
    if buf == [] then 0
    else if buf[0].msg.clock == c then 0
    else 1 + FirstSent(buf[1..], c)
  }

  /** `register_ack` for clock `c` from peer `q`. */
  function RegisterAck(buf: seq<Sent>, c: nat, q: nat): seq<Sent> {
    var i := FirstSent(buf, c);
    if i == |buf| then buf
    else
      var x := buf[i].(acked := buf[i].acked + {q});
      if x.acked == x.target then DelAt(buf, i) else buf[i := x]
  }

  /** Buffered messages are told apart by their clocks, which increase along the buffer. */
  predicate Increasing(buf: seq<Sent>) {
    forall i, j :: 0 <= i < j < |buf| ==> buf[i].msg.clock < buf[j].msg.clock
  }

  /** Before a peer is declared dead: every message awaits all peers and misses at least one. */
  predicate AwaitsAll(buf: seq<Sent>, peers: set<nat>) {
    forall x :: x in buf ==> x.target == peers && x.acked < peers
  }

  /** An acknowledgement retires its message exactly if it is the last one missing, and
      touches no other message. */
  lemma AckRetiresOnLast(buf: seq<Sent>, c: nat, q: nat, peers: set<nat>)
    requires Increasing(buf) && AwaitsAll(buf, peers) && q in peers
    ensures Increasing(RegisterAck(buf, c, q)) && AwaitsAll(RegisterAck(buf, c, q), peers)
    ensures forall x :: x in RegisterAck(buf, c, q) && x.msg.clock != c <==> x in buf && x.msg.clock != c
    ensures forall x :: x in buf && x.msg.clock == c ==>
              if peers - x.acked == {q} then forall y :: y in RegisterAck(buf, c, q) ==> y.msg.clock != c
              else x.(acked := x.acked + {q}) in RegisterAck(buf, c, q)
  {
    var i := FirstSent(buf, c);
    if i < |buf| {
      assert buf[i] in buf;
      OnlyOneWith(buf, i);
      var x := buf[i].(acked := buf[i].acked + {q});
      assert peers - buf[i].acked == {q} <==> x.acked == x.target;
      RemoveOne(buf, i);
      ReplaceOne(buf, i, x);
    }
  }

  lemma OnlyOneWith(buf: seq<Sent>, i: nat)
    requires Increasing(buf) && i < |buf|
    ensures forall x :: x in buf && x.msg.clock == buf[i].msg.clock ==> x == buf[i]
  {
    forall x | x in buf && x.msg.clock == buf[i].msg.clock ensures x == buf[i] {
      var j :| 0 <= j < |buf| && buf[j] == x;
    }
  }

  lemma RemoveOne(buf: seq<Sent>, i: nat)
    requires Increasing(buf) && i < |buf|
    ensures Increasing(DelAt(buf, i))
    ensures forall x :: x in DelAt(buf, i) <==> x in buf && x.msg.clock != buf[i].msg.clock
  {
    var r := DelAt(buf, i);
    forall x | x in buf && x.msg.clock != buf[i].msg.clock ensures x in r {
      var j :| 0 <= j < |buf| && buf[j] == x;
      assert r[if j < i then j else j - 1] == x;
    }
  }

  lemma ReplaceOne(buf: seq<Sent>, i: nat, x: Sent)
    requires Increasing(buf) && i < |buf| && x.msg == buf[i].msg
    ensures Increasing(buf[i := x])
    ensures forall y :: y in buf[i := x] <==> y == x || (y in buf && y.msg.clock != x.msg.clock)
  {
    var r := buf[i := x];
    assert r[i] == x;
    forall y | y in buf && y.msg.clock != x.msg.clock ensures y in r {
      var j :| 0 <= j < |buf| && buf[j] == y;
      assert r[j] == y;
    }
  }

  /** A second copy of an acknowledgement, and one that comes before its message, change nothing. */
  lemma AckIsIdempotent(buf: seq<Sent>, c: nat, q: nat)
    requires Increasing(buf) && forall x :: x in buf ==> x.acked != x.target
    ensures RegisterAck(RegisterAck(buf, c, q), c, q) == RegisterAck(buf, c, q)
    ensures (forall x :: x in buf ==> x.msg.clock != c) ==> RegisterAck(buf, c, q) == buf
  {
    var i := FirstSent(buf, c);
    if i < |buf| {
      assert buf[i] in buf;
      var x := buf[i].(acked := buf[i].acked + {q});
      if x.acked == x.target {
        RetiredIsGone(buf, i);
      } else {
        MarkedStays(buf, i, x);
      }
    }
  }

  lemma RetiredIsGone(buf: seq<Sent>, i: nat)
    requires Increasing(buf) && i < |buf|
    ensures FirstSent(DelAt(buf, i), buf[i].msg.clock) == |buf| - 1
  {
    var r := DelAt(buf, i);
    forall j | 0 <= j < |r| ensures r[j].msg.clock != buf[i].msg.clock {
      assert r[j] == if j < i then buf[j] else buf[j + 1];
    }
  }

  lemma MarkedStays(buf: seq<Sent>, i: nat, x: Sent)
    requires Increasing(buf) && i < |buf| && x.msg == buf[i].msg
    ensures FirstSent(buf[i := x], x.msg.clock) == i && buf[i := x][i := x] == buf[i := x]
  {
    var r := buf[i := x];
    assert r[i] == x && forall j :: 0 <= j < i ==> r[j] == buf[j];
  }

  // ---- the ageing round ----

  function Unacked(peers: seq<nat>, x: Sent): seq<nat> { Select(peers, IsMissing(x.acked)) }

  /** Appends the elements of `xs` that are not there yet. */
  function AddNew(acc: seq<nat>, xs: seq<nat>): seq<nat> {
    if xs == [] then acc
    else
      var before := AddNew(acc, xs[..|xs| - 1]);
      if xs[|xs| - 1] in before then before else before + [xs[|xs| - 1]]
  }

  /** The peers found missing by some message, in the order they are found. */
  function Collect(peers: seq<nat>, ms: seq<Sent>): seq<nat> {
    if ms == [] then [] else AddNew(Collect(peers, ms[..|ms| - 1]), Unacked(peers, ms[|ms| - 1]))
  }

  /** `find_dead_peers`; the empty sequence stands for the null pointer as well. */
  function DeadPeers(peers: seq<nat>, ms: seq<Sent>): seq<nat> {
    if exists x :: x in ms && Unacked(peers, x) == [] then [] else Collect(peers, ms)
  }

  lemma {:induction false} AddNewMembers(acc: seq<nat>, xs: seq<nat>)
    requires Distinct(acc)
    ensures Distinct(AddNew(acc, xs))
    ensures forall q :: q in AddNew(acc, xs) <==> q in acc || q in xs
  {
    if xs != [] {
      AddNewMembers(acc, xs[..|xs| - 1]);
      assert xs == xs[..|xs| - 1] + [xs[|xs| - 1]];
    }
  }

  predicate MissedBySome(peers: seq<nat>, ms: seq<Sent>, q: nat) {
    q in peers && exists x :: x in ms && q !in x.acked
  }

  /** `find_dead_peers` lists, once each, exactly the peers some message still misses. */
  lemma {:induction false} CollectMembers(peers: seq<nat>, ms: seq<Sent>)
    ensures Distinct(Collect(peers, ms))
    ensures forall q :: q in Collect(peers, ms) <==> MissedBySome(peers, ms, q)
  {
    if ms != [] {
      var init, last := ms[..|ms| - 1], ms[|ms| - 1];
      assert ms == init + [last];
      CollectMembers(peers, init);
      AddNewMembers(Collect(peers, init), Unacked(peers, last));
      forall q ensures q in Collect(peers, ms) <==> MissedBySome(peers, ms, q) {
        SelectMembers(peers, IsMissing(last.acked), q);
      }
    }
  }

  function IsNew(acked: set<nat>, found: seq<nat>): nat -> bool {
    (q: nat) => q !in acked && q !in found
  }

  lemma {:induction false} AddNewOf(acc: seq<nat>, peers: seq<nat>, acked: set<nat>)
    requires Distinct(peers)
    ensures AddNew(acc, Select(peers, IsMissing(acked))) == acc + Select(peers, IsNew(acked, acc))
  {
    if peers != [] {
      var init, q := peers[..|peers| - 1], peers[|peers| - 1];
      AddNewOf(acc, init, acked);
      SelectMembers(init, IsNew(acked, acc), q);
      assert q !in init;
      var first, more := Select(init, IsMissing(acked)), Select(init, IsNew(acked, acc));
      assert (first + [q])[..|first|] == first;
      assert acc + (more + [q]) == (acc + more) + [q] && more + [] == more && first + [] == first;
    }
  }

  /** The peers are listed in the order they are found: each message adds, in the order of the
      peers, those that no message before it has added. */
  lemma FoundInOrder(peers: seq<nat>, ms: seq<Sent>, x: Sent)
    requires Distinct(peers)
    ensures Collect(peers, ms + [x]) == Collect(peers, ms) + Select(peers, IsNew(x.acked, Collect(peers, ms)))
  {
    assert (ms + [x])[..|ms|] == ms;
    AddNewOf(Collect(peers, ms), peers, x.acked);
  }

  /** When `find_dead_peers` names nobody: without messages, and when some message misses no
      peer. */
  lemma NamesNobodyIff(peers: seq<nat>, ms: seq<Sent>)
    ensures DeadPeers(peers, ms) == [] <==> ms == [] || exists x :: x in ms && MissesNobody(peers, x)
    ensures DeadPeers(peers, ms) != [] ==> forall q :: q in DeadPeers(peers, ms) <==> MissedBySome(peers, ms, q)
  {
    CollectMembers(peers, ms);
    forall x | x in ms ensures Unacked(peers, x) == [] <==> MissesNobody(peers, x) {
      NoneMissing(peers, x);
    }
    if ms != [] && forall x :: x in ms ==> !MissesNobody(peers, x) {
      assert ms[0] in ms;
      var q :| q in peers && q !in ms[0].acked;
      assert q in Collect(peers, ms);
    }
  }

  predicate MissesNobody(peers: seq<nat>, x: Sent) { forall q :: q in peers ==> q in x.acked }

  lemma NoneMissing(peers: seq<nat>, x: Sent)
    ensures Unacked(peers, x) == [] <==> MissesNobody(peers, x)
  {
    forall q ensures q in Unacked(peers, x) <==> q in peers && q !in x.acked {
      SelectMembers(peers, IsMissing(x.acked), q);
    }
    if Unacked(peers, x) != [] {
      assert Unacked(peers, x)[0] in Unacked(peers, x);
    }
  }

  function Mark(x: Sent, dead: set<nat>): Sent { x.(acked := x.acked + dead) }

  /** Dead peers' bits are set in every message. */
  function MarkAll(ms: seq<Sent>, dead: set<nat>): (r: seq<Sent>)
    ensures |r| == |ms|
  {
    seq(|ms|, i requires 0 <= i < |ms| => Mark(ms[i], dead))
  }

  /** The messages `handle_dead_peers` keeps. */
  function Purge(buf: seq<Sent>, dead: set<nat>): seq<Sent> {
    Select(MarkAll(buf, dead), IsUnstable())
  }

  /** The retransmission of `x` to `q`. */
  function Resend(x: Sent, q: nat): Outgoing { Outgoing(RetransmitMsg(x.msg), Some(q)) }

  function RetransmitTo(x: Sent, targets: seq<nat>): (r: seq<Outgoing>)
    ensures |r| == |targets|
  {
    seq(|targets|, j requires 0 <= j < |targets| => Resend(x, targets[j]))
  }

  /** `retransmit_messages`: works from the end of the list and gives up at the first
      message without a missing peer. */
  function RetransmitRound(peers: seq<nat>, ms: seq<Sent>): seq<Outgoing> {
    if ms == [] then []
    else
      var x := ms[|ms| - 1];
      if Unacked(peers, x) == [] then []
      else RetransmitTo(x, Unacked(peers, x)) + RetransmitRound(peers, ms[..|ms| - 1])
  }

  predicate ResendsMissing(peers: seq<nat>, ms: seq<Sent>, o: Outgoing) {
    exists x, q :: x in ms && q in Unacked(peers, x) && o == Resend(x, q)
  }

  /** A round over messages that each miss a peer queues one retransmission for every message
      and missing peer, and nothing else: the early return is not taken. */
  lemma {:induction false} RoundIsComplete(peers: seq<nat>, ms: seq<Sent>)
    requires forall x :: x in ms ==> Unacked(peers, x) != []
    ensures forall o :: o in RetransmitRound(peers, ms) <==> ResendsMissing(peers, ms, o)
    ensures Distinct(peers) && Increasing(ms) ==> Distinct(RetransmitRound(peers, ms))
  {
    if ms != [] {
      var init, x := ms[..|ms| - 1], ms[|ms| - 1];
      assert ms == init + [x];
      RoundIsComplete(peers, init);
      ResendMembers(x, Unacked(peers, x));
      if Distinct(peers) && Increasing(ms) {
        SelectDistinct(peers, IsMissing(x.acked));
        RoundsDiffer(peers, init, x);
      }
    }
  }

  lemma {:induction false} RoundFrom(peers: seq<nat>, ms: seq<Sent>, j: nat) returns (k: nat)
    requires j < |RetransmitRound(peers, ms)|
    ensures k < |ms| && RetransmitRound(peers, ms)[j].msg.clock == ms[k].msg.clock
  {
    k := |ms| - 1;
    var n := |Unacked(peers, ms[k])|;
    if j >= n {
      k := RoundFrom(peers, ms[..k], j - n);
    }
  }

  /** A round goes from the newest message to the oldest. */
  lemma {:induction false} RoundNewestFirst(peers: seq<nat>, ms: seq<Sent>, i: nat, j: nat)
    requires Increasing(ms) && i <= j < |RetransmitRound(peers, ms)|
    ensures RetransmitRound(peers, ms)[i].msg.clock >= RetransmitRound(peers, ms)[j].msg.clock
  {
    var last := |ms| - 1;
    var n := |Unacked(peers, ms[last])|;
    if n <= i {
      RoundNewestFirst(peers, ms[..last], i - n, j - n);
    } else if n <= j {
      var k := RoundFrom(peers, ms[..last], j - n);
      assert ms[..last][k] == ms[k];
    }
  }

  lemma ResendMembers(x: Sent, targets: seq<nat>)
    ensures forall o :: o in RetransmitTo(x, targets) <==> exists q :: q in targets && o == Resend(x, q)
    ensures Distinct(targets) ==> Distinct(RetransmitTo(x, targets))
  {
    var mine := RetransmitTo(x, targets);
    assert forall j :: 0 <= j < |mine| ==> mine[j] == Resend(x, targets[j]);
    forall q | q in targets ensures Resend(x, q) in mine {
      var j :| 0 <= j < |targets| && targets[j] == q;
      assert mine[j] == Resend(x, q);
    }
  }

  lemma RoundsDiffer(peers: seq<nat>, init: seq<Sent>, x: Sent)
    requires Increasing(init + [x])
    requires forall o :: o in RetransmitRound(peers, init) ==> ResendsMissing(peers, init, o)
    requires Distinct(RetransmitTo(x, Unacked(peers, x))) && Distinct(RetransmitRound(peers, init))
    ensures Distinct(RetransmitTo(x, Unacked(peers, x)) + RetransmitRound(peers, init))
  {
    var a, b := RetransmitTo(x, Unacked(peers, x)), RetransmitRound(peers, init);
    forall o | o in b ensures o.msg.clock < x.msg.clock {
      var y, q :| y in init && q in Unacked(peers, y) && o == Resend(y, q);
      var j :| 0 <= j < |init| && init[j] == y;
      assert (init + [x])[j] == y && (init + [x])[|init|] == x;
    }
    forall i, j | 0 <= i < j < |a + b| ensures (a + b)[i] != (a + b)[j] {
      if i < |a| <= j {
        assert (a + b)[j] in b;
        assert a[i] == Resend(x, Unacked(peers, x)[i]);
      }
    }
  }

  lemma {:induction false} SelectDistinct<T>(s: seq<T>, f: T -> bool)
    requires Distinct(s)
    ensures Distinct(Select(s, f))
  {
    if |s| > 0 {
      SelectDistinct(s[..|s| - 1], f);
      SelectMembers(s[..|s| - 1], f, s[|s| - 1]);
    }
  }

  /** The round stops early exactly if some message misses no peer: then the messages before
      the last such one are not retransmitted. */
  lemma {:induction false} RoundStopsAt(peers: seq<nat>, ms: seq<Sent>, i: nat)
    requires i < |ms| && Unacked(peers, ms[i]) == []
    requires forall j :: i < j < |ms| ==> Unacked(peers, ms[j]) != []
    ensures RetransmitRound(peers, ms) == RetransmitRound(peers, ms[i + 1..])
  {
    if i + 1 < |ms| {
      RoundStopsAt(peers, ms[..|ms| - 1], i);
      assert ms[i + 1..][..|ms| - i - 2] == ms[..|ms| - 1][i + 1..];
    }
  }

  /** Every message that misses a peer is retransmitted to it. */
  ghost predicate RoundCovers(peers: seq<nat>, ms: seq<Sent>) {
    forall o :: ResendsMissing(peers, ms, o) ==> o in RetransmitRound(peers, ms)
  }

  /** No message without a missing peer comes after one that still misses a peer. */
  predicate FinishedFirst(peers: seq<nat>, ms: seq<Sent>) {
    forall i, j :: 0 <= i < j < |ms| && Unacked(peers, ms[j]) == [] ==> Unacked(peers, ms[i]) == []
  }

  /** When the early return skips nothing: exactly if the messages without a missing peer
      come first in the list. */
  lemma {:induction false} RoundCoversIff(peers: seq<nat>, ms: seq<Sent>)
    requires Increasing(ms)
    ensures RoundCovers(peers, ms) <==> FinishedFirst(peers, ms)
  {
    if ms != [] {
      var init, x := ms[..|ms| - 1], ms[|ms| - 1];
      assert ms == init + [x];
      RoundCoversIff(peers, init);
      ResendMembers(x, Unacked(peers, x));
      if Unacked(peers, x) == [] {
        CoversNothing(peers, ms);
      } else {
        RoundCoversStep(peers, init, x);
      }
    }
  }

  lemma CoversNothing(peers: seq<nat>, ms: seq<Sent>)
    requires ms != [] && RetransmitRound(peers, ms) == [] && Unacked(peers, ms[|ms| - 1]) == []
    ensures RoundCovers(peers, ms) <==> FinishedFirst(peers, ms)
  {
    if RoundCovers(peers, ms) {
      forall i | 0 <= i < |ms| ensures Unacked(peers, ms[i]) == [] {
        if Unacked(peers, ms[i]) != [] {
          var q := Unacked(peers, ms[i])[0];
          assert ResendsMissing(peers, ms, Resend(ms[i], q));
        }
      }
    }
    if FinishedFirst(peers, ms) {
      forall x | x in ms ensures Unacked(peers, x) == [] {
        var i :| 0 <= i < |ms| && ms[i] == x;
      }
    }
  }

  lemma RoundCoversStep(peers: seq<nat>, init: seq<Sent>, x: Sent)
    requires Increasing(init + [x]) && Unacked(peers, x) != []
    requires RoundCovers(peers, init) <==> FinishedFirst(peers, init)
    requires RetransmitRound(peers, init + [x]) == RetransmitTo(x, Unacked(peers, x)) + RetransmitRound(peers, init)
    requires forall o :: o in RetransmitTo(x, Unacked(peers, x)) <==>
               exists q :: q in Unacked(peers, x) && o == Resend(x, q)
    ensures RoundCovers(peers, init + [x]) <==> FinishedFirst(peers, init + [x])
  {
    var ms := init + [x];
    assert FinishedFirst(peers, ms) <==> FinishedFirst(peers, init) by {
      assert forall i :: 0 <= i < |init| ==> ms[i] == init[i];
    }
    if RoundCovers(peers, ms) {
      forall o | ResendsMissing(peers, init, o) ensures o in RetransmitRound(peers, init) {
        var y, q :| y in init && q in Unacked(peers, y) && o == Resend(y, q);
        assert y in ms;
        assert ResendsMissing(peers, ms, o);
        var j :| 0 <= j < |init| && init[j] == y;
        assert ms[j] == y && ms[|init|] == x;
      }
    }
    if RoundCovers(peers, init) {
      forall o | ResendsMissing(peers, ms, o) ensures o in RetransmitRound(peers, ms) {
        var y, q :| y in ms && q in Unacked(peers, y) && o == Resend(y, q);
        if y in init {
          assert ResendsMissing(peers, init, o);
        }
      }
    }
  }
}
