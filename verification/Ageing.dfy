/** What one call of `handle_old_messages`, run as one step, does to a context in which no
    peer has been declared dead. */
module Ageing {
  import opened Messages
  import opened Sequences
  import opened Retention
  import opened Contexts

  /** No declaration so far: messages await all peers, miss at least one, and have clocks the
      context has handed out. */
  ghost predicate Undeclared(d: Context) {
    && d.Shaped()
    && d.dead == {}
    && d.Now() < 65536
    && Increasing(d.sentBuf)
    && AwaitsAll(d.sentBuf, AsSet(d.peers))
    && forall x :: x in d.sentBuf ==> x.msg.clock <= d.Now()
  }

  function MessageAge(d: Context, x: Sent): int
    requires d.Shaped()
  {
    d.Now() - x.msg.clock
  }

  /** Peer `q` has left a message unacknowledged for six messages or more. */
  ghost predicate Silent(d: Context, q: nat)
    requires d.Shaped()
  {
    q in d.peers && exists x :: x in d.sentBuf && MessageAge(d, x) >= 6 && q !in x.acked
  }

  lemma UnackedMembers(peers: seq<nat>, x: Sent)
    ensures forall q :: q in Unacked(peers, x) <==> q in peers && q !in x.acked
    ensures x.acked < AsSet(peers) ==> Unacked(peers, x) != []
  {
    forall q ensures q in Unacked(peers, x) <==> q in peers && q !in x.acked {
      SelectMembers(peers, IsMissing(x.acked), q);
    }
    if x.acked < AsSet(peers) {
      assert !(AsSet(peers) <= x.acked);
      var q :| q in AsSet(peers) && q !in x.acked;
      assert q in Unacked(peers, x);
    }
  }

  lemma OldMembers(d: Context, x: Sent)
    requires Undeclared(d)
    ensures x in d.OldOnes() <==> x in d.sentBuf && MessageAge(d, x) >= 2
    ensures x in Select(d.OldOnes(), IsDead(d.Now())) <==> x in d.sentBuf && MessageAge(d, x) >= 6
    ensures x in Select(d.OldOnes(), IsYoung(d.Now())) <==>
              x in d.sentBuf && 2 <= MessageAge(d, x) <= 5
  {
    SelectMembers(d.sentBuf, IsOld(d.Now()), x);
    SelectMembers(d.OldOnes(), IsDead(d.Now()), x);
    SelectMembers(d.OldOnes(), IsYoung(d.Now()), x);
  }

  /** The round declares dead, once each, exactly the silent peers. */
  lemma DeclaresTheSilent(d: Context)
    requires Undeclared(d)
    ensures Distinct(d.Gone())
    ensures forall q :: q in d.Gone() <==> Silent(d, q)
    ensures |d.Gone()| <= |d.peers|
  {
    var deadOnes := Select(d.OldOnes(), IsDead(d.Now()));
    forall x | x in deadOnes ensures Unacked(d.peers, x) != [] {
      OldMembers(d, x);
      UnackedMembers(d.peers, x);
    }
    CollectMembers(d.peers, deadOnes);
    forall q ensures q in d.Gone() <==> Silent(d, q) {
      forall x ensures x in deadOnes <==> x in d.sentBuf && MessageAge(d, x) >= 6 {
        OldMembers(d, x);
      }
    }
    DistinctFits(d.Gone(), d.peers);
  }

  lemma EmptyOrNot<T>(s: seq<T>)
    ensures s == [] || exists x :: x in s
  {
    if s != [] {
      assert s[0] in s;
    }
  }

  /** Distinct elements of a sequence are no more than its length. */
  lemma {:induction false} DistinctFits(a: seq<nat>, b: seq<nat>)
    requires Distinct(a) && forall q :: q in a ==> q in b
    ensures |a| <= |b|
    decreases |a|
  {
    if a != [] {
      var q := a[0];
      assert q in a;
      var i :| 0 <= i < |b| && b[i] == q;
      forall r | r in a[1..] ensures r in DelAt(b, i) {
        assert r in a;
        var j :| 0 <= j < |b| && b[j] == r;
        assert DelAt(b, i)[if j < i then j else j - 1] == r;
      }
      DistinctFits(a[1..], DelAt(b, i));
    }
  }

  /** What a declaration keeps: a message stays, with the dead peers' bits set, exactly if a
      peer that is not declared dead still misses it. */
  lemma PurgeKeepsTheNeeded(d: Context, gone: set<nat>, y: Sent)
    requires Undeclared(d) && gone <= AsSet(d.peers)
    ensures y in Purge(d.sentBuf, gone) <==>
            exists x :: x in d.sentBuf && y == Mark(x, gone) && !(AsSet(d.peers) <= x.acked + gone)
  {
    var marked := MarkAll(d.sentBuf, gone);
    SelectMembers(marked, IsUnstable(), y);
    if y in Purge(d.sentBuf, gone) {
      var i :| 0 <= i < |marked| && marked[i] == y;
      assert d.sentBuf[i] in d.sentBuf;
    }
    if x :| x in d.sentBuf && y == Mark(x, gone) && !(AsSet(d.peers) <= x.acked + gone) {
      var i :| 0 <= i < |d.sentBuf| && d.sentBuf[i] == x;
      assert marked[i] == y;
    }
  }

  ghost function SilentPeers(d: Context): set<nat>
    requires d.Shaped()
  {
    set q | q in d.peers && Silent(d, q)
  }

  /** After the round no buffered message has age 6 or more, so at most six are left. */
  lemma RoundBoundsBuffer(d: Context)
    requires Undeclared(d)
    ensures forall y :: y in d.HandleOld().sentBuf ==> 0 <= MessageAge(d, y) <= 5
    ensures Increasing(d.HandleOld().sentBuf)
    ensures |d.HandleOld().sentBuf| <= 6
  {
    var gone := AsSet(d.Gone());
    DeclaresTheSilent(d);
    forall y | y in d.HandleOld().sentBuf ensures 0 <= MessageAge(d, y) <= 5 {
      if d.HandleOld().sentBuf == d.sentBuf {
        OldMembers(d, y);
        if MessageAge(d, y) >= 6 {
          StaleNamesAPeer(d, y);
          PurgeKeepsTheNeeded(d, gone, y);
        }
      } else {
        PurgeKeepsTheNeeded(d, gone, y);
        var x :| x in d.sentBuf && y == Mark(x, gone) && !(AsSet(d.peers) <= x.acked + gone);
      }
    }
    MarkKeepsOrder(d.sentBuf, gone);
    SelectKeepsOrder(MarkAll(d.sentBuf, gone), IsUnstable());
    CloseClocksAreFew(d.HandleOld().sentBuf, d.Now());
  }

  /** A message of age 6 or more makes the round declare a peer dead. */
  lemma StaleNamesAPeer(d: Context, x: Sent)
    requires Undeclared(d) && x in d.sentBuf && MessageAge(d, x) >= 6
    ensures d.Gone() != [] && d.HandleOld().sentBuf == Purge(d.sentBuf, AsSet(d.Gone()))
  {
    OldMembers(d, x);
    UnackedMembers(d.peers, x);
    var q := Unacked(d.peers, x)[0];
    assert q in Unacked(d.peers, x);
    DeclaresTheSilent(d);
    assert Silent(d, q);
  }

  lemma MarkKeepsOrder(ms: seq<Sent>, dead: set<nat>)
    requires Increasing(ms)
    ensures Increasing(MarkAll(ms, dead))
  {
  }

  lemma {:induction false} SelectKeepsOrder(ms: seq<Sent>, f: Sent -> bool)
    requires Increasing(ms)
    ensures Increasing(Select(ms, f))
  {
    if ms != [] {
      var init, x := ms[..|ms| - 1], ms[|ms| - 1];
      SelectKeepsOrder(init, f);
      forall y | y in Select(init, f) ensures y.msg.clock < x.msg.clock {
        SelectMembers(init, f, y);
      }
      assert forall i :: 0 <= i < |Select(init, f)| ==> Select(init, f)[i] in Select(init, f);
    }
  }

  lemma {:induction false} ClocksSpread(ms: seq<Sent>, i: nat)
    requires Increasing(ms) && i < |ms|
    ensures ms[i].msg.clock >= ms[0].msg.clock + i
  {
    if i > 0 {
      ClocksSpread(ms, i - 1);
    }
  }

  lemma CloseClocksAreFew(ms: seq<Sent>, now: nat)
    requires Increasing(ms)
    requires forall x :: x in ms ==> now - 6 < x.msg.clock <= now
    ensures |ms| <= 6
  {
    if ms != [] {
      ClocksSpread(ms, |ms| - 1);
      assert ms[0] in ms && ms[|ms| - 1] in ms;
    }
  }

  lemma {:induction false} DistinctCount(a: seq<nat>)
    requires Distinct(a)
    ensures |AsSet(a)| == |a|
    decreases |a|
  {
    if a != [] {
      DistinctCount(a[1..]);
      assert forall i :: 0 <= i < |a[1..]| ==> a[1..][i] == a[i + 1];
      assert AsSet(a) == {a[0]} + AsSet(a[1..]);
    }
  }

  lemma GoneAreSilent(d: Context)
    requires Undeclared(d)
    ensures AsSet(d.Gone()) == SilentPeers(d) && |d.Gone()| == |SilentPeers(d)|
    ensures d.Gone() == [] <==> SilentPeers(d) == {}
  {
    DeclaresTheSilent(d);
    DistinctCount(d.Gone());
    EmptyOrNot(d.Gone());
  }

  /** A round skips nothing by returning early: then nobody is silent. */
  lemma NoRoundNoSilence(d: Context)
    requires Undeclared(d) && (d.sentBuf == [] || d.peers == [] || d.OldOnes() == [])
    ensures d.HandleOld() == d && SilentPeers(d) == {}
  {
    forall q | q in d.peers && Silent(d, q) ensures false {
      var x :| x in d.sentBuf && MessageAge(d, x) >= 6 && q !in x.acked;
      OldMembers(d, x);
    }
  }

  /** What a round declares: the silent peers become dead and get no more broadcasts. Only the
      send side changes. */
  lemma RoundDeclares(d: Context)
    requires Undeclared(d)
    ensures var e := d.HandleOld();
            && e == d.(dead := SilentPeers(d), connected := e.connected, sentBuf := e.sentBuf, sendQ := e.sendQ)
            && (forall q :: q in e.Targets() <==> q in d.peers && !Silent(d, q))
  {
    var e := d.HandleOld();
    RoundFrame(d, e);
    forall q ensures q in e.Targets() <==> q in d.peers && !Silent(d, q) {
      SelectMembers(e.peers, IsMissing(e.dead), q);
    }
  }

  lemma RoundFrame(d: Context, e: Context)
    requires Undeclared(d) && e == d.HandleOld()
    ensures e == d.(dead := SilentPeers(d), connected := e.connected, sentBuf := e.sentBuf, sendQ := e.sendQ)
  {
    GoneAreSilent(d);
    if d.sentBuf == [] || d.peers == [] || d.OldOnes() == [] {
      NoRoundNoSilence(d);
    } else {
      DeadBecome(d);
    }
  }

  lemma DeadBecome(d: Context)
    requires d.dead == {} && d.Shaped() && AsSet(d.Gone()) == SilentPeers(d)
    ensures d.HandleDead(d.Gone()).dead == SilentPeers(d)
  {
    assert SilentPeers(d) * AsSet(d.peers) == SilentPeers(d);
    assert {} + SilentPeers(d) == SilentPeers(d);
  }

  /** ... and the node counts as disconnected if no peer, or fewer than half of them, remain. */
  lemma RoundDisconnects(d: Context)
    requires Undeclared(d)
    ensures var lost, all := |SilentPeers(d)|, |d.peers|;
            d.HandleOld().connected <==> d.connected && (lost == 0 || (all - lost >= 1 && all - lost >= all / 2))
  {
    GoneAreSilent(d);
    if d.sentBuf == [] || d.peers == [] || d.OldOnes() == [] {
      NoRoundNoSilence(d);
    }
  }

  /** What a round keeps buffered: exactly the messages that a peer misses which is not silent,
      with the silent ones counted as acknowledged. */
  lemma RoundKeeps(d: Context, y: Sent)
    requires Undeclared(d)
    ensures y in d.HandleOld().sentBuf <==>
            exists x :: x in d.sentBuf && MissesLiving(d, x) && y == x.(acked := x.acked + SilentPeers(d))
  {
    GoneAreSilent(d);
    if d.HandleOld().sentBuf == d.sentBuf && d.Gone() == [] {
      NothingMarked(d);
    } else {
      PurgeKeepsTheNeeded(d, SilentPeers(d), y);
      forall x | x in d.sentBuf
        ensures MissesLiving(d, x) <==> !(AsSet(d.peers) <= x.acked + SilentPeers(d))
      {
        LivingLeft(d, x);
      }
    }
  }

  lemma LivingLeft(d: Context, x: Sent)
    requires d.Shaped()
    ensures MissesLiving(d, x) <==> !(AsSet(d.peers) <= x.acked + SilentPeers(d))
  {
    if MissesLiving(d, x) {
      var q :| q in d.peers && q !in x.acked && !Silent(d, q);
      assert q in AsSet(d.peers) && q !in SilentPeers(d);
    }
    if !(AsSet(d.peers) <= x.acked + SilentPeers(d)) {
      var q :| q in AsSet(d.peers) && q !in x.acked + SilentPeers(d);
    }
  }

  lemma NothingMarked(d: Context)
    requires Undeclared(d) && SilentPeers(d) == {}
    ensures forall x :: x in d.sentBuf ==> MissesLiving(d, x) && x.(acked := x.acked + SilentPeers(d)) == x
  {
    forall x | x in d.sentBuf ensures MissesLiving(d, x) && x.(acked := x.acked + SilentPeers(d)) == x {
      UnackedMembers(d.peers, x);
      var q := Unacked(d.peers, x)[0];
      assert q in Unacked(d.peers, x);
      assert x.acked + {} == x.acked;
    }
  }

  /** The retransmission `o` is due: a buffered message of age 2 to 5, to a peer that has
      not acknowledged it. */
  ghost predicate Due(d: Context, o: Outgoing)
    requires d.Shaped()
  {
    exists x, q ::
      && x in d.sentBuf && 2 <= MessageAge(d, x) <= 5
      && q in d.peers && q !in x.acked
      && o == Outgoing(Msg(Retransmit, x.msg.clock, x.msg.payload), Some(q))
  }

  lemma DueIsMissing(d: Context, o: Outgoing)
    requires Undeclared(d)
    ensures ResendsMissing(d.peers, Select(d.OldOnes(), IsYoung(d.Now())), o) <==> Due(d, o)
  {
    var young := Select(d.OldOnes(), IsYoung(d.Now()));
    if ResendsMissing(d.peers, young, o) {
      var x, q :| x in young && q in Unacked(d.peers, x) && o == Resend(x, q);
      OldMembers(d, x);
      UnackedMembers(d.peers, x);
    }
    if Due(d, o) {
      var x, q :| x in d.sentBuf && 2 <= MessageAge(d, x) <= 5
                  && q in d.peers && q !in x.acked && o == Resend(x, q);
      OldMembers(d, x);
      UnackedMembers(d.peers, x);
    }
  }

  /** A round in which every peer is heard of changes no message and queues exactly one
      retransmission for every message of age 2 to 5 and peer that misses it. */
  lemma QuietRound(d: Context)
    requires Undeclared(d) && forall q :: !Silent(d, q)
    ensures exists out :: d.HandleOld() == d.(sendQ := d.sendQ + out) && Distinct(out)
                          && forall o :: o in out <==> Due(d, o)
  {
    DeclaresTheSilent(d);
    EmptyOrNot(d.Gone());
    var young := Select(d.OldOnes(), IsYoung(d.Now()));
    var out := RetransmitRound(d.peers, young);
    forall x | x in young ensures Unacked(d.peers, x) != [] {
      OldMembers(d, x);
      UnackedMembers(d.peers, x);
    }
    RoundIsComplete(d.peers, young);
    SelectKeepsOrder(d.sentBuf, IsOld(d.Now()));
    SelectKeepsOrder(d.OldOnes(), IsYoung(d.Now()));
    forall o ensures o in out <==> Due(d, o) {
      DueIsMissing(d, o);
    }
    EmptyOrNot(d.sentBuf);
    if d.sentBuf == [] || d.peers == [] || d.OldOnes() == [] {
      assert d.sendQ + out == d.sendQ;
    }
    assert d.HandleOld() == d.(sendQ := d.sendQ + out);
  }

  ghost predicate Young(d: Context, x: Sent)
    requires d.Shaped()
  {
    x in d.sentBuf && 2 <= MessageAge(d, x) <= 5
  }

  /** A peer that is not silent still misses the message. */
  ghost predicate MissesLiving(d: Context, x: Sent)
    requires d.Shaped()
  {
    exists q :: q in d.peers && q !in x.acked && !Silent(d, q)
  }

  /** The retransmission is due and goes to a peer that is not silent. */
  ghost predicate DueToLiving(d: Context, o: Outgoing)
    requires d.Shaped()
  {
    exists x, q ::
      && Young(d, x) && q in d.peers && q !in x.acked && !Silent(d, q)
      && o == Outgoing(Msg(Retransmit, x.msg.clock, x.msg.payload), Some(q))
  }

  lemma MarkMembers(ms: seq<Sent>, gone: set<nat>, x: Sent)
    ensures x in ms ==> Mark(x, gone) in MarkAll(ms, gone)
  {
    if x in ms {
      var i :| 0 <= i < |ms| && ms[i] == x;
      assert MarkAll(ms, gone)[i] == Mark(x, gone);
    }
  }

  lemma MarkOrigin(ms: seq<Sent>, gone: set<nat>, y: Sent) returns (x: Sent)
    requires y in MarkAll(ms, gone)
    ensures x in ms && y == Mark(x, gone)
  {
    var i :| 0 <= i < |ms| && MarkAll(ms, gone)[i] == y;
    x := ms[i];
  }

  /** The messages a round retransmits, whether or not it declares anyone. */
  lemma ToResendIs(d: Context)
    requires d.Shaped()
    ensures d.ToResend() == MarkAll(Select(d.OldOnes(), IsYoung(d.Now())), AsSet(d.Gone()))
  {
    if d.Gone() == [] {
      MarkNone(Select(d.OldOnes(), IsYoung(d.Now())));
    }
  }

  lemma MarkNone(ms: seq<Sent>)
    ensures MarkAll(ms, AsSet([])) == ms
  {
    assert forall i :: 0 <= i < |ms| ==> ms[i].acked + {} == ms[i].acked;
    assert AsSet([]) == {};
  }

  /** After marking, a message misses exactly the peers it missed that are not silent. */
  lemma MarkedMisses(d: Context, x: Sent)
    requires Undeclared(d)
    ensures forall q :: q in Unacked(d.peers, Mark(x, AsSet(d.Gone()))) <==>
              q in d.peers && q !in x.acked && !Silent(d, q)
    ensures Unacked(d.peers, Mark(x, AsSet(d.Gone()))) != [] <==> MissesLiving(d, x)
  {
    var y := Mark(x, AsSet(d.Gone()));
    UnackedMembers(d.peers, y);
    DeclaresTheSilent(d);
    EmptyOrNot(Unacked(d.peers, y));
  }

  lemma DueToLivingIsMissing(d: Context, o: Outgoing)
    requires Undeclared(d)
    ensures ResendsMissing(d.peers, d.ToResend(), o) <==> DueToLiving(d, o)
  {
    if ResendsMissing(d.peers, d.ToResend(), o) {
      MissingIsDue(d, o);
    }
    if DueToLiving(d, o) {
      DueIsListed(d, o);
    }
  }

  lemma MissingIsDue(d: Context, o: Outgoing)
    requires Undeclared(d) && ResendsMissing(d.peers, d.ToResend(), o)
    ensures DueToLiving(d, o)
  {
    var y, q :| y in d.ToResend() && q in Unacked(d.peers, y) && o == Resend(y, q);
    ToResendIs(d);
    var x := MarkOrigin(Select(d.OldOnes(), IsYoung(d.Now())), AsSet(d.Gone()), y);
    OldMembers(d, x);
    MarkedMisses(d, x);
  }

  lemma DueIsListed(d: Context, o: Outgoing)
    requires Undeclared(d) && DueToLiving(d, o)
    ensures ResendsMissing(d.peers, d.ToResend(), o)
  {
    var x, q :|
      && Young(d, x) && q in d.peers && q !in x.acked && !Silent(d, q)
      && o == Outgoing(Msg(Retransmit, x.msg.clock, x.msg.payload), Some(q));
    var gone := AsSet(d.Gone());
    ToResendIs(d);
    OldMembers(d, x);
    MarkMembers(Select(d.OldOnes(), IsYoung(d.Now())), gone, x);
    MarkedMisses(d, x);
    assert o == Resend(Mark(x, gone), q);
  }

  /** No message that only silent peers miss is newer than one that a living peer misses. */
  ghost predicate NoneCutOff(d: Context)
    requires d.Shaped()
  {
    forall x, y :: Young(d, x) && Young(d, y) && x.msg.clock < y.msg.clock && MissesLiving(d, x) ==> MissesLiving(d, y)
  }

  /** The place of a young message in the list of the round, and what the round sees of it. */
  lemma PlaceOf(d: Context, x: Sent) returns (i: nat)
    requires Undeclared(d) && Young(d, x)
    ensures i < |d.ToResend()| && d.ToResend()[i].msg == x.msg
    ensures Unacked(d.peers, d.ToResend()[i]) != [] <==> MissesLiving(d, x)
  {
    var young := Select(d.OldOnes(), IsYoung(d.Now()));
    ToResendIs(d);
    OldMembers(d, x);
    MarkedMisses(d, x);
    i :| i < |young| && young[i] == x;
    assert d.ToResend()[i] == Mark(x, AsSet(d.Gone()));
  }

  lemma FromPlace(d: Context, i: nat) returns (x: Sent)
    requires Undeclared(d) && i < |d.ToResend()|
    ensures Young(d, x) && d.ToResend()[i].msg == x.msg
    ensures Unacked(d.peers, d.ToResend()[i]) != [] <==> MissesLiving(d, x)
  {
    var young := Select(d.OldOnes(), IsYoung(d.Now()));
    ToResendIs(d);
    x := young[i];
    assert d.ToResend()[i] == Mark(x, AsSet(d.Gone()));
    OldMembers(d, x);
    MarkedMisses(d, x);
  }

  lemma FinishedFirstIs(d: Context)
    requires Undeclared(d)
    ensures FinishedFirst(d.peers, d.ToResend()) <==> NoneCutOff(d)
  {
    if FinishedFirst(d.peers, d.ToResend()) {
      FinishedCutsNone(d);
    }
    if NoneCutOff(d) {
      NoneCutFinishes(d);
    }
  }

  lemma FinishedCutsNone(d: Context)
    requires Undeclared(d) && FinishedFirst(d.peers, d.ToResend())
    ensures NoneCutOff(d)
  {
    YoungIncrease(d);
    forall x, y | Young(d, x) && Young(d, y) && x.msg.clock < y.msg.clock && MissesLiving(d, x)
      ensures MissesLiving(d, y)
    {
      var i := PlaceOf(d, x);
      var j := PlaceOf(d, y);
    }
  }

  lemma NoneCutFinishes(d: Context)
    requires Undeclared(d) && NoneCutOff(d)
    ensures FinishedFirst(d.peers, d.ToResend())
  {
    YoungIncrease(d);
    forall i, j | 0 <= i < j < |d.ToResend()| && Unacked(d.peers, d.ToResend()[j]) == []
      ensures Unacked(d.peers, d.ToResend()[i]) == []
    {
      var x := FromPlace(d, i);
      var y := FromPlace(d, j);
    }
  }

  lemma YoungIncrease(d: Context)
    requires Undeclared(d)
    ensures Increasing(Select(d.OldOnes(), IsYoung(d.Now()))) && Increasing(d.ToResend())
  {
    var young := Select(d.OldOnes(), IsYoung(d.Now()));
    SelectKeepsOrder(d.sentBuf, IsOld(d.Now()));
    SelectKeepsOrder(d.OldOnes(), IsYoung(d.Now()));
    MarkKeepsOrder(young, AsSet(d.Gone()));
  }

  /** What a round adds to the send queue. */
  lemma RoundAdds(d: Context)
    requires Undeclared(d)
    ensures d.HandleOld().sendQ == d.sendQ + RetransmitRound(d.peers, d.ToResend())
  {
    EmptyOrNot(d.sentBuf);
    if d.sentBuf == [] || d.peers == [] || d.OldOnes() == [] {
      assert d.OldOnes() == [] && d.ToResend() == [];
      assert d.sendQ + [] == d.sendQ;
    }
  }

  /** When a round, with or without a declaration, queues every retransmission that is due to
      a peer still alive: exactly if no message of age 2 to 5 that misses only silent peers is
      newer than one that misses a living peer. */
  lemma RoundQueuesAllIff(d: Context)
    requires Undeclared(d)
    ensures d.sendQ <= d.HandleOld().sendQ
    ensures (forall o :: DueToLiving(d, o) ==> o in d.HandleOld().sendQ[|d.sendQ|..]) <==> NoneCutOff(d)
  {
    RoundAdds(d);
    YoungIncrease(d);
    RoundCoversIff(d.peers, d.ToResend());
    FinishedFirstIs(d);
    forall o ensures ResendsMissing(d.peers, d.ToResend(), o) <==> DueToLiving(d, o) {
      DueToLivingIsMissing(d, o);
    }
    assert d.HandleOld().sendQ[|d.sendQ|..] == RetransmitRound(d.peers, d.ToResend());
  }

  /** Peer 1 misses the messages with clocks 1, 4 and 5; peer 2 misses only 4. */
  function CutShort(): Context {
    var m1 := Sent(Msg(Data, 1, [7]), {1, 2}, {2});
    var m4 := Sent(Msg(Data, 4, [7]), {1, 2}, {});
    var m5 := Sent(Msg(Data, 5, [7]), {1, 2}, {2});
    Context(0, [1, 2], {}, true, [7, 0, 0], [], [m1, m4, m5], [], [])
  }

  lemma CutShortOld()
    ensures CutShort().OldOnes() == CutShort().sentBuf
    ensures Select(CutShort().sentBuf, IsDead(7)) == [CutShort().sentBuf[0]]
  {
    var d := CutShort();
    var m1, m4, m5 := d.sentBuf[0], d.sentBuf[1], d.sentBuf[2];
    assert 1 in {1, 2} - {2} && 1 in {1, 2} - {};
    SelectThree(m1, m4, m5, IsOld(7));
    SelectThree(m1, m4, m5, IsDead(7));
  }

  lemma CollectOne(peers: seq<nat>, x: Sent, q: nat)
    requires Unacked(peers, x) == [q]
    ensures DeadPeers(peers, [x]) == [q]
  {
    var xs, qs := [x], [q];
    assert xs[..0] == [] && qs[..0] == [];
    assert Collect(peers, xs[..0]) == [];
    assert AddNew([], qs[..0]) == [];
    assert AddNew([], qs) == qs;
    assert Collect(peers, xs) == AddNew(Collect(peers, xs[..0]), Unacked(peers, x));
  }

  lemma CutShortUndeclared()
    ensures Undeclared(CutShort())
  {
    assert AsSet(CutShort().peers) == {1, 2};
    assert 1 in {1, 2} - {2} && 1 in {1, 2} - {};
  }

  lemma CutShortDeclaresOne()
    ensures CutShort().Gone() == [1]
  {
    var d := CutShort();
    CutShortOld();
    var x := d.sentBuf[0];
    SelectTwo<nat>(1, 2, IsMissing(x.acked));
    CollectOne(d.peers, x, 1);
  }

  lemma CutShortYoung()
    ensures var d := CutShort(); Select(d.sentBuf, IsYoung(7)) == [d.sentBuf[1], d.sentBuf[2]]
  {
    var d := CutShort();
    SelectThree(d.sentBuf[0], d.sentBuf[1], d.sentBuf[2], IsYoung(7));
  }

  lemma MarkTwo(a: Sent, b: Sent, gone: set<nat>)
    ensures MarkAll([a, b], gone) == [Mark(a, gone), Mark(b, gone)]
  {
  }

  lemma CutShortResends()
    ensures CutShort().ToResend() == [Mark(CutShort().sentBuf[1], {1}), Mark(CutShort().sentBuf[2], {1})]
  {
    var d := CutShort();
    CutShortOld();
    CutShortDeclaresOne();
    CutShortYoung();
    MarkTwo(d.sentBuf[1], d.sentBuf[2], {1});
    assert AsSet([1]) == {1};
  }

  /** A message that misses nobody hides the one before it. */
  lemma LastHidesFirst(peers: seq<nat>, first: Sent, last: Sent)
    requires first.msg.clock < last.msg.clock && Unacked(peers, first) != [] && Unacked(peers, last) == []
    ensures RetransmitRound(peers, [first, last]) == [] && !RoundCovers(peers, [first, last])
  {
    var ms := [first, last];
    assert Unacked(peers, ms[1]) == [] && Unacked(peers, ms[0]) != [];
    RoundCoversIff(peers, ms);
  }

  lemma CutShortMisses()
    ensures var d := CutShort();
            && Unacked(d.peers, Mark(d.sentBuf[1], {1})) != []
            && Unacked(d.peers, Mark(d.sentBuf[2], {1})) == []
  {
    var d := CutShort();
    var y4, y5 := Mark(d.sentBuf[1], {1}), Mark(d.sentBuf[2], {1});
    SelectTwo<nat>(1, 2, IsMissing(y5.acked));
    SelectTwo<nat>(1, 2, IsMissing(y4.acked));
    assert y5.acked == {1, 2} && 2 !in y4.acked;
  }

  lemma CutShortSkipsFour()
    ensures var d := CutShort();
            RetransmitRound(d.peers, d.ToResend()) == [] && !RoundCovers(d.peers, d.ToResend())
  {
    var d := CutShort();
    CutShortResends();
    CutShortMisses();
    LastHidesFirst(d.peers, Mark(d.sentBuf[1], {1}), Mark(d.sentBuf[2], {1}));
  }

  lemma CutShortKeepsFour()
    ensures Mark(CutShort().sentBuf[1], {1}) in Purge(CutShort().sentBuf, {1})
  {
    var d := CutShort();
    CutShortUndeclared();
    var x := d.sentBuf[1];
    assert x in d.sentBuf && AsSet(d.peers) == {1, 2};
    assert 2 !in x.acked + {1};
    PurgeKeepsTheNeeded(d, {1}, Mark(x, {1}));
  }

  lemma EmptyRoundOnlyPurges(d: Context)
    requires d.Shaped() && d.sentBuf != [] && d.peers != [] && d.OldOnes() != []
    requires d.Gone() != [] && RetransmitRound(d.peers, d.ToResend()) == []
    ensures d.HandleOld().sentBuf == Purge(d.sentBuf, AsSet(d.Gone()))
    ensures d.HandleOld().sendQ == d.sendQ
  {
    assert d.sendQ + [] == d.sendQ;
  }

  lemma CutShortFacts() returns (d: Context, x: Sent)
    ensures d == CutShort() && x == Mark(d.sentBuf[1], {1})
    ensures Undeclared(d) && d.Gone() == [1]
    ensures d.sentBuf != [] && d.peers != [] && d.OldOnes() != []
    ensures x.msg.clock == 4 && 2 !in x.acked && x in Purge(d.sentBuf, {1})
    ensures RetransmitRound(d.peers, d.ToResend()) == [] && !RoundCovers(d.peers, d.ToResend())
  {
    d := CutShort();
    x := Mark(d.sentBuf[1], {1});
    CutShortOld();
    CutShortUndeclared();
    CutShortDeclaresOne();
    CutShortSkipsFour();
    CutShortKeepsFour();
  }

  lemma CutShortOwesFour()
    ensures var d := CutShort(); DueToLiving(d, Resend(d.sentBuf[1], 2))
  {
    var d := CutShort();
    CutShortUndeclared();
    CutShortDeclaresOne();
    DeclaresTheSilent(d);
    var x := d.sentBuf[1];
    assert x in d.sentBuf && Young(d, x);
    assert 2 in d.peers && 2 !in x.acked && 2 !in d.Gone();
  }

  lemma CutShortIsReal()
    ensures CutShort().sendQ == [] && forall y :: y in CutShort().sentBuf ==> y.msg.payload != []
  {
  }

  /** The round of `d` declares a peer dead, keeps `x` buffered, owes it to another peer as
      `o`, and queues nothing. */
  ghost predicate RoundCutShort(d: Context, x: Sent, o: Outgoing) {
    && Undeclared(d) && d.Gone() != [] && (forall y :: y in d.sentBuf ==> y.msg.payload != [])
    && x in d.HandleOld().sentBuf && o.dest.Some? && o.dest.value !in x.acked && o == Resend(x, o.dest.value)
    && DueToLiving(d, o) && d.HandleOld().sendQ == d.sendQ == []
  }

  /** A declaration can cut the retransmissions of its own round short: in `CutShort` the
      message with clock 5 misses only the peer just declared dead, and because it comes last
      in the list the message with clock 4, which stays buffered, is not sent to peer 2. */
  lemma DeclarationCutsRoundShort()
    ensures exists d, x, o :: RoundCutShort(d, x, o)
  {
    var d, x := CutShortFacts();
    CutShortOwesFour();
    CutShortIsReal();
    CutShortPurges(d, x);
    assert Resend(x, 2) == Resend(d.sentBuf[1], 2);
    assert RoundCutShort(d, x, Resend(x, 2));
  }

  lemma CutShortPurges(d: Context, x: Sent)
    requires Undeclared(d) && d.sentBuf != [] && d.peers != [] && d.OldOnes() != [] && d.Gone() == [1]
    requires RetransmitRound(d.peers, d.ToResend()) == [] && x in Purge(d.sentBuf, {1})
    ensures x in d.HandleOld().sentBuf && d.HandleOld().sendQ == d.sendQ
  {
    EmptyRoundOnlyPurges(d);
    assert AsSet([1]) == {1};
  }

  lemma SelectTwo<T>(a: T, b: T, f: T -> bool)
    ensures Select([a, b], f) == (if f(a) then [a] else []) + (if f(b) then [b] else [])
  {
    SelectPush([], a, f);
    SelectPush([a], b, f);
    assert [] + [a] == [a] && [a] + [b] == [a, b];
  }

  lemma SelectThree<T>(a: T, b: T, c: T, f: T -> bool)
    ensures Select([a, b, c], f) ==
            (if f(a) then [a] else []) + (if f(b) then [b] else []) + (if f(c) then [c] else [])
  {
    SelectTwo(a, b, f);
    SelectPush([a, b], c, f);
    assert [a, b] + [c] == [a, b, c];
  }
}
