/** The receive side of a node as functions on values: what `receive.c` decides about an
    arriving message and what draining the held buffer delivers. */
module Delivery {
  import opened Messages
  import opened Sequences

  datatype Verdict = Error | Deliver | Hold

  /** `check_msg_causality`, given the clock last delivered from the sender. */
  function CheckCausality(delivered: nat, clock: nat): Verdict {
    if delivered + 1 == clock then Deliver
    else if delivered + 1 < clock then Hold
    else Error
  }

  predicate Matches(r: Received, s: nat, c: nat) {
    r.sender == s && r.msg.clock == c
  }

  /** The index of the first held message of `s` with clock `c`, or the length. */
  function FirstHeld(held: seq<Received>, s: nat, c: nat): (i: nat)
    ensures i <= |held|
    ensures i < |held| ==> Matches(held[i], s, c)
    ensures forall j :: 0 <= j < i ==> !Matches(held[j], s, c)
  {
    if held == [] then 0
    else if Matches(held[0], s, c) then 0
    else 1 + FirstHeld(held[1..], s, c)
  }

  predicate IsHeld(held: seq<Received>, s: nat, c: nat) {
    exists r :: r in held && Matches(r, s, c)
  }

  /** What `try_deliver_held_msgs` moves to the delivery queue and what it leaves. */
  function Drain(held: seq<Received>, s: nat, delivered: nat): (r: (seq<Received>, seq<Received>))
    ensures |r.0| + |r.1| == |held|
    decreases |held|
  {
    var i := FirstHeld(held, s, delivered + 1);
    if i == |held| then ([], held)
    else
      var (out, rest) := Drain(DelSwap(held, i), s, delivered + 1);
      ([held[i]] + out, rest)
  }

  /** One round of the search moves the first ready message; the rest is drained after it. */
  lemma DrainStep(held: seq<Received>, s: nat, delivered: nat, less: seq<Received>)
    requires var i := FirstHeld(held, s, delivered + 1); i < |held| && less == DelSwap(held, i)
    ensures var after := Drain(less, s, delivered + 1);
            Drain(held, s, delivered) == ([held[FirstHeld(held, s, delivered + 1)]] + after.0, after.1)
  {
  }

  /** Draining neither loses nor copies a message. */
  lemma {:induction false} DrainConserves(held: seq<Received>, s: nat, delivered: nat)
    ensures var (out, rest) := Drain(held, s, delivered);
            multiset(out) + multiset(rest) == multiset(held)
    decreases |held|
  {
    var i := FirstHeld(held, s, delivered + 1);
    if i < |held| {
      DelSwapMultiset(held, i);
      DrainConserves(DelSwap(held, i), s, delivered + 1);
      var (out, rest) := Drain(DelSwap(held, i), s, delivered + 1);
      assert multiset([held[i]] + out) == multiset{held[i]} + multiset(out);
    }
  }

  /** What is drained is a run of consecutive clocks of that one sender, and no message
      that could continue the run stays behind. */
  lemma {:induction false} DrainIsMaximalRun(held: seq<Received>, s: nat, delivered: nat)
    ensures var (out, rest) := Drain(held, s, delivered);
            && (forall k :: 0 <= k < |out| ==> out[k] in held && Matches(out[k], s, delivered + 1 + k))
            && !IsHeld(rest, s, delivered + |out| + 1)
    decreases |held|
  {
    var i := FirstHeld(held, s, delivered + 1);
    if i < |held| {
      var less := DelSwap(held, i);
      DrainIsMaximalRun(less, s, delivered + 1);
      assert forall x :: x in less ==> x in held;
    }
  }

  /** Messages of other senders stay, each as often as before. */
  lemma DrainLeavesOthers(held: seq<Received>, s: nat, delivered: nat, r: Received)
    requires r.sender != s
    ensures multiset(Drain(held, s, delivered).1)[r] == multiset(held)[r]
  {
    DrainConserves(held, s, delivered);
    DrainIsMaximalRun(held, s, delivered);
    assert r !in Drain(held, s, delivered).0;
  }

  /** Held messages are told apart by sender and clock. */
  predicate KeysDetermine(held: seq<Received>) {
    forall a, b :: a in held && b in held && Matches(a, b.sender, b.msg.clock) ==> a == b
  }

  lemma SameMembers(held: seq<Received>, other: seq<Received>, r: Received)
    requires multiset(held) == multiset(other)
    ensures r in held <==> r in other
  {
    assert r in held <==> r in multiset(held);
    assert r in other <==> r in multiset(other);
  }

  /** The order in which `arrdelswap` left the buffer does not show: two orders of the same
      held messages deliver the same messages in the same order, and keep the same ones. */
  lemma DrainOrderFree(held: seq<Received>, other: seq<Received>, s: nat, delivered: nat)
    requires multiset(held) == multiset(other) && KeysDetermine(held)
    ensures Drain(held, s, delivered).0 == Drain(other, s, delivered).0
    ensures multiset(Drain(held, s, delivered).1) == multiset(Drain(other, s, delivered).1)
  {
    var out := Drain(held, s, delivered).0;
    var out' := Drain(other, s, delivered).0;
    DrainNoLonger(held, other, s, delivered);
    DrainNoLonger(other, held, s, delivered);
    DrainIsMaximalRun(held, s, delivered);
    DrainIsMaximalRun(other, s, delivered);
    forall k | 0 <= k < |out|
      ensures out[k] == out'[k]
    {
      SameMembers(held, other, out'[k]);
    }
    assert out == out';
    DrainConserves(held, s, delivered);
    DrainConserves(other, s, delivered);
    assert multiset(Drain(held, s, delivered).1) == multiset(held) - multiset(out);
  }

  lemma DrainNoLonger(held: seq<Received>, other: seq<Received>, s: nat, delivered: nat)
    requires multiset(held) == multiset(other)
    ensures |Drain(other, s, delivered).0| <= |Drain(held, s, delivered).0|
  {
    var out, out' := Drain(held, s, delivered).0, Drain(other, s, delivered).0;
    DrainIsMaximalRun(other, s, delivered);
    if |out| < |out'| {
      SameMembers(held, other, out'[|out|]);
      NoneContinues(held, s, delivered, out'[|out|]);
    }
  }

  /** No held message, drained or not, has the clock after the drained run. */
  lemma NoneContinues(held: seq<Received>, s: nat, delivered: nat, r: Received)
    requires r in held
    ensures !Matches(r, s, delivered + |Drain(held, s, delivered).0| + 1)
  {
    var (out, rest) := Drain(held, s, delivered);
    DrainIsMaximalRun(held, s, delivered);
    DrainConserves(held, s, delivered);
    assert r in multiset(out) + multiset(rest);
  }
}
