/** The slots of a hash index as values: which arrangements of slots a search can rely on, and
    what writing one slot does to them. */
module SlotTables {
  import opened ProbeSequence

  /** A slot: the stored hash and the index of the entry. */
  datatype Slot = Slot(hash: nat, index: int)

  const EMPTY: Slot := Slot(0, -1)
  const TOMBSTONE: Slot := Slot(1, -2)

  predicate InUse(x: Slot) { x.index >= 0 }

  predicate IsTombstone(x: Slot) { x.index == -2 }

  predicate IsEmpty(x: Slot) { x.hash == 0 }

  predicate SlotOk(x: Slot) {
    x == EMPTY || x == TOMBSTONE || (x.hash >= 2 && x.index >= 0)
  }

  predicate IsBusy(x: Slot) { x.hash != 0 }

  // ---- counting ----

  function Count(slots: seq<Slot>, f: Slot -> bool): (c: nat)
    ensures c <= |slots|
  {
    if slots == [] then 0
    else Count(slots[..|slots| - 1], f) + if f(slots[|slots| - 1]) then 1 else 0
  }

  function One(b: bool): nat { if b then 1 else 0 }

  lemma CountPush(slots: seq<Slot>, x: Slot, f: Slot -> bool)
    ensures Count(slots + [x], f) == Count(slots, f) + One(f(x))
  {
    assert (slots + [x])[..|slots|] == slots;
  }

  lemma {:induction false} CountWrite(slots: seq<Slot>, p: nat, x: Slot, f: Slot -> bool)
    requires p < |slots|
    ensures Count(slots[p := x], f) + One(f(slots[p])) == Count(slots, f) + One(f(x))
  {
    var last := |slots| - 1;
    if p == last {
      assert slots[p := x][..last] == slots[..last];
    } else {
      CountWrite(slots[..last], p, x, f);
      assert slots[p := x][..last] == slots[..last][p := x];
    }
  }

  lemma {:induction false} CountsAddUp(slots: seq<Slot>)
    requires forall x :: x in slots ==> SlotOk(x)
    ensures Count(slots, InUse) + Count(slots, IsTombstone) + Count(slots, IsEmpty) == |slots|
  {
    if slots != [] {
      CountsAddUp(slots[..|slots| - 1]);
      assert slots[|slots| - 1] in slots;
    }
  }

  lemma {:induction false} CountFinds(slots: seq<Slot>, f: Slot -> bool) returns (p: nat)
    requires Count(slots, f) > 0
    ensures p < |slots| && f(slots[p])
  {
    if f(slots[|slots| - 1]) {
      p := |slots| - 1;
    } else {
      p := CountFinds(slots[..|slots| - 1], f);
    }
  }

  lemma {:induction false} CountPrefix(slots: seq<Slot>, k: nat, f: Slot -> bool)
    requires k <= |slots|
    ensures Count(slots[..k], f) <= Count(slots, f)
  {
    if k < |slots| {
      CountPrefix(slots[..|slots| - 1], k, f);
      assert slots[..|slots| - 1][..k] == slots[..k];
    } else {
      assert slots[..k] == slots;
    }
  }

  // ---- search paths ----

  /** The first `k` slots that a search for `h` looks at satisfy `f`. */
  ghost predicate PathHas(slots: seq<Slot>, m: nat, h: nat, k: nat, f: Slot -> bool)
    requires m > 0 && |slots| == 8 * m
  {
    forall t: nat, j: nat :: j < 8 && 8 * t + j < k ==> f(slots[Probe(h, m, t, j)])
  }

  /** No empty slot comes before a used one on the search path of its hash. */
  ghost predicate WellFormed(slots: seq<Slot>, m: nat) {
    && IsPow2(m) && m > 0 && |slots| == 8 * m
    && (forall x :: x in slots ==> SlotOk(x))
    && (forall p: nat :: p < |slots| && InUse(slots[p]) ==>
          PathHas(slots, m, slots[p].hash, Rank(slots[p].hash, m, p), IsBusy))
  }

  lemma AllEmptyIsWellFormed(slots: seq<Slot>, m: nat)
    requires IsPow2(m) && m > 0 && |slots| == 8 * m
    requires forall x :: x in slots ==> x == EMPTY
    ensures WellFormed(slots, m)
    ensures Count(slots, InUse) == 0 && Count(slots, IsTombstone) == 0
  {
    CountNone(slots, InUse);
    CountNone(slots, IsTombstone);
    forall p: nat | p < |slots| ensures !InUse(slots[p]) {
      assert slots[p] in slots;
    }
  }

  lemma {:induction false} CountNone(slots: seq<Slot>, f: Slot -> bool)
    requires forall x :: x in slots ==> !f(x)
    ensures Count(slots, f) == 0
  {
    if slots != [] {
      CountNone(slots[..|slots| - 1], f);
    }
  }

  lemma PathAfterWrite(slots: seq<Slot>, m: nat, p: nat, x: Slot, h: nat, k: nat)
    requires m > 0 && |slots| == 8 * m && p < |slots| && IsBusy(x)
    requires PathHas(slots, m, h, k, IsBusy)
    ensures PathHas(slots[p := x], m, h, k, IsBusy)
  {
  }

  /** A slot may be overwritten with anything but emptiness, as long as a used slot lies on
      the path of its hash. */
  lemma WriteKeepsWellFormed(slots: seq<Slot>, m: nat, p: nat, x: Slot)
    requires WellFormed(slots, m) && p < |slots| && SlotOk(x) && IsBusy(x)
    requires InUse(x) ==> PathHas(slots, m, x.hash, Rank(x.hash, m, p), IsBusy)
    ensures WellFormed(slots[p := x], m)
  {
    var slots' := slots[p := x];
    forall q: nat | q < |slots'| && InUse(slots'[q])
      ensures PathHas(slots', m, slots'[q].hash, Rank(slots'[q].hash, m, q), IsBusy)
    {
      PathAfterWrite(slots, m, p, x, slots'[q].hash, Rank(slots'[q].hash, m, q));
    }
  }

  /** A search may stop at the first empty slot: what it has seen decides about every used
      slot with that hash. */
  lemma SearchMayStop(slots: seq<Slot>, m: nat, h: nat, t: nat, j: nat, f: Slot -> bool, s: nat)
    requires WellFormed(slots, m) && j < 8 && PathHas(slots, m, h, 8 * t + j, f)
    requires IsEmpty(slots[Probe(h, m, t, j)])
    requires s < |slots| && InUse(slots[s]) && slots[s].hash == h
    ensures f(slots[s])
  {
    var u, i := TurnOf(h, m, s), StepTo(h % 8, s % 8);
    RankFinds(h, m, s);
    assert slots[s] in slots;
    if 8 * u + i == 8 * t + j {
      SameStep(t, j, u, i);
    }
  }

  lemma SameStep(t: nat, j: nat, u: nat, i: nat)
    requires j < 8 && i < 8 && 8 * u + i == 8 * t + j
    ensures t == u && j == i
  {
  }

  /** An empty slot bounds the search. */
  lemma EmptyEndsSearch(slots: seq<Slot>, m: nat, h: nat, k: nat, p: nat, f: Slot -> bool)
    requires WellFormed(slots, m) && p < |slots| && IsEmpty(slots[p])
    requires PathHas(slots, m, h, k, f) && forall x :: f(x) ==> IsBusy(x)
    ensures k <= Rank(h, m, p) < 8 * m
  {
    var u, i := TurnOf(h, m, p), StepTo(h % 8, p % 8);
    RankFinds(h, m, p);
  }

  /** The two inner loops, entered at place `h % 8`: the first `k` places of the bucket of turn
      `t` extend the path. */
  lemma PathGrows(slots: seq<Slot>, m: nat, h: nat, t: nat, k: nat, f: Slot -> bool)
    requires m > 0 && |slots| == 8 * m && k <= 8
    requires PathHas(slots, m, h, 8 * t, f)
    requires forall j: nat :: j < k ==> f(slots[At(Turn(h / 8, m, t), Place(h % 8, j))])
    ensures PathHas(slots, m, h, 8 * t + k, f)
  {
    forall u: nat, j: nat | j < 8 && 8 * u + j < 8 * t + k ensures f(slots[Probe(h, m, u, j)]) {
      if 8 * u + j >= 8 * t {
        SameTurn(t, u, j);
        assert f(slots[At(Turn(h / 8, m, t), Place(h % 8, j))]);
      }
    }
  }

  lemma SameTurn(t: nat, u: nat, j: nat)
    requires j < 8 && 8 * t <= 8 * u + j < 8 * t + 8
    ensures u == t
  {
  }

  // ---- slots and entries ----

  /** For every entry exactly one slot, with its hash and index; and no other slot in use. */
  ghost predicate Linked(slots: seq<Slot>, hashes: seq<nat>) {
    forall x :: InUse(x) ==> multiset(slots)[x] == One(x.index < |hashes| && x.hash == hashes[x.index])
  }

  lemma LinkedSlot(slots: seq<Slot>, hashes: seq<nat>, p: nat)
    requires Linked(slots, hashes) && p < |slots| && InUse(slots[p])
    ensures slots[p].index < |hashes| && slots[p].hash == hashes[slots[p].index]
  {
    assert multiset(slots)[slots[p]] > 0;
  }

  lemma LinkedEntry(slots: seq<Slot>, hashes: seq<nat>, i: nat) returns (p: nat)
    requires Linked(slots, hashes) && i < |hashes|
    ensures p < |slots| && slots[p] == Slot(hashes[i], i)
  {
    assert multiset(slots)[Slot(hashes[i], i)] == 1;
    assert Slot(hashes[i], i) in slots;
    p :| p < |slots| && slots[p] == Slot(hashes[i], i);
  }

  lemma LinkAdd(slots: seq<Slot>, hashes: seq<nat>, p: nat, h: nat)
    requires Linked(slots, hashes) && p < |slots| && !InUse(slots[p])
    ensures Linked(slots[p := Slot(h, |hashes|)], hashes + [h])
  {
    var slots' := slots[p := Slot(h, |hashes|)];
    assert multiset(slots') == multiset(slots) - multiset{slots[p]} + multiset{Slot(h, |hashes|)};
  }

  /** While a deletion is under way: entry `i` has no slot, all others have theirs. */
  ghost predicate LinkedBut(slots: seq<Slot>, hashes: seq<nat>, i: nat) {
    forall x :: InUse(x) ==>
      multiset(slots)[x] == One(x.index < |hashes| && x.hash == hashes[x.index] && x.index != i)
  }

  lemma LinkDrop(slots: seq<Slot>, hashes: seq<nat>, p: nat)
    requires Linked(slots, hashes) && p < |slots| && InUse(slots[p])
    ensures LinkedBut(slots[p := TOMBSTONE], hashes, slots[p].index)
  {
    var slots' := slots[p := TOMBSTONE];
    LinkedSlot(slots, hashes, p);
    assert multiset(slots') == multiset(slots) - multiset{slots[p]} + multiset{TOMBSTONE};
  }

  lemma LinkLast(slots: seq<Slot>, hashes: seq<nat>)
    requires |hashes| > 0 && LinkedBut(slots, hashes, |hashes| - 1)
    ensures Linked(slots, hashes[..|hashes| - 1])
  {
  }

  lemma LinkMove(slots: seq<Slot>, hashes: seq<nat>, i: nat, p: nat)
    requires i < |hashes| - 1 && LinkedBut(slots, hashes, i)
    requires p < |slots| && slots[p] == Slot(hashes[|hashes| - 1], |hashes| - 1)
    ensures Linked(slots[p := Slot(hashes[|hashes| - 1], i)], hashes[i := hashes[|hashes| - 1]][..|hashes| - 1])
  {
    var x' := Slot(hashes[|hashes| - 1], i);
    assert multiset(slots[p := x']) == multiset(slots) - multiset{slots[p]} + multiset{x'};
  }

  /** Two tables with the same used slots, each as often, serve the same entries. */
  lemma LinkedToo(slots: seq<Slot>, other: seq<Slot>, hashes: seq<nat>)
    requires Linked(slots, hashes)
    requires forall x :: InUse(x) ==> multiset(other)[x] == multiset(slots)[x]
    ensures Linked(other, hashes)
  {
  }
}
