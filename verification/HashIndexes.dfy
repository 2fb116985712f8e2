/** The hash index of `stb_ds.h`: its slots, counters and thresholds, and building one from
    another. The buckets lie behind one another in one array of slots. */
module HashIndexes {
  import opened ProbeSequence
  import opened SlotTables

  function UsedThreshold(slotCount: nat): int { slotCount - slotCount / 4 }

  function TombstoneThreshold(slotCount: nat): nat { slotCount / 8 + slotCount / 16 }

  function ShrinkThreshold(slotCount: nat): nat { if slotCount <= 8 then 0 else slotCount / 4 }

  /** What the assertion in `stbds_make_hash_index` demands. */
  lemma ThresholdsLeaveRoom(m: nat)
    requires m > 0
    ensures UsedThreshold(8 * m) + TombstoneThreshold(8 * m) < 8 * m
  {
  }

  /** The thresholds of an index of `m` buckets of eight slots: it is full at three quarters, has
      too many tombstones beyond three sixteenths, and is too empty below a quarter, unless it
      is one bucket only. */
  lemma ThresholdsInNumbers(m: nat)
    requires m > 0
    ensures UsedThreshold(8 * m) == 6 * m
    ensures TombstoneThreshold(8 * m) == m + m / 2
    ensures ShrinkThreshold(8 * m) == if m == 1 then 0 else 2 * m
  {
    assert 8 * m / 4 == 2 * m && 8 * m / 8 == m && 8 * m / 16 == m / 2;
  }

  class HashIndex {
    const buckets: nat
    const slots: array<Slot>
    var usedCount: nat
    var tombstoneCount: nat

    function SlotCount(): nat { 8 * buckets }

    ghost predicate Valid()
      reads this, slots
    {
      && WellFormed(slots[..], buckets)
      && usedCount == Count(slots[..], InUse)
      && tombstoneCount == Count(slots[..], IsTombstone)
    }

    /** The counters are within their thresholds. */
    predicate Roomy()
      reads this
    {
      usedCount <= UsedThreshold(SlotCount()) && tombstoneCount <= TombstoneThreshold(SlotCount())
    }

    /** An index with empty slots only. */
    constructor (buckets: nat)
      requires IsPow2(buckets) && buckets > 0
      ensures Valid() && fresh(slots) && this.buckets == buckets
      ensures usedCount == 0 && tombstoneCount == 0 && forall x :: InUse(x) ==> multiset(slots[..])[x] == 0
    {
      this.buckets := buckets;
      slots := new Slot[8 * buckets](_ => EMPTY);
      usedCount, tombstoneCount := 0, 0;
      new;
      assert forall x :: x in slots[..] ==> x == EMPTY;
      AllEmptyIsWellFormed(slots[..], buckets);
    }

    /** The two inner loops of a search for an empty slot: the first place of the bucket, in
        the order of the search, whose slot is empty, and the number of places before it. */
    method EmptyIn(bucket: nat, o: nat) returns (k: nat, slot: nat)
      requires bucket < buckets && o < 8 && slots.Length == 8 * buckets
      ensures k <= 8 && forall j: nat :: j < k ==> IsBusy(slots[..][At(bucket, Place(o, j))])
      ensures k < 8 ==> slot == At(bucket, Place(o, k)) < slots.Length && IsEmpty(slots[slot])
    {
      ghost var all := slots[..];
      var i := o;
      while i < 8
        invariant o <= i <= 8 && forall j: nat :: j < i - o ==> IsBusy(all[At(bucket, Place(o, j))])
      {
        assert Place(o, i - o) == i;
        if slots[At(bucket, i)].hash == 0 {
          return i - o, At(bucket, i);
        }
        i := i + 1;
      }
      i := 0;
      while i < o
        invariant i <= o && forall j: nat :: j < 8 - o + i ==> IsBusy(all[At(bucket, Place(o, j))])
      {
        assert Place(o, 8 - o + i) == i;
        if slots[At(bucket, i)].hash == 0 {
          return 8 - o + i, At(bucket, i);
        }
        i := i + 1;
      }
      return 8, 0;
    }

    /** The probe loop of the rehash: the first empty slot on the path of `h`. It ends because
        the slots in use and the tombstones do not fill the index. */
    method EmptySlotFor(h: nat) returns (slot: nat)
      requires Valid() && usedCount + tombstoneCount < SlotCount()
      ensures slot < slots.Length && IsEmpty(slots[slot])
      ensures PathHas(slots[..], buckets, h, Rank(h, buckets, slot), IsBusy)
    {
      ghost var all := slots[..];
      ghost var e := SomeEmpty();
      ghost var t := 0;
      var pos, step := Wrap(h, SlotCount()), 8;
      SearchStarts(h, buckets);
      while true
        invariant pos == At(Turn(h / 8, buckets, t), h % 8) && step == 8 * (t + 1)
        invariant PathHas(all, buckets, h, 8 * t, IsBusy)
        decreases Rank(h, buckets, e) - 8 * t
      {
        var bucket, o := Split(h, buckets, t, pos);
        var k;
        k, slot := EmptyIn(bucket, o);
        SearchIsBounded(all, buckets, h, t, k, e, IsBusy);
        if k < 8 {
          RankIs(h, buckets, t, k);
          return;
        }
        pos, step := NextPos(h, buckets, t, pos, step, SlotCount());
        t := t + 1;
      }
    }

    ghost method SomeEmpty() returns (e: nat)
      requires Valid() && usedCount + tombstoneCount < SlotCount()
      ensures e < slots.Length && IsEmpty(slots[e])
    {
      CountsAddUp(slots[..]);
      e := CountFinds(slots[..], IsEmpty);
    }

    /** Rehashes one slot of the old index. */
    method CopySlot(x: Slot)
      requires Valid() && tombstoneCount == 0 && usedCount < SlotCount() && SlotOk(x)
      modifies this, slots
      ensures Valid() && tombstoneCount == 0 && usedCount == old(usedCount) + One(InUse(x))
      ensures forall y :: InUse(y) ==> multiset(slots[..])[y] == old(multiset(slots[..]))[y] + One(y == x)
    {
      if x.index >= 0 {
        var p := EmptySlotFor(x.hash);
        ghost var all := slots[..];
        assert all[p] in all;
        Occupy(p, x);
        assert multiset(slots[..]) == multiset(all) - multiset{all[p]} + multiset{x};
      }
    }

    /** The copy loop of `stbds_make_hash_index`. */
    method CopyFrom(ot: HashIndex)
      requires Valid() && usedCount == 0 && tombstoneCount == 0
      requires forall x :: InUse(x) ==> multiset(slots[..])[x] == 0
      requires ot != this && ot.slots != slots && ot.Valid() && ot.usedCount < SlotCount()
      modifies this, slots
      ensures Valid() && usedCount == ot.usedCount && tombstoneCount == 0
      ensures forall x :: InUse(x) ==> multiset(slots[..])[x] == multiset(ot.slots[..])[x]
    {
      ghost var old0 := ot.slots[..];
      ghost var total := ot.usedCount;
      var i := 0;
      while i < ot.slots.Length
        invariant i <= |old0| && old0 == ot.slots[..] && total == Count(old0, InUse) < SlotCount()
        invariant Valid() && tombstoneCount == 0 && usedCount == Count(old0[..i], InUse)
        invariant forall x :: InUse(x) ==> multiset(slots[..])[x] == multiset(old0[..i])[x]
      {
        assert ot.slots[i] == old0[i] && old0[i] in old0;
        CountPrefix(old0, i + 1, InUse);
        PrefixStep(old0, i);
        PrefixMultiset(old0, i);
        CopySlot(ot.slots[i]);
        i := i + 1;
      }
      assert old0[..i] == old0;
    }

    /** Writes a slot in use over one that is not, on the path of its hash. */
    method Occupy(p: nat, x: Slot)
      requires Valid() && p < slots.Length && !InUse(slots[p]) && SlotOk(x) && InUse(x)
      requires PathHas(slots[..], buckets, x.hash, Rank(x.hash, buckets, p), IsBusy)
      modifies this`usedCount, this`tombstoneCount, slots
      ensures Valid() && slots[..] == old(slots[..])[p := x]
      ensures usedCount == old(usedCount) + 1
      ensures tombstoneCount + One(IsTombstone(old(slots[p]))) == old(tombstoneCount)
    {
      ghost var all := slots[..];
      CountWrite(all, p, x, InUse);
      CountWrite(all, p, x, IsTombstone);
      WriteKeepsWellFormed(all, buckets, p, x);
      if slots[p].index == -2 {
        tombstoneCount := tombstoneCount - 1;
      }
      usedCount := usedCount + 1;
      slots[p] := x;
      assert slots[..] == all[p := x];
    }

    /** Turns a used slot into a tombstone. */
    method Bury(p: nat)
      requires Valid() && p < slots.Length && InUse(slots[p])
      modifies this, slots
      ensures Valid() && slots[..] == old(slots[..])[p := TOMBSTONE]
      ensures usedCount == old(usedCount) - 1 && tombstoneCount == old(tombstoneCount) + 1
    {
      ghost var all := slots[..];
      CountWrite(all, p, TOMBSTONE, InUse);
      CountWrite(all, p, TOMBSTONE, IsTombstone);
      WriteKeepsWellFormed(all, buckets, p, TOMBSTONE);
      usedCount, tombstoneCount := usedCount - 1, tombstoneCount + 1;
      slots[p] := TOMBSTONE;
      assert slots[..] == all[p := TOMBSTONE];
    }

    /** Makes a used slot lead to another entry. */
    method Redirect(p: nat, index: nat)
      requires Valid() && p < slots.Length && InUse(slots[p])
      modifies slots
      ensures Valid() && slots[..] == old(slots[..])[p := Slot(old(slots[p]).hash, index)]
    {
      ghost var all := slots[..];
      var x := Slot(slots[p].hash, index);
      assert all[p] in all;
      CountWrite(all, p, x, InUse);
      CountWrite(all, p, x, IsTombstone);
      WriteKeepsWellFormed(all, buckets, p, x);
      slots[p] := x;
      assert slots[..] == all[p := x];
    }
  }

  lemma PrefixStep(s: seq<Slot>, i: nat)
    requires i < |s|
    ensures Count(s[..i + 1], InUse) == Count(s[..i], InUse) + One(InUse(s[i]))
  {
    CountPush(s[..i], s[i], InUse);
    assert s[..i + 1] == s[..i] + [s[i]];
  }

  lemma PrefixMultiset<T>(s: seq<T>, i: nat)
    requires i < |s|
    ensures multiset(s[..i + 1]) == multiset(s[..i]) + multiset{s[i]}
  {
    assert s[..i + 1] == s[..i] + [s[i]];
  }

  /** The bucket and the place in it: `pos >> 3` and `pos & 7`. */
  method Split(ghost h: nat, ghost m: nat, ghost t: nat, pos: nat) returns (bucket: nat, o: nat)
    requires m > 0 && pos == At(Turn(h / 8, m, t), h % 8)
    ensures bucket == Turn(h / 8, m, t) && o == h % 8
  {
    bucket, o := pos / 8, pos % 8;
  }

  lemma SearchIsBounded(slots: seq<Slot>, m: nat, h: nat, t: nat, k: nat, e: nat, f: Slot -> bool)
    requires WellFormed(slots, m) && k <= 8 && PathHas(slots, m, h, 8 * t, f)
    requires forall j: nat :: j < k ==> f(slots[At(Turn(h / 8, m, t), Place(h % 8, j))])
    requires e < |slots| && IsEmpty(slots[e]) && forall x :: f(x) ==> IsBusy(x)
    ensures PathHas(slots, m, h, 8 * t + k, f) && 8 * t + k <= Rank(h, m, e) < 8 * m
  {
    PathGrows(slots, m, h, t, k, f);
    EmptyEndsSearch(slots, m, h, 8 * t + k, e, f);
  }

  lemma SearchStarts(h: nat, m: nat)
    requires m > 0
    ensures Wrap(h, 8 * m) == At(Turn(h / 8, m, 0), h % 8)
  {
    WrapBucket(h / 8, h % 8, m);
  }

  /** Quadratic probing: on to the next bucket. */
  method NextPos(ghost h: nat, ghost m: nat, ghost t: nat, pos: nat, step: nat, slotCount: nat)
    returns (pos': nat, step': nat)
    requires m > 0 && slotCount == 8 * m
    requires pos == At(Turn(h / 8, m, t), h % 8) && step == 8 * (t + 1)
    ensures pos' == At(Turn(h / 8, m, t + 1), h % 8) && step' == 8 * (t + 2)
  {
    WrapBucket(Turn(h / 8, m, t) + t + 1, h % 8, m);
    pos' := Wrap(pos + step, slotCount);
    step' := step + 8;
  }

  /** `stbds_make_hash_index`: grow, shrink and rebuild keep exactly the used slots of the old
      index and drop its tombstones. */
  method MakeHashIndex(buckets: nat, ot: HashIndex?) returns (t: HashIndex)
    requires IsPow2(buckets) && buckets > 0
    requires ot != null ==> ot.Valid() && ot.usedCount < 8 * buckets
    ensures fresh(t) && fresh(t.slots) && t.Valid() && t.buckets == buckets
    ensures t.tombstoneCount == 0 && t.usedCount == if ot == null then 0 else ot.usedCount
    ensures forall x :: InUse(x) ==>
              multiset(t.slots[..])[x] == if ot == null then 0 else multiset(ot.slots[..])[x]
  {
    t := new HashIndex(buckets);
    if ot != null {
      t.CopyFrom(ot);
    }
  }
}
