/** The hash map of `stb_ds.h` in binary mode: a dense array of entries and a hash index that
    finds them. Every operation is proved to do to the finite map it stands for what its name
    says, for any hash function. */
module HashMaps {
  import opened Powers
  import opened ProbeSequence
  import opened SlotTables
  import opened HashIndexes
  import opened Sequences

  /** The hash as it is stored: 0 and 1 mark empty slots and tombstones. */
  function Stored(h: nat): (r: nat)
    ensures r >= 2
  {
    if h < 2 then h + 2 else h
  }

  predicate KeysApart<K(==), V>(entries: seq<(K, V)>) {
    forall i, j :: 0 <= i < j < |entries| ==> entries[i].0 != entries[j].0
  }

  predicate HasKey<K(==), V>(entries: seq<(K, V)>, k: K) {
    exists i :: 0 <= i < |entries| && entries[i].0 == k
  }

  /** The finite map that the entries stand for. */
  ghost function AsMap<K, V>(entries: seq<(K, V)>): (m: map<K, V>)
    requires KeysApart(entries)
    ensures forall i :: 0 <= i < |entries| ==> entries[i].0 in m && m[entries[i].0] == entries[i].1
    ensures forall k :: k in m ==> exists i :: 0 <= i < |entries| && entries[i].0 == k
  {
    map i | 0 <= i < |entries| :: entries[i].0 := entries[i].1
  }

  function Hashes<K, V>(entries: seq<(K, V)>, hash: K -> nat): (r: seq<nat>)
    ensures |r| == |entries|
  {
    seq<nat>(|entries|, (i: nat) requires i < |entries| => Stored(hash(entries[i].0)))
  }

  predicate Matches<K(==), V>(x: Slot, h: nat, key: K, entries: seq<(K, V)>) {
    x.hash == h && 0 <= x.index < |entries| && entries[x.index].0 == key
  }

  /** What a search passes by: a busy slot that does not lead to the key. */
  function Passes<K(==), V>(h: nat, key: K, entries: seq<(K, V)>): Slot -> bool {
    (x: Slot) => IsBusy(x) && !Matches(x, h, key, entries)
  }

  lemma AddEntry<K, V>(entries: seq<(K, V)>, k: K, v: V)
    requires KeysApart(entries) && k !in AsMap(entries)
    ensures KeysApart(entries + [(k, v)]) && AsMap(entries + [(k, v)]) == AsMap(entries)[k := v]
  {
    var es := entries + [(k, v)];
    forall i | 0 <= i < |entries| ensures entries[i].0 != k {
      assert entries[i].0 in AsMap(entries);
    }
    assert es[|entries|].0 == k;
    forall x | x in AsMap(entries) ensures x in AsMap(es) {
      var i :| 0 <= i < |entries| && entries[i].0 == x;
      assert es[i].0 == x;
    }
  }

  lemma SetEntry<K, V>(entries: seq<(K, V)>, i: nat, v: V)
    requires KeysApart(entries) && i < |entries|
    ensures KeysApart(entries[i := (entries[i].0, v)])
    ensures AsMap(entries[i := (entries[i].0, v)]) == AsMap(entries)[entries[i].0 := v]
  {
    var es := entries[i := (entries[i].0, v)];
    assert forall j :: 0 <= j < |es| ==> es[j].0 == entries[j].0;
    forall x | x in AsMap(entries)[entries[i].0 := v] ensures HasKey(es, x) {
      var j :| 0 <= j < |entries| && entries[j].0 == x;
      assert es[j].0 == x;
    }
    SameMap(es, AsMap(entries)[entries[i].0 := v]);
  }

  lemma SameMap<K, V>(entries: seq<(K, V)>, m: map<K, V>)
    requires KeysApart(entries)
    requires forall i :: 0 <= i < |entries| ==> entries[i].0 in m && m[entries[i].0] == entries[i].1
    requires forall k :: k in m ==> HasKey(entries, k)
    ensures AsMap(entries) == m
  {
    forall k | k in m ensures k in AsMap(entries) {
      assert HasKey(entries, k);
    }
  }

  lemma DropKeepsApart<K, V>(entries: seq<(K, V)>, i: nat)
    requires KeysApart(entries) && i < |entries|
    ensures KeysApart(DelSwap(entries, i))
    ensures !HasKey(DelSwap(entries, i), entries[i].0)
  {
    DelSwapAt(entries, i);
  }

  lemma DropEntry<K, V>(entries: seq<(K, V)>, i: nat)
    requires KeysApart(entries) && i < |entries|
    ensures KeysApart(DelSwap(entries, i))
    ensures AsMap(DelSwap(entries, i)) == AsMap(entries) - {entries[i].0}
  {
    var es, m := DelSwap(entries, i), AsMap(entries) - {entries[i].0};
    DropKeepsApart(entries, i);
    DelSwapAt(entries, i);
    forall x | x in m ensures HasKey(es, x) {
      var j :| 0 <= j < |entries| && entries[j].0 == x;
      assert es[if j == |entries| - 1 then i else j].0 == x;
    }
    SameMap(es, m);
  }

  /** Up to the first tombstone, the slots passed by are in use. */
  lemma InUseIsBusy(slots: seq<Slot>, m: nat, h: nat, k: nat)
    requires WellFormed(slots, m) && PathHas(slots, m, h, k, InUse)
    ensures PathHas(slots, m, h, k, IsBusy)
  {
    forall t: nat, j: nat | j < 8 && 8 * t + j < k ensures IsBusy(slots[Probe(h, m, t, j)]) {
      assert InUse(slots[Probe(h, m, t, j)]);
      assert slots[Probe(h, m, t, j)] in slots;
    }
  }

  datatype Sight = Hit | Free | Dead | Other

  /** The first `k` places of a bucket satisfy `f`, and place `j` is the first tombstone. */
  ghost predicate Scanned(slots: seq<Slot>, bucket: nat, o: nat, k: nat, j: nat, f: Slot -> bool)
    requires At(bucket, 7) < |slots| && o < 8 && k <= 8
  {
    && (forall i: nat :: i < k ==> f(slots[At(bucket, Place(o, i))]))
    && (forall i: nat :: i < k && i < j ==> InUse(slots[At(bucket, Place(o, i))]))
    && (j == 8 || (j < k && IsTombstone(slots[At(bucket, Place(o, j))])))
  }

  lemma ScannedOne(slots: seq<Slot>, bucket: nat, o: nat, k: nat, j: nat, f: Slot -> bool)
    requires At(bucket, 7) < |slots| && o < 8 && k < 8 && Scanned(slots, bucket, o, k, j, f)
    requires var x := slots[At(bucket, Place(o, k))]; f(x) && (InUse(x) || IsTombstone(x))
    ensures var dead := IsTombstone(slots[At(bucket, Place(o, k))]);
            Scanned(slots, bucket, o, k + 1, if dead && j == 8 then k else j, f)
  {
  }

  /** Where a new key may go: nothing passed so far if `tomb` is negative, else the first
      tombstone on the path of `h`. */
  ghost predicate ReuseOk(slots: seq<Slot>, m: nat, h: nat, k: nat, tomb: int)
    requires IsPow2(m) && m > 0 && |slots| == 8 * m
  {
    if tomb < 0 then PathHas(slots, m, h, k, InUse)
    else tomb < |slots| && IsTombstone(slots[tomb]) && PathHas(slots, m, h, Rank(h, m, tomb), InUse)
  }

  lemma ReuseGrows(slots: seq<Slot>, m: nat, h: nat, t: nat, k: nat, j: nat, f: Slot -> bool, tomb: int)
    requires IsPow2(m) && t < m && |slots| == 8 * m && k <= 8
    requires Scanned(slots, Turn(h / 8, m, t), h % 8, k, j, f)
    requires ReuseOk(slots, m, h, 8 * t, tomb)
    ensures ReuseOk(slots, m, h, 8 * t + k,
                    if tomb < 0 && j < 8 then At(Turn(h / 8, m, t), Place(h % 8, j)) else tomb)
  {
    if tomb < 0 {
      if j < 8 {
        PathGrows(slots, m, h, t, j, InUse);
        RankIs(h, m, t, j);
      } else {
        PathGrows(slots, m, h, t, k, InUse);
      }
    }
  }

  /** A search that ends at an empty slot has shown that the key is not there. */
  lemma NoneMatches<K, V>(slots: seq<Slot>, m: nat, h: nat, t: nat, j: nat, key: K, entries: seq<(K, V)>)
    requires WellFormed(slots, m) && j < 8 && PathHas(slots, m, h, 8 * t + j, Passes(h, key, entries))
    requires IsEmpty(slots[Probe(h, m, t, j)])
    ensures forall p: nat :: p < |slots| ==> !Matches(slots[p], h, key, entries)
  {
    forall p: nat | p < |slots| ensures !Matches(slots[p], h, key, entries) {
      if Matches(slots[p], h, key, entries) {
        SearchMayStop(slots, m, h, t, j, Passes(h, key, entries), p);
      }
    }
  }

  /** Where the search for a place ends: at a slot that leads to the key or is empty. */
  ghost predicate EndOk<K, V>(slots: seq<Slot>, m: nat, h: nat, key: K, entries: seq<(K, V)>, slot: nat, tomb: int)
    requires IsPow2(m) && m > 0 && |slots| == 8 * m
  {
    && slot < |slots|
    && (Matches(slots[slot], h, key, entries) || IsEmpty(slots[slot]))
    && ReuseOk(slots, m, h, Rank(h, m, slot), tomb)
    && (IsEmpty(slots[slot]) ==> forall p: nat :: p < |slots| ==> !Matches(slots[p], h, key, entries))
  }

  /** One turn of the probe loop of `stbds_hmput_key`, and what it makes of the tombstones. */
  lemma TurnDone(slots: seq<Slot>, m: nat, h: nat, t: nat, k: nat, j: nat, f: Slot -> bool, tomb: int, e: nat)
    requires WellFormed(slots, m) && t < m && k <= 8
    requires PathHas(slots, m, h, 8 * t, f) && ReuseOk(slots, m, h, 8 * t, tomb)
    requires Scanned(slots, Turn(h / 8, m, t), h % 8, k, j, f)
    requires e < |slots| && IsEmpty(slots[e]) && forall x :: f(x) ==> IsBusy(x)
    ensures PathHas(slots, m, h, 8 * t + k, f) && 8 * t + k <= Rank(h, m, e) < 8 * m
    ensures ReuseOk(slots, m, h, 8 * t + k,
                    if tomb < 0 && j < 8 then At(Turn(h / 8, m, t), Place(h % 8, j)) else tomb)
  {
    SearchIsBounded(slots, m, h, t, k, e, f);
    ReuseGrows(slots, m, h, t, k, j, f, tomb);
  }

  lemma EndReached<K, V>(slots: seq<Slot>, m: nat, h: nat, t: nat, k: nat, key: K, entries: seq<(K, V)>, tomb: int)
    requires WellFormed(slots, m) && t < m && k < 8
    requires PathHas(slots, m, h, 8 * t + k, Passes(h, key, entries)) && ReuseOk(slots, m, h, 8 * t + k, tomb)
    requires var x := slots[Probe(h, m, t, k)]; IsEmpty(x) || Matches(x, h, key, entries)
    ensures EndOk(slots, m, h, key, entries, Probe(h, m, t, k), tomb)
  {
    RankIs(h, m, t, k);
    if IsEmpty(slots[Probe(h, m, t, k)]) {
      NoneMatches(slots, m, h, t, k, key, entries);
    }
  }

  /** An entry with the key would have a slot that matches. */
  lemma NotAKey<K, V>(slots: seq<Slot>, entries: seq<(K, V)>, hash: K -> nat, key: K)
    requires KeysApart(entries) && Linked(slots, Hashes(entries, hash))
    requires forall p: nat :: p < |slots| ==> !Matches(slots[p], Stored(hash(key)), key, entries)
    ensures key !in AsMap(entries)
  {
    if key in AsMap(entries) {
      var i :| 0 <= i < |entries| && entries[i].0 == key;
      var p := LinkedEntry(slots, Hashes(entries, hash), i);
    }
  }

  class HashMap<K(==), V> {
    const hash: K -> nat
    var entries: seq<(K, V)>
    var table: HashIndex?

    ghost function Repr(): set<object>
      reads this
    {
      if table == null then {this} else {this, table, table.slots}
    }

    ghost predicate Valid()
      reads Repr()
    {
      && KeysApart(entries)
      && (table == null ==> entries == [])
      && (table != null ==>
            && table.Valid() && table.Roomy() && table.usedCount == |entries|
            && Linked(table.slots[..], Hashes(entries, hash)))
    }

    ghost function Contents(): map<K, V>
      reads this
      requires KeysApart(entries)
    {
      AsMap(entries)
    }

    constructor (hash: K -> nat)
      ensures Valid() && fresh(Repr()) && this.hash == hash && Contents() == map[]
    {
      this.hash := hash;
      entries, table := [], null;
    }

    /** The size of the index, in buckets of eight slots. */
    function Buckets(): nat
      reads this
    {
      if table == null then 0 else table.buckets
    }

    /** The index can be searched: there is an empty slot, and no used slot points beyond the
        entries. */
    ghost predicate Searchable()
      reads Repr()
    {
      && table != null && table.Valid()
      && table.usedCount + table.tombstoneCount < table.SlotCount()
      && forall x :: x in table.slots[..] && InUse(x) ==> x.index < |entries|
    }

    /** What a search sees in a slot. */
    method Look(slot: nat, h: nat, key: K) returns (r: Sight)
      requires Searchable() && slot < table.slots.Length && h >= 2
      ensures var x := table.slots[slot];
              && (r == Hit <==> Matches(x, h, key, entries))
              && (r == Free <==> IsEmpty(x))
              && (r == Dead <==> IsTombstone(x))
              && (r == Other ==> InUse(x))
    {
      ghost var all := table.slots[..];
      var x := table.slots[slot];
      assert x == all[slot] && x in all;
      if x.hash == h {
        r := if entries[x.index].0 == key then Hit else Other;
      } else if x.hash == 0 {
        r := Free;
      } else {
        r := if x.index == -2 then Dead else Other;
      }
    }

    /** One inner loop of a search: places `lo` to `hi - 1` of the bucket entered at place `o`,
        after `before` places. It stops at place `i`, if not at the end then at a slot that
        leads to the key or is empty. */
    method ScanPlaces(bucket: nat, o: nat, before: nat, lo: nat, hi: nat, h: nat, key: K, j0: nat)
      returns (i: nat, j: nat)
      requires Searchable() && bucket < table.buckets && o < 8 && h >= 2
      requires (before == 0 && lo == o && hi == 8) || (before == 8 - o && lo == 0 && hi == o)
      requires Scanned(table.slots[..], bucket, o, before, j0, Passes(h, key, entries))
      ensures lo <= i <= hi
      ensures Scanned(table.slots[..], bucket, o, before + (i - lo), j, Passes(h, key, entries))
      ensures i < hi ==> var x := table.slots[..][At(bucket, i)]; IsEmpty(x) || Matches(x, h, key, entries)
    {
      ghost var all, f := table.slots[..], Passes(h, key, entries);
      i, j := lo, j0;
      while i < hi
        invariant lo <= i <= hi && Scanned(all, bucket, o, before + (i - lo), j, f)
      {
        ghost var k := before + (i - lo);
        assert Place(o, k) == i;
        var r := Look(At(bucket, i), h, key);
        if r == Hit || r == Free {
          return;
        }
        ScannedOne(all, bucket, o, k, j, f);
        if r == Dead && j == 8 {
          j := before + (i - lo);
        }
        i := i + 1;
      }
    }

    /** Both inner loops: `k` places are passed, the first tombstone among them is number `j`;
        only `stbds_hmput_key` makes use of that. */
    method ScanBucket(bucket: nat, o: nat, h: nat, key: K) returns (k: nat, j: nat)
      requires Searchable() && bucket < table.buckets && o < 8 && h >= 2
      ensures k <= 8 && Scanned(table.slots[..], bucket, o, k, j, Passes(h, key, entries))
      ensures k < 8 ==> var x := table.slots[..][At(bucket, Place(o, k))];
                        IsEmpty(x) || Matches(x, h, key, entries)
    {
      var i;
      i, j := ScanPlaces(bucket, o, 0, o, 8, h, key, 8);
      if i < 8 {
        return i - o, j;
      }
      i, j := ScanPlaces(bucket, o, 8 - o, 0, o, h, key, j);
      return 8 - o + i, j;
    }

    lemma ValidIsSearchable()
      requires Valid() && table != null
      ensures Searchable()
    {
      ThresholdsLeaveRoom(table.buckets);
      var all := table.slots[..];
      forall x | x in all && InUse(x) ensures x.index < |entries| {
        var p: nat :| p < |all| && all[p] == x;
        LinkedSlot(all, Hashes(entries, hash), p);
      }
    }

    /** `stbds_hm_find_slot`: the slot that leads to the key, or -1. */
    method FindSlot(key: K) returns (slot: int)
      requires Searchable()
      ensures -1 <= slot < table.slots.Length
      ensures slot >= 0 ==> Matches(table.slots[slot], Stored(hash(key)), key, entries)
      ensures slot < 0 ==>
                forall p: nat :: p < table.slots.Length ==>
                  !Matches(table.slots[..][p], Stored(hash(key)), key, entries)
    {
      var h := Stored(hash(key));
      ghost var m, all, f := table.buckets, table.slots[..], Passes(h, key, entries);
      ghost var e := table.SomeEmpty();
      ghost var t := 0;
      var pos, step := Wrap(h, table.SlotCount()), 8;
      SearchStarts(h, m);
      while true
        invariant pos == At(Turn(h / 8, m, t), h % 8) && step == 8 * (t + 1)
        invariant PathHas(all, m, h, 8 * t, f)
        decreases Rank(h, m, e) - 8 * t
      {
        var bucket, o := Split(h, m, t, pos);
        var k, j := ScanBucket(bucket, o, h, key);
        SearchIsBounded(all, m, h, t, k, e, f);
        if k < 8 {
          slot := At(bucket, Place(o, k));
          if table.slots[slot].hash == 0 {
            NoneMatches(all, m, h, t, k, key, entries);
            slot := -1;
          }
          return;
        }
        pos, step := NextPos(h, m, t, pos, step, table.SlotCount());
        t := t + 1;
      }
    }

    /** The probe loop of `stbds_hmput_key`: it ends at a slot that leads to the key or is empty,
        and remembers the first tombstone it has passed. */
    method FindEnd(h: nat, key: K) returns (slot: nat, tomb: int)
      requires Searchable() && h >= 2
      ensures EndOk(table.slots[..], table.buckets, h, key, entries, slot, tomb)
    {
      ghost var m, all, f := table.buckets, table.slots[..], Passes(h, key, entries);
      ghost var e := table.SomeEmpty();
      ghost var t := 0;
      var pos, step := Wrap(h, table.SlotCount()), 8;
      tomb := -1;
      SearchStarts(h, m);
      while true
        invariant pos == At(Turn(h / 8, m, t), h % 8) && step == 8 * (t + 1)
        invariant t < m && PathHas(all, m, h, 8 * t, f) && ReuseOk(all, m, h, 8 * t, tomb)
        decreases Rank(h, m, e) - 8 * t
      {
        var bucket, o := Split(h, m, t, pos);
        var k, j := ScanBucket(bucket, o, h, key);
        TurnDone(all, m, h, t, k, j, f, tomb, e);
        if tomb < 0 && j < 8 {
          tomb := At(bucket, Place(o, j));
        }
        if k < 8 {
          EndReached(all, m, h, t, k, key, entries, tomb);
          return At(bucket, Place(o, k)), tomb;
        }
        pos, step := NextPos(h, m, t, pos, step, table.SlotCount());
        t := t + 1;
      }
    }

    /** The search of `stbds_hmput_key`: the slot that leads to the key, or else the slot for
        a new key: the first tombstone on the path, or the empty slot at its end. */
    method FindPlace(key: K) returns (found: bool, slot: nat)
      requires Searchable()
      ensures slot < table.slots.Length
      ensures var x := table.slots[slot];
              found == Matches(x, Stored(hash(key)), key, entries) && (!found ==> IsEmpty(x) || IsTombstone(x))
      ensures !found ==>
                && (forall p: nat :: p < table.slots.Length ==>
                      !Matches(table.slots[..][p], Stored(hash(key)), key, entries))
                && PathHas(table.slots[..], table.buckets, Stored(hash(key)),
                           Rank(Stored(hash(key)), table.buckets, slot), InUse)
    {
      var end, tomb := FindEnd(Stored(hash(key)), key);
      found := table.slots[end].hash != 0;
      slot := if !found && tomb >= 0 then tomb else end;
    }

    /** The slot that leads to the key, or -1 if there is none or no index at all. */
    method Lookup(key: K) returns (slot: int)
      requires Valid()
      ensures slot == -1 ==> key !in Contents()
      ensures slot != -1 ==>
                && table != null && 0 <= slot < table.slots.Length
                && 0 <= table.slots[slot].index < |entries| && entries[table.slots[slot].index].0 == key
    {
      if table == null {
        return -1;
      }
      ValidIsSearchable();
      slot := FindSlot(key);
      if slot < 0 {
        NotAKey(table.slots[..], entries, hash, key);
      }
    }

    /** `stbds_hmgeti`: the index of the entry with the key, or -1. */
    method Get(key: K) returns (i: int)
      requires Valid()
      ensures -1 <= i < |entries| && (i == -1 <==> key !in Contents())
      ensures i >= 0 ==> entries[i].0 == key && Contents()[key] == entries[i].1
    {
      var slot := Lookup(key);
      i := if slot < 0 then -1 else table.slots[slot].index;
    }

    /** The growth step of `stbds_hmput_key`: a first index, or one of twice the size. */
    method Grow()
      requires Valid() && (table == null || table.usedCount >= UsedThreshold(table.SlotCount()))
      modifies this`table
      ensures Valid() && table != null && fresh(Repr() - {this})
      ensures table.tombstoneCount == 0
      ensures table.buckets == if old(table) == null then 1 else 2 * old(table).buckets
      ensures table.usedCount < UsedThreshold(table.SlotCount())
    {
      ghost var before := if table == null then [] else table.slots[..];
      var buckets := if table == null then 1 else 2 * table.buckets;
      OneBucket();
      if table != null {
        DoubleHalf(table.buckets);
      }
      var nt := MakeHashIndex(buckets, table);
      LinkedToo(before, nt.slots[..], Hashes(entries, hash));
      table := nt;
    }

    /** The growth step of `stbds_hmput_key`, if it is due. */
    method EnsureRoom()
      requires Valid()
      modifies this`table
      ensures Valid() && table != null && fresh(Repr() - old(Repr()))
      ensures table.usedCount < UsedThreshold(table.SlotCount())
      ensures Buckets() == if old(Buckets()) == 0 then 1
                           else if |entries| >= 6 * old(Buckets()) then 2 * old(Buckets()) else old(Buckets())
    {
      if table != null {
        ThresholdsInNumbers(table.buckets);
      }
      if table == null || table.usedCount >= UsedThreshold(table.SlotCount()) {
        Grow();
      }
    }

    /** `stbds_hmput`. An existing key keeps its place among the entries, a new one comes last. */
    method Put(key: K, value: V) returns (i: nat)
      requires Valid()
      modifies Repr()
      ensures Valid() && fresh(Repr() - old(Repr()))
      ensures Contents() == old(Contents())[key := value]
      ensures i < |entries| && entries[i] == (key, value)
      ensures entries == if key in old(Contents()) then old(entries)[i := (key, value)]
                         else old(entries) + [(key, value)]
      ensures Buckets() == if old(Buckets()) == 0 then 1
                           else if |old(entries)| >= 6 * old(Buckets()) then 2 * old(Buckets()) else old(Buckets())
    {
      EnsureRoom();
      i := PutKey(key, value);
    }

    method PutKey(key: K, value: V) returns (i: nat)
      requires Valid() && table != null && table.usedCount < UsedThreshold(table.SlotCount())
      modifies this`entries, table, table.slots
      ensures Valid() && i < |entries| && entries[i] == (key, value)
      ensures Contents() == old(Contents())[key := value]
      ensures entries == if key in old(Contents()) then old(entries)[i := (key, value)]
                         else old(entries) + [(key, value)]
    {
      ValidIsSearchable();
      var found, slot := FindPlace(key);
      if found {
        i := table.slots[slot].index;
        SetValue(i, key, value);
      } else {
        i := |entries|;
        Insert(slot, key, value);
      }
    }

    method SetValue(i: nat, key: K, value: V)
      requires Valid() && i < |entries| && entries[i].0 == key
      modifies this`entries
      ensures Valid() && entries == old(entries)[i := (key, value)]
      ensures key in old(Contents()) && Contents() == old(Contents())[key := value]
    {
      SetEntry(entries, i, value);
      assert Hashes(entries[i := (key, value)], hash) == Hashes(entries, hash);
      entries := entries[i := (key, value)];
    }

    /** Enters a new key at the place the search has found. */
    method Insert(slot: nat, key: K, value: V)
      requires Valid() && table != null && table.usedCount < UsedThreshold(table.SlotCount())
      requires slot < table.slots.Length && !InUse(table.slots[slot])
      requires forall p: nat :: p < table.slots.Length ==>
                 !Matches(table.slots[..][p], Stored(hash(key)), key, entries)
      requires PathHas(table.slots[..], table.buckets, Stored(hash(key)),
                       Rank(Stored(hash(key)), table.buckets, slot), InUse)
      modifies this`entries, table, table.slots
      ensures Valid() && entries == old(entries) + [(key, value)]
      ensures key !in old(Contents()) && Contents() == old(Contents())[key := value]
    {
      var h := Stored(hash(key));
      ghost var all := table.slots[..];
      NotAKey(all, entries, hash, key);
      AddEntry(entries, key, value);
      InUseIsBusy(all, table.buckets, h, Rank(h, table.buckets, slot));
      LinkAdd(all, Hashes(entries, hash), slot, h);
      assert Hashes(entries + [(key, value)], hash) == Hashes(entries, hash) + [h];
      table.Occupy(slot, Slot(h, |entries|));
      entries := entries + [(key, value)];
    }

    /** `stbds_hmdel`: 1 if the key was there. The last entry takes the place of the deleted. */
    method Del(key: K) returns (deleted: nat, ghost at: nat)
      requires Valid()
      modifies Repr()
      ensures Valid() && fresh(Repr() - old(Repr()))
      ensures Contents() == old(Contents()) - {key}
      ensures deleted == One(key in old(Contents()))
      ensures deleted == 0 ==> entries == old(entries)
      ensures deleted == 1 ==> at < |old(entries)| && old(entries)[at].0 == key && entries == DelSwap(old(entries), at)
      ensures Buckets() == if deleted == 1 && old(Buckets()) > 1 && |entries| < 2 * old(Buckets())
                           then old(Buckets()) / 2 else old(Buckets())
    {
      at := 0;
      var slot := Lookup(key);
      if slot < 0 {
        return 0, at;
      }
      at := table.slots[slot].index;
      DelSlot(slot);
      return 1, at;
    }

    method DelSlot(slot: nat)
      requires Valid() && table != null && slot < table.slots.Length && InUse(table.slots[slot])
      requires table.slots[slot].index < |entries|
      modifies Repr()
      ensures Valid() && fresh(Repr() - old(Repr()))
      ensures var i := old(table.slots[slot]).index;
              entries == DelSwap(old(entries), i) && Contents() == old(Contents()) - {old(entries)[i].0}
      ensures Buckets() == if old(Buckets()) > 1 && |entries| < 2 * old(Buckets())
                           then old(Buckets()) / 2 else old(Buckets())
    {
      DropEntry(entries, table.slots[slot].index);
      Remove(slot);
      Trim();
    }

    /** The deletion proper. While the last entry is being moved, its old copy is still there
        for the search that looks for its slot. */
    method Remove(slot: nat)
      requires Valid() && table != null && slot < table.slots.Length && InUse(table.slots[slot])
      requires table.slots[slot].index < |entries|
      modifies this`entries, table, table.slots
      ensures table.Valid() && entries == DelSwap(old(entries), old(table.slots[slot]).index)
      ensures table.usedCount == old(table.usedCount) - 1 && table.tombstoneCount == old(table.tombstoneCount) + 1
      ensures Linked(table.slots[..], Hashes(entries, hash))
    {
      var oldIndex := table.slots[slot].index;
      ValidIsSearchable();
      LinkDrop(table.slots[..], Hashes(entries, hash), slot);
      table.Bury(slot);
      MoveLast(oldIndex);
    }

    /** The last entry takes the free place, and its slot follows. */
    method MoveLast(i: nat)
      requires table != null && table.Valid() && table.usedCount + table.tombstoneCount < table.SlotCount()
      requires KeysApart(entries) && i < |entries| && LinkedBut(table.slots[..], Hashes(entries, hash), i)
      modifies this`entries, table.slots
      ensures table.Valid() && entries == DelSwap(old(entries), i)
      ensures Linked(table.slots[..], Hashes(entries, hash))
    {
      ghost var es := entries;
      var finalIndex := |entries| - 1;
      if i != finalIndex {
        entries := entries[i := entries[finalIndex]];
        MoveSlot(es, i);
      } else {
        LinkLast(table.slots[..], Hashes(es, hash));
      }
      HashesMove(es, i, hash);
      entries := entries[..finalIndex];
    }

    /** Finds the slot of the entry that was last and makes it lead to its new place. */
    method MoveSlot(ghost es: seq<(K, V)>, i: nat)
      requires table != null && table.Valid() && table.usedCount + table.tombstoneCount < table.SlotCount()
      requires KeysApart(es) && i < |es| - 1 && entries == es[i := es[|es| - 1]]
      requires LinkedBut(table.slots[..], Hashes(es, hash), i)
      modifies table.slots
      ensures table.Valid()
      ensures var hs := Hashes(es, hash);
              Linked(table.slots[..], hs[i := hs[|es| - 1]][..|es| - 1])
    {
      ghost var last := |es| - 1;
      ghost var all, hs := table.slots[..], Hashes(es, hash);
      ghost var p := StillThere(all, hs, i, es, entries, hash);
      var slot := FindSlot(entries[i].0);
      assert table.slots[..][p] == all[p];
      OnlyLast(all, hs, i, es, entries, slot);
      LinkMove(all, hs, i, slot);
      table.Redirect(slot, i);
    }

    /** The end of `stbds_hmdel_key`: shrink or rebuild the index if it has become too empty or
        has too many tombstones. */
    method Trim()
      requires table != null && table.Valid() && KeysApart(entries) && table.usedCount == |entries|
      requires Linked(table.slots[..], Hashes(entries, hash))
      requires table.usedCount <= UsedThreshold(table.SlotCount())
      requires table.tombstoneCount <= TombstoneThreshold(table.SlotCount()) + 1
      modifies this`table
      ensures Valid() && fresh(Repr() - old(Repr()))
      ensures table != null
      ensures var m := old(table).buckets;
              && table.buckets == (if old(table).usedCount < 2 * m && m > 1 then m / 2 else m)
              && (old(table).tombstoneCount > m + m / 2 ==> table.tombstoneCount == 0)
    {
      ThresholdsInNumbers(table.buckets);
      ghost var before := table.slots[..];
      DoubleHalf(table.buckets);
      if table.usedCount < ShrinkThreshold(table.SlotCount()) && table.SlotCount() > 8 {
        var nt := MakeHashIndex(table.buckets / 2, table);
        LinkedToo(before, nt.slots[..], Hashes(entries, hash));
        table := nt;
      } else if table.tombstoneCount > TombstoneThreshold(table.SlotCount()) {
        var nt := MakeHashIndex(table.buckets, table);
        LinkedToo(before, nt.slots[..], Hashes(entries, hash));
        table := nt;
      }
    }
  }

  lemma HashesMove<K, V>(es: seq<(K, V)>, i: nat, hash: K -> nat)
    requires i < |es|
    ensures var last, hs := |es| - 1, Hashes(es, hash);
            Hashes(DelSwap(es, i), hash) == if i == last then hs[..last] else hs[i := hs[last]][..last]
    ensures i == |es| - 1 ==> es[..i] == DelSwap(es, i)
  {
    DelSwapAt(es, i);
  }

  // ---- sequences of operations ----

  datatype Op<K, V> = PutOp(key: K, value: V) | DelOp(key: K)

  /** The map that a sequence of operations leaves. */
  ghost function Meaning<K, V>(ops: seq<Op<K, V>>): map<K, V> {
    if ops == [] then map[]
    else After(Meaning(ops[..|ops| - 1]), ops[|ops| - 1])
  }

  ghost function After<K, V>(m: map<K, V>, op: Op<K, V>): map<K, V> {
    match op
    case PutOp(k, v) => m[k := v]
    case DelOp(k) => m - {k}
  }

  /** Operation `i` is the last one on its key. */
  predicate IsLast<K(==), V>(ops: seq<Op<K, V>>, i: nat) {
    i < |ops| && forall j :: i < j < |ops| ==> ops[j].key != ops[i].key
  }

  /** A key has value `v` exactly if the last operation on it put `v`. */
  lemma {:induction false} LastPutCounts<K, V>(ops: seq<Op<K, V>>, k: K, v: V)
    ensures k in Meaning(ops) && Meaning(ops)[k] == v <==>
            exists i: nat :: IsLast(ops, i) && ops[i] == PutOp(k, v)
  {
    if ops != [] {
      var last := |ops| - 1;
      var init := ops[..last];
      LastPutCounts(init, k, v);
      if ops[last].key == k {
        assert IsLast(ops, last);
      } else {
        forall i: nat | i < last && ops[i].key == k ensures IsLast(ops, i) <==> IsLast(init, i) {
          assert forall j :: 0 <= j < last ==> ops[j] == init[j];
        }
      }
    }
  }

  method Perform<K(==), V>(h: HashMap<K, V>, op: Op<K, V>)
    requires h.Valid()
    modifies h.Repr()
    ensures h.Valid() && fresh(h.Repr() - old(h.Repr()))
    ensures h.Contents() == After(old(h.Contents()), op)
  {
    match op
    case PutOp(k, v) => var index := h.Put(k, v);
    case DelOp(k) => var deleted, _ := h.Del(k);
  }

  /** Replays operations on a fresh map. */
  method Replay<K(==), V>(hash: K -> nat, ops: seq<Op<K, V>>) returns (h: HashMap<K, V>)
    ensures fresh(h) && h.Valid() && h.Contents() == Meaning(ops)
  {
    h := new HashMap(hash);
    var i := 0;
    while i < |ops|
      invariant i <= |ops| && fresh(h) && fresh(h.Repr()) && h.Valid()
      invariant h.Contents() == Meaning(ops[..i])
    {
      assert ops[..i + 1][..i] == ops[..i];
      Perform(h, ops[i]);
      i := i + 1;
    }
    assert ops[..i] == ops;
  }

  lemma OneBucket()
    ensures IsPow2(1)
  {
    assert Pow2(0) == 1;
  }

  /** In the middle of a deletion every slot still points at an entry, and the slot of the last
      entry leads to its key. */
  lemma StillThere<K, V>(slots: seq<Slot>, hs: seq<nat>, i: nat, es: seq<(K, V)>, mid: seq<(K, V)>, hash: K -> nat)
      returns (p: nat)
    requires i < |es| - 1 && mid == es[i := es[|es| - 1]] && hs == Hashes(es, hash)
    requires LinkedBut(slots, hs, i)
    ensures forall x :: x in slots && InUse(x) ==> x.index < |mid|
    ensures p < |slots| && Matches(slots[p], Stored(hash(mid[i].0)), mid[i].0, mid)
  {
    var last := |es| - 1;
    forall x | x in slots && InUse(x) ensures x.index < |mid| {
      assert multiset(slots)[x] > 0;
    }
    var x := Slot(hs[last], last);
    assert multiset(slots)[x] == 1;
    assert x in slots;
    p :| p < |slots| && slots[p] == x;
  }

  /** ... and no other slot does. */
  lemma OnlyLast<K, V>(slots: seq<Slot>, hs: seq<nat>, i: nat, es: seq<(K, V)>, mid: seq<(K, V)>, slot: nat)
    requires |hs| == |es| && KeysApart(es) && i < |es| - 1 && mid == es[i := es[|es| - 1]]
    requires LinkedBut(slots, hs, i) && slot < |slots| && InUse(slots[slot])
    requires slots[slot].index < |mid| && mid[slots[slot].index].0 == mid[i].0
    ensures slots[slot] == Slot(hs[|es| - 1], |es| - 1)
  {
    assert multiset(slots)[slots[slot]] > 0;
  }
}
