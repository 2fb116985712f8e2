/** The order in which `stb_ds.h` probes the slots of a hash index. The slots form buckets of
    eight; a search looks at one bucket after the other, and the distance to the next bucket
    grows by one bucket each time. */
module ProbeSequence {
  import opened Powers

  /** The numbers of buckets an index can have. */
  ghost predicate IsPow2(m: nat) {
    exists k: nat :: m == Pow2(k)
  }

  lemma DoubleHalf(m: nat)
    requires IsPow2(m)
    ensures m > 0 && IsPow2(2 * m)
    ensures m > 1 ==> m % 2 == 0 && IsPow2(m / 2)
  {
    var k: nat :| m == Pow2(k);
    assert 2 * m == Pow2(k + 1);
    if k > 0 {
      assert m == 2 * Pow2(k - 1);
    }
  }

  /** `x & (n - 1)` for a power of two. */
  function Wrap(x: nat, n: nat): (r: nat)
    requires n > 0
    ensures r < n
  {
    if x < n then x else Wrap(x - n, n)
  }

  lemma {:induction false} WrapIs(x: nat, n: nat) returns (q: nat)
    requires n > 0
    ensures x == Wrap(x, n) + n * q
  {
    if x < n {
      q := 0;
    } else {
      var p := WrapIs(x - n, n);
      q := p + 1;
      Distribute(n, p, 1);
    }
  }

  lemma Distribute(n: int, a: int, b: int)
    ensures n * (a + b) == n * a + n * b
  {
  }

  /** The number of the bucket looked at in turn `t` of a search that starts in bucket `b`. */
  function Turn(b: nat, m: nat, t: nat): (r: nat)
    requires m > 0
    ensures r < m
  {
    if t == 0 then Wrap(b, m) else Wrap(Turn(b, m, t - 1) + t, m)
  }

  /** The `j`-th place looked at in a bucket entered at place `o`: from there to its end, and
      then from its beginning. */
  function Place(o: nat, j: nat): nat { if o + j < 8 then o + j else o + j - 8 }

  /** Place `p` of bucket `b`. */
  function At(b: nat, p: nat): nat { 8 * b + p }

  /** The slot looked at in turn `t`, step `j`, of the search for hash `h`. */
  function Probe(h: nat, m: nat, t: nat, j: nat): (slot: nat)
    requires m > 0 && j < 8
    ensures slot < 8 * m
  {
    At(Turn(h / 8, m, t), Place(h % 8, j))
  }

  // ---- triangular numbers ----

  function Tri(t: nat): nat {
    if t == 0 then 0 else Tri(t - 1) + t
  }

  lemma {:induction false} TwiceTri(t: nat)
    ensures 2 * Tri(t) == t * (t + 1)
  {
    if t > 0 {
      TwiceTri(t - 1);
    }
  }

  /** A power of two that divides a product with an odd factor divides the other one. */
  lemma {:induction false} OddFactor(a: nat, b: nat, k: nat, q: nat) returns (r: nat)
    requires a % 2 == 1 && a * b == Pow2(k) * q
    ensures b == Pow2(k) * r
  {
    if k == 0 {
      return b;
    }
    EvenFactor(a, b, Pow2(k - 1) * q);
    var half := b / 2;
    assert 2 * (a * half) == 2 * (Pow2(k - 1) * q) by {
      assert a * (2 * half) == 2 * (a * half);
      assert Pow2(k) * q == 2 * (Pow2(k - 1) * q);
    }
    r := OddFactor(a, half, k - 1, q);
    assert 2 * half == 2 * (Pow2(k - 1) * r) == Pow2(k) * r;
  }

  lemma EvenFactor(a: nat, b: nat, c: nat)
    requires a % 2 == 1 && a * b == 2 * c
    ensures b % 2 == 0
  {
    if b % 2 == 1 {
      OddProduct(a / 2, b / 2);
    }
  }

  lemma OddProduct(x: nat, y: nat)
    ensures (2 * x + 1) * (2 * y + 1) == 2 * (2 * x * y + x + y) + 1
  {
  }

  lemma TooSmall(a: nat, b: nat, r: nat)
    requires 0 < a < b
    ensures a != b * r
  {
    if r > 0 {
      assert b * r >= b;
    }
  }

  lemma TriDifference(t: nat, u: nat, p: nat, q: nat)
    requires t <= u && Tri(u) == Tri(t) + p * q
    ensures (u - t) * (u + t + 1) == (2 * p) * q
  {
    TwiceTri(t);
    TwiceTri(u);
    Factored(t, u);
    Doubled(p, q);
  }

  lemma Factored(t: int, u: int)
    ensures (u - t) * (u + t + 1) == u * (u + 1) - t * (t + 1)
  {
  }

  lemma Doubled(p: int, q: int)
    ensures (2 * p) * q == 2 * (p * q)
  {
  }

  /** The first 2^k triangular numbers differ modulo 2^k: twice the difference of two of them
      is a product of an odd and an even number, both too small to be multiples of 2^(k+1). */
  lemma TriApart(k: nat, t: nat, u: nat, q: nat)
    requires t < u < Pow2(k)
    ensures Tri(u) != Tri(t) + Pow2(k) * q
  {
    if Tri(u) == Tri(t) + Pow2(k) * q {
      TriDifference(t, u, Pow2(k), q);
      NoSuchProduct(u - t, u + t + 1, k + 1, q);
    }
  }

  lemma NoSuchProduct(a: nat, b: nat, k: nat, q: nat)
    requires 0 < a < Pow2(k) && 0 < b < Pow2(k) && (a + b) % 2 == 1
    ensures a * b != Pow2(k) * q
  {
    if a % 2 == 1 {
      OddTimesSmall(a, b, k, q);
    } else {
      OddTimesSmall(b, a, k, q);
      Swapped(a, b);
    }
  }

  lemma OddTimesSmall(a: nat, b: nat, k: nat, q: nat)
    requires a % 2 == 1 && 0 < b < Pow2(k)
    ensures a * b != Pow2(k) * q
  {
    if a * b == Pow2(k) * q {
      var r := OddFactor(a, b, k, q);
      TooSmall(b, Pow2(k), r);
    }
  }

  lemma Swapped(a: int, b: int)
    ensures a * b == b * a
  {
  }

  // ---- the probe sequence ----

  /** The turns of the loop add up to triangular numbers of buckets. */
  lemma {:induction false} TurnIs(b: nat, m: nat, t: nat) returns (q: nat)
    requires m > 0
    ensures b + Tri(t) == Turn(b, m, t) + m * q
  {
    if t == 0 {
      q := WrapIs(b, m);
    } else {
      var before := TurnIs(b, m, t - 1);
      var more := WrapIs(Turn(b, m, t - 1) + t, m);
      q := before + more;
      Distribute(m, before, more);
    }
  }

  lemma TurnsApart(b: nat, m: nat, t: nat, u: nat)
    requires IsPow2(m) && t < u < m
    ensures Turn(b, m, t) != Turn(b, m, u)
  {
    var k: nat :| m == Pow2(k);
    if Turn(b, m, t) == Turn(b, m, u) {
      var p := TurnIs(b, m, t);
      var q := TurnIs(b, m, u);
      TriGrows(t, u);
      assert Tri(u) - Tri(t) + m * p == m * q;
      Quotients(m, Tri(u) - Tri(t), p, q);
      TriApart(k, t, u, q - p);
    }
  }

  lemma Quotients(m: nat, d: nat, p: nat, q: nat)
    requires m > 0 && d + m * p == m * q
    ensures p <= q && d == m * (q - p)
  {
    Distribute(m, q - p, p);
    if q < p {
      Distribute(m, q, p - q);
      PositiveProduct(m, p - q);
    }
  }

  lemma PositiveProduct(a: nat, b: nat)
    requires a > 0 && b > 0
    ensures a * b > 0
  {
  }

  lemma {:induction false} TriGrows(t: nat, u: nat)
    requires t <= u
    ensures Tri(t) <= Tri(u)
  {
    if t < u {
      TriGrows(t, u - 1);
    }
  }

  ghost function Visited(b: nat, m: nat, t: nat): set<nat>
    requires m > 0
  {
    if t == 0 then {} else Visited(b, m, t - 1) + {Turn(b, m, t - 1)}
  }

  lemma {:induction false} VisitedIs(b: nat, m: nat, t: nat, x: nat)
    requires m > 0
    ensures x in Visited(b, m, t) <==> exists u: nat :: u < t && Turn(b, m, u) == x
  {
    if t > 0 {
      var last := t - 1;
      VisitedIs(b, m, last, x);
      assert Visited(b, m, t) == Visited(b, m, last) + {Turn(b, m, last)};
      if x == Turn(b, m, last) {
        assert last < t && Turn(b, m, last) == x;
      }
    }
  }

  lemma {:induction false} VisitedCount(b: nat, m: nat, t: nat)
    requires IsPow2(m) && 0 < m && t <= m
    ensures |Visited(b, m, t)| == t
  {
    if t > 0 {
      VisitedCount(b, m, t - 1);
      var last := Turn(b, m, t - 1);
      VisitedIs(b, m, t - 1, last);
      if u: nat :| u < t - 1 && Turn(b, m, u) == last {
        TurnsApart(b, m, u, t - 1);
      }
    }
  }

  ghost function Upto(n: nat): set<nat> { if n == 0 then {} else Upto(n - 1) + {n - 1} }

  lemma {:induction false} UptoIs(n: nat)
    ensures |Upto(n)| == n && forall i: nat :: i in Upto(n) <==> i < n
  {
    if n > 0 {
      UptoIs(n - 1);
    }
  }

  lemma FullSubset(a: set<nat>, b: set<nat>)
    requires a <= b && |a| == |b|
    ensures a == b
  {
    assert b - a + a == b;
  }

  /** Every bucket has its turn within `m` turns. */
  lemma TurnComes(b: nat, m: nat, x: nat)
    requires IsPow2(m) && x < m
    ensures exists t: nat :: t < m && Turn(b, m, t) == x
  {
    VisitedCount(b, m, m);
    UptoIs(m);
    forall y | y in Visited(b, m, m) ensures y in Upto(m) {
      VisitedIs(b, m, m, y);
    }
    FullSubset(Visited(b, m, m), Upto(m));
    VisitedIs(b, m, m, x);
  }

  /** The turn in which the search for `h` looks at `slot`. */
  ghost function TurnOf(h: nat, m: nat, slot: nat): (t: nat)
    requires IsPow2(m) && slot < 8 * m
    ensures t < m && Turn(h / 8, m, t) == slot / 8
  {
    TurnComes(h / 8, m, slot / 8);
    var t: nat :| t < m && Turn(h / 8, m, t) == slot / 8;
    t
  }

  /** The step in which it does, counted within the turn. */
  function StepTo(o: nat, place: nat): (j: nat)
    requires o < 8 && place < 8
    ensures j < 8
  {
    if o <= place then place - o else 8 + place - o
  }

  /** The step in which the search for `h` looks at `slot`, counted from the start. */
  ghost function Rank(h: nat, m: nat, slot: nat): nat
    requires IsPow2(m) && slot < 8 * m
  {
    8 * TurnOf(h, m, slot) + StepTo(h % 8, slot % 8)
  }

  lemma RankFinds(h: nat, m: nat, slot: nat)
    requires IsPow2(m) && slot < 8 * m
    ensures Probe(h, m, TurnOf(h, m, slot), StepTo(h % 8, slot % 8)) == slot
  {
  }

  lemma SplitSlot(b: nat, p: nat)
    requires p < 8
    ensures (8 * b + p) / 8 == b && (8 * b + p) % 8 == p
  {
  }

  /** A slot that step `j` of turn `t` looks at has that rank. */
  lemma RankIs(h: nat, m: nat, t: nat, j: nat)
    requires IsPow2(m) && 0 < m && t < m && j < 8
    ensures Probe(h, m, t, j) < 8 * m
    ensures Rank(h, m, Probe(h, m, t, j)) == 8 * t + j
  {
    var b, p := Turn(h / 8, m, t), Place(h % 8, j);
    SplitSlot(b, p);
    var u := TurnOf(h, m, 8 * b + p);
    if u < t {
      TurnsApart(h / 8, m, u, t);
    } else if t < u {
      TurnsApart(h / 8, m, t, u);
    }
  }

  /** The first `m` turns of the probe loop look at every slot exactly once. */
  lemma ProbeIsPermutation(h: nat, m: nat, slot: nat)
    requires IsPow2(m) && 0 < m && slot < 8 * m
    ensures exists t: nat, j: nat :: t < m && j < 8 && Probe(h, m, t, j) == slot
    ensures forall t: nat, j: nat, u: nat, i: nat ::
              t < m && j < 8 && u < m && i < 8 && Probe(h, m, t, j) == slot && Probe(h, m, u, i) == slot ==>
                t == u && j == i
  {
    assert Probe(h, m, TurnOf(h, m, slot), StepTo(h % 8, slot % 8)) == slot;
    forall t: nat, j: nat, u: nat, i: nat |
      t < m && j < 8 && u < m && i < 8 && Probe(h, m, t, j) == slot && Probe(h, m, u, i) == slot
      ensures t == u && j == i
    {
      RankIs(h, m, t, j);
      RankIs(h, m, u, i);
    }
  }

  // ---- positions, as the loops compute them ----

  /** Wrapping a position wraps its bucket and keeps its place. */
  lemma {:induction false} WrapBucket(b: nat, o: nat, m: nat)
    requires m > 0 && o < 8
    ensures Wrap(8 * b + o, 8 * m) == 8 * Wrap(b, m) + o
  {
    if b >= m {
      WrapBucket(b - m, o, m);
    }
  }
}
