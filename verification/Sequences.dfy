/** The growable-array operations of `stb_ds.h` that the broadcast code uses, on
    values, and the order-preserving selection its search loops compute. */
module Sequences {

  /** `arrdel`: removes one element, keeping the order of the others. */
  function DelAt<T>(s: seq<T>, i: nat): seq<T>
    requires i < |s|
  {
    s[..i] + s[i + 1..]
  }

  /** `arrdelswap`: overwrites the element with the last one and shortens the array. */
  function DelSwap<T>(s: seq<T>, i: nat): (r: seq<T>)
    requires i < |s|
    ensures |r| == |s| - 1
  {
    s[i := s[|s| - 1]][..|s| - 1]
  }

  lemma DelSwapAt<T>(s: seq<T>, i: nat)
    requires i < |s|
    ensures forall j :: 0 <= j < |s| - 1 ==> DelSwap(s, i)[j] == s[if j == i then |s| - 1 else j]
  {
  }

  lemma UpdateTwice<T>(s: seq<T>, i: nat, x: T, y: T)
    requires i < |s|
    ensures s[i := x][i := y] == s[i := y]
  {
  }

  lemma Regroup<T>(a: seq<T>, b: seq<T>, c: seq<T>)
    ensures a + (b + c) == (a + b) + c
  {
  }

  lemma DelSwapMultiset<T>(s: seq<T>, i: nat)
    requires i < |s|
    ensures multiset(s) == multiset(DelSwap(s, i)) + multiset{s[i]}
  {
    var last := |s| - 1;
    assert s == s[..last] + [s[last]];
    if i < last {
      assert DelSwap(s, i) == s[..last][i := s[last]];
    } else {
      assert DelSwap(s, i) == s[..last];
    }
  }

  /** The elements satisfying `f`, in their order. */
  function Select<T>(s: seq<T>, f: T -> bool): (r: seq<T>)
    ensures |r| <= |s|
  {
    if |s| == 0 then []
    else Select(s[..|s| - 1], f) + (if f(s[|s| - 1]) then [s[|s| - 1]] else [])
  }

  lemma SelectPush<T>(s: seq<T>, x: T, f: T -> bool)
    ensures Select(s + [x], f) == Select(s, f) + (if f(x) then [x] else [])
  {
    assert (s + [x])[..|s|] == s;
  }

  /** One more step of a selecting loop. */
  lemma SelectNext<T>(s: seq<T>, i: nat, f: T -> bool)
    requires i < |s|
    ensures Select(s[..i + 1], f) == Select(s[..i], f) + (if f(s[i]) then [s[i]] else [])
  {
    assert s[..i + 1][..i] == s[..i];
  }

  lemma {:induction false} SelectConcat<T>(a: seq<T>, b: seq<T>, f: T -> bool)
    ensures Select(a + b, f) == Select(a, f) + Select(b, f)
  {
    if |b| == 0 {
      assert a + b == a;
    } else {
      var b' := b[..|b| - 1];
      SelectConcat(a, b', f);
      assert a + b == (a + b') + [b[|b| - 1]];
      SelectPush(a + b', b[|b| - 1], f);
    }
  }

  lemma {:induction false} SelectMembers<T>(s: seq<T>, f: T -> bool, x: T)
    ensures x in Select(s, f) <==> x in s && f(x)
  {
    if |s| > 0 {
      SelectMembers(s[..|s| - 1], f, x);
      assert s == s[..|s| - 1] + [s[|s| - 1]];
    }
  }

  lemma {:induction false} SelectNone<T>(s: seq<T>, f: T -> bool)
    requires forall x :: x in s ==> !f(x)
    ensures Select(s, f) == []
  {
    if |s| > 0 {
      SelectNone(s[..|s| - 1], f);
    }
  }

  lemma {:induction false} SelectAll<T>(s: seq<T>, f: T -> bool)
    requires forall x :: x in s ==> f(x)
    ensures Select(s, f) == s
  {
    if |s| > 0 {
      SelectAll(s[..|s| - 1], f);
      assert s == s[..|s| - 1] + [s[|s| - 1]];
    }
  }

  lemma SelectAround<T>(a: seq<T>, x: T, b: seq<T>, f: T -> bool)
    ensures Select(a + [x] + b, f) == Select(a, f) + (if f(x) then [x] else []) + Select(b, f)
  {
    SelectConcat(a + [x], b, f);
    SelectPush(a, x, f);
  }

  /** Deleting an element the selection skips leaves the selection alone. */
  lemma SelectDelSkipped<T>(s: seq<T>, i: nat, f: T -> bool)
    requires i < |s| && !f(s[i])
    ensures Select(DelAt(s, i), f) == Select(s, f)
  {
    var a, x, b := s[..i], s[i], s[i + 1..];
    SelectSkips(a, x, b, f);
    assert s == a + [x] + b by { Around(s, i); }
  }

  lemma SelectSkips<T>(a: seq<T>, x: T, b: seq<T>, f: T -> bool)
    requires !f(x)
    ensures Select(a + [x] + b, f) == Select(a + b, f)
  {
    SelectAround(a, x, b, f);
    SelectConcat(a, b, f);
  }

  lemma SelectHead<T>(a: seq<T>, x: T, b: seq<T>, f: T -> bool)
    requires Select(a, f) == [] && f(x)
    ensures Select(a + [x] + b, f) == [x] + Select(a + b, f)
  {
    SelectAround(a, x, b, f);
    SelectConcat(a, b, f);
    var rest := Select(b, f);
    assert [] + [x] + rest == [x] + ([] + rest);
  }

  /** Deleting the first element the selection keeps takes off its head. */
  lemma SelectDelFirst<T>(s: seq<T>, i: nat, f: T -> bool)
    requires i < |s| && f(s[i]) && Select(s[..i], f) == []
    ensures Select(s, f) == [s[i]] + Select(DelAt(s, i), f)
  {
    var a, x, b := s[..i], s[i], s[i + 1..];
    SelectHead(a, x, b, f);
    assert s == a + [x] + b by { Around(s, i); }
  }

  lemma Around<T>(s: seq<T>, i: nat)
    requires i < |s|
    ensures s == s[..i] + [s[i]] + s[i + 1..]
  {
  }

  predicate Distinct<T(==)>(s: seq<T>) {
    forall i, j :: 0 <= i < j < |s| ==> s[i] != s[j]
  }
}
