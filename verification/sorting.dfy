/** Sorting and counting for the detector's five-sample window.
    `Sorted` is what firealarm.c asks of qsort with `compare` (lines 39-42 and 86);
    the counting lemmas turn the element at the middle into a vote among the samples. */
module Sorting {

  function Insert(x: int, s: seq<int>): seq<int> {
    if s == [] || x <= s[0] then [x] + s else [s[0]] + Insert(x, s[1..])
  }

  function Sorted(s: seq<int>): seq<int> {
    if s == [] then [] else Insert(s[0], Sorted(s[1..]))
  }

  ghost predicate Ascending(s: seq<int>) {
    forall i, j :: 0 <= i < j < |s| ==> s[i] <= s[j]
  }

  lemma {:induction false} InsertAdds(x: int, s: seq<int>)
    ensures multiset(Insert(x, s)) == multiset(s) + multiset{x}
  {
    if s != [] && s[0] < x {
      InsertAdds(x, s[1..]);
      assert s == [s[0]] + s[1..];
    }
  }

  lemma {:induction false} InsertKeepsOrder(x: int, s: seq<int>)
    requires Ascending(s)
    ensures Ascending(Insert(x, s))
  {
    if s != [] && s[0] < x {
      var tail := s[1..];
      InsertKeepsOrder(x, tail);
      var r := Insert(x, tail);
      forall k | 0 <= k < |r| ensures s[0] <= r[k] {
        InsertAdds(x, tail);
        assert r[k] in multiset(r);
        assert r[k] == x || r[k] in tail;
      }
    }
  }

  /** qsort returns an ascending rearrangement. */
  lemma {:induction false} SortedIsAscendingPermutation(s: seq<int>)
    ensures Ascending(Sorted(s))
    ensures multiset(Sorted(s)) == multiset(s)
    ensures |Sorted(s)| == |s|
  {
    if s != [] {
      SortedIsAscendingPermutation(s[1..]);
      InsertKeepsOrder(s[0], Sorted(s[1..]));
      InsertAdds(s[0], Sorted(s[1..]));
      assert s == [s[0]] + s[1..];
    }
    assert |multiset(Sorted(s))| == |multiset(s)|;
  }

  /** Where `Insert` puts its element. */
  lemma {:induction false} InsertAt(x: int, s: seq<int>, k: nat)
    requires k <= |s|
    requires forall i :: 0 <= i < k ==> s[i] < x
    requires k < |s| ==> x <= s[k]
    ensures Insert(x, s) == s[..k] + [x] + s[k..]
  {
    if k > 0 {
      InsertAt(x, s[1..], k - 1);
      assert s[1..][..k - 1] == s[1..k];
      assert s[..k] == [s[0]] + s[1..k];
    }
  }

  /** How many elements of `s` are at least `t`. */
  function CountAtLeast(s: seq<int>, t: int): nat {
    if s == [] then 0
    else CountAtLeast(s[..|s| - 1], t) + (if s[|s| - 1] >= t then 1 else 0)
  }

  lemma {:induction false} CountConcat(a: seq<int>, b: seq<int>, t: int)
    ensures CountAtLeast(a + b, t) == CountAtLeast(a, t) + CountAtLeast(b, t)
  {
    if b == [] {
      assert a + b == a;
    } else {
      CountConcat(a, b[..|b| - 1], t);
      assert (a + b)[..|a + b| - 1] == a + b[..|b| - 1];
    }
  }

  lemma CountSlice(s: seq<int>, a: nat, b: nat, t: int)
    requires a <= b <= |s|
    ensures CountAtLeast(s[a..b], t) <= CountAtLeast(s, t)
  {
    assert s == s[..a] + s[a..b] + s[b..];
    CountConcat(s[..a] + s[a..b], s[b..], t);
    CountConcat(s[..a], s[a..b], t);
  }

  lemma {:induction false} CountInsert(x: int, s: seq<int>, t: int)
    ensures CountAtLeast(Insert(x, s), t) == CountAtLeast(s, t) + (if x >= t then 1 else 0)
  {
    CountSingle(x, t);
    if s == [] || x <= s[0] {
      CountConcat([x], s, t);
    } else {
      CountInsert(x, s[1..], t);
      CountConcat([s[0]], Insert(x, s[1..]), t);
      CountConcat([s[0]], s[1..], t);
      assert s == [s[0]] + s[1..];
    }
  }

  lemma CountSingle(x: int, t: int)
    ensures CountAtLeast([x], t) == if x >= t then 1 else 0
  {
    assert [x][..0] == [];
  }

  lemma {:induction false} CountSorted(s: seq<int>, t: int)
    ensures CountAtLeast(Sorted(s), t) == CountAtLeast(s, t)
  {
    if s != [] {
      CountSorted(s[1..], t);
      CountInsert(s[0], Sorted(s[1..]), t);
      CountSingle(s[0], t);
      CountConcat([s[0]], s[1..], t);
      assert s == [s[0]] + s[1..];
    }
  }

  /** Bounds by position: every listed position below `t` is missing from the count. */
  lemma {:induction false} CountMisses(s: seq<int>, t: int, low: set<nat>)
    requires forall i :: i in low ==> i < |s| && s[i] < t
    ensures CountAtLeast(s, t) + |low| <= |s|
  {
    if s == [] {
      assert low == {};
    } else {
      var n := |s| - 1;
      CountMisses(s[..n], t, low - {n});
      if n in low {
        assert low == (low - {n}) + {n};
      } else {
        assert low - {n} == low;
      }
    }
  }

  /** All elements at least `t`, or all below it. */
  lemma {:induction false} CountUniform(s: seq<int>, t: int)
    ensures (forall i :: 0 <= i < |s| ==> s[i] >= t) ==> CountAtLeast(s, t) == |s|
    ensures (forall i :: 0 <= i < |s| ==> s[i] < t) ==> CountAtLeast(s, t) == 0
    ensures CountAtLeast(s, t) <= |s|
  {
    if s != [] {
      CountUniform(s[..|s| - 1], t);
    }
  }

  lemma CountFive(s: seq<int>, t: int)
    requires |s| == 5
    ensures CountAtLeast(s, t) == Vote(s[0], t) + Vote(s[1], t) + Vote(s[2], t) + Vote(s[3], t) + Vote(s[4], t)
  {
    assert s == [s[0]] + [s[1]] + [s[2]] + [s[3]] + [s[4]];
    CountConcat([s[0]] + [s[1]] + [s[2]] + [s[3]], [s[4]], t);
    CountConcat([s[0]] + [s[1]] + [s[2]], [s[3]], t);
    CountConcat([s[0]] + [s[1]], [s[2]], t);
    CountConcat([s[0]], [s[1]], t);
    CountSingle(s[0], t); CountSingle(s[1], t); CountSingle(s[2], t); CountSingle(s[3], t); CountSingle(s[4], t);
  }

  function Vote(x: int, t: int): nat { if x >= t then 1 else 0 }

  function Median(s: seq<int>): int
    requires |s| == 5
  {
    SortedIsAscendingPermutation(s);
    Sorted(s)[2]
  }

  /** The median of five reaches `t` exactly when three of the five do. */
  lemma MedianIsMajority(s: seq<int>, t: int)
    requires |s| == 5
    ensures Median(s) >= t <==> CountAtLeast(s, t) >= 3
  {
    var r := Sorted(s);
    SortedIsAscendingPermutation(s);
    CountSorted(s, t);
    CountFive(r, t);
  }

  /** C `int` subtraction, wrapping at 32 bits. */
  function Wrap32(x: int): int {
    (x + 0x8000_0000) % 0x1_0000_0000 - 0x8000_0000
  }

  function Compare(first: int, second: int): int { Wrap32(first - second) }

  predicate IsInt16(x: int) { -0x8000 <= x < 0x8000 }

  predicate IsInt32(x: int) { -0x8000_0000 <= x < 0x8000_0000 }

  /** `compare` has the sign of the true difference exactly when the difference fits an int;
      two sensor readings, being 16-bit, always satisfy that. */
  lemma CompareOrders(a: int, b: int)
    requires IsInt32(a) && IsInt32(b)
    ensures IsInt32(a - b) <==>
      ((Compare(a, b) < 0 <==> a < b) && (Compare(a, b) == 0 <==> a == b) && (Compare(a, b) > 0 <==> a > b))
    ensures IsInt16(a) && IsInt16(b) ==> IsInt32(a - b)
  {
    var d := a - b;
    if d < -0x8000_0000 {
      assert Wrap32(d) == d + 0x1_0000_0000;
    } else if d >= 0x8000_0000 {
      assert Wrap32(d) == d - 0x1_0000_0000;
    } else {
      assert Wrap32(d) == d;
    }
  }

  /** qsort over a buffer of sensor readings, with `compare` as its order. */
  method Qsort(a: array<int>)
    requires forall i :: 0 <= i < a.Length ==> IsInt16(a[i])
    modifies a
    ensures a[..] == Sorted(old(a[..]))
  {
    var n := a.Length;
    ghost var was := a[..];
    var i := n;
    assert a[n..] == [] == was[n..];
    while i > 0
      invariant 0 <= i <= n
      invariant forall k :: 0 <= k < n ==> IsInt16(a[k])
      invariant a[..i] == was[..i]
      invariant a[i..] == Sorted(was[i..])
    {
      i := i - 1;
      ghost var tail := a[i + 1..];
      assert was[i] == was[..i + 1][i] == a[i];
      assert was[i..] == [was[i]] + was[i + 1..];
      SiftIn(a, i);
      assert a[..i] == was[..i] by { assert was[..i] == was[..i + 1][..i]; }
      SortedIsAscendingPermutation(was[i..]);
    }
    assert a[..] == a[0..] && was == was[0..];
  }

  /** Moving element `i` right past the smaller ones up to position `j` inserts it in order. */
  lemma Sifted(before: seq<int>, i: nat, j: nat, after: seq<int>)
    requires i <= j < |before| == |after|
    requires forall k :: 0 <= k < |after| ==> after[k] == before[if i <= k < j then k + 1 else if k == j then i else k]
    requires forall k :: i < k <= j ==> before[k] < before[i]
    requires j + 1 < |before| ==> before[i] <= before[j + 1]
    ensures after[..i] == before[..i]
    ensures after[i..] == Insert(before[i], before[i + 1..])
  {
    var rest := before[i + 1..];
    InsertAt(before[i], rest, j - i);
    assert after[i..] == rest[..j - i] + [before[i]] + rest[j - i..];
  }

  /** One insertion step: `a[i]` moves right past every smaller element. */
  method SiftIn(a: array<int>, i: nat)
    requires i < a.Length
    requires forall k :: 0 <= k < a.Length ==> IsInt16(a[k])
    modifies a
    ensures a[..i] == old(a[..i])
    ensures a[i..] == Insert(old(a[i]), old(a[i + 1..]))
    ensures forall k :: 0 <= k < a.Length ==> IsInt16(a[k])
  {
    var x := a[i];
    ghost var before := a[..];
    var j := i;
    while j + 1 < a.Length && Compare(a[j + 1], x) < 0
      invariant i <= j < a.Length
      invariant forall k :: 0 <= k < a.Length ==> a[k] == before[if i <= k < j then k + 1 else k]
      invariant forall k :: i < k <= j ==> before[k] < x
    {
      CompareOrders(a[j + 1], x);
      a[j] := a[j + 1];
      j := j + 1;
    }
    if j + 1 < a.Length { CompareOrders(a[j + 1], x); }
    a[j] := x;
    Sifted(before, i, j, a[..]);
    assert a[i..] == a[..][i..] && a[..i] == a[..][..i];
  }
}
