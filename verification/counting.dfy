/** Counting occurrences in sequences and over the parts of a system, for the conservation laws. */
module Counting {
  import opened LinkedList

  /** How many elements of `s` have image `x`. */
  function Count<T, X(==)>(s: seq<T>, f: T -> X, x: X): nat {
    if s == [] then 0 else (if f(s[0]) == x then 1 else 0) + Count(s[1..], f, x)
  }

  lemma CountCons<T, X>(a: T, s: seq<T>, f: T -> X, x: X)
    ensures Count([a] + s, f, x) == (if f(a) == x then 1 else 0) + Count(s, f, x)
  {
    assert ([a] + s)[1..] == s;
  }

  lemma {:induction false} CountSnoc<T, X>(s: seq<T>, a: T, f: T -> X, x: X)
    ensures Count(s + [a], f, x) == Count(s, f, x) + (if f(a) == x then 1 else 0)
  {
    if s == [] {
      assert s + [a] == [a] && [a][1..] == [];
    } else {
      CountSnoc(s[1..], a, f, x);
      assert (s + [a])[1..] == s[1..] + [a];
    }
  }

  lemma {:induction false} CountWithout<T, X>(s: seq<T>, j: nat, f: T -> X, x: X)
    requires j < |s|
    ensures Count(s, f, x) == Count(Without(s, j), f, x) + (if f(s[j]) == x then 1 else 0)
  {
    if j == 0 {
      assert Without(s, 0) == s[1..];
    } else {
      CountWithout(s[1..], j - 1, f, x);
      assert Without(s, j)[1..] == Without(s[1..], j - 1);
    }
  }

  lemma {:induction false} CountHas<T, X>(s: seq<T>, f: T -> X, i: nat)
    requires i < |s|
    ensures Count(s, f, f(s[i])) >= 1
  {
    if i > 0 { CountHas(s[1..], f, i - 1); }
  }

  lemma {:induction false} CountFinds<T, X>(s: seq<T>, f: T -> X, x: X)
    ensures IndexOf(s, f, x) < |s| <==> Count(s, f, x) > 0
  {
    if s != [] { CountFinds(s[1..], f, x); }
  }

  /** At most one element per image means distinct images. */
  lemma {:induction false} CountDistinct<T, X>(s: seq<T>, f: T -> X)
    requires forall x :: Count(s, f, x) <= 1
    ensures Distinct(Keys(s, f))
  {
    forall i, j | 0 <= i < j < |s| ensures f(s[i]) != f(s[j]) {
      CountWithout(s, i, f, f(s[i]));
      assert Without(s, i)[j - 1] == s[j];
      CountHas(Without(s, i), f, j - 1);
      assert Count(s, f, f(s[i])) <= 1;
    }
  }

  /** Elements that agree under a finer map agree under a coarser one. */
  lemma {:induction false} CountCoarser<T, X, Y>(s: seq<T>, f: T -> X, x: X, g: T -> Y, y: Y)
    requires forall t :: t in s && f(t) == x ==> g(t) == y
    ensures Count(s, f, x) <= Count(s, g, y)
  {
    if s != [] { CountCoarser(s[1..], f, x, g, y); }
  }

  /** Two different fine images over one coarse image are counted together there. */
  lemma {:induction false} CountBoth<T, X, Y>(s: seq<T>, f: T -> X, x: X, x': X, g: T -> Y, y: Y)
    requires x != x'
    requires forall t :: t in s && (f(t) == x || f(t) == x') ==> g(t) == y
    ensures Count(s, f, x) + Count(s, f, x') <= Count(s, g, y)
  {
    if s != [] { CountBoth(s[1..], f, x, x', g, y); }
  }

  /** First-match deletion lowers the counts of the element it finds. */
  lemma CountRemoveFirst<T, K, X>(s: seq<T>, key: T -> K, k: K, f: T -> X, x: X)
    ensures var j := IndexOf(s, key, k);
      Count(RemoveFirst(s, key, k), f, x) + (if j < |s| && f(s[j]) == x then 1 else 0) == Count(s, f, x)
  {
    var j := IndexOf(s, key, k);
    if j < |s| { CountWithout(s, j, f, x); }
  }

  /** With one element per key, the element found by its key is the element meant. */
  lemma {:induction false} FindsTheOne<T, K, X>(s: seq<T>, key: T -> K, k: K, f: T -> X, x: X)
    requires forall t :: t in s && f(t) == x ==> key(t) == k
    requires Count(s, f, x) >= 1 && Count(s, key, k) <= 1
    ensures var j := IndexOf(s, key, k); j < |s| && f(s[j]) == x
  {
    if f(s[0]) != x {
      FindsTheOne(s[1..], key, k, f, x);
      CountFinds(s[1..], key, k);
    } else {
      assert s[0] in s;
    }
  }

  /** Overwriting an element with one of the same image changes no count. */
  lemma CountReplace<T, X>(s: seq<T>, j: nat, t: T, f: T -> X, x: X)
    requires j < |s| && f(t) == f(s[j])
    ensures Count(s[j := t], f, x) == Count(s, f, x)
  {
    CountWithout(s, j, f, x);
    CountWithout(s[j := t], j, f, x);
    assert Without(s[j := t], j) == Without(s, j);
  }

  // ----- totals over the parts of a system -----

  function Total<A, X>(parts: seq<A>, f: (A, X) -> nat, x: X): nat {
    if parts == [] then 0 else f(parts[0], x) + Total(parts[1..], f, x)
  }

  lemma {:induction false} TotalUpdate<A, X>(parts: seq<A>, f: (A, X) -> nat, i: nat, a: A, x: X)
    requires i < |parts|
    ensures Total(parts[i := a], f, x) + f(parts[i], x) == Total(parts, f, x) + f(a, x)
  {
    if i == 0 {
      assert parts[0 := a][1..] == parts[1..];
    } else {
      TotalUpdate(parts[1..], f, i - 1, a, x);
      assert parts[i := a][1..] == parts[1..][i - 1 := a];
    }
  }

  lemma {:induction false} TotalCovers<A, X>(parts: seq<A>, f: (A, X) -> nat, i: nat, x: X)
    requires i < |parts|
    ensures f(parts[i], x) <= Total(parts, f, x)
  {
    if i > 0 { TotalCovers(parts[1..], f, i - 1, x); }
  }

  /** Two different parts are counted separately. */
  lemma {:induction false} TotalCoversBoth<A, X>(parts: seq<A>, f: (A, X) -> nat, i: nat, j: nat, x: X)
    requires i < j < |parts|
    ensures f(parts[i], x) + f(parts[j], x) <= Total(parts, f, x)
  {
    if i == 0 {
      TotalCovers(parts[1..], f, j - 1, x);
    } else {
      TotalCoversBoth(parts[1..], f, i - 1, j - 1, x);
    }
  }

  lemma {:induction false} TotalZero<A, X>(parts: seq<A>, f: (A, X) -> nat, x: X)
    requires forall a :: a in parts ==> f(a, x) == 0
    ensures Total(parts, f, x) == 0
  {
    if parts != [] { TotalZero(parts[1..], f, x); }
  }
}
