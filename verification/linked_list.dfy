/** Singly linked lists as the three programs build them: nodes pushed at the front, first
    match spliced out, tails cut off. A list is a `head` pointer; its `spine` is the ghost
    sequence of its nodes, and its contents are the values along the spine. */
module LinkedList {

  class Node<T> {
    var val: T
    var next: Node?<T>

    constructor (val: T, next: Node?<T>)
      ensures this.val == val && this.next == next
    {
      this.val := val;
      this.next := next;
    }
  }

  /** The node at position `i`, null past the end. */
  ghost function At<T>(spine: seq<Node<T>>, i: nat): Node?<T> {
    if i < |spine| then spine[i] else null
  }

  ghost predicate Linked<T>(head: Node?<T>, spine: seq<Node<T>>)
    reads spine
  {
    && head == At(spine, 0)
    && Distinct(spine)
    && (forall i :: 0 <= i < |spine| ==> spine[i].next == At(spine, i + 1))
  }

  ghost function Values<T>(spine: seq<Node<T>>): seq<T>
    reads spine
  {
    seq(|spine|, i requires 0 <= i < |spine| reads spine => spine[i].val)
  }

  /** Position of the first element whose key is `k`; the length when there is none. */
  function IndexOf<T, K(==)>(s: seq<T>, key: T -> K, k: K): (j: nat)
    ensures j <= |s|
    ensures j < |s| ==> key(s[j]) == k
    ensures forall i :: 0 <= i < j ==> key(s[i]) != k
  {
    if s == [] || key(s[0]) == k then 0 else 1 + IndexOf(s[1..], key, k)
  }

  /** `s` without the element at `j`. */
  function Without<T>(s: seq<T>, j: nat): (r: seq<T>)
    requires j < |s|
    ensures |r| == |s| - 1
    ensures forall n :: 0 <= n < j ==> r[n] == s[n]
    ensures forall n :: j <= n < |r| ==> r[n] == s[n + 1]
  {
    s[..j] + s[j + 1..]
  }

  /** `s` without its first element of key `k`. */
  function RemoveFirst<T, K(==)>(s: seq<T>, key: T -> K, k: K): seq<T> {
    var j := IndexOf(s, key, k);
    if j < |s| then Without(s, j) else s
  }

  function Keys<T, K>(s: seq<T>, key: T -> K): (r: seq<K>)
    ensures |r| == |s|
    ensures forall i :: 0 <= i < |s| ==> r[i] == key(s[i])
  {
    seq(|s|, i requires 0 <= i < |s| => key(s[i]))
  }

  ghost predicate Distinct<K>(s: seq<K>) {
    forall i, j :: 0 <= i < j < |s| ==> s[i] != s[j]
  }

  lemma DistinctWithout<K>(s: seq<K>, j: nat)
    requires Distinct(s) && j < |s|
    ensures Distinct(Without(s, j))
  {
  }

  lemma WithoutBag<T>(s: seq<T>, j: nat)
    requires j < |s|
    ensures multiset(s) == multiset(Without(s, j)) + multiset{s[j]}
  {
    assert s == s[..j] + [s[j]] + s[j + 1..];
  }

  /** When keys are distinct, first-match deletion by key takes out exactly the element meant. */
  lemma RemoveFirstTakesTheOne<T, K>(s: seq<T>, key: T -> K, x: T)
    requires x in s && Distinct(Keys(s, key))
    ensures multiset(RemoveFirst(s, key, key(x))) == multiset(s) - multiset{x}
    ensures Distinct(Keys(RemoveFirst(s, key, key(x)), key))
  {
    var j := IndexOf(s, key, key(x));
    var i :| 0 <= i < |s| && s[i] == x;
    assert Keys(s, key)[i] == key(x);
    WithoutBag(s, j);
    DistinctWithout(Keys(s, key), j);
    assert Keys(Without(s, j), key) == Without(Keys(s, key), j);
  }

  /** node_push, node_add: a new node in front. */
  method Push<T>(head: Node?<T>, val: T, ghost spine: seq<Node<T>>) returns (r: Node<T>)
    requires Linked(head, spine)
    ensures fresh(r) && r.val == val && Linked(r, [r] + spine)
    ensures Values([r] + spine) == [val] + Values(spine)
  {
    r := new Node(val, head);
    assert ([r] + spine)[1..] == spine;
  }

  /** node_find_lp: the first node with key `k`, or null. */
  method Find<T, K(==)>(head: Node?<T>, key: T -> K, k: K, ghost spine: seq<Node<T>>) returns (r: Node?<T>)
    requires Linked(head, spine)
    ensures r == At(spine, IndexOf(Values(spine), key, k))
    ensures r != null ==> r in spine && key(r.val) == k
    ensures r == null ==> forall i :: 0 <= i < |spine| ==> key(spine[i].val) != k
  {
    r := head;
    ghost var i := 0;
    while r != null
      invariant i <= |spine|
      invariant r == At(spine, i)
      invariant forall n :: 0 <= n < i ==> key(spine[n].val) != k
      decreases |spine| - i
    {
      if key(r.val) == k { break; }
      r := r.next;
      i := i + 1;
    }
    FirstIndex(Values(spine), key, k, i);
  }

  lemma FirstIndex<T, K>(s: seq<T>, key: T -> K, k: K, i: nat)
    requires i <= |s|
    requires forall n :: 0 <= n < i ==> key(s[n]) != k
    requires i < |s| ==> key(s[i]) == k
    ensures IndexOf(s, key, k) == i
  {
  }

  /** snode_delete, node_delete: splice out the first node with key `k`. */
  method DeleteFirst<T, K(==)>(head: Node?<T>, key: T -> K, k: K, ghost spine: seq<Node<T>>)
    returns (r: Node?<T>, ghost rest: seq<Node<T>>)
    requires Linked(head, spine)
    modifies spine
    ensures Linked(r, rest)
    ensures rest == var j := IndexOf(old(Values(spine)), key, k); if j < |spine| then Without(spine, j) else spine
    ensures Values(rest) == RemoveFirst(old(Values(spine)), key, k)
    ensures forall n :: n in spine ==> n.val == old(n.val)
  {
    ghost var was := Values(spine);
    var previous, current, i := Locate(head, key, k, spine);
    if current == null {
      return head, spine;
    }
    rest := Without(spine, i);
    r := Unlink(head, previous, current, spine, i);
    assert Values(rest) == Without(was, i);
  }

  /** The walk with a trailing pointer. */
  method Locate<T, K(==)>(head: Node?<T>, key: T -> K, k: K, ghost spine: seq<Node<T>>)
    returns (previous: Node?<T>, current: Node?<T>, ghost i: nat)
    requires Linked(head, spine)
    ensures i == IndexOf(Values(spine), key, k)
    ensures current == At(spine, i)
    ensures i > 0 ==> previous == spine[i - 1]
    ensures i == 0 ==> previous == null
  {
    previous, current, i := null, head, 0;
    while current != null
      invariant i <= |spine|
      invariant current == At(spine, i)
      invariant i > 0 ==> previous == spine[i - 1]
      invariant i == 0 ==> previous == null
      invariant forall n :: 0 <= n < i ==> key(spine[n].val) != k
      decreases |spine| - i
    {
      if key(current.val) == k { break; }
      previous := current;
      current := current.next;
      i := i + 1;
    }
    FirstIndex(Values(spine), key, k, i);
  }

  method Unlink<T>(head: Node?<T>, previous: Node?<T>, current: Node<T>, ghost spine: seq<Node<T>>, ghost i: nat)
    returns (r: Node?<T>)
    requires Linked(head, spine) && i < |spine| && current == spine[i]
    requires i > 0 ==> previous == spine[i - 1]
    requires i == 0 ==> previous == null
    modifies previous
    ensures Linked(r, Without(spine, i))
    ensures previous != null ==> previous.val == old(previous.val)
  {
    ghost var rest := Without(spine, i);
    assert current.next == At(spine, i + 1);
    if previous == null {
      r := current.next;
    } else {
      assert forall n :: 0 <= n < |spine| && n != i - 1 ==> spine[n] != previous;
      previous.next := current.next;
      r := head;
    }
    DistinctWithout(spine, i);
    forall n | 0 <= n < |rest| ensures rest[n].next == At(rest, n + 1) {
      if n >= i {
        assert rest[n] == spine[n + 1];
      }
    }
  }

  /** How many nodes survive a cut `after` nodes from the head. */
  function Kept(after: int, length: nat): nat {
    if after <= 0 then 0 else if after < length then after else length
  }

  /** deletenodes, delete_list, deletenodes_node, deletenodes_qnode: keep the first `after` nodes. */
  method Truncate<T>(list: Node<T>, after: int, ghost spine: seq<Node<T>>) returns (r: Node?<T>)
    requires Linked(list, spine)
    modifies spine
    ensures Linked(r, spine[..Kept(after, |spine|)])
    ensures forall n :: n in spine ==> n.val == old(n.val)
    decreases |spine|
  {
    ghost var tail := spine[1..];
    ghost var kept := tail[..Kept(after - 1, |tail|)];
    if list.next != null {
      assert Linked(list.next, tail);
      var rest := Truncate(list.next, after - 1, tail);
      list.next := rest;
    }
    if after <= 0 {
      return null;
    }
    assert spine[..Kept(after, |spine|)] == [list] + kept;
    return list;
  }
}
