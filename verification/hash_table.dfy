/** The manager's table of permitted plates (hash_table_read.h): chained buckets indexed by a
    64-bit djb hash of six characters. */
module HashTable {
  import opened LinkedList
  import opened Parking
  import opened Stdio
  import opened Wrappers

  /** `size_t` arithmetic: addition and shift wrap at 64 bits. */
  function Wrap64(x: int): (r: nat)
    ensures r < TWO_TO_THE_64
  {
    x % TWO_TO_THE_64
  }

  /** The hash as a number: base 33, most significant character first, above 5381. */
  function Poly(s: seq<Char>): int {
    if s == [] then 5381 else 33 * Poly(s[..|s| - 1]) + s[|s| - 1] as int
  }

  method DjbHash(s: Plate) returns (hash: nat)
    ensures hash == Wrap64(Poly(s))
    ensures hash == Poly(s)
  {
    PolyFits(s);
    hash := 5381;
    var i := 0;
    while i < PLATE_LENGTH
      invariant 0 <= i <= PLATE_LENGTH
      invariant hash == Poly(s[..i])
    {
      PolyFits(s[..i]);
      PolyFits(s[..i + 1]);
      assert s[..i + 1][..i] == s[..i];
      hash := Wrap64(Wrap64(Wrap64(hash * 32) + hash) + s[i] as int);
      i := i + 1;
    }
    assert s[..6] == s;
  }

  /** Six characters never reach the width of `size_t`, whatever their signs: no hash wraps. */
  lemma PolyFits(s: seq<Char>)
    requires |s| <= PLATE_LENGTH
    ensures 0 < Poly(s) && 64 * Poly(s) < TWO_TO_THE_64
  {
    PolyRange(s);
    assert Scale(1) == 177705 && Scale(2) == 33 * 177705 && Scale(3) == 33 * 33 * 177705;
    assert Scale(4) == 33 * Scale(3) && Scale(5) == 33 * Scale(4) && Scale(6) == 33 * Scale(5);
  }

  function Scale(n: nat): int { if n == 0 then 5385 else 33 * Scale(n - 1) }

  lemma {:induction false} PolyRange(s: seq<Char>)
    ensures 5376 < Poly(s) <= Scale(|s|) - 4
  {
    if s != [] {
      PolyRange(s[..|s| - 1]);
    }
  }

  /** The hash of a plate, written out. */
  lemma HashWrittenOut(s: Plate)
    ensures Poly(s) == 5381 * 1291467969
      + s[0] as int * 39135393 + s[1] as int * 1185921 + s[2] as int * 35937
      + s[3] as int * 1089 + s[4] as int * 33 + s[5] as int
  {
    PolyLast(s, 6);
    PolyLast(s, 5);
    PolyLast(s, 4);
    PolyLast(s, 3);
    PolyLast(s, 2);
    PolyLast(s, 1);
    assert s[..6] == s && s[..0] == [];
  }

  lemma PolyLast(s: Plate, n: nat)
    requires 0 < n <= 6
    ensures Poly(s[..n]) == 33 * Poly(s[..n - 1]) + s[n - 1] as int
  {
    assert s[..n][..n - 1] == s[..n - 1];
  }

  function BucketOf(key: Plate, size: nat): (b: nat)
    requires size > 0
    ensures b < size
  {
    PolyFits(key);
    Poly(key) % size
  }

  ghost predicate Holds(spine: seq<Node<Plate>>, p: Plate)
    reads spine
  {
    exists i :: 0 <= i < |spine| && spine[i].val == p
  }

  lemma HoldsPush(spine: seq<Node<Plate>>, n: Node<Plate>, p: Plate)
    ensures Holds([n] + spine, p) <==> n.val == p || Holds(spine, p)
  {
    var longer := [n] + spine;
    if n.val == p { assert longer[0].val == p; }
    if Holds(spine, p) {
      var i :| 0 <= i < |spine| && spine[i].val == p;
      assert longer[i + 1] == spine[i];
    }
  }

  class HTab {
    var buckets: array<Node?<Plate>>
    var size: nat
    ghost var spines: seq<seq<Node<Plate>>>
    ghost var Repr: set<Node<Plate>>
    ghost var plates: set<Plate>

    /** Chain `b` is well formed and holds only permitted plates that hash to it. */
    ghost predicate Chain(b: nat)
      requires b < buckets.Length && b < |spines| && size > 0
      reads this, buckets, Repr
    {
      && (forall n :: n in spines[b] ==> n in Repr)
      && Linked(buckets[b], spines[b])
      && (forall n :: n in spines[b] ==> n.val in plates && BucketOf(n.val, size) == b)
    }

    /** Every chain is in order, and together they hold every permitted plate. */
    ghost predicate Valid()
      reads this, buckets, Repr
    {
      && size > 0 && buckets.Length == size == |spines|
      && (forall b :: 0 <= b < size ==> Chain(b))
      && (forall p :: p in plates ==> Chain(BucketOf(p, size)) && Holds(spines[BucketOf(p, size)], p))
    }

    /** htab_init, with the empty buckets its callers rely on. */
    constructor (n: nat)
      requires n > 0
      ensures Valid() && plates == {} && size == n && fresh(buckets) && fresh(Repr)
    {
      buckets := new Node?<Plate>[n](_ => null);
      size := n;
      spines := seq(n, _ => []);
      Repr := {};
      plates := {};
    }

    /** htab_index. */
    method Index(key: Plate) returns (b: nat)
      requires Valid()
      ensures b == BucketOf(key, size)
    {
      var hash := DjbHash(key);
      b := hash % size;
    }

    /** htab_add: a new node at the head of the key's own chain. */
    method Add(key: Plate)
      requires Valid()
      modifies this, buckets
      ensures Valid() && plates == old(plates) + {key} && size == old(size) && buckets == old(buckets)
      ensures fresh(Repr - old(Repr))
    {
      var b := Index(key);
      ghost var was, wasPlates := spines, plates;
      forall c | 0 <= c < size ensures ChainFrom(buckets[c], was[c], c, wasPlates) {
        assert Chain(c);
      }
      var newhead := Push(buckets[b], key, spines[b]);
      buckets[b] := newhead;
      spines := was[b := [newhead] + was[b]];
      Repr := Repr + {newhead};
      plates := plates + {key};
      AfterAdd(key, b, newhead, was, wasPlates);
    }

    /** A chain in order, with its head given apart from the bucket array. */
    ghost predicate ChainFrom(head: Node?<Plate>, spine: seq<Node<Plate>>, b: nat, known: set<Plate>)
      requires size > 0
      reads this, spine
    {
      Linked(head, spine) && forall n :: n in spine ==> n.val in known && BucketOf(n.val, size) == b
    }

    /** The table is in order again once the new node heads its own chain. */
    lemma AfterAdd(key: Plate, b: nat, newhead: Node<Plate>, was: seq<seq<Node<Plate>>>, known: set<Plate>)
      requires size > 0 && buckets.Length == size == |was| && b == BucketOf(key, size)
      requires spines == was[b := [newhead] + was[b]] && plates == known + {key}
      requires newhead.val == key && buckets[b] == newhead && newhead in Repr
      requires forall c, n :: 0 <= c < size && n in was[c] ==> n in Repr && n != newhead
      requires forall c :: 0 <= c < size ==> ChainFrom(if c == b then newhead.next else buckets[c], was[c], c, known)
      requires forall p :: p in known ==> Holds(was[BucketOf(p, size)], p)
      ensures Valid()
    {
      forall c | 0 <= c < size ensures Chain(c) {
        assert ChainFrom(if c == b then newhead.next else buckets[c], was[c], c, known);
      }
      forall p | p in plates ensures Holds(spines[BucketOf(p, size)], p) {
        if BucketOf(p, size) == b { HoldsPush(was[b], newhead, p); }
      }
    }

    /** search_bucket, stopping at the end of the chain. */
    static method SearchBucket(item: Node?<Plate>, input: Plate, ghost spine: seq<Node<Plate>>) returns (found: bool)
      requires Linked(item, spine)
      ensures found <==> Holds(spine, input)
    {
      var hit := Find(item, (p: Plate) => p, input, spine);
      found := hit != null;
    }

    /** search_plate: hash, then walk the chain to its end. */
    method Search(input: Plate) returns (found: bool)
      requires Valid()
      ensures found <==> input in plates
    {
      var b := Index(input);
      assert Chain(b);
      found := SearchBucket(buckets[b], input, spines[b]);
      if found {
        assert Holds(spines[b], input);
      }
    }

    /** get_plates: read the file through an 11-byte buffer, whatever it held before, and add the
        first six characters of every read. */
    method GetPlates(text: seq<Char>, before: seq<Char>)
      requires Valid() && |before| == LINE
      modifies this, buckets
      ensures Valid() && plates == old(plates) + PlatesIn(text, before)
      ensures size == old(size) && buckets == old(buckets)
    {
      var file, line := text, before;
      while file != []
        invariant Valid() && buckets == old(buckets) && size == old(size) && |line| == LINE
        invariant plates + PlatesIn(file, line) == old(plates) + PlatesIn(text, before)
        decreases |file|
      {
        var n := FgetsUpTo(file, NEWLINE, LINE - 1);
        line := file[..n] + [0] + line[n + 1..];
        Add(line[..PLATE_LENGTH]);
        file := file[n..];
      }
    }
  }

  // ----- the file of plates -----

  const LINE := 11
  const NEWLINE: Char := 10

  /** The plates a file adds, given what the line buffer holds. */
  function PlatesIn(text: seq<Char>, line: seq<Char>): set<Plate>
    requires |line| == LINE
    decreases |text|
  {
    if text == [] then {}
    else
      var n := FgetsUpTo(text, NEWLINE, LINE - 1);
      var filled := text[..n] + [0] + line[n + 1..];
      {filled[..PLATE_LENGTH]} + PlatesIn(text[n..], filled)
  }

  /** A read takes ten characters at most: a longer line is read in pieces, and each adds a plate. */
  lemma LongLineSplits(s: seq<Char>, rest: seq<Char>, line: seq<Char>)
    requires |s| == 10 && |line| == 11 && NEWLINE !in s
    ensures PlatesIn(s + rest, line) == {s[..6]} + PlatesIn(rest, s + [0])
  {
    var text := s + rest;
    var n := FgetsUpTo(text, NEWLINE, LINE - 1);
    assert forall i :: 0 <= i < 10 ==> text[i] == s[i] && s[i] in s;
    assert text[..10] == s && text[10..] == rest;
    assert text[..10] + [0] + line[11..] == s + [0];
    assert (s + [0])[..PLATE_LENGTH] == s[..6];
  }

  /** A file of plates, one to a line. */
  function PlateFile(plates: seq<Plate>): seq<Char> {
    if plates == [] then [] else plates[0] + [10] + PlateFile(plates[1..])
  }

  lemma FgetsPlate(p: Plate, rest: seq<Char>)
    requires NEWLINE !in p
    ensures FgetsUpTo(p + [NEWLINE] + rest, NEWLINE, LINE - 1) == PLATE_LENGTH + 1
  {
    var text := p + [NEWLINE] + rest;
    assert forall i :: 0 <= i < PLATE_LENGTH ==> text[i] == p[i] && p[i] in p;
    assert text[PLATE_LENGTH] == NEWLINE;
  }

  /** Such a file permits exactly its plates, whatever the buffer held. */
  lemma {:induction false} PlateFileReads(plates: seq<Plate>, line: seq<Char>)
    requires |line| == LINE && forall p :: p in plates ==> NEWLINE !in p
    ensures PlatesIn(PlateFile(plates), line) == set p | p in plates
  {
    if plates != [] {
      var p, rest := plates[0], PlateFile(plates[1..]);
      var text := p + [NEWLINE] + rest;
      FgetsPlate(p, rest);
      var filled := text[..7] + [0] + line[8..];
      assert filled[..PLATE_LENGTH] == p && text[7..] == rest;
      PlateFileReads(plates[1..], filled);
    }
  }
}
