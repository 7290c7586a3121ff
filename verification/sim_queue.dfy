/** The simulator's car queues (simulator.c lines 34-93): cars are pushed at the front of a list
    that ends in nodes holding no car, and popped by clearing the last car's node in place. */
module SimQueue {
  import opened LinkedList
  import opened Parking

  class Car {
    const plate: Plate
    var lvl: int
    var exitTime: int

    constructor (plate: Plate)
      ensures this.plate == plate && lvl == 0 && exitTime == 0
    {
      this.plate := plate;
      lvl, exitTime := 0, 0;
    }
  }

  /** The queue held by a list of car slots, oldest car first. */
  ghost function Fifo(slots: seq<Car?>): seq<Car> {
    if slots == [] || slots[0] == null then [] else Fifo(slots[1..]) + [slots[0]]
  }

  /** Cars first, then at least one empty slot, and nothing but empty slots after it. */
  ghost predicate Shaped(slots: seq<Car?>) {
    |Fifo(slots)| < |slots| && forall i :: |Fifo(slots)| <= i < |slots| ==> slots[i] == null
  }

  lemma {:induction false} FifoSlots(slots: seq<Car?>)
    ensures var q := Fifo(slots); |q| <= |slots| && forall i :: 0 <= i < |q| ==> slots[i] == q[|q| - 1 - i]
  {
    if slots != [] && slots[0] != null {
      FifoSlots(slots[1..]);
      var q, r := Fifo(slots), Fifo(slots[1..]);
      forall i | 0 <= i < |q| ensures slots[i] == q[|q| - 1 - i] {
        if i > 0 {
          assert slots[i] == slots[1..][i - 1];
        }
      }
    }
  }

  /** A push keeps the shape and puts the car at the back of the queue. */
  lemma PushedSlots(slots: seq<Car?>, car: Car)
    requires Shaped(slots)
    ensures Shaped([car] + slots)
    ensures Fifo([car as Car?] + slots) == Fifo(slots) + [car]
  {
    assert ([car as Car?] + slots)[1..] == slots;
  }

  /** Clearing the last car's slot takes the oldest car and leaves the others in order. */
  lemma {:induction false} PoppedSlots(slots: seq<Car?>)
    requires Shaped(slots) && Fifo(slots) != []
    ensures var k := |Fifo(slots)|;
      && slots[k - 1] == Fifo(slots)[0]
      && Fifo(slots[k - 1 := null]) == Fifo(slots)[1..]
      && Shaped(slots[k - 1 := null])
  {
    FifoSlots(slots);
    var k := |Fifo(slots)|;
    var after := slots[k - 1 := null];
    if k > 1 {
      var tail := slots[1..];
      assert Shaped(tail);
      PoppedSlots(tail);
      assert after[1..] == tail[k - 2 := null];
    }
  }

  /** What node_pop takes from the slots: the oldest car, or nothing. */
  ghost function Taken(slots: seq<Car?>): Car? {
    if Fifo(slots) == [] then null else Fifo(slots)[0]
  }

  /** What it leaves: the oldest car's slot emptied. */
  ghost function Remaining(slots: seq<Car?>): seq<Car?>
    requires Shaped(slots)
  {
    if Fifo(slots) == [] then slots else slots[|Fifo(slots)| - 1 := null]
  }

  /** node_pop: the oldest car, if there is one, comes back in a new node whose `next` is the list,
      with that car's slot emptied. A list is only ever popped when it has a second node. */
  method NodePop(head: Node?<Car?>, ghost spine: seq<Node<Car?>>) returns (ret: Node?<Car?>)
    requires Linked(head, spine)
    requires head != null ==> Shaped(Values(spine)) && |spine| >= 2
    modifies spine
    ensures head == null ==> ret == null
    ensures head != null ==>
      && ret != null && fresh(ret) && ret.next == head && ret.val == Taken(old(Values(spine)))
      && Linked(head, spine) && Values(spine) == Remaining(old(Values(spine)))
  {
    if head == null { return null; }
    ghost var v := Values(spine);
    TakenSlot(v);
    assert spine[0].next == At(spine, 1) && v[0] == spine[0].val && v[1] == spine[1].val;
    if head.next.val == null {
      ret := new Node<Car?>(head.val, head);
      head.val := null;
      SlotCleared(spine, v, 0);
    } else {
      var last := LastCar(head, spine);
      assert last.val == v[|Fifo(v)| - 1];
      ret := new Node<Car?>(last.val, head);
      last.val := null;
      SlotCleared(spine, v, |Fifo(v)| - 1);
    }
  }

  /** The second slot tells whether at most one car waits; which slot the pop then clears. */
  lemma TakenSlot(slots: seq<Car?>)
    requires Shaped(slots) && |slots| >= 2
    ensures slots[1] == null <==> |Fifo(slots)| <= 1
    ensures var j := if slots[1] == null then 0 else |Fifo(slots)| - 1;
      Taken(slots) == slots[j] && Remaining(slots) == slots[j := null]
  {
    FifoSlots(slots);
    if Fifo(slots) == [] { assert slots[0 := null] == slots; }
  }

  lemma SlotCleared(spine: seq<Node<Car?>>, v: seq<Car?>, j: nat)
    requires |v| == |spine| && j < |v| && spine[j].val == null
    requires forall n :: 0 <= n < |v| && n != j ==> spine[n].val == v[n]
    ensures Values(spine) == v[j := null]
  {
  }

  /** Lines 76-90, with two or more cars: the node after the second last car is found, and the walk
      cannot run off the list. */
  method LastCar(head: Node<Car?>, ghost spine: seq<Node<Car?>>) returns (r: Node<Car?>)
    requires Linked(head, spine) && Shaped(Values(spine)) && |Fifo(Values(spine))| >= 2
    ensures r == spine[|Fifo(Values(spine))| - 1]
  {
    ghost var v := Values(spine);
    FifoSlots(v);
    ghost var i := 0;
    var temp: Node?<Car?> := head;
    while temp != null
      invariant 0 <= i <= |Fifo(v)| - 2 && temp == spine[i]
      decreases |spine| - i
    {
      assert spine[i].next == spine[i + 1] && spine[i + 1].next == spine[i + 2];
      assert v[i + 2] == spine[i + 2].val;
      if temp.next.next.val == null { return temp.next; }
      temp := temp.next;
      i := i + 1;
    }
  }

  /** One entrance's or exit's queue: qnode_t with its list. `cars` is the queue's content and
      `pushes` counts every car ever queued. */
  class QNode {
    var queue: Node<Car?>
    ghost var spine: seq<Node<Car?>>
    ghost var cars: seq<Car>
    ghost var pushes: nat

    ghost predicate Valid()
      reads this, spine
    {
      && Linked(queue, spine)
      && Shaped(Values(spine))
      && cars == Fifo(Values(spine))
      && |spine| == 1 + pushes
    }

    constructor ()
      ensures Valid() && cars == [] && pushes == 0 && fresh(spine) && |spine| == 1
    {
      var empty := new Node<Car?>(null, null);
      queue := empty;
      spine := [empty];
      cars, pushes := [], 0;
    }

    /** The test the entrance and exit threads wait on. */
    method IsEmpty() returns (r: bool)
      requires Valid()
      ensures r <==> cars == []
    {
      FifoSlots(Values(spine));
      r := queue.val == null;
    }

    method Enqueue(car: Car)
      requires Valid()
      modifies this
      ensures Valid() && cars == old(cars) + [car]
      ensures pushes == old(pushes) + 1 && |spine| == 1 + pushes
      ensures fresh(set n | n in spine && n !in old(spine))
    {
      PushedSlots(Values(spine), car);
      var r := Push(queue, car as Car?, spine);
      queue := r;
      spine := [r] + spine;
      cars := cars + [car];
      pushes := pushes + 1;
    }

    method Dequeue() returns (car: Car)
      requires Valid() && cars != []
      modifies this, spine
      ensures Valid() && [car] + cars == old(cars) && pushes == old(pushes) && spine == old(spine)
    {
      PoppedSlots(Values(spine));
      var popped := NodePop(queue, spine);
      car := popped.val;
      queue := popped.next;
      cars := cars[1..];
    }
  }

  ghost predicate NoneDue(spine: seq<Node<Car>>, now: int)
    reads spine, set n | n in spine :: n.val
  {
    forall i :: 0 <= i < |spine| ==> spine[i].val.exitTime > now
  }

  /** comp_times: the first car of the inside list whose leaving time has come. */
  method CompTimes(head: Node?<Car>, now: int, ghost spine: seq<Node<Car>>) returns (r: Car?)
    requires Linked(head, spine)
    ensures r == null <==> NoneDue(spine, now)
    ensures r != null ==> r.exitTime <= now
    ensures r != null ==> exists j :: 0 <= j < |spine| && r == spine[j].val && NoneDue(spine[..j], now)
  {
    var current := head;
    ghost var i := 0;
    while current != null
      invariant i <= |spine| && current == At(spine, i)
      invariant forall n :: 0 <= n < i ==> spine[n].val.exitTime > now
      decreases |spine| - i
    {
      if current.val.exitTime <= now {
        assert NoneDue(spine[..i], now);
        return current.val;
      }
      current := current.next;
      i := i + 1;
    }
    r := null;
  }
}
