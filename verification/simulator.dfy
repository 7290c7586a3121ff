/** The simulator's two plain lists as they are relinked in place: the cars that exist and the cars
    inside (simulator.c lines 106-127, 467-471, 491-500, 588-604, 722-724, 750-756). */
module Simulator {
  import opened Parking
  import opened LinkedList
  import opened SimQueue

  function PlateOf(c: Car): Plate { c.plate }

  class CarList {
    var head: Node?<Car>
    ghost var spine: seq<Node<Car>>
    ghost var cars: seq<Car>

    ghost predicate Valid()
      reads this, spine
    {
      Linked(head, spine) && Values(spine) == cars
    }

    constructor ()
      ensures Valid() && cars == []
    {
      head, spine, cars := null, [], [];
    }

    /** Lines 591-597: does any existing car have this plate? The walk visits the whole list. */
    method Exists(plate: Plate) returns (exists': bool)
      requires Valid()
      ensures exists' <==> plate in Keys(cars, PlateOf)
    {
      exists' := false;
      var current := head;
      ghost var i := 0;
      while current != null
        invariant i <= |spine| && current == At(spine, i)
        invariant exists' <==> plate in Keys(cars, PlateOf)[..i]
        decreases |spine| - i
      {
        assert Keys(cars, PlateOf)[i] == current.val.plate;
        assert Keys(cars, PlateOf)[..i + 1] == Keys(cars, PlateOf)[..i] + [current.val.plate];
        if current.val.plate == plate { exists' := true; }
        current := current.next;
        i := i + 1;
      }
      assert Keys(cars, PlateOf)[..i] == Keys(cars, PlateOf);
    }

    method Add(car: Car)
      requires Valid()
      modifies this
      ensures Valid() && cars == [car] + old(cars)
    {
      var newhead := Push(head, car, spine);
      head := newhead;
      spine := [newhead] + spine;
      cars := [car] + cars;
    }

    /** snode_delete: the first car with the given car's plate goes. */
    method Delete(car: Car)
      requires Valid()
      modifies this, spine
      ensures Valid() && cars == RemoveFirst(old(cars), PlateOf, car.plate)
    {
      var newhead, rest := DeleteFirst<Car, Plate>(head, PlateOf, car.plate, spine);
      ghost var kept := Values(rest);
      head, spine, cars := newhead, rest, kept;
    }

    /** Lines 750-756 on the inside list: find the first car due and take it off. No two plates
        being equal, that very car goes and nothing else. */
    method TakeDue(now: int) returns (car: Car?)
      requires Valid() && Distinct(Keys(cars, PlateOf))
      modifies this, spine
      ensures Valid()
      ensures car == null ==> cars == old(cars) && forall c :: c in cars ==> c.exitTime > now
      ensures car != null ==> car in old(cars) && car.exitTime <= now
      ensures car != null ==> multiset(cars) == multiset(old(cars)) - multiset{car}
      ensures car != null ==> cars == RemoveFirst(old(cars), PlateOf, car.plate) && Distinct(Keys(cars, PlateOf))
    {
      car := CompTimes(head, now, spine);
      if car == null {
        AllStay(spine, now);
      } else {
        InList(spine, car);
        RemoveFirstTakesTheOne<Car, Plate>(cars, PlateOf, car);
        Delete(car);
      }
    }
  }

  lemma AllStay(spine: seq<Node<Car>>, now: int)
    requires NoneDue(spine, now)
    ensures forall c :: c in Values(spine) ==> c.exitTime > now
  {
  }

  lemma InList(spine: seq<Node<Car>>, car: Car)
    requires exists j :: 0 <= j < |spine| && car == spine[j].val
    ensures car in Values(spine)
  {
    var j :| 0 <= j < |spine| && car == spine[j].val;
    assert Values(spine)[j] == car;
  }
}
