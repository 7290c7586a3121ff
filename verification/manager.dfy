/** The manager's own state as it is updated in place: counter, level tracker and car list
    (manager.c lines 87-96, 145-169, 207-226, 254-268; linked_list.h). Each method is one section
    of the C code, proved against the functions the protocol steps with. */
module Manager {
  import opened Parking
  import opened LinkedList
  import opened Levels

  class Vehicle {
    const plate: Plate
    var level: char
    const arrival: int

    constructor (plate: Plate, level: char, arrival: int)
      ensures this.plate == plate && this.level == level && this.arrival == arrival
    {
      this.plate, this.level, this.arrival := plate, level, arrival;
    }
  }

  datatype Record = Record(plate: Plate, level: char, arrival: int)

  function RecordPlate(r: Record): Plate { r.plate }

  function PlateOf(v: Vehicle): Plate { v.plate }

  ghost function View(v: Vehicle): Record
    reads v
  {
    Record(v.plate, v.level, v.arrival)
  }

  ghost function Views(vs: seq<Vehicle>): (r: seq<Record>)
    reads vs
    ensures |r| == |vs|
    ensures forall i :: 0 <= i < |vs| ==> r[i] == View(vs[i])
  {
    seq(|vs|, i requires 0 <= i < |vs| reads vs => View(vs[i]))
  }

  /** Keys and views give the same positions. */
  lemma ViewIndex(vs: seq<Vehicle>, p: Plate)
    ensures IndexOf<Vehicle, Plate>(vs, PlateOf, p) == IndexOf(Views(vs), RecordPlate, p)
  {
    FirstIndex(vs, PlateOf, p, IndexOf(Views(vs), RecordPlate, p));
  }

  lemma OneViewChanged(vs: seq<Vehicle>, was: seq<Record>, j: nat, r: Record)
    requires j < |vs| == |was| && View(vs[j]) == r
    requires forall i :: 0 <= i < |vs| && i != j ==> View(vs[i]) == was[i]
    ensures Views(vs) == was[j := r]
  {
  }

  lemma ViewsWithout(vs: seq<Vehicle>, j: nat)
    requires j < |vs|
    ensures Views(Without(vs, j)) == Without(Views(vs), j)
  {
  }

  lemma ViewsRemoved(vs: seq<Vehicle>, p: Plate)
    requires Distinct(vs)
    ensures var r := RemoveFirst<Vehicle, Plate>(vs, PlateOf, p);
      Distinct(r) && Views(r) == RemoveFirst(Views(vs), RecordPlate, p) && forall v :: v in r ==> v in vs
  {
    ViewIndex(vs, p);
    var j := IndexOf<Vehicle, Plate>(vs, PlateOf, p);
    if j < |vs| {
      DistinctWithout(vs, j);
      ViewsWithout(vs, j);
    }
  }

  /** m_counter and level_tracker, the two globals car_park_lock protects. */
  class Tally {
    var mCounter: int
    var levelTracker: array<int>

    ghost predicate Valid() reads this { levelTracker.Length == LEVELS }

    ghost function Counts(): Counters
      reads this, levelTracker
    {
      Counters(mCounter, levelTracker[..])
    }

    constructor ()
      ensures Valid() && Counts() == EMPTY && fresh(levelTracker)
    {
      mCounter := 0;
      levelTracker := new int[LEVELS](_ => 0);
      new;
      assert levelTracker[..] == [0, 0, 0, 0, 0];
    }

    /** car_count, the counter already incremented. */
    method CarCount() returns (level: char)
      requires Valid() && mCounter > 0
      modifies levelTracker
      ensures var before := Counters(mCounter - 1, old(levelTracker[..]));
        Counts() == CountIn(before) && level == '0' + NextLevel(before) as char
    {
      var nextLevel := mCounter % LEVELS;
      if levelTracker[nextLevel] < LEVEL_CAPACITY {
        levelTracker[nextLevel] := levelTracker[nextLevel] + 1;
      }
      level := '0' + nextLevel as char;
    }

    /** Lines 145-151 and 176-179: count a car in if there is room. */
    method Admit() returns (admitted: bool, level: char)
      requires Valid() && mCounter >= 0
      modifies this`mCounter, levelTracker
      ensures admitted <==> old(mCounter) < 50
      ensures admitted ==> Counts() == CountIn(old(Counts())) && level == '0' + NextLevel(old(Counts())) as char
      ensures !admitted ==> Counts() == old(Counts())
    {
      admitted, level := false, '0';
      if mCounter < LEVELS * LEVEL_CAPACITY {
        mCounter := mCounter + 1;
        level := CarCount();
        admitted := true;
      }
    }

    /** Lines 255-261, for the level on record of the car leaving. */
    method Release(level: char)
      requires Valid() && '0' <= level <= '4'
      modifies this`mCounter, levelTracker
      ensures Counts() == CountOut(old(Counts()), level as int - 48)
    {
      mCounter := mCounter - 1;
      var levelHolder := level as int - 48;
      if levelTracker[levelHolder] != 0 {
        levelTracker[levelHolder] := levelTracker[levelHolder] - 1;
      }
    }
  }

  /** car_list and its vehicles. */
  class CarList {
    var head: Node?<Vehicle>
    ghost var spine: seq<Node<Vehicle>>
    ghost var vehicles: seq<Vehicle>

    ghost predicate Valid()
      reads this, spine
    {
      Linked(head, spine) && Values(spine) == vehicles && Distinct(vehicles)
    }

    ghost function Records(): seq<Record>
      reads this, vehicles
    {
      Views(vehicles)
    }

    constructor ()
      ensures Valid() && Records() == []
    {
      head, spine, vehicles := null, [], [];
    }

    /** Lines 160-169: a new vehicle at the head of the list. */
    method Insert(plate: Plate, level: char, arrival: int)
      requires Valid()
      modifies this
      ensures Valid() && Records() == [Record(plate, level, arrival)] + old(Records())
    {
      var newVehicle := new Vehicle(plate, level, arrival);
      var newhead := Push(head, newVehicle, spine);
      head := newhead;
      spine := [newhead] + spine;
      vehicles := [newVehicle] + vehicles;
      assert Views(vehicles) == [View(newVehicle)] + old(Views(vehicles));
    }

    /** Lines 141 and 256: the record of a plate, or null. */
    method Lookup(plate: Plate) returns (v: Vehicle?)
      requires Valid()
      ensures var j := IndexOf(Records(), RecordPlate, plate);
        v == if j < |vehicles| then vehicles[j] else null
    {
      ViewIndex(vehicles, plate);
      var found := Find<Vehicle, Plate>(head, PlateOf, plate, spine);
      v := if found == null then null else found.val;
    }

    /** Lines 217-222: put the car shown to a level's reader on that level. */
    method LevelReading(plate: Plate, floor: nat)
      requires Valid() && floor < LEVELS
      modifies vehicles
      ensures Valid()
      ensures var j := IndexOf(old(Records()), RecordPlate, plate);
        Records() == if j < |old(Records())| then old(Records())[j := old(Records())[j].(level := '0' + floor as char)]
                     else old(Records())
    {
      ghost var was, j := Records(), IndexOf(Records(), RecordPlate, plate);
      var v := Lookup(plate);
      if v != null {
        v.level := '0' + floor as char;
        OneViewChanged(vehicles, was, j, was[j].(level := v.level));
      }
    }

    /** Line 268: node_delete. */
    method Delete(plate: Plate)
      requires Valid()
      modifies this, spine
      ensures Valid() && Records() == RemoveFirst(old(Records()), RecordPlate, plate)
    {
      ViewsRemoved(vehicles, plate);
      Unlist(plate);
      assert Views(vehicles) == old(Views(RemoveFirst<Vehicle, Plate>(vehicles, PlateOf, plate)));
    }

    method Unlist(plate: Plate)
      requires Linked(head, spine) && Values(spine) == vehicles
      modifies this, spine
      ensures Linked(head, spine) && Values(spine) == vehicles
      ensures vehicles == RemoveFirst<Vehicle, Plate>(old(vehicles), PlateOf, plate)
    {
      var newhead, rest := DeleteFirst<Vehicle, Plate>(head, PlateOf, plate, spine);
      ghost var kept := Values(rest);
      head, spine, vehicles := newhead, rest, kept;
    }
  }
}
