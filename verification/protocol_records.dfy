/** The manager's car list against the simulator's cars: every car that has been put on record and
    not yet taken off has exactly one record, and there is no other record. */
module ProtocolRecords {
  import opened Parking
  import opened LinkedList
  import opened Counting
  import opened Protocol
  import opened ProtocolLocal
  import opened ProtocolCars

  /** A plate and the level it was sent to. */
  datatype Seat = Seat(plate: Plate, level: Lvl)

  function StubSeat(st: Stub): Seat { Seat(st.plate, st.level) }
  function VehicleSeat(v: Vehicle): Seat { StubSeat(v.stub) }
  function RideSeat(r: Ride): Seat { Seat(r.car.plate, r.lvl) }
  function IsSeat(a: Seat, z: Seat): nat { if a == z then 1 else 0 }

  // ----- where a recorded car can be -----

  /** At an entrance: from the insertion until the car joins the inside list. */
  function EntSeat(a: Entrance, z: Seat): nat {
    match a.sim
    case SOpened(r) => IsSeat(RideSeat(r), z)
    case STimed(r) => IsSeat(RideSeat(r), z)
    case STriggered(r) => IsSeat(RideSeat(r), z)
    case SShown(_) => Inserted(a.mgr, z)
    case SRaise(_) => Inserted(a.mgr, z)
    case _ => 0
  }

  function Inserted(m: MgrEntr, z: Seat): nat {
    match m
    case MInserted(st) => IsSeat(StubSeat(st), z)
    case MAwaitOpen(st) => IsSeat(StubSeat(st), z)
    case _ => 0
  }

  function InsideSeat(t: Inside, z: Seat): nat {
    match t
    case IWait => 0
    case ILeaving(r) => IsSeat(RideSeat(r), z)
    case ITriggered(r) => IsSeat(RideSeat(r), z)
  }

  /** In the exit thread's hand, until the manager has found the record. */
  function Unfound(a: Exit, z: Seat): nat {
    match a.sim
    case XPopped(r) => IsSeat(RideSeat(r), z)
    case XShown(r) => if a.mgr.NWait? then IsSeat(RideSeat(r), z) else 0
    case _ => 0
  }

  /** Found by the manager, until it has deleted the record. */
  function Found(a: Exit, z: Seat): nat {
    if MgrHolds(a) then IsSeat(VehicleSeat(MgrVehicle(a)), z) else 0
  }

  function ExtSeat(a: Exit, z: Seat): nat { Count(a.queue, RideSeat, z) + Unfound(a, z) + Found(a, z) }

  function Seats(s: State, z: Seat): nat {
    Total(s.ents, EntSeat, z) + Count(s.inside, RideSeat, z) + InsideSeat(s.insideThread, z) + Total(s.exts, ExtSeat, z)
  }

  ghost predicate OneRecordEach(vs: seq<Vehicle>) { forall p :: Count(vs, VehiclePlate, p) <= 1 }

  /** The manager has found this plate permitted and absent, and not yet inserted it. */
  predicate Approved(m: MgrEntr, p: Plate) {
    match m
    case MAllowed(q) => p == q
    case MCounted(q, _) => p == q
    case MShown(q, _) => p == q
    case MTimed(st) => p == st.plate
    case _ => false
  }

  ghost predicate ApprovedAbsent(s: State) {
    forall e, p :: 0 <= e < |s.ents| && Approved(s.ents[e].mgr, p) ==> Count(s.carList, VehiclePlate, p) == 0
  }

  ghost predicate RecordsOK(s: State) {
    && (forall z :: Count(s.carList, VehicleSeat, z) == Seats(s, z))
    && OneRecordEach(s.carList)
    && ApprovedAbsent(s)
  }

  ghost predicate LocalOK(s: State) {
    && (forall e :: 0 <= e < |s.ents| ==> EntOK(s.ents[e]))
    && (forall x :: 0 <= x < |s.exts| ==> ExtOK(s.exts[x]))
  }

  // ----- one part changes -----

  lemma PutEntSeats(s: State, e: nat, a: Entrance, z: Seat)
    requires e < |s.ents|
    ensures Seats(PutEnt(s, e, a), z) + EntSeat(s.ents[e], z) == Seats(s, z) + EntSeat(a, z)
  {
    TotalUpdate(s.ents, EntSeat, e, a, z);
  }

  lemma PutExtSeats(s: State, x: nat, a: Exit, z: Seat)
    requires x < |s.exts|
    ensures Seats(PutExt(s, x, a), z) + ExtSeat(s.exts[x], z) == Seats(s, z) + ExtSeat(a, z)
  {
    TotalUpdate(s.exts, ExtSeat, x, a, z);
  }

  /** A seat counted somewhere is found by its plate: the lookup returns that very record. */
  lemma LookupFinds(s: State, z: Seat)
    requires RecordsOK(s) && Seats(s, z) >= 1
    ensures var j := Lookup(s, z.plate); j < |s.carList| && VehicleSeat(s.carList[j]) == z
  {
    assert Count(s.carList, VehicleSeat, z) >= 1 && Count(s.carList, VehiclePlate, z.plate) <= 1;
    FindsTheOne(s.carList, VehiclePlate, z.plate, VehicleSeat, z);
  }

  // ----- entrances -----

  lemma SimEntrSeat(a: Entrance, clock: nat, stay: nat, z: Seat)
    requires EntOK(a) && SimEntrEnabled(a, stay)
    ensures EntSeat(SimEntrLocal(a, clock, stay), z)
        + (if a.sim.STriggered? then IsSeat(RideSeat(a.sim.ride), z) else 0)
      == EntSeat(a, z)
  {
  }

  lemma SimEntrSeats(s: State, e: nat, stay: nat, z: Seat)
    requires Shape(s) && LocalOK(s) && e < ENTRANCES && SimEntrEnabled(s.ents[e], stay)
    ensures Seats(SimEntrStep(s, e, stay), z) == Seats(s, z)
  {
    var a := s.ents[e];
    SimEntrSeat(a, s.simClock, stay, z);
    PutEntSeats(s, e, SimEntrLocal(a, s.simClock, stay), z);
    if a.sim.STriggered? { CountCons(a.sim.ride, s.inside, RideSeat, z); }
  }

  lemma SimEntrKeepsRecords(s: State, e: nat, stay: nat)
    requires Shape(s) && LocalOK(s) && RecordsOK(s) && e < ENTRANCES && SimEntrEnabled(s.ents[e], stay)
    ensures RecordsOK(SimEntrStep(s, e, stay))
  {
    var s' := SimEntrStep(s, e, stay);
    forall z ensures Seats(s', z) == Seats(s, z) { SimEntrSeats(s, e, stay, z); }
    forall f, p | 0 <= f < |s'.ents| && Approved(s'.ents[f].mgr, p) ensures Count(s'.carList, VehiclePlate, p) == 0 {
      assert s'.ents[f].mgr == s.ents[f].mgr;
    }
  }

  lemma MgrEntrSeat(s: State, table: set<Plate>, a: Entrance, z: Seat)
    requires Shape(s) && EntOK(a) && MgrEntrEnabled(a)
    ensures EntSeat(MgrEntrLocal(s, table, a), z) ==
      EntSeat(a, z) + if a.mgr.MTimed? then IsSeat(StubSeat(a.mgr.stub), z) else 0
  {
  }

  lemma MgrEntrSeats(s: State, table: set<Plate>, e: nat, z: Seat)
    requires Shape(s) && LocalOK(s) && e < ENTRANCES && MgrEntrEnabled(s.ents[e])
    ensures Seats(MgrEntrStep(s, table, e), z) ==
      Seats(s, z) + if s.ents[e].mgr.MTimed? then IsSeat(StubSeat(s.ents[e].mgr.stub), z) else 0
  {
    MgrEntrSeat(s, table, s.ents[e], z);
    PutEntSeats(s, e, MgrEntrLocal(s, table, s.ents[e]), z);
  }

  /** The car whose plate an entrance's manager has approved is in that entrance's hands. */
  lemma ApprovedCar(a: Entrance, p: Plate) returns (c: Car)
    requires EntOK(a) && Approved(a.mgr, p)
    ensures EntHas(a, c) > 0 && c.plate == p
  {
    c := if a.sim.SShown? then a.sim.car else a.sim.ride.car;
  }

  /** No two entrances have approved the same plate. */
  lemma ApprovedApart(s: State, e: nat, f: nat, p: Plate)
    requires LocalOK(s) && CarsOK(s) && e < |s.ents| && f < |s.ents| && e != f
    requires Approved(s.ents[e].mgr, p)
    ensures !Approved(s.ents[f].mgr, p)
  {
    if Approved(s.ents[f].mgr, p) {
      var c := ApprovedCar(s.ents[e], p);
      var d := ApprovedCar(s.ents[f], p);
      TwoEntrances(s, e, f, c, d);
    }
  }

  lemma InsertKeepsRecords(s: State, table: set<Plate>, e: nat)
    requires Shape(s) && LocalOK(s) && CarsOK(s) && RecordsOK(s) && e < ENTRANCES && s.ents[e].mgr.MTimed?
    ensures RecordsOK(MgrEntrStep(s, table, e))
  {
    var s' := MgrEntrStep(s, table, e);
    var st := s.ents[e].mgr.stub;
    var v := Vehicle(st, st.level);
    assert Approved(s.ents[e].mgr, st.plate);
    forall z ensures Count(s'.carList, VehicleSeat, z) == Seats(s', z) {
      MgrEntrSeats(s, table, e, z);
      CountCons(v, s.carList, VehicleSeat, z);
    }
    forall p ensures Count(s'.carList, VehiclePlate, p) <= 1 {
      CountCons(v, s.carList, VehiclePlate, p);
      assert Count(s.carList, VehiclePlate, p) <= 1;
    }
    forall f, p | 0 <= f < |s'.ents| && Approved(s'.ents[f].mgr, p) ensures Count(s'.carList, VehiclePlate, p) == 0 {
      assert f != e && s'.ents[f] == s.ents[f];
      CountCons(v, s.carList, VehiclePlate, p);
      if p == st.plate { ApprovedApart(s, e, f, p); }
    }
  }

  lemma MgrEntrKeepsRecords(s: State, table: set<Plate>, e: nat)
    requires Shape(s) && LocalOK(s) && CarsOK(s) && RecordsOK(s) && e < ENTRANCES && MgrEntrEnabled(s.ents[e])
    ensures RecordsOK(MgrEntrStep(s, table, e))
  {
    if s.ents[e].mgr.MTimed? {
      InsertKeepsRecords(s, table, e);
    } else {
      var s' := MgrEntrStep(s, table, e);
      forall z ensures Seats(s', z) == Seats(s, z) { MgrEntrSeats(s, table, e, z); }
      forall f, p | 0 <= f < |s'.ents| && Approved(s'.ents[f].mgr, p) ensures Count(s'.carList, VehiclePlate, p) == 0 {
        if f == e {
          NewlyApproved(s, table, e, p);
        } else {
          assert s'.ents[f] == s.ents[f];
        }
      }
    }
  }

  lemma NewlyApproved(s: State, table: set<Plate>, e: nat, p: Plate)
    requires Shape(s) && RecordsOK(s) && e < ENTRANCES && MgrEntrEnabled(s.ents[e])
    requires Approved(MgrEntrLocal(s, table, s.ents[e]).mgr, p)
    ensures Count(s.carList, VehiclePlate, p) == 0
  {
    var a := s.ents[e];
    if a.mgr.MRead? {
      assert p !in Keys(s.carList, VehiclePlate);
      assert forall i :: 0 <= i < |s.carList| ==> Keys(s.carList, VehiclePlate)[i] in Keys(s.carList, VehiclePlate);
      CountFinds(s.carList, VehiclePlate, p);
    } else {
      assert Approved(a.mgr, p);
    }
  }

  // ----- inside and exits -----

  lemma InsideKeepsRecords(s: State, x: nat)
    requires Shape(s) && CarsOK(s) && RecordsOK(s) && InsideEnabled(s, x)
    ensures RecordsOK(InsideStep(s, x))
  {
    var s' := InsideStep(s, x);
    assert s'.carList == s.carList && s'.ents == s.ents;
    match s.insideThread
    case IWait =>
      var j := FirstDue(s.inside, s.simClock);
      TakesTheDue(s, j);
      forall z ensures Seats(s', z) == Seats(s, z) {
        CountRemoveFirst(s.inside, RidePlate, RidePlate(s.inside[j]), RideSeat, z);
      }
    case ILeaving(r) =>
      forall z ensures Seats(s', z) == Seats(s, z) {}
    case ITriggered(r) =>
      var a := s.exts[x].(queue := s.exts[x].queue + [r]);
      forall z ensures Seats(s', z) == Seats(s, z) {
        CountSnoc(s.exts[x].queue, r, RideSeat, z);
        PutExtSeats(s, x, a, z);
      }
  }

  lemma SimExitSeat(a: Exit, z: Seat)
    requires ExtOK(a) && SimExitEnabled(a)
    ensures ExtSeat(SimExitLocal(a), z) == ExtSeat(a, z)
  {
  }

  lemma SimExitKeepsRecords(s: State, x: nat)
    requires Shape(s) && LocalOK(s) && RecordsOK(s) && x < EXITS && SimExitEnabled(s.exts[x])
    ensures RecordsOK(SimExitStep(s, x))
  {
    var s' := SimExitStep(s, x);
    assert s'.carList == s.carList && s'.ents == s.ents;
    forall z ensures Seats(s', z) == Seats(s, z) {
      SimExitSeat(s.exts[x], z);
      PutExtSeats(s, x, SimExitLocal(s.exts[x]), z);
    }
  }

  /** exit_lpr's lookup never comes back empty: the record it returns is the one made when the
      car entered. */
  lemma ExitLookup(s: State, x: nat)
    requires Shape(s) && LocalOK(s) && RecordsOK(s) && x < EXITS && s.exts[x].mgr.NWait? && s.exts[x].lprSignal
    ensures s.exts[x].sim.XShown?
    ensures var j := Lookup(s, s.exts[x].plate);
      j < |s.carList| && VehicleSeat(s.carList[j]) == RideSeat(s.exts[x].sim.ride)
  {
    var a := s.exts[x];
    var z := RideSeat(a.sim.ride);
    assert Unfound(a, z) == 1;
    TotalCovers(s.exts, ExtSeat, x, z);
    LookupFinds(s, z);
  }

  lemma FoundSeat(s: State, x: nat)
    requires RecordsOK(s) && x < |s.exts| && MgrHolds(s.exts[x])
    ensures var z := VehicleSeat(MgrVehicle(s.exts[x])); Seats(s, z) >= 1
  {
    TotalCovers(s.exts, ExtSeat, x, VehicleSeat(MgrVehicle(s.exts[x])));
  }

  lemma MgrExitSeat(s: State, a: Exit, z: Seat)
    requires ExtOK(a) && MgrExitEnabled(a)
    requires a.mgr.NWait? ==> a.sim.XShown? && var j := Lookup(s, a.plate);
      j < |s.carList| && VehicleSeat(s.carList[j]) == RideSeat(a.sim.ride)
    ensures ExtSeat(MgrExitLocal(s, a), z) + (if a.mgr.NDelete? then IsSeat(VehicleSeat(a.mgr.v), z) else 0)
      == ExtSeat(a, z)
  {
  }

  lemma MgrExitSeats(s: State, x: nat, z: Seat)
    requires Shape(s) && LocalOK(s) && RecordsOK(s) && x < EXITS && MgrExitEnabled(s.exts[x])
    ensures Seats(MgrExitStep(s, x), z)
        + (if s.exts[x].mgr.NDelete? then IsSeat(VehicleSeat(s.exts[x].mgr.v), z) else 0)
      == Seats(s, z)
  {
    var a := s.exts[x];
    if a.mgr.NWait? { ExitLookup(s, x); }
    MgrExitSeat(s, a, z);
    PutExtSeats(s, x, MgrExitLocal(s, a), z);
  }

  lemma DeleteKeepsRecords(s: State, x: nat)
    requires Shape(s) && LocalOK(s) && RecordsOK(s) && x < EXITS && s.exts[x].mgr.NDelete?
    ensures RecordsOK(MgrExitStep(s, x))
  {
    var a := s.exts[x];
    var v := a.mgr.v;
    var s' := MgrExitStep(s, x);
    FoundSeat(s, x);
    LookupFinds(s, VehicleSeat(v));
    forall z ensures Count(s'.carList, VehicleSeat, z) == Seats(s', z) {
      MgrExitSeats(s, x, z);
      CountRemoveFirst(s.carList, VehiclePlate, a.plate, VehicleSeat, z);
    }
    forall p ensures Count(s'.carList, VehiclePlate, p) <= Count(s.carList, VehiclePlate, p) {
      CountRemoveFirst(s.carList, VehiclePlate, a.plate, VehiclePlate, p);
    }
    forall p ensures Count(s'.carList, VehiclePlate, p) <= 1 {
      assert Count(s.carList, VehiclePlate, p) <= 1;
    }
    assert s'.ents == s.ents;
  }

  lemma MgrExitKeepsRecords(s: State, x: nat)
    requires Shape(s) && LocalOK(s) && RecordsOK(s) && x < EXITS && MgrExitEnabled(s.exts[x])
    ensures RecordsOK(MgrExitStep(s, x))
  {
    if s.exts[x].mgr.NDelete? {
      DeleteKeepsRecords(s, x);
    } else {
      var s' := MgrExitStep(s, x);
      assert s'.carList == s.carList && s'.ents == s.ents;
      forall z ensures Seats(s', z) == Seats(s, z) { MgrExitSeats(s, x, z); }
    }
  }

  /** A level reading touches neither plates nor assigned levels. */
  lemma ReaderKeepsRecords(s: State, l: nat)
    requires Shape(s) && RecordsOK(s) && l < LEVELS
    ensures RecordsOK(ReaderStep(s, l))
  {
    var s' := ReaderStep(s, l);
    var j := Lookup(s, s.readers[l].plate);
    assert s'.ents == s.ents;
    forall z ensures Count(s'.carList, VehicleSeat, z) == Seats(s', z) {
      if j < |s.carList| { CountReplace(s.carList, j, s.carList[j].(level := l), VehicleSeat, z); }
      assert Seats(s', z) == Seats(s, z);
    }
    forall p ensures Count(s'.carList, VehiclePlate, p) == Count(s.carList, VehiclePlate, p) {
      if j < |s.carList| { CountReplace(s.carList, j, s.carList[j].(level := l), VehiclePlate, p); }
    }
    forall p ensures Count(s'.carList, VehiclePlate, p) <= 1 {
      assert Count(s.carList, VehiclePlate, p) <= 1;
    }
  }

  lemma CreatorKeepsRecords(s: State, plate: Plate, e: nat)
    requires Shape(s) && RecordsOK(s) && CreatorEnabled(s, plate, e)
    ensures RecordsOK(CreatorStep(s, plate, e))
  {
    var s' := CreatorStep(s, plate, e);
    assert s'.carList == s.carList;
    forall z ensures Seats(s', z) == Seats(s, z) {
      if s.creator.CListed? {
        PutEntSeats(s, e, s.ents[e].(queue := s.ents[e].queue + [s.creator.car]), z);
      }
    }
    forall f, p | 0 <= f < |s'.ents| && Approved(s'.ents[f].mgr, p) ensures Count(s'.carList, VehiclePlate, p) == 0 {
      assert s'.ents[f].mgr == s.ents[f].mgr;
    }
  }

  lemma DoKeepsRecords(s: State, table: set<Plate>, act: Action)
    requires Shape(s) && LocalOK(s) && CarsOK(s) && RecordsOK(s) && Enabled(s, act)
    ensures RecordsOK(Do(s, table, act))
  {
    match act
    case CreatorMoves(p, e) => CreatorKeepsRecords(s, p, e);
    case SimEntrMoves(e, stay) => SimEntrKeepsRecords(s, e, stay);
    case MgrEntrMoves(e) => MgrEntrKeepsRecords(s, table, e);
    case InsideMoves(x) => InsideKeepsRecords(s, x);
    case SimExitMoves(x) => SimExitKeepsRecords(s, x);
    case MgrExitMoves(x) => MgrExitKeepsRecords(s, x);
    case ReaderMoves(l) => ReaderKeepsRecords(s, l);
    case Tick(ms) => forall z ensures Seats(Do(s, table, act), z) == Seats(s, z) {}
    case SimTick(ms) => forall z ensures Seats(Do(s, table, act), z) == Seats(s, z) {}
  }

  lemma InitRecords()
    ensures RecordsOK(Init())
  {
    forall z ensures Seats(Init(), z) == 0 {
      TotalZero(Init().ents, EntSeat, z);
      TotalZero(Init().exts, ExtSeat, z);
    }
  }

  lemma PutEntLocal(s: State, s': State, e: nat, a: Entrance)
    requires LocalOK(s) && e < |s.ents| && EntOK(a) && s'.ents == s.ents[e := a] && s'.exts == s.exts
    ensures LocalOK(s')
  {
  }

  lemma PutExtLocal(s: State, s': State, x: nat, a: Exit)
    requires LocalOK(s) && x < |s.exts| && ExtOK(a) && s'.exts == s.exts[x := a] && s'.ents == s.ents
    ensures LocalOK(s')
  {
  }

  lemma EntranceKeepsLocal(s: State, table: set<Plate>, act: Action)
    requires Shape(s) && LocalOK(s) && Enabled(s, act) && (act.SimEntrMoves? || act.MgrEntrMoves?)
    ensures LocalOK(Do(s, table, act))
  {
    var s' := Do(s, table, act);
    match act
    case SimEntrMoves(e, stay) =>
      SimEntrKeepsLocal(s.ents[e], s.simClock, stay);
      PutEntLocal(s, s', e, SimEntrLocal(s.ents[e], s.simClock, stay));
    case MgrEntrMoves(e) =>
      MgrEntrKeepsLocal(s, table, s.ents[e]);
      PutEntLocal(s, s', e, MgrEntrLocal(s, table, s.ents[e]));
  }

  lemma ExitKeepsLocal(s: State, table: set<Plate>, act: Action)
    requires Shape(s) && LocalOK(s) && RecordsOK(s) && Enabled(s, act) && (act.SimExitMoves? || act.MgrExitMoves?)
    ensures LocalOK(Do(s, table, act))
  {
    var s' := Do(s, table, act);
    match act
    case SimExitMoves(x) =>
      SimExitKeepsLocal(s.exts[x]);
      PutExtLocal(s, s', x, SimExitLocal(s.exts[x]));
    case MgrExitMoves(x) =>
      if s.exts[x].mgr.NWait? { ExitLookup(s, x); }
      MgrExitKeepsLocal(s, s.exts[x]);
      PutExtLocal(s, s', x, MgrExitLocal(s, s.exts[x]));
  }

  lemma DoKeepsLocal(s: State, table: set<Plate>, act: Action)
    requires Shape(s) && LocalOK(s) && RecordsOK(s) && Enabled(s, act)
    ensures LocalOK(Do(s, table, act))
  {
    var s' := Do(s, table, act);
    match act
    case CreatorMoves(p, e) =>
      if s.creator.CListed? {
        var b := s.ents[e].(queue := s.ents[e].queue + [s.creator.car]);
        QueueKeepsLocal(s.ents[e], s.exts[0], b.queue, []);
        PutEntLocal(s, s', e, b);
      }
    case SimEntrMoves(e, stay) => EntranceKeepsLocal(s, table, act);
    case MgrEntrMoves(e) => EntranceKeepsLocal(s, table, act);
    case InsideMoves(x) =>
      if s.insideThread.ITriggered? {
        var b := s.exts[x].(queue := s.exts[x].queue + [s.insideThread.ride]);
        QueueKeepsLocal(s.ents[0], s.exts[x], [], b.queue);
        PutExtLocal(s, s', x, b);
      }
    case SimExitMoves(x) => ExitKeepsLocal(s, table, act);
    case MgrExitMoves(x) => ExitKeepsLocal(s, table, act);
    case ReaderMoves(l) =>
    case Tick(ms) =>
    case SimTick(ms) =>
  }
}
