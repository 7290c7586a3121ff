/** Conservation of cars: the simulator's list of existing cars holds each car of the queues, the
    inside list and the threads' hands exactly once, and no two of them share a plate. */
module ProtocolCars {
  import opened Parking
  import opened LinkedList
  import opened Counting
  import opened Protocol

  function Itself(c: Car): Car { c }

  function Is(c: Car, d: Car): nat { if c == d then 1 else 0 }

  // ----- where a car can be -----

  function CreatorHas(t: Creator, c: Car): nat {
    if t.CListed? then Is(t.car, c) else 0
  }

  function EntrHand(t: SimEntr, c: Car): nat {
    match t
    case SWait => 0
    case SPopped(d) => Is(d, c)
    case SShown(d) => Is(d, c)
    case SRejected(d) => Is(d, c)
    case SRaise(r) => Is(r.car, c)
    case SOpened(r) => Is(r.car, c)
    case STimed(r) => Is(r.car, c)
    case STriggered(r) => Is(r.car, c)
    case SLower => 0
  }

  function EntHas(a: Entrance, c: Car): nat { Count(a.queue, Itself, c) + EntrHand(a.sim, c) }

  function InsideHand(t: Inside, c: Car): nat {
    match t
    case IWait => 0
    case ILeaving(r) => Is(r.car, c)
    case ITriggered(r) => Is(r.car, c)
  }

  /** A car counts as held until destroy_car. */
  function ExitHand(t: SimExit, c: Car): nat {
    match t
    case XWait => 0
    case XPopped(r) => Is(r.car, c)
    case XShown(r) => Is(r.car, c)
    case XOpened(r) => Is(r.car, c)
    case XLower => 0
  }

  function ExtHas(a: Exit, c: Car): nat { Count(a.queue, RideCar, c) + ExitHand(a.sim, c) }

  /** How often a car occurs in all the places a car can be. */
  function Places(s: State, c: Car): nat {
    CreatorHas(s.creator, c) + Total(s.ents, EntHas, c) + Count(s.inside, RideCar, c) + InsideHand(s.insideThread, c)
    + Total(s.exts, ExtHas, c)
  }

  ghost predicate OnePerPlate(cars: seq<Car>) { forall p :: Count(cars, CarPlate, p) <= 1 }

  ghost predicate CarsOK(s: State) {
    && (forall c :: Count(s.simCars, Itself, c) == Places(s, c))
    && OnePerPlate(s.simCars)
    && (s.creator.CChecked? ==> Count(s.simCars, CarPlate, s.creator.car.plate) == 0)
  }

  // ----- consequences -----

  /** Two cars counted apart carry different plates. */
  lemma TwoCars(s: State, c: Car, d: Car)
    requires CarsOK(s) && c != d && Places(s, c) >= 1 && Places(s, d) >= 1
    ensures c.plate != d.plate
  {
    if c.plate == d.plate {
      assert Count(s.simCars, CarPlate, c.plate) <= 1;
      CountBoth(s.simCars, Itself, c, d, CarPlate, c.plate);
    }
  }

  /** No car is in two places. */
  lemma OnePlace(s: State, c: Car)
    requires CarsOK(s)
    ensures Places(s, c) <= 1
  {
    CountCoarser(s.simCars, Itself, c, CarPlate, c.plate);
    assert Count(s.simCars, CarPlate, c.plate) <= 1;
  }

  /** Cars at two entrances have different plates. */
  lemma TwoEntrances(s: State, e: nat, f: nat, c: Car, d: Car)
    requires CarsOK(s) && e < |s.ents| && f < |s.ents| && e != f
    requires EntHas(s.ents[e], c) > 0 && EntHas(s.ents[f], d) > 0
    ensures c.plate != d.plate
  {
    TotalCovers(s.ents, EntHas, e, c);
    TotalCovers(s.ents, EntHas, f, d);
    if c == d {
      if e < f { TotalCoversBoth(s.ents, EntHas, e, f, c); } else { TotalCoversBoth(s.ents, EntHas, f, e, c); }
      OnePlace(s, c);
    } else {
      TwoCars(s, c, d);
    }
  }

  /** Destroying a car that is somewhere takes that car, and no other, out of the list. */
  lemma DestroyCar(s: State, c: Car, d: Car)
    requires CarsOK(s) && Places(s, c) >= 1
    ensures Count(RemoveFirst(s.simCars, CarPlate, c.plate), Itself, d) + Is(c, d) == Count(s.simCars, Itself, d)
  {
    assert Count(s.simCars, CarPlate, c.plate) <= 1 && Count(s.simCars, Itself, c) >= 1;
    FindsTheOne(s.simCars, CarPlate, c.plate, Itself, c);
    CountRemoveFirst(s.simCars, CarPlate, c.plate, Itself, d);
  }

  lemma DestroyedPlates(s: State, q: Plate)
    requires OnePerPlate(s.simCars)
    ensures OnePerPlate(RemoveFirst(s.simCars, CarPlate, q))
    ensures forall p :: Count(s.simCars, CarPlate, p) == 0 ==>
      Count(RemoveFirst(s.simCars, CarPlate, q), CarPlate, p) == 0
  {
    forall p ensures Count(RemoveFirst(s.simCars, CarPlate, q), CarPlate, p) <= Count(s.simCars, CarPlate, p) {
      CountRemoveFirst(s.simCars, CarPlate, q, CarPlate, p);
    }
  }

  // ----- one part changes -----

  lemma PutEntPlaces(s: State, e: nat, a: Entrance, c: Car)
    requires e < |s.ents|
    ensures Places(PutEnt(s, e, a), c) + EntHas(s.ents[e], c) == Places(s, c) + EntHas(a, c)
  {
    TotalUpdate(s.ents, EntHas, e, a, c);
  }

  lemma PutExtPlaces(s: State, x: nat, a: Exit, c: Car)
    requires x < |s.exts|
    ensures Places(PutExt(s, x, a), c) + ExtHas(s.exts[x], c) == Places(s, c) + ExtHas(a, c)
  {
    TotalUpdate(s.exts, ExtHas, x, a, c);
  }

  // ----- steps -----

  lemma CreatorKeepsCars(s: State, plate: Plate, e: nat)
    requires Shape(s) && CarsOK(s) && CreatorEnabled(s, plate, e)
    ensures CarsOK(CreatorStep(s, plate, e))
  {
    var s' := CreatorStep(s, plate, e);
    match s.creator
    case CIdle =>
      NotAmong(s, plate);
      forall c ensures Places(s', c) == Places(s, c) {}
    case CChecked(car) =>
      forall c ensures Count(s'.simCars, Itself, c) == Places(s', c) { CountCons(car, s.simCars, Itself, c); }
      forall p ensures Count(s'.simCars, CarPlate, p) <= 1 { CountCons(car, s.simCars, CarPlate, p); }
    case CListed(car) =>
      var a := s.ents[e].(queue := s.ents[e].queue + [car]);
      forall c ensures Places(s', c) == Places(s, c) {
        PutEntPlaces(s, e, a, c);
        CountSnoc(s.ents[e].queue, car, Itself, c);
      }
  }

  lemma NotAmong(s: State, p: Plate)
    requires p !in Keys(s.simCars, CarPlate)
    ensures Count(s.simCars, CarPlate, p) == 0
  {
    CountFinds(s.simCars, CarPlate, p);
    var j := IndexOf(s.simCars, CarPlate, p);
    assert forall i :: 0 <= i < |s.simCars| ==> Keys(s.simCars, CarPlate)[i] in Keys(s.simCars, CarPlate);
  }

  /** What an entrance gives up in one step: a rejected car, or one driving in. */
  function Leaves(t: SimEntr, c: Car): nat {
    match t
    case SRejected(d) => Is(d, c)
    case STriggered(r) => Is(r.car, c)
    case _ => 0
  }

  lemma SimEntrLocalCars(a: Entrance, clock: nat, stay: nat, c: Car)
    requires SimEntrEnabled(a, stay)
    ensures EntHas(SimEntrLocal(a, clock, stay), c) + Leaves(a.sim, c) == EntHas(a, c)
  {
  }

  lemma SimEntrPlaces(s: State, e: nat, stay: nat, c: Car)
    requires Shape(s) && e < ENTRANCES && SimEntrEnabled(s.ents[e], stay)
    ensures Places(SimEntrStep(s, e, stay), c) + (if s.ents[e].sim.SRejected? then Is(s.ents[e].sim.car, c) else 0)
      == Places(s, c)
  {
    var a := s.ents[e];
    SimEntrLocalCars(a, s.simClock, stay, c);
    PutEntPlaces(s, e, SimEntrLocal(a, s.simClock, stay), c);
    if a.sim.STriggered? { CountCons(a.sim.ride, s.inside, RideCar, c); }
  }

  lemma SimEntrKeepsCars(s: State, e: nat, stay: nat)
    requires Shape(s) && CarsOK(s) && e < ENTRANCES && SimEntrEnabled(s.ents[e], stay)
    ensures CarsOK(SimEntrStep(s, e, stay))
  {
    var s' := SimEntrStep(s, e, stay);
    var a := s.ents[e];
    if a.sim.SRejected? {
      TotalCovers(s.ents, EntHas, e, a.sim.car);
      forall c ensures Count(s'.simCars, Itself, c) == Places(s', c) {
        SimEntrPlaces(s, e, stay, c);
        DestroyCar(s, a.sim.car, c);
      }
      DestroyedPlates(s, a.sim.car.plate);
    } else {
      forall c ensures Places(s', c) == Places(s, c) { SimEntrPlaces(s, e, stay, c); }
    }
  }

  lemma MgrEntrPlaces(s: State, table: set<Plate>, e: nat, c: Car)
    requires Shape(s) && e < ENTRANCES && MgrEntrEnabled(s.ents[e])
    ensures Places(MgrEntrStep(s, table, e), c) == Places(s, c)
  {
    var b := MgrEntrLocal(s, table, s.ents[e]);
    assert b.queue == s.ents[e].queue && b.sim == s.ents[e].sim;
    PutEntPlaces(s, e, b, c);
  }

  lemma MgrEntrKeepsCars(s: State, table: set<Plate>, e: nat)
    requires Shape(s) && CarsOK(s) && e < ENTRANCES && MgrEntrEnabled(s.ents[e])
    ensures CarsOK(MgrEntrStep(s, table, e))
  {
    forall c ensures Places(MgrEntrStep(s, table, e), c) == Places(s, c) { MgrEntrPlaces(s, table, e, c); }
  }

  /** No two cars of the inside list share a plate. */
  lemma InsideAlone(s: State, p: Plate)
    requires CarsOK(s)
    ensures Count(s.inside, RidePlate, p) <= 1
  {
    if Count(s.inside, RidePlate, p) > 1 {
      CountFinds(s.inside, RidePlate, p);
      var i := IndexOf(s.inside, RidePlate, p);
      var rest := Without(s.inside, i);
      CountWithout(s.inside, i, RidePlate, p);
      CountFinds(rest, RidePlate, p);
      var j := IndexOf(rest, RidePlate, p);
      var c, d := s.inside[i].car, rest[j].car;
      CountHas(s.inside, RideCar, i);
      CountWithout(s.inside, i, RideCar, d);
      CountHas(rest, RideCar, j);
      OnePlace(s, d);
      TwoCars(s, c, d);
    }
  }

  /** thf_inside takes the due car itself off its list: no other car there has its plate. */
  lemma InsideKeepsCars(s: State, x: nat)
    requires Shape(s) && CarsOK(s) && InsideEnabled(s, x)
    ensures CarsOK(InsideStep(s, x))
  {
    var s' := InsideStep(s, x);
    match s.insideThread
    case IWait =>
      var j := FirstDue(s.inside, s.simClock);
      var r := s.inside[j];
      TakesTheDue(s, j);
      forall c ensures Places(s', c) == Places(s, c) {
        CountRemoveFirst(s.inside, RidePlate, RidePlate(r), RideCar, c);
      }
    case ILeaving(r) =>
      forall c ensures Places(s', c) == Places(s, c) {}
    case ITriggered(r) =>
      var a := s.exts[x].(queue := s.exts[x].queue + [r]);
      forall c ensures Places(s', c) == Places(s, c) {
        CountSnoc(s.exts[x].queue, r, RideCar, c);
        PutExtPlaces(s, x, a, c);
      }
  }

  lemma TakesTheDue(s: State, j: nat)
    requires CarsOK(s) && j < |s.inside|
    ensures IndexOf(s.inside, RidePlate, RidePlate(s.inside[j])) == j
  {
    var p := RidePlate(s.inside[j]);
    InsideAlone(s, p);
    var i := IndexOf(s.inside, RidePlate, p);
    CountHas(s.inside, RidePlate, j);
    CountFinds(s.inside, RidePlate, p);
    if i < j {
      CountWithout(s.inside, i, RidePlate, p);
      assert Without(s.inside, i)[j - 1] == s.inside[j];
      CountHas(Without(s.inside, i), RidePlate, j - 1);
    }
  }

  lemma SimExitLocalCars(a: Exit, c: Car)
    requires SimExitEnabled(a)
    ensures ExtHas(SimExitLocal(a), c) + (if a.sim.XOpened? then Is(a.sim.ride.car, c) else 0) == ExtHas(a, c)
  {
  }

  lemma SimExitPlaces(s: State, x: nat, c: Car)
    requires Shape(s) && x < EXITS && SimExitEnabled(s.exts[x])
    ensures Places(SimExitStep(s, x), c) + (if s.exts[x].sim.XOpened? then Is(s.exts[x].sim.ride.car, c) else 0)
      == Places(s, c)
  {
    SimExitLocalCars(s.exts[x], c);
    PutExtPlaces(s, x, SimExitLocal(s.exts[x]), c);
  }

  lemma SimExitKeepsCars(s: State, x: nat)
    requires Shape(s) && CarsOK(s) && x < EXITS && SimExitEnabled(s.exts[x])
    ensures CarsOK(SimExitStep(s, x))
  {
    var s' := SimExitStep(s, x);
    var a := s.exts[x];
    if a.sim.XOpened? {
      var car := a.sim.ride.car;
      TotalCovers(s.exts, ExtHas, x, car);
      forall c ensures Count(s'.simCars, Itself, c) == Places(s', c) {
        SimExitPlaces(s, x, c);
        DestroyCar(s, car, c);
      }
      DestroyedPlates(s, car.plate);
    } else {
      forall c ensures Places(s', c) == Places(s, c) { SimExitPlaces(s, x, c); }
    }
  }

  lemma MgrExitPlaces(s: State, x: nat, c: Car)
    requires Shape(s) && x < EXITS && MgrExitEnabled(s.exts[x])
    ensures Places(MgrExitStep(s, x), c) == Places(s, c)
  {
    var b := MgrExitLocal(s, s.exts[x]);
    assert b.queue == s.exts[x].queue && b.sim == s.exts[x].sim;
    PutExtPlaces(s, x, b, c);
  }

  lemma MgrExitKeepsCars(s: State, x: nat)
    requires Shape(s) && CarsOK(s) && x < EXITS && MgrExitEnabled(s.exts[x])
    ensures CarsOK(MgrExitStep(s, x))
  {
    forall c ensures Places(MgrExitStep(s, x), c) == Places(s, c) { MgrExitPlaces(s, x, c); }
  }

  lemma DoKeepsCars(s: State, table: set<Plate>, act: Action)
    requires Shape(s) && CarsOK(s) && Enabled(s, act)
    ensures CarsOK(Do(s, table, act))
  {
    match act
    case CreatorMoves(p, e) => CreatorKeepsCars(s, p, e);
    case SimEntrMoves(e, stay) => SimEntrKeepsCars(s, e, stay);
    case MgrEntrMoves(e) => MgrEntrKeepsCars(s, table, e);
    case InsideMoves(x) => InsideKeepsCars(s, x);
    case SimExitMoves(x) => SimExitKeepsCars(s, x);
    case MgrExitMoves(x) => MgrExitKeepsCars(s, x);
    case ReaderMoves(l) => forall c ensures Places(Do(s, table, act), c) == Places(s, c) {}
    case Tick(ms) => forall c ensures Places(Do(s, table, act), c) == Places(s, c) {}
    case SimTick(ms) => forall c ensures Places(Do(s, table, act), c) == Places(s, c) {}
  }

  lemma InitCars()
    ensures CarsOK(Init())
  {
    forall c ensures Places(Init(), c) == 0 {
      TotalZero(Init().ents, EntHas, c);
      TotalZero(Init().exts, ExtHas, c);
    }
  }
}
