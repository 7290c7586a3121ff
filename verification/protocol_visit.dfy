/** Whole visits as runs of the protocol: a car that drives up, is let in, leaves and is charged.
    A visit undoes itself on the car list, and two of them show what a late level reading does. */
module ProtocolVisit {
  import opened Parking
  import opened Gates
  import opened Levels
  import opened LinkedList
  import opened Protocol
  import opened ProtocolLevels
  import opened ProtocolSafety

  ghost predicate Reachable(s: State, table: set<Plate>) {
    exists states, acts :: IsRun(states, acts, table) && states[|acts|] == s
  }

  lemma Start(table: set<Plate>)
    ensures Reachable(Init(), table)
  {
    assert IsRun([Init()], [], table);
  }

  lemma Extend(s: State, table: set<Plate>, act: Action)
    requires Reachable(s, table) && Shape(s) && Enabled(s, act)
    ensures Reachable(Do(s, table, act), table)
  {
    var states, acts :| IsRun(states, acts, table) && states[|acts|] == s;
    var longer, more := states + [Do(s, table, act)], acts + [act];
    forall i | 0 <= i < |more| ensures Follows(longer[i], longer[i + 1], more[i], table) {
      if i < |acts| { assert Follows(states[i], states[i + 1], acts[i], table); }
    }
    assert IsRun(longer, more, table);
  }

  lemma ReachableInv(s: State, table: set<Plate>)
    requires Reachable(s, table)
    ensures Inv(s, table) && InRange(s.counters)
  {
    var states, acts :| IsRun(states, acts, table) && states[|acts|] == s;
    RunInv(states, acts, table, |acts|);
    TrackersStayInRange(states, acts, table, |acts|);
  }

  lemma ReachableParts(s: State, table: set<Plate>, x: nat, a: Exit)
    requires x < |s.exts| && Reachable(PutExt(s, x, a), table)
    ensures Shape(s)
  {
    ReachableInv(PutExt(s, x, a), table);
  }

  lemma ReachableRange(s: State, table: set<Plate>)
    requires Reachable(s, table)
    ensures InRange(s.counters)
  {
    ReachableInv(s, table);
  }

  // ----- steps that change one entrance or one exit only -----

  lemma SimEntrMove(s: State, table: set<Plate>, e: nat, a: Entrance, stay: nat)
    requires Shape(s) && e < ENTRANCES && Reachable(PutEnt(s, e, a), table) && SimEntrEnabled(a, stay)
    requires !a.sim.SRejected? && !a.sim.STimed? && !a.sim.STriggered?
    ensures Reachable(PutEnt(s, e, SimEntrLocal(a, s.simClock, stay)), table)
  {
    Extend(PutEnt(s, e, a), table, SimEntrMoves(e, stay));
    assert s.ents[e := a][e := SimEntrLocal(a, s.simClock, stay)] == s.ents[e := SimEntrLocal(a, s.simClock, stay)];
  }

  lemma MgrEntrMove(s: State, table: set<Plate>, e: nat, a: Entrance)
    requires Shape(s) && e < ENTRANCES && Reachable(PutEnt(s, e, a), table) && MgrEntrEnabled(a)
    requires !a.mgr.MAllowed? && !a.mgr.MTimed?
    ensures Reachable(PutEnt(s, e, MgrEntrLocal(s, table, a)), table)
  {
    Extend(PutEnt(s, e, a), table, MgrEntrMoves(e));
    assert s.ents[e := a][e := MgrEntrLocal(s, table, a)] == s.ents[e := MgrEntrLocal(s, table, a)];
  }

  lemma SimExitMove(s: State, table: set<Plate>, x: nat, a: Exit)
    requires Shape(s) && x < EXITS && Reachable(PutExt(s, x, a), table) && SimExitEnabled(a) && !a.sim.XOpened?
    ensures Reachable(PutExt(s, x, SimExitLocal(a)), table)
  {
    Extend(PutExt(s, x, a), table, SimExitMoves(x));
    assert s.exts[x := a][x := SimExitLocal(a)] == s.exts[x := SimExitLocal(a)];
  }

  lemma MgrExitMove(s: State, table: set<Plate>, x: nat, a: Exit)
    requires Shape(s) && x < EXITS && Reachable(PutExt(s, x, a), table) && MgrExitEnabled(a)
    requires a.mgr.NFound? || a.mgr.NAwaitOpen? || a.mgr.NAwaitClosed?
    ensures Reachable(PutExt(s, x, MgrExitLocal(s, a)), table)
  {
    Extend(PutExt(s, x, a), table, MgrExitMoves(x));
    assert s.exts[x := a][x := MgrExitLocal(s, a)] == s.exts[x := MgrExitLocal(s, a)];
  }

  // ----- driving up -----

  predicate EntIdle(a: Entrance) {
    a.queue == [] && a.sim.SWait? && a.mgr.MWait? && a.gate.C? && !a.lprSignal && !a.screenSignal
  }

  predicate ExtIdle(a: Exit) { a.queue == [] && a.sim.XWait? && a.mgr.NWait? && a.gate.C? && !a.lprSignal }

  /** A permitted car, of no plate known to either program, can be let in at entrance `e`. */
  ghost predicate Ready(s: State, table: set<Plate>, p: Plate, e: nat) {
    && Shape(s) && e < ENTRANCES && Reachable(s, table)
    && s.creator.CIdle? && p !in Keys(s.simCars, CarPlate)
    && p in table && p !in Keys(s.carList, VehiclePlate) && HasRoom(s)
    && EntIdle(s.ents[e])
  }

  function NewCar(s: State, p: Plate): Car { Car(s.nextId, p) }

  /** The simulator knows the new car. */
  function Arrived(s: State, p: Plate): State {
    s.(nextId := s.nextId + 1, simCars := [NewCar(s, p)] + s.simCars)
  }

  /** The entrance while its car watches the screen. */
  function Watching(s: State, p: Plate, e: nat, m: MgrEntr): Entrance
    requires e < |s.ents|
  {
    s.ents[e].(plate := p, sim := SShown(NewCar(s, p)), mgr := m)
  }

  lemma DrivesUp(s: State, table: set<Plate>, p: Plate, e: nat)
    requires Ready(s, table, p, e)
    ensures Reachable(PutEnt(Arrived(s, p), e, s.ents[e].(queue := [NewCar(s, p)])), table)
  {
    Extend(s, table, CreatorMoves(p, e));
    var s1 := Do(s, table, CreatorMoves(p, e));
    Extend(s1, table, CreatorMoves(p, e));
    var s2 := Do(s1, table, CreatorMoves(p, e));
    Extend(s2, table, CreatorMoves(p, e));
    assert s.ents[e].queue + [NewCar(s, p)] == [NewCar(s, p)];
    assert Do(s2, table, CreatorMoves(p, e)) == PutEnt(Arrived(s, p), e, s.ents[e].(queue := [NewCar(s, p)]));
  }

  lemma IsAllowed(s: State, table: set<Plate>, p: Plate, e: nat)
    requires Ready(s, table, p, e)
    ensures Reachable(PutEnt(Arrived(s, p), e, Watching(s, p, e, MAllowed(p))), table)
  {
    DrivesUp(s, table, p, e);
    var b := Arrived(s, p);
    var a0 := s.ents[e].(queue := [NewCar(s, p)]);
    SimEntrMove(b, table, e, a0, 100);
    var a1 := SimEntrLocal(a0, b.simClock, 100);
    SimEntrMove(b, table, e, a1, 100);
    var a2 := SimEntrLocal(a1, b.simClock, 100);
    MgrEntrMove(b, table, e, a2);
    var a3 := MgrEntrLocal(b, table, a2);
    MgrEntrMove(b, table, e, a3);
    assert MgrEntrLocal(b, table, a3) == Watching(s, p, e, MAllowed(p));
  }

  /** The manager has counted the car. */
  function Counted(s: State, p: Plate): State
    requires Shape(s)
  {
    Arrived(s, p).(counters := CountIn(s.counters))
  }

  lemma IsCounted(s: State, table: set<Plate>, p: Plate, e: nat)
    requires Ready(s, table, p, e)
    ensures Reachable(PutEnt(Counted(s, p), e, Watching(s, p, e, MCounted(p, NextLevel(s.counters)))), table)
  {
    IsAllowed(s, table, p, e);
    var a := Watching(s, p, e, MAllowed(p));
    var b := Watching(s, p, e, MCounted(p, NextLevel(s.counters)));
    Extend(PutEnt(Arrived(s, p), e, a), table, MgrEntrMoves(e));
    assert s.ents[e := a][e := b] == s.ents[e := b];
  }

  function VisitStub(s: State, p: Plate): Stub
    requires Shape(s)
  {
    Stub(p, NextLevel(s.counters), s.clock)
  }

  /** The entrance once the screen shows the level. */
  function Told(s: State, p: Plate, e: nat): Entrance
    requires Shape(s) && e < |s.ents|
  {
    Watching(s, p, e, MTimed(VisitStub(s, p))).(display := Show(NextLevel(s.counters)), screenSignal := true)
  }

  lemma IsTold(s: State, table: set<Plate>, p: Plate, e: nat)
    requires Ready(s, table, p, e)
    ensures Reachable(PutEnt(Counted(s, p), e, Told(s, p, e)), table)
  {
    IsCounted(s, table, p, e);
    var b := Counted(s, p);
    var a := Watching(s, p, e, MCounted(p, NextLevel(s.counters)));
    MgrEntrMove(b, table, e, a);
    var a1 := MgrEntrLocal(b, table, a);
    MgrEntrMove(b, table, e, a1);
    assert MgrEntrLocal(b, table, a1) == Told(s, p, e);
  }

  // ----- driving in -----

  /** The car is on record. */
  function OnRecord(s: State, p: Plate): State
    requires Shape(s)
  {
    var st := VisitStub(s, p);
    Counted(s, p).(carList := [Vehicle(st, st.level)] + s.carList, entered := s.entered + [st])
  }

  function VisitRide(s: State, p: Plate, stay: nat): Ride
    requires Shape(s)
  {
    Ride(NewCar(s, p), NextLevel(s.counters), (s.simClock + stay) % 65536)
  }

  /** The entrance with its screen read and its plate reader spent. */
  function Served(s: State, p: Plate, e: nat, sim: SimEntr, mgr: MgrEntr, gate: Status): Entrance
    requires Shape(s) && e < |s.ents|
  {
    s.ents[e].(plate := p, display := Show(NextLevel(s.counters)), sim := sim, mgr := mgr, gate := gate)
  }

  lemma PassesGate(s: State, table: set<Plate>, p: Plate, e: nat, stay: nat)
    requires Ready(s, table, p, e) && 100 <= stay < 10000
    ensures Reachable(PutEnt(OnRecord(s, p), e,
      Served(s, p, e, STimed(VisitRide(s, p, stay)), MAwaitOpen(VisitStub(s, p)), O)), table)
  {
    IsTold(s, table, p, e);
    var b, a := OnRecord(s, p), Told(s, p, e);
    var a1 := a.(mgr := MInserted(VisitStub(s, p)));
    Extend(PutEnt(Counted(s, p), e, a), table, MgrEntrMoves(e));
    assert s.ents[e := a][e := a1] == s.ents[e := a1];
    MgrEntrMove(b, table, e, a1);
    var a2 := MgrEntrLocal(b, table, a1);
    ScreenRoundTrip(NextLevel(s.counters));
    SimEntrMove(b, table, e, a2, stay);
    var a3 := SimEntrLocal(a2, b.simClock, stay);
    SimEntrMove(b, table, e, a3, stay);
    var a4 := SimEntrLocal(a3, b.simClock, stay);
    SimEntrMove(b, table, e, a4, stay);
    assert SimEntrLocal(a4, b.simClock, stay) ==
      Served(s, p, e, STimed(VisitRide(s, p, stay)), MAwaitOpen(VisitStub(s, p)), O);
  }

  /** The car is inside, its level's reader signalled. */
  function DrivenIn(s: State, p: Plate, stay: nat): State
    requires Shape(s)
  {
    var r := VisitRide(s, p, stay);
    Trigger(OnRecord(s, p), r.lvl, p).(inside := [r] + s.inside)
  }

  lemma DrivesIn(s: State, table: set<Plate>, p: Plate, e: nat, stay: nat)
    requires Ready(s, table, p, e) && 100 <= stay < 10000
    ensures Reachable(PutEnt(DrivenIn(s, p, stay), e, Served(s, p, e, SWait, MWait, C)), table)
  {
    PassesGate(s, table, p, e, stay);
    var b, r, m := DrivenIn(s, p, stay), VisitRide(s, p, stay), MAwaitOpen(VisitStub(s, p));
    var a, a1 := Served(s, p, e, STimed(r), m, O), Served(s, p, e, STriggered(r), m, O);
    var a2 := Served(s, p, e, SLower, m, O);
    Extend(PutEnt(OnRecord(s, p), e, a), table, SimEntrMoves(e, stay));
    assert s.ents[e := a][e := a1] == s.ents[e := a1];
    Extend(PutEnt(Trigger(OnRecord(s, p), r.lvl, p), e, a1), table, SimEntrMoves(e, stay));
    assert s.ents[e := a1][e := a2] == s.ents[e := a2];
    MgrEntrMove(b, table, e, a2);
    var a3 := MgrEntrLocal(b, table, a2);
    SimEntrMove(b, table, e, a3, stay);
    var a4 := SimEntrLocal(a3, b.simClock, stay);
    MgrEntrMove(b, table, e, a4);
    assert MgrEntrLocal(b, table, a4) == Served(s, p, e, SWait, MWait, C);
  }

  // ----- leaving -----

  /** The newest car inside, due to leave, heads both programs' lists, and exit `x` is idle. */
  ghost predicate Due(s: State, table: set<Plate>, x: nat) {
    && Shape(s) && x < EXITS && Reachable(s, table)
    && s.insideThread.IWait? && ExtIdle(s.exts[x])
    && s.inside != [] && s.simCars != [] && s.carList != []
    && var r := s.inside[0];
      && r.leave <= s.simClock && s.simCars[0] == r.car
      && s.carList[0].stub.plate == r.car.plate && s.carList[0].level == r.lvl
  }

  /** Its level's reader has been signalled again. */
  function Leaving(s: State): State
    requires Shape(s) && s.inside != []
  {
    Trigger(s, s.inside[0].lvl, s.inside[0].car.plate).(inside := s.inside[1..])
  }

  lemma TurnsToLeave(s: State, table: set<Plate>, x: nat)
    requires Due(s, table, x)
    ensures Reachable(s.(inside := s.inside[1..], insideThread := ILeaving(s.inside[0])), table)
  {
    Extend(s, table, InsideMoves(x));
    assert Do(s, table, InsideMoves(x)) == s.(inside := s.inside[1..], insideThread := ILeaving(s.inside[0]));
  }

  lemma QueuesToLeave(s: State, table: set<Plate>, x: nat)
    requires Due(s, table, x)
    ensures Reachable(PutExt(Leaving(s), x, s.exts[x].(queue := [s.inside[0]])), table)
  {
    var r := s.inside[0];
    TurnsToLeave(s, table, x);
    var s1 := s.(inside := s.inside[1..], insideThread := ILeaving(r));
    Extend(s1, table, InsideMoves(x));
    var s2 := Leaving(s).(insideThread := ITriggered(r));
    assert Do(s1, table, InsideMoves(x)) == s2;
    Extend(s2, table, InsideMoves(x));
    assert s.exts[x].queue + [r] == [r];
  }

  /** Exit `x` with its plate reader spent. */
  function Serving(s: State, x: nat, sim: SimExit, mgr: MgrExit, gate: Status): Exit
    requires x < |s.exts| && s.inside != []
  {
    s.exts[x].(plate := s.inside[0].car.plate, sim := sim, mgr := mgr, gate := gate)
  }

  function CountedOut(s: State): State
    requires Shape(s) && s.inside != []
  {
    Leaving(s).(counters := CountOut(s.counters, s.inside[0].lvl))
  }

  lemma IsFound(s: State, table: set<Plate>, x: nat)
    requires Due(s, table, x)
    ensures Reachable(PutExt(CountedOut(s), x, Serving(s, x, XShown(s.inside[0]), NFound(s.carList[0]), C)), table)
  {
    QueuesToLeave(s, table, x);
    var b, a := Leaving(s), s.exts[x].(queue := [s.inside[0]]);
    SimExitMove(b, table, x, a);
    var a1 := SimExitLocal(a);
    SimExitMove(b, table, x, a1);
    var a2 := SimExitLocal(a1);
    Extend(PutExt(b, x, a2), table, MgrExitMoves(x));
    assert Lookup(s, a2.plate) == 0;
    var a3 := Serving(s, x, XShown(s.inside[0]), NFound(s.carList[0]), C);
    assert MgrExitLocal(PutExt(b, x, a2), a2) == a3;
    assert s.exts[x := a2][x := a3] == s.exts[x := a3];
  }

  lemma Destroyed(s: State, table: set<Plate>, x: nat)
    requires Due(s, table, x)
    ensures Reachable(PutExt(CountedOut(s).(simCars := s.simCars[1..]), x,
                             Serving(s, x, XLower, NAwaitOpen(s.carList[0]), O)), table)
  {
    IsFound(s, table, x);
    var b, v := CountedOut(s), s.carList[0];
    var a := Serving(s, x, XShown(s.inside[0]), NFound(v), C);
    ReachableParts(b, table, x, a);
    MgrExitMove(b, table, x, a);
    var a1 := MgrExitLocal(b, a);
    SimExitMove(b, table, x, a1);
    var a2 := SimExitLocal(a1);
    Extend(PutExt(b, x, a2), table, SimExitMoves(x));
    var a3 := Serving(s, x, XLower, NAwaitOpen(v), O);
    assert s.exts[x := a2][x := a3] == s.exts[x := a3];
  }

  lemma Closed(s: State, table: set<Plate>, x: nat)
    requires Due(s, table, x)
    ensures Reachable(PutExt(CountedOut(s).(simCars := s.simCars[1..]), x,
                             Serving(s, x, XWait, NBill(s.carList[0]), C)), table)
  {
    Destroyed(s, table, x);
    var b, v := CountedOut(s).(simCars := s.simCars[1..]), s.carList[0];
    var a := Serving(s, x, XLower, NAwaitOpen(v), O);
    ReachableParts(b, table, x, a);
    MgrExitMove(b, table, x, a);
    var a1 := MgrExitLocal(b, a);
    SimExitMove(b, table, x, a1);
    var a2 := SimExitLocal(a1);
    MgrExitMove(b, table, x, a2);
    assert MgrExitLocal(b, a2) == Serving(s, x, XWait, NBill(v), C);
  }

  function Paid(s: State): State
    requires Shape(s) && s.inside != [] && s.simCars != [] && s.carList != []
  {
    CountedOut(s).(simCars := s.simCars[1..], charges := s.charges + [Charge(s.carList[0].stub, s.clock)])
  }

  lemma Pays(s: State, table: set<Plate>, x: nat)
    requires Due(s, table, x)
    ensures Reachable(PutExt(Paid(s), x, Serving(s, x, XWait, NDelete(s.carList[0]), C)), table)
  {
    Closed(s, table, x);
    var b := CountedOut(s).(simCars := s.simCars[1..]);
    var a, a1 := Serving(s, x, XWait, NBill(s.carList[0]), C), Serving(s, x, XWait, NDelete(s.carList[0]), C);
    ReachableParts(b, table, x, a);
    Extend(PutExt(b, x, a), table, MgrExitMoves(x));
    assert s.exts[x := a][x := a1] == s.exts[x := a1];
  }

  /** The car has left and been charged; its record is gone. */
  function Left(s: State): State
    requires Shape(s) && s.inside != [] && s.simCars != [] && s.carList != []
  {
    Paid(s).(carList := s.carList[1..])
  }

  lemma DrivesOut(s: State, table: set<Plate>, x: nat)
    requires Due(s, table, x)
    ensures Reachable(PutExt(Left(s), x, Serving(s, x, XWait, NWait, C)), table)
  {
    Pays(s, table, x);
    var a, a1 := Serving(s, x, XWait, NDelete(s.carList[0]), C), Serving(s, x, XWait, NWait, C);
    ReachableParts(Paid(s), table, x, a);
    Extend(PutExt(Paid(s), x, a), table, MgrExitMoves(x));
    assert Lookup(s, a.plate) == 0;
    assert s.exts[x := a][x := a1] == s.exts[x := a1];
  }

  // ----- the round trip -----

  /** After a whole visit of plate `p`: the lists are as before, one stay has been entered and
      charged, and the level's reader still holds the plate it was shown twice. */
  function Visited(s: State, p: Plate, e: nat, x: nat, stay: nat): State
    requires Shape(s) && e < ENTRANCES && x < EXITS
  {
    var l := NextLevel(s.counters);
    s.(nextId := s.nextId + 1,
       ents := s.ents[e := s.ents[e].(plate := p, display := Show(l))],
       exts := s.exts[x := s.exts[x].(plate := p)],
       readers := s.readers[l := Reader(p, true)],
       counters := CountOut(CountIn(s.counters), l),
       clock := s.clock + stay,
       simClock := s.simClock + stay,
       charges := s.charges + [Charge(VisitStub(s, p), s.clock + stay)],
       entered := s.entered + [VisitStub(s, p)])
  }

  /** The visit up to the moment the car may leave, both clocks advanced by its stay. */
  function Stayed(s: State, p: Plate, e: nat, stay: nat): State
    requires Shape(s) && e < ENTRANCES
  {
    PutEnt(DrivenIn(s, p, stay), e, Served(s, p, e, SWait, MWait, C))
      .(clock := s.clock + stay, simClock := s.simClock + stay)
  }

  lemma StaysOver(s: State, table: set<Plate>, p: Plate, e: nat, stay: nat)
    requires Ready(s, table, p, e) && 100 <= stay < 10000
    ensures Reachable(Stayed(s, p, e, stay), table)
  {
    DrivesIn(s, table, p, e, stay);
    var s1 := PutEnt(DrivenIn(s, p, stay), e, Served(s, p, e, SWait, MWait, C));
    Extend(s1, table, Tick(stay));
    Extend(s1.(clock := s.clock + stay), table, SimTick(stay));
  }

  /** From any reachable state in which a permitted car finds an idle entrance and exit, a run
      takes it through a whole visit and leaves both programs' lists as they were. */
  lemma VisitRoundTrip(s: State, table: set<Plate>, p: Plate, e: nat, x: nat, stay: nat)
    requires Ready(s, table, p, e) && x < EXITS && ExtIdle(s.exts[x]) && s.insideThread.IWait? && 100 <= stay < 10000
    ensures Reachable(Visited(s, p, e, x, stay), table)
    ensures Visited(s, p, e, x, stay).counters.m == s.counters.m
    ensures Visited(s, p, e, x, stay).counters == s.counters <==> s.counters.t[NextLevel(s.counters)] < LEVEL_CAPACITY
  {
    StaysOver(s, table, p, e, stay);
    var s2 := Stayed(s, p, e, stay);
    DrivesOut(s2, table, x);
    AllUndone(s, p, e, x, stay);
    ReachableRange(s, table);
    CountersReturn(s.counters);
  }

  lemma AllUndone(s: State, p: Plate, e: nat, x: nat, stay: nat)
    requires Shape(s) && e < ENTRANCES && EntIdle(s.ents[e]) && x < EXITS && ExtIdle(s.exts[x])
    ensures var s2 := Stayed(s, p, e, stay);
      PutExt(Left(s2), x, Serving(s2, x, XWait, NWait, C)) == Visited(s, p, e, x, stay)
  {
    var s2 := Stayed(s, p, e, stay);
    var l := NextLevel(s.counters);
    assert s2.inside[1..] == s.inside && s2.simCars[1..] == s.simCars && s2.carList[1..] == s.carList;
    assert s.readers[l := Reader(p, true)][l := Reader(p, true)] == s.readers[l := Reader(p, true)];
  }

  /** Counting a car in and out again. */
  lemma CountersReturn(c: Counters)
    requires c.Valid() && InRange(c)
    ensures CountOut(CountIn(c), NextLevel(c)).m == c.m
    ensures CountOut(CountIn(c), NextLevel(c)) == c <==> c.t[NextLevel(c)] < LEVEL_CAPACITY
  {
  }

  // ----- a late level reading -----

  const SHORT_STAY := 100

  /** Nobody is in the car park, and level 1's reader still has its signal for plate `p`. */
  ghost predicate Lingering(s: State, table: set<Plate>, p: Plate) {
    && Shape(s) && Reachable(s, table)
    && s.creator.CIdle? && s.simCars == [] && s.carList == [] && s.counters == EMPTY
    && EntIdle(s.ents[0]) && EntIdle(s.ents[1]) && s.readers[1] == Reader(p, true)
  }

  lemma FirstVisit(table: set<Plate>, p: Plate) returns (s: State)
    requires p in table
    ensures Lingering(s, table, p)
  {
    Start(table);
    VisitRoundTrip(Init(), table, p, 0, 0, SHORT_STAY);
    s := Visited(Init(), p, 0, 0, SHORT_STAY);
    assert NextLevel(EMPTY) == 1;
  }

  /** With `q` counted at the next entrance, `p` may come in again and is sent to another level. */
  lemma SecondVisit(s: State, table: set<Plate>, p: Plate, q: Plate) returns (s': State)
    requires Lingering(s, table, p) && p in table && q in table && p != q
    ensures Ready(s', table, p, 0) && NextLevel(s'.counters) == 2 && s'.readers[1] == Reader(p, true)
  {
    IsCounted(s, table, q, 1);
    s' := PutEnt(Counted(s, q), 1, Watching(s, q, 1, MCounted(q, 1)));
    assert Keys(s'.simCars, CarPlate) == [q];
  }

  /** With two permitted plates there is a run that puts a car on record at the wrong level. */
  lemma RecordedLevelCanBeWrong(table: set<Plate>, p: Plate, q: Plate)
    requires p in table && q in table && p != q
    ensures exists s :: Reachable(s, table) && !LevelsHold(s.carList)
  {
    var s0 := FirstVisit(table, p);
    var s := SecondVisit(s0, table, p, q);
    IsTold(s, table, p, 0);
    var s1 := PutEnt(Counted(s, p), 0, Told(s, p, 0));
    LateReadingCorrupts(s1, table, 0, 1);
    Extend(s1, table, MgrEntrMoves(0));
    var s2 := Do(s1, table, MgrEntrMoves(0));
    Extend(s2, table, ReaderMoves(1));
  }
}
