/** The manager and the simulator running together (manager.c lines 99-272, simulator.c lines
    257-272, 467-500, 532-862). Every thread has a program counter; one step is one lock-protected
    section, or one access to the car list, which the manager makes outside its lock. A wait is a
    step that is not enabled until its condition holds; a signal is remembered until it is read. */
module Protocol {
  import opened Parking
  import opened Gates
  import opened Levels
  import opened LinkedList

  type Lvl = n: nat | n < LEVELS

  /** car_t: an allocation and its plate. */
  datatype Car = Car(id: nat, plate: Plate)

  /** A car past the screen, with the level and leaving time stored in it. */
  datatype Ride = Ride(car: Car, lvl: Lvl, leave: nat)

  /** What the manager fixes about a car when it enters: its plate, the level it was sent to, and
      the clock at its arrival. */
  datatype Stub = Stub(plate: Plate, level: Lvl, arrived: nat)

  /** vehicle_t: the stub and the level currently on record, which level readings overwrite. */
  datatype Vehicle = Vehicle(stub: Stub, level: Lvl)

  /** A line of the revenue file. */
  datatype Charge = Charge(stub: Stub, left: nat)

  // ----- program counters -----

  datatype Creator =
    | CIdle
    | CChecked(car: Car)
    | CListed(car: Car)

  /** thf_entr. */
  datatype SimEntr =
    | SWait
    | SPopped(car: Car)
    | SShown(car: Car)
    | SRejected(car: Car)
    | SRaise(ride: Ride)
    | SOpened(ride: Ride)
    | STimed(ride: Ride)
    | STriggered(ride: Ride)
    | SLower

  /** entrance_lpr with the call of m_sim_gates in it. */
  datatype MgrEntr =
    | MWait
    | MRead(plate: Plate)
    | MAllowed(plate: Plate)
    | MDenied
    | MFull
    | MCounted(plate: Plate, level: Lvl)
    | MShown(plate: Plate, level: Lvl)
    | MTimed(stub: Stub)
    | MInserted(stub: Stub)
    | MAwaitOpen(stub: Stub)
    | MAwaitClosed(stub: Stub)

  /** thf_inside. */
  datatype Inside =
    | IWait
    | ILeaving(ride: Ride)
    | ITriggered(ride: Ride)

  /** thf_exit. */
  datatype SimExit =
    | XWait
    | XPopped(ride: Ride)
    | XShown(ride: Ride)
    | XOpened(ride: Ride)
    | XLower

  /** exit_lpr with the call of m_sim_gates in it. NCrashed is the null lookup at line 257. */
  datatype MgrExit =
    | NWait
    | NFound(v: Vehicle)
    | NAwaitOpen(v: Vehicle)
    | NAwaitClosed(v: Vehicle)
    | NBill(v: Vehicle)
    | NDelete(v: Vehicle)
    | NCrashed

  // ----- state -----

  datatype Entrance = Entrance(queue: seq<Car>, sim: SimEntr, mgr: MgrEntr, gate: Status,
                               plate: Plate, lprSignal: bool, display: char, screenSignal: bool)

  datatype Exit = Exit(queue: seq<Ride>, sim: SimExit, mgr: MgrExit, gate: Status,
                       plate: Plate, lprSignal: bool)

  datatype Reader = Reader(plate: Plate, signal: bool)

  /** `clock` is the manager's time, `simClock` the simulator's. `entered` is history: every stub ever
      put on record. */
  datatype State = State(simCars: seq<Car>, nextId: nat, creator: Creator,
                         ents: seq<Entrance>, inside: seq<Ride>, insideThread: Inside,
                         exts: seq<Exit>, readers: seq<Reader>,
                         counters: Counters, carList: seq<Vehicle>, clock: nat, simClock: nat,
                         charges: seq<Charge>, entered: seq<Stub>)

  const NO_PLATE: Plate := [0, 0, 0, 0, 0, 0]

  function Init(): State {
    State([], 0, CIdle,
          seq(ENTRANCES, _ => Entrance([], SWait, MWait, C, NO_PLATE, false, '\0', false)), [], IWait,
          seq(EXITS, _ => Exit([], XWait, NWait, C, NO_PLATE, false)),
          seq(LEVELS, _ => Reader(NO_PLATE, false)),
          EMPTY, [], 0, 0, [], [])
  }

  predicate Shape(s: State) {
    |s.ents| == ENTRANCES && |s.exts| == EXITS && |s.readers| == LEVELS && s.counters.Valid()
  }

  function CarPlate(c: Car): Plate { c.plate }
  function RideCar(r: Ride): Car { r.car }
  function RidePlate(r: Ride): Plate { r.car.plate }
  function VehiclePlate(v: Vehicle): Plate { v.stub.plate }

  // ----- the screen -----

  /** What the manager displays for a level: the digit after the level's own. */
  function Show(l: Lvl): char { '1' + l as char }

  /** What the simulator makes of the screen. */
  function Decode(display: char): int { display as int - 48 - 1 }

  predicate Accepts(display: char) { 0 <= Decode(display) <= ENTRANCES - 1 }

  /** 'X' and 'F' never decode to a level, and a displayed level decodes to itself. */
  lemma ScreenRoundTrip(l: Lvl)
    ensures Accepts(Show(l)) && Decode(Show(l)) == l
    ensures !Accepts('X') && !Accepts('F')
  {
  }

  // ----- steps -----

  datatype Action =
    | CreatorMoves(plate: Plate, e: nat)
    | SimEntrMoves(e: nat, stay: nat)
    | MgrEntrMoves(e: nat)
    | InsideMoves(x: nat)
    | SimExitMoves(x: nat)
    | MgrExitMoves(x: nat)
    | ReaderMoves(l: nat)
    | Tick(ms: nat)
    | SimTick(ms: nat)

  function PutEnt(s: State, e: nat, a: Entrance): State
    requires e < |s.ents|
  {
    s.(ents := s.ents[e := a])
  }

  function PutExt(s: State, x: nat, a: Exit): State
    requires x < |s.exts|
  {
    s.(exts := s.exts[x := a])
  }

  /** trig_LPR on a level. */
  function Trigger(s: State, l: Lvl, plate: Plate): State
    requires Shape(s)
  {
    s.(readers := s.readers[l := Reader(plate, true)])
  }

  predicate CreatorEnabled(s: State, plate: Plate, e: nat) {
    && e < |s.ents|
    && (s.creator.CIdle? ==> plate !in Keys(s.simCars, CarPlate))
  }

  /** thf_creator: draw a plate no existing car has, list the car, queue it at an entrance. */
  function CreatorStep(s: State, plate: Plate, e: nat): (r: State)
    requires Shape(s) && CreatorEnabled(s, plate, e)
    ensures Shape(r)
  {
    match s.creator
    case CIdle => s.(creator := CChecked(Car(s.nextId, plate)), nextId := s.nextId + 1)
    case CChecked(c) => s.(creator := CListed(c), simCars := [c] + s.simCars)
    case CListed(c) => PutEnt(s, e, s.ents[e].(queue := s.ents[e].queue + [c])).(creator := CIdle)
  }

  predicate SimEntrEnabled(a: Entrance, stay: nat) {
    match a.sim
    case SWait => a.queue != []
    case SShown(_) => a.screenSignal
    case SRaise(_) => !SimWaits(a.gate)
    case SOpened(_) => 100 <= stay < 10000
    case SLower => !SimWaits(a.gate)
    case _ => true
  }

  /** The entrance's own part of a thf_entr step. */
  function SimEntrLocal(a: Entrance, clock: nat, stay: nat): Entrance
    requires SimEntrEnabled(a, stay)
  {
    match a.sim
    case SWait => a.(queue := a.queue[1..], sim := SPopped(a.queue[0]))
    case SPopped(c) => a.(plate := c.plate, lprSignal := true, sim := SShown(c))
    case SShown(c) =>
      a.(screenSignal := false,
         sim := if Accepts(a.display) then SRaise(Ride(c, Decode(a.display), 0)) else SRejected(c))
    case SRejected(c) => a.(sim := SWait)
    case SRaise(r) => a.(gate := SimMove(a.gate), sim := if SimMove(a.gate).O? then SOpened(r) else SRaise(r))
    case SOpened(r) => a.(sim := STimed(r.(leave := (clock + stay) % 65536)))
    case STimed(r) => a.(sim := STriggered(r))
    case STriggered(r) => a.(sim := SLower)
    case SLower => a.(gate := SimMove(a.gate), sim := if SimMove(a.gate).C? then SWait else SLower)
  }

  function SimEntrStep(s: State, e: nat, stay: nat): (r: State)
    requires Shape(s) && e < ENTRANCES && SimEntrEnabled(s.ents[e], stay)
    ensures Shape(r)
  {
    var s' := PutEnt(s, e, SimEntrLocal(s.ents[e], s.simClock, stay));
    match s.ents[e].sim
    case SRejected(c) => s'.(simCars := RemoveFirst(s.simCars, CarPlate, c.plate))
    case STimed(r) => Trigger(s', r.lvl, r.car.plate)
    case STriggered(r) => s'.(inside := [r] + s.inside)
    case _ => s'
  }

  predicate MgrEntrEnabled(a: Entrance) {
    match a.mgr
    case MWait => a.lprSignal
    case MAwaitOpen(_) => a.gate.O?
    case MAwaitClosed(_) => a.gate.C?
    case _ => true
  }

  predicate Admits(s: State, table: set<Plate>, p: Plate) {
    p in table && p !in Keys(s.carList, VehiclePlate)
  }

  predicate HasRoom(s: State) { s.counters.m < TOTAL_CAPACITY }

  /** The entrance's own part of an entrance_lpr step. */
  function MgrEntrLocal(s: State, table: set<Plate>, a: Entrance): Entrance
    requires Shape(s) && MgrEntrEnabled(a)
  {
    match a.mgr
    case MWait => a.(lprSignal := false, mgr := MRead(a.plate))
    case MRead(p) => a.(mgr := if Admits(s, table, p) then MAllowed(p) else MDenied)
    case MAllowed(p) => a.(mgr := if HasRoom(s) then MCounted(p, NextLevel(s.counters)) else MFull)
    case MDenied => a.(display := 'X', screenSignal := true, mgr := MWait)
    case MFull => a.(display := 'F', screenSignal := true, mgr := MWait)
    case MCounted(p, l) => a.(display := Show(l), screenSignal := true, mgr := MShown(p, l))
    case MShown(p, l) => a.(mgr := MTimed(Stub(p, l, s.clock)))
    case MTimed(st) => a.(mgr := MInserted(st))
    case MInserted(st) => if a.gate.C? then a.(gate := R, mgr := MAwaitOpen(st)) else a.(mgr := MWait)
    case MAwaitOpen(st) => a.(gate := L, mgr := MAwaitClosed(st))
    case MAwaitClosed(st) => a.(mgr := MWait)
  }

  function MgrEntrStep(s: State, table: set<Plate>, e: nat): (r: State)
    requires Shape(s) && e < ENTRANCES && MgrEntrEnabled(s.ents[e])
    ensures Shape(r)
  {
    var a := s.ents[e];
    var s' := PutEnt(s, e, MgrEntrLocal(s, table, a));
    match a.mgr
    case MAllowed(p) => if HasRoom(s) then s'.(counters := CountIn(s.counters)) else s'
    case MTimed(st) => s'.(carList := [Vehicle(st, st.level)] + s.carList, entered := s.entered + [st])
    case _ => s'
  }

  /** comp_times on the inside list. */
  function FirstDue(rides: seq<Ride>, now: nat): (j: nat)
    ensures j <= |rides|
    ensures j < |rides| ==> rides[j].leave <= now
    ensures forall i :: 0 <= i < j ==> rides[i].leave > now
  {
    if rides == [] || rides[0].leave <= now then 0 else 1 + FirstDue(rides[1..], now)
  }

  predicate InsideEnabled(s: State, x: nat) {
    && x < |s.exts|
    && (s.insideThread.IWait? ==> FirstDue(s.inside, s.simClock) < |s.inside|)
  }

  function InsideStep(s: State, x: nat): (r: State)
    requires Shape(s) && InsideEnabled(s, x)
    ensures Shape(r)
  {
    match s.insideThread
    case IWait =>
      var r := s.inside[FirstDue(s.inside, s.simClock)];
      s.(inside := RemoveFirst(s.inside, RidePlate, RidePlate(r)), insideThread := ILeaving(r))
    case ILeaving(r) => Trigger(s, r.lvl, r.car.plate).(insideThread := ITriggered(r))
    case ITriggered(r) => PutExt(s, x, s.exts[x].(queue := s.exts[x].queue + [r])).(insideThread := IWait)
  }

  /** The exit's plate reader is locked by exit_lpr from its wake-up to the end of its round. */
  predicate SimExitEnabled(a: Exit) {
    match a.sim
    case XWait => a.queue != []
    case XPopped(_) => a.mgr.NWait?
    case XShown(_) => !SimWaits(a.gate)
    case XLower => !SimWaits(a.gate)
    case _ => true
  }

  function SimExitLocal(a: Exit): Exit
    requires SimExitEnabled(a)
  {
    match a.sim
    case XWait => a.(queue := a.queue[1..], sim := XPopped(a.queue[0]))
    case XPopped(r) => a.(plate := r.car.plate, lprSignal := true, sim := XShown(r))
    case XShown(r) => a.(gate := SimMove(a.gate), sim := if SimMove(a.gate).O? then XOpened(r) else XShown(r))
    case XOpened(r) => a.(sim := XLower)
    case XLower => a.(gate := SimMove(a.gate), sim := if SimMove(a.gate).C? then XWait else XLower)
  }

  function SimExitStep(s: State, x: nat): (r: State)
    requires Shape(s) && x < EXITS && SimExitEnabled(s.exts[x])
    ensures Shape(r)
  {
    var s' := PutExt(s, x, SimExitLocal(s.exts[x]));
    match s.exts[x].sim
    case XOpened(r) => s'.(simCars := RemoveFirst(s.simCars, CarPlate, r.car.plate))
    case _ => s'
  }

  predicate MgrExitEnabled(a: Exit) {
    match a.mgr
    case NWait => a.lprSignal
    case NAwaitOpen(_) => a.gate.O?
    case NAwaitClosed(_) => a.gate.C?
    case NCrashed => false
    case _ => true
  }

  function Lookup(s: State, p: Plate): (j: nat)
    ensures j <= |s.carList|
    ensures j < |s.carList| ==> s.carList[j].stub.plate == p
  {
    IndexOf(s.carList, VehiclePlate, p)
  }

  function MgrExitLocal(s: State, a: Exit): Exit
    requires MgrExitEnabled(a)
  {
    match a.mgr
    case NWait =>
      var j := Lookup(s, a.plate);
      a.(lprSignal := false, mgr := if j < |s.carList| then NFound(s.carList[j]) else NCrashed)
    case NFound(v) => if a.gate.C? then a.(gate := R, mgr := NAwaitOpen(v)) else a.(mgr := NBill(v))
    case NAwaitOpen(v) => a.(gate := L, mgr := NAwaitClosed(v))
    case NAwaitClosed(v) => a.(mgr := NBill(v))
    case NBill(v) => a.(mgr := NDelete(v))
    case NDelete(v) => a.(mgr := NWait)
  }

  function MgrExitStep(s: State, x: nat): State
    requires Shape(s) && x < EXITS && MgrExitEnabled(s.exts[x])
  {
    var a := s.exts[x];
    var s' := PutExt(s, x, MgrExitLocal(s, a));
    match a.mgr
    case NWait =>
      var j := Lookup(s, a.plate);
      if j < |s.carList| then s'.(counters := CountOut(s.counters, s.carList[j].level))
      else s'.(counters := s.counters.(m := s.counters.m - 1))
    case NBill(v) => s'.(charges := s.charges + [Charge(v.stub, s.clock)])
    case NDelete(v) => s'.(carList := RemoveFirst(s.carList, VehiclePlate, a.plate))
    case _ => s'
  }

  /** level_lpr: the car shown is put on record at this level. */
  function ReaderStep(s: State, l: nat): (r: State)
    requires Shape(s) && l < LEVELS
    ensures Shape(r)
  {
    var j := Lookup(s, s.readers[l].plate);
    s.(readers := s.readers[l := s.readers[l].(signal := false)],
       carList := if j < |s.carList| then s.carList[j := s.carList[j].(level := l)] else s.carList)
  }

  predicate Enabled(s: State, a: Action)
    requires Shape(s)
  {
    match a
    case CreatorMoves(p, e) => CreatorEnabled(s, p, e)
    case SimEntrMoves(e, stay) => e < ENTRANCES && SimEntrEnabled(s.ents[e], stay)
    case MgrEntrMoves(e) => e < ENTRANCES && MgrEntrEnabled(s.ents[e])
    case InsideMoves(x) => InsideEnabled(s, x)
    case SimExitMoves(x) => x < EXITS && SimExitEnabled(s.exts[x])
    case MgrExitMoves(x) => x < EXITS && MgrExitEnabled(s.exts[x])
    case ReaderMoves(l) => l < LEVELS && s.readers[l].signal
    case Tick(_) => true
    case SimTick(_) => true
  }

  function Do(s: State, table: set<Plate>, a: Action): State
    requires Shape(s) && Enabled(s, a)
  {
    match a
    case CreatorMoves(p, e) => CreatorStep(s, p, e)
    case SimEntrMoves(e, stay) => SimEntrStep(s, e, stay)
    case MgrEntrMoves(e) => MgrEntrStep(s, table, e)
    case InsideMoves(x) => InsideStep(s, x)
    case SimExitMoves(x) => SimExitStep(s, x)
    case MgrExitMoves(x) => MgrExitStep(s, x)
    case ReaderMoves(l) => ReaderStep(s, l)
    case Tick(ms) => s.(clock := s.clock + ms)
    case SimTick(ms) => s.(simClock := s.simClock + ms)
  }
}
