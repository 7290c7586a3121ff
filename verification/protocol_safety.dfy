/** The protocol's guarantees, over every run of all threads. */
module ProtocolSafety {
  import opened Parking
  import opened Gates
  import opened Levels
  import opened LinkedList
  import opened Counting
  import opened Protocol
  import opened ProtocolLocal
  import opened ProtocolCars
  import opened ProtocolRecords
  import opened ProtocolCounts
  import opened ProtocolBills
  import opened ProtocolLevels
  import opened Wrappers

  /** The plate an entrance's manager has let in, from the check to the end of the gate's cycle. */
  predicate LetIn(m: MgrEntr, p: Plate) {
    match m
    case MInserted(st) => p == st.plate
    case MAwaitOpen(st) => p == st.plate
    case MAwaitClosed(st) => p == st.plate
    case _ => Approved(m, p)
  }

  ghost predicate OnlyPermitted(s: State, table: set<Plate>) {
    forall e, p :: 0 <= e < |s.ents| && LetIn(s.ents[e].mgr, p) ==> p in table
  }

  ghost predicate Inv(s: State, table: set<Plate>) {
    Shape(s) && LocalOK(s) && CarsOK(s) && RecordsOK(s) && CountsOK(s) && BillsOK(s) && OnlyPermitted(s, table)
  }

  lemma MgrEntrKeepsPermitted(s: State, table: set<Plate>, e: nat)
    requires Shape(s) && OnlyPermitted(s, table) && e < ENTRANCES && MgrEntrEnabled(s.ents[e])
    ensures OnlyPermitted(MgrEntrStep(s, table, e), table)
  {
    var s' := MgrEntrStep(s, table, e);
    forall f, p | 0 <= f < |s'.ents| && LetIn(s'.ents[f].mgr, p) ensures p in table {
      if f == e {
        assert s.ents[e].mgr.MRead? || LetIn(s.ents[e].mgr, p);
      } else {
        assert s'.ents[f] == s.ents[f];
      }
    }
  }

  lemma DoKeepsPermitted(s: State, table: set<Plate>, act: Action)
    requires Shape(s) && OnlyPermitted(s, table) && Enabled(s, act)
    ensures OnlyPermitted(Do(s, table, act), table)
  {
    if act.MgrEntrMoves? {
      MgrEntrKeepsPermitted(s, table, act.e);
    } else {
      OthersLeaveManagers(s, table, act);
    }
  }

  lemma OthersLeaveManagers(s: State, table: set<Plate>, act: Action)
    requires Shape(s) && Enabled(s, act) && !act.MgrEntrMoves?
    ensures var s' := Do(s, table, act);
      |s'.ents| == |s.ents| && forall f :: 0 <= f < |s.ents| ==> s'.ents[f].mgr == s.ents[f].mgr
  {
  }

  lemma InvStep(s: State, table: set<Plate>, act: Action)
    requires Inv(s, table) && Enabled(s, act)
    ensures Inv(Do(s, table, act), table)
  {
    DoKeepsShape(s, table, act);
    DoKeepsLocal(s, table, act);
    DoKeepsCars(s, table, act);
    DoKeepsRecords(s, table, act);
    DoKeepsCounts(s, table, act);
    DoKeepsBills(s, table, act);
    DoKeepsPermitted(s, table, act);
  }

  lemma InvInit(table: set<Plate>)
    ensures Inv(Init(), table)
  {
    InitCars();
    InitRecords();
    InitCounts();
    InitBills();
  }

  // ----- runs -----

  /** A run: any interleaving of enabled steps from the initial state. */
  ghost predicate IsRun(states: seq<State>, acts: seq<Action>, table: set<Plate>) {
    && |states| == |acts| + 1 && states[0] == Init()
    && forall i :: 0 <= i < |acts| ==> Follows(states[i], states[i + 1], acts[i], table)
  }

  ghost predicate Follows(s: State, s': State, act: Action, table: set<Plate>) {
    Shape(s) && Enabled(s, act) && s' == Do(s, table, act)
  }

  /** Every state of every run satisfies the invariant. */
  lemma {:induction false} RunInv(states: seq<State>, acts: seq<Action>, table: set<Plate>, i: nat)
    requires IsRun(states, acts, table) && i < |states|
    ensures Inv(states[i], table)
  {
    if i == 0 {
      InvInit(table);
    } else {
      RunInv(states, acts, table, i - 1);
      assert Follows(states[i - 1], states[i - 1 + 1], acts[i - 1], table);
      InvStep(states[i - 1], table, acts[i - 1]);
    }
  }

  // ----- what it means -----

  /** Five entrances, five exits and five levels, throughout every run. */
  lemma FiveOfEach(states: seq<State>, acts: seq<Action>, table: set<Plate>, i: nat)
    requires IsRun(states, acts, table) && i < |states|
    ensures |states[i].ents| == |states[i].exts| == |states[i].readers| == |states[i].counters.t| == 5
  {
    RunInv(states, acts, table, i);
  }

  /** Conservation of cars: plates of existing cars are pairwise distinct, and the list holds
      exactly the cars in the queues, the inside list and the threads' hands, each once. */
  lemma CarsAreConserved(states: seq<State>, acts: seq<Action>, table: set<Plate>, i: nat)
    requires IsRun(states, acts, table) && i < |states|
    ensures var s := states[i];
      && Distinct(Keys(s.simCars, CarPlate))
      && forall c :: Count(s.simCars, Itself, c) == Places(s, c) <= 1
  {
    RunInv(states, acts, table, i);
    var s := states[i];
    CountDistinct(s.simCars, CarPlate);
    forall c ensures Places(s, c) <= 1 { OnePlace(s, c); }
  }

  /** A car inside the car park: in the inside list or the inside thread's hands, queued at an exit
      or in an exit's hands. */
  predicate Parked(s: State, r: Ride) {
    || r in s.inside
    || (!s.insideThread.IWait? && r == s.insideThread.ride)
    || (exists x :: 0 <= x < |s.exts| && (r in s.exts[x].queue || Handed(s.exts[x], r)))
  }

  predicate Handed(a: Exit, r: Ride) {
    match a.sim
    case XPopped(q) => q == r
    case XShown(q) => q == r
    case XOpened(q) => q == r
    case _ => false
  }

  lemma {:induction false} InCounts(rides: seq<Ride>, r: Ride)
    requires r in rides
    ensures Count(rides, RideSeat, RideSeat(r)) >= 1
  {
    var j :| 0 <= j < |rides| && rides[j] == r;
    CountHas(rides, RideSeat, j);
  }

  lemma ParkedHasSeat(s: State, r: Ride)
    requires LocalOK(s) && Parked(s, r)
    ensures Seats(s, RideSeat(r)) >= 1
  {
    var z := RideSeat(r);
    if r in s.inside {
      InCounts(s.inside, r);
    } else if exists x :: 0 <= x < |s.exts| && (r in s.exts[x].queue || Handed(s.exts[x], r)) {
      var x :| 0 <= x < |s.exts| && (r in s.exts[x].queue || Handed(s.exts[x], r));
      if r in s.exts[x].queue { InCounts(s.exts[x].queue, r); }
      assert ExtOK(s.exts[x]) && ExtSeat(s.exts[x], z) >= 1;
      TotalCovers(s.exts, ExtSeat, x, z);
    }
  }

  /** A counted seat is on record once. */
  lemma SeatOnce(s: State, z: Seat)
    requires RecordsOK(s) && Seats(s, z) >= 1
    ensures Count(s.carList, VehiclePlate, z.plate) == 1
  {
    LookupFinds(s, z);
    CountHas(s.carList, VehiclePlate, Lookup(s, z.plate));
    assert Count(s.carList, VehiclePlate, z.plate) <= 1;
  }

  /** Every parked car is on record exactly once, under the level it was assigned, and a lookup of
      its plate returns that record; the manager never looks up a plate in vain. */
  lemma ParkedCarsAreOnRecord(states: seq<State>, acts: seq<Action>, table: set<Plate>, i: nat, r: Ride)
    requires IsRun(states, acts, table) && i < |states|
    ensures var s := states[i]; Parked(s, r) ==>
      && Count(s.carList, VehiclePlate, r.car.plate) == 1
      && var j := Lookup(s, r.car.plate); j < |s.carList| && s.carList[j].stub.level == r.lvl
    ensures forall x :: 0 <= x < |states[i].exts| ==> !states[i].exts[x].mgr.NCrashed?
  {
    RunInv(states, acts, table, i);
    var s := states[i];
    if Parked(s, r) {
      ParkedHasSeat(s, r);
      LookupFinds(s, RideSeat(r));
      SeatOnce(s, RideSeat(r));
    }
    forall x | 0 <= x < |s.exts| ensures !s.exts[x].mgr.NCrashed? {
      assert ExtOK(s.exts[x]);
    }
  }

  /** The counter over every interleaving: cars listed, plus those counted but not yet inserted,
      less those uncounted but not yet deleted; never negative, never above capacity. */
  lemma CounterEquation(states: seq<State>, acts: seq<Action>, table: set<Plate>, i: nat)
    requires IsRun(states, acts, table) && i < |states|
    ensures var s := states[i];
      && s.counters.m == |s.carList| + Total(s.ents, Uninserted, ()) - Total(s.exts, Undeleted, ())
      && s.counters.m == Sum5(PerLevel(s))
      && 0 <= s.counters.m <= 50
  {
    RunInv(states, acts, table, i);
  }

  /** Admission safety: an entrance gate that is not closed is being passed by the one plate the
      manager let in, which is permitted; until the car has driven in, that plate is on record
      once, the simulator holds that very car, and what it reads off the screen is the level the
      manager chose. */
  lemma AdmissionIsSafe(states: seq<State>, acts: seq<Action>, table: set<Plate>, i: nat, e: nat)
    requires IsRun(states, acts, table) && i < |states| && e < |states[i].ents|
    requires !states[i].ents[e].gate.C?
    ensures var s := states[i]; var a := s.ents[e];
      && (a.mgr.MAwaitOpen? || a.mgr.MAwaitClosed?) && a.mgr.stub.plate in table
      && (a.sim.SShown? ==> a.sim.car.plate == a.mgr.stub.plate && Decode(a.display) == a.mgr.stub.level)
      && (a.sim.SRaise? || a.sim.SOpened? || a.sim.STimed? || a.sim.STriggered? ==>
           a.sim.ride.car.plate == a.mgr.stub.plate && a.sim.ride.lvl == a.mgr.stub.level)
      && (!a.sim.SLower? ==> Count(s.carList, VehiclePlate, a.mgr.stub.plate) == 1)
  {
    RunInv(states, acts, table, i);
    var s := states[i];
    var a := s.ents[e];
    assert EntOK(a);
    var st := a.mgr.stub;
    ScreenRoundTrip(st.level);
    assert LetIn(a.mgr, st.plate);
    if !a.sim.SLower? {
      var z := StubSeat(st);
      assert EntSeat(a, z) == 1;
      TotalCovers(s.ents, EntSeat, e, z);
      SeatOnce(s, z);
    }
  }

  /** From the check to the insertion the plate stays off the list and, the simulator keeping plates
      unique, no other entrance approves it. */
  lemma ApprovalStands(states: seq<State>, acts: seq<Action>, table: set<Plate>, i: nat, e: nat, p: Plate)
    requires IsRun(states, acts, table) && i < |states| && e < |states[i].ents|
    requires Approved(states[i].ents[e].mgr, p)
    ensures p in table && Count(states[i].carList, VehiclePlate, p) == 0
    ensures forall f :: 0 <= f < |states[i].ents| && f != e ==> !Approved(states[i].ents[f].mgr, p)
  {
    RunInv(states, acts, table, i);
    assert LetIn(states[i].ents[e].mgr, p);
    forall f | 0 <= f < |states[i].ents| && f != e ensures !Approved(states[i].ents[f].mgr, p) {
      ApprovedApart(states[i], e, f, p);
    }
  }

  /** Each stay is charged once: what was entered is still listed or has been charged, charges in
      progress counting as both, and every charge is the true stay plus 65536 ms per overflow of
      the 16-bit arrival. */
  lemma ChargedOnce(states: seq<State>, acts: seq<Action>, table: set<Plate>, i: nat)
    requires IsRun(states, acts, table) && i < |states|
    ensures var s := states[i];
      && (forall st :: Count(s.charges, ChargeStub, st) ==
           Count(s.entered, StubItself, st) - Count(s.carList, VehicleStub, st) + Total(s.exts, Charged, st))
      && (s.clock < TWO_TO_THE_64 ==> forall k :: 0 <= k < |s.charges| ==>
           BilledFor(s.charges[k]) ==
             (s.charges[k].left - s.charges[k].stub.arrived) + 65536 * (s.charges[k].stub.arrived / 65536))
  {
    RunInv(states, acts, table, i);
    var s := states[i];
    if s.clock < TWO_TO_THE_64 {
      forall k | 0 <= k < |s.charges| ensures BilledFor(s.charges[k]) ==
        (s.charges[k].left - s.charges[k].stub.arrived) + 65536 * (s.charges[k].stub.arrived / 65536)
      {
        ChargeIsStay(s, k);
      }
    }
  }


  // ----- levels -----

  /** No level reading in the run is ever so late that its plate is put on record again before it. */
  ghost predicate ReadersKeepUp(states: seq<State>, acts: seq<Action>)
    requires |states| == |acts| + 1
  {
    forall i :: 0 <= i < |acts| ==> KeepsUp(states[i], acts[i])
  }

  ghost predicate KeepsUp(s: State, act: Action) {
    Shape(s) && Enabled(s, act) ==> ReadersCaughtUp(s, act)
  }

  lemma InitLevels()
    ensures LevelsOK(Init())
  {
    InitCounts();
  }

  /** A sufficient condition, visible whenever a car is put on record: if the level readers keep up,
      the level on record is always the one assigned at the entrance, and each tracker is bounded by
      capacity and by the cars really counted on its level. */
  lemma {:induction false} LevelsAreRight(states: seq<State>, acts: seq<Action>, table: set<Plate>, i: nat)
    requires IsRun(states, acts, table) && i < |states| && ReadersKeepUp(states, acts)
    ensures LevelsOK(states[i])
  {
    if i == 0 {
      InitLevels();
    } else {
      LevelsAreRight(states, acts, table, i - 1);
      LevelsNext(states, acts, table, i - 1);
    }
  }

  lemma LevelsNext(states: seq<State>, acts: seq<Action>, table: set<Plate>, i: nat)
    requires IsRun(states, acts, table) && i < |acts| && ReadersKeepUp(states, acts) && LevelsOK(states[i])
    ensures LevelsOK(states[i + 1])
  {
    RunInv(states, acts, table, i);
    assert Follows(states[i], states[i + 1], acts[i], table);
    LevelsStep(states[i], states[i + 1], table, acts[i]);
  }

  ghost predicate OwnReading(s: State, act: Action) {
    Shape(s) && Enabled(s, act) ==> ReadsItsOwn(s, act)
  }

  /** Exactly when the records are right: throughout a run every level on record is the one assigned
      at the entrance if and only if every level reading, when handled, finds no record of the plate
      shown or one of a car sent to that level. */
  lemma LevelsExactly(states: seq<State>, acts: seq<Action>, table: set<Plate>)
    requires IsRun(states, acts, table)
    ensures (forall i :: 0 <= i < |states| ==> LevelsHold(states[i].carList)) <==>
      (forall i :: 0 <= i < |acts| ==> OwnReading(states[i], acts[i]))
  {
    if forall i :: 0 <= i < |states| ==> LevelsHold(states[i].carList) {
      forall i | 0 <= i < |acts| ensures OwnReading(states[i], acts[i]) {
        assert Follows(states[i], states[i + 1], acts[i], table);
        StepHolds(states[i], table, acts[i]);
      }
    }
    if forall i :: 0 <= i < |acts| ==> OwnReading(states[i], acts[i]) {
      forall i | 0 <= i < |states| ensures LevelsHold(states[i].carList) {
        OwnReadingsHold(states, acts, table, i);
      }
    }
  }

  lemma {:induction false} OwnReadingsHold(states: seq<State>, acts: seq<Action>, table: set<Plate>, i: nat)
    requires IsRun(states, acts, table) && i < |states|
    requires forall k :: 0 <= k < |acts| ==> OwnReading(states[k], acts[k])
    ensures LevelsHold(states[i].carList)
  {
    if i > 0 {
      OwnReadingsHold(states, acts, table, i - 1);
      assert Follows(states[i - 1], states[i - 1 + 1], acts[i - 1], table);
      StepHolds(states[i - 1], table, acts[i - 1]);
    }
  }

  lemma LevelsStep(s: State, s': State, table: set<Plate>, act: Action)
    requires Inv(s, table) && LevelsOK(s) && Follows(s, s', act, table) && KeepsUp(s, act)
    ensures LevelsOK(s')
  {
    DoKeepsLevels(s, table, act);
  }

  predicate InRange(c: Counters) {
    forall l :: 0 <= l < |c.t| ==> 0 <= c.t[l] <= 10
  }

  /** Late readings or not, no tracker ever leaves 0..10. */
  lemma {:induction false} TrackersStayInRange(states: seq<State>, acts: seq<Action>, table: set<Plate>, i: nat)
    requires IsRun(states, acts, table) && i < |states|
    ensures InRange(states[i].counters)
  {
    if i > 0 {
      TrackersStayInRange(states, acts, table, i - 1);
      RunInv(states, acts, table, i - 1);
      assert Follows(states[i - 1], states[i - 1 + 1], acts[i - 1], table);
      StepKeepsRange(states[i - 1], table, acts[i - 1]);
    }
  }

  lemma StepKeepsRange(s: State, table: set<Plate>, act: Action)
    requires Inv(s, table) && Enabled(s, act) && InRange(s.counters)
    ensures InRange(Do(s, table, act).counters)
  {
    if act.MgrExitMoves? {
      if s.exts[act.x].mgr.NWait? { ExitLookup(s, act.x); }
    } else if !act.MgrEntrMoves? {
      assert Do(s, table, act).counters == s.counters;
    }
  }

  // ----- gates in the joint system -----

  /** One step of a gate: raised and lowered by the manager, opened and closed by the simulator. */
  predicate GateStep(from: Status, to: Status, byManager: bool) {
    || from == to
    || (byManager && ((from.C? && to.R?) || (from.O? && to.L?)))
    || (!byManager && ((from.R? && to.O?) || (from.L? && to.C?)))
  }

  lemma EntranceGateStep(s: State, table: set<Plate>, a: Entrance, stay: nat)
    requires Shape(s) && EntOK(a)
    ensures SimEntrEnabled(a, stay) ==> GateStep(a.gate, SimEntrLocal(a, s.simClock, stay).gate, false)
    ensures MgrEntrEnabled(a) ==> GateStep(a.gate, MgrEntrLocal(s, table, a).gate, true)
  {
    GateMoves(a, Init().exts[0]);
  }

  lemma ExitGateStep(s: State, b: Exit)
    requires Shape(s) && ExtOK(b)
    ensures SimExitEnabled(b) ==> GateStep(b.gate, SimExitLocal(b).gate, false)
    ensures MgrExitEnabled(b) ==> GateStep(b.gate, MgrExitLocal(s, b).gate, true)
  {
    GateMoves(Init().ents[0], b);
  }

  lemma EntranceGates(s: State, table: set<Plate>, act: Action, g: nat)
    requires Shape(s) && LocalOK(s) && Enabled(s, act) && g < ENTRANCES
    ensures GateStep(s.ents[g].gate, Do(s, table, act).ents[g].gate, act.MgrEntrMoves?)
  {
    match act
    case SimEntrMoves(e, stay) => EntranceGateStep(s, table, s.ents[e], stay);
    case MgrEntrMoves(e) => EntranceGateStep(s, table, s.ents[e], 100);
    case _ =>
  }

  lemma ExitGates(s: State, table: set<Plate>, act: Action, g: nat)
    requires Shape(s) && LocalOK(s) && Enabled(s, act) && g < EXITS
    ensures GateStep(s.exts[g].gate, Do(s, table, act).exts[g].gate, act.MgrExitMoves?)
  {
    match act
    case SimExitMoves(x) => ExitGateStep(s, s.exts[x]);
    case MgrExitMoves(x) => ExitGateStep(s, s.exts[x]);
    case _ =>
  }

  /** Every step of every run moves every gate only along its cycle, and by the thread entitled to
      that move. */
  lemma GatesFollowTheCycle(states: seq<State>, acts: seq<Action>, table: set<Plate>, i: nat, g: nat)
    requires IsRun(states, acts, table) && i < |acts| && g < |states[i].ents| && g < |states[i].exts|
    ensures g < |states[i + 1].ents| && g < |states[i + 1].exts|
    ensures GateStep(states[i].ents[g].gate, states[i + 1].ents[g].gate, acts[i].MgrEntrMoves?)
    ensures GateStep(states[i].exts[g].gate, states[i + 1].exts[g].gate, acts[i].MgrExitMoves?)
  {
    RunInv(states, acts, table, i);
    assert Follows(states[i], states[i + 1], acts[i], table);
    DoKeepsShape(states[i], table, acts[i]);
    EntranceGates(states[i], table, acts[i], g);
    ExitGates(states[i], table, acts[i], g);
  }

  /** Work left in an entrance's round, counting both threads. */
  function EntRank(a: Entrance): nat {
    (match a.sim
     case SWait => 0 case SPopped(_) => 20 case SShown(_) => 7 case SRejected(_) => 1
     case SRaise(_) => 6 case SOpened(_) => 5 case STimed(_) => 4 case STriggered(_) => 3 case SLower => 2)
    + (match a.mgr
       case MWait => if a.lprSignal then 11 else 0
       case MRead(_) => 10 case MAllowed(_) => 9 case MDenied => 1 case MFull => 1
       case MCounted(_, _) => 8 case MShown(_, _) => 7 case MTimed(_) => 6 case MInserted(_) => 5
       case MAwaitOpen(_) => 4 case MAwaitClosed(_) => if a.lprSignal then 12 else 1)
  }

  function ExtRank(a: Exit): nat {
    (match a.sim case XWait => 0 case XPopped(_) => 12 case XShown(_) => 4 case XOpened(_) => 3 case XLower => 2)
    + (match a.mgr
       case NWait => if a.lprSignal then 7 else 0
       case NFound(_) => 6 case NAwaitOpen(_) => 5 case NAwaitClosed(_) => 3 case NBill(_) => 2 case NDelete(_) => 1
       case NCrashed => 0)
  }

  /** With a car in hand one of the two threads at an entrance or exit can move, and every move but
      taking the next car lowers a rank. */
  lemma RoundsEnd(a: Entrance, b: Exit, s: State, table: set<Plate>, stay: nat)
    requires EntOK(a) && ExtOK(b) && Shape(s)
    ensures (!a.sim.SWait? || !a.mgr.MWait?) && 100 <= stay < 10000 ==> SimEntrEnabled(a, stay) || MgrEntrEnabled(a)
    ensures !b.sim.XWait? || !b.mgr.NWait? ==> SimExitEnabled(b) || MgrExitEnabled(b)
    ensures SimEntrEnabled(a, stay) && !a.sim.SWait? ==> EntRank(SimEntrLocal(a, s.simClock, stay)) < EntRank(a)
    ensures MgrEntrEnabled(a) ==> EntRank(MgrEntrLocal(s, table, a)) < EntRank(a)
    ensures SimExitEnabled(b) && !b.sim.XWait? ==> ExtRank(SimExitLocal(b)) < ExtRank(b)
    ensures MgrExitEnabled(b) ==> ExtRank(MgrExitLocal(s, b)) < ExtRank(b)
  {
  }
}
