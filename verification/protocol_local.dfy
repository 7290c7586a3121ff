/** Each entrance and each exit by itself: how the two threads at a gate, the gate's status, the
    plate reader, the screen and the pending signals go together. */
module ProtocolLocal {
  import opened Parking
  import opened Gates
  import opened Protocol

  /** The screen holds the level of `st`. */
  predicate Displays(a: Entrance, l: Lvl) { a.display == Show(l) }

  predicate Quiet(a: Entrance) { !a.lprSignal && !a.screenSignal }

  /** The manager's side while the simulator watches the screen with its plate read. */
  predicate WhileShown(a: Entrance, p: Plate) {
    match a.mgr
    case MWait => a.screenSignal && a.gate.C? && !Accepts(a.display)
    case MRead(q) => q == p && !a.screenSignal && a.gate.C?
    case MAllowed(q) => q == p && !a.screenSignal && a.gate.C?
    case MDenied => !a.screenSignal && a.gate.C?
    case MFull => !a.screenSignal && a.gate.C?
    case MCounted(q, l) => q == p && !a.screenSignal && a.gate.C?
    case MShown(q, l) => q == p && a.screenSignal && Displays(a, l) && a.gate.C?
    case MTimed(st) => st.plate == p && a.screenSignal && Displays(a, st.level) && a.gate.C?
    case MInserted(st) => st.plate == p && a.screenSignal && Displays(a, st.level) && a.gate.C?
    case MAwaitOpen(st) => st.plate == p && a.screenSignal && Displays(a, st.level) && a.gate.R?
    case MAwaitClosed(st) => false
  }

  /** The manager's side while the simulator waits for the gate to rise. */
  predicate WhileRaising(a: Entrance, r: Ride) {
    match a.mgr
    case MShown(q, l) => q == r.car.plate && l == r.lvl && a.gate.C?
    case MTimed(st) => st.plate == r.car.plate && st.level == r.lvl && a.gate.C?
    case MInserted(st) => st.plate == r.car.plate && st.level == r.lvl && a.gate.C?
    case MAwaitOpen(st) => st.plate == r.car.plate && st.level == r.lvl && a.gate.R?
    case _ => false
  }

  /** The manager's side while the car drives through. */
  predicate WhilePassing(a: Entrance, r: Ride) {
    match a.mgr
    case MAwaitOpen(st) => st.plate == r.car.plate && st.level == r.lvl && a.gate.O?
    case MAwaitClosed(st) => st.plate == r.car.plate && st.level == r.lvl && a.gate.L?
    case _ => false
  }

  predicate EntOK(a: Entrance) {
    match a.sim
    case SWait => (a.mgr.MWait? || a.mgr.MAwaitClosed?) && a.gate.C? && Quiet(a)
    case SPopped(c) => (a.mgr.MWait? || a.mgr.MAwaitClosed?) && a.gate.C? && Quiet(a)
    case SShown(c) =>
      && a.plate == c.plate
      && if a.lprSignal then (a.mgr.MWait? || a.mgr.MAwaitClosed?) && a.gate.C? && !a.screenSignal
         else WhileShown(a, c.plate)
    case SRejected(c) => a.mgr.MWait? && a.gate.C? && Quiet(a)
    case SRaise(r) => a.plate == r.car.plate && Quiet(a) && WhileRaising(a, r)
    case SOpened(r) => a.plate == r.car.plate && Quiet(a) && WhilePassing(a, r)
    case STimed(r) => a.plate == r.car.plate && Quiet(a) && WhilePassing(a, r)
    case STriggered(r) => a.plate == r.car.plate && Quiet(a) && WhilePassing(a, r)
    case SLower => Quiet(a) && ((a.mgr.MAwaitOpen? && a.gate.O?) || (a.mgr.MAwaitClosed? && a.gate.L?))
  }

  predicate ExtOK(a: Exit) {
    && (MgrHolds(a) ==> MgrVehicle(a).stub.plate == a.plate)
    && match a.sim
       case XWait => Between(a)
       case XPopped(_) => Between(a)
       case XShown(r) =>
         && a.plate == r.car.plate
         && if a.lprSignal then a.mgr.NWait? && a.gate.C?
            else ((a.mgr.NFound? && a.gate.C?) || (a.mgr.NAwaitOpen? && a.gate.R?)) && MgrVehicle(a).stub.level == r.lvl
       case XOpened(r) => a.plate == r.car.plate && !a.lprSignal && Open(a) && MgrVehicle(a).stub.level == r.lvl
       case XLower => !a.lprSignal && Open(a)
  }

  /** No car at the plate reader: the manager is waiting or finishing the last one. */
  predicate Between(a: Exit) {
    && a.gate.C? && !a.lprSignal
    && (a.mgr.NWait? || a.mgr.NAwaitClosed? || a.mgr.NBill? || a.mgr.NDelete?)
  }

  predicate Open(a: Exit) {
    (a.mgr.NAwaitOpen? && a.gate.O?) || (a.mgr.NAwaitClosed? && a.gate.L?)
  }

  predicate MgrHolds(a: Exit) { !a.mgr.NWait? && !a.mgr.NCrashed? }

  function MgrVehicle(a: Exit): Vehicle
    requires MgrHolds(a)
  {
    match a.mgr
    case NFound(v) => v
    case NAwaitOpen(v) => v
    case NAwaitClosed(v) => v
    case NBill(v) => v
    case NDelete(v) => v
  }

  lemma SimEntrKeepsLocal(a: Entrance, clock: nat, stay: nat)
    requires EntOK(a) && SimEntrEnabled(a, stay)
    ensures EntOK(SimEntrLocal(a, clock, stay))
  {
    forall l: Lvl ensures Accepts(Show(l)) && Decode(Show(l)) == l { ScreenRoundTrip(l); }
  }

  lemma MgrEntrKeepsLocal(s: State, table: set<Plate>, a: Entrance)
    requires Shape(s) && EntOK(a) && MgrEntrEnabled(a)
    ensures EntOK(MgrEntrLocal(s, table, a))
  {
    ScreenRoundTrip(0);
  }

  lemma SimExitKeepsLocal(a: Exit)
    requires ExtOK(a) && SimExitEnabled(a)
    ensures ExtOK(SimExitLocal(a))
  {
  }

  lemma MgrExitKeepsLocal(s: State, a: Exit)
    requires ExtOK(a) && MgrExitEnabled(a)
    requires a.mgr.NWait? && a.sim.XShown? ==>
      var j := Lookup(s, a.plate); j < |s.carList| && s.carList[j].stub.level == a.sim.ride.lvl
    ensures ExtOK(MgrExitLocal(s, a))
  {
  }

  /** A queued car changes nothing at its gate. */
  lemma QueueKeepsLocal(a: Entrance, b: Exit, cars: seq<Car>, rides: seq<Ride>)
    ensures EntOK(a) ==> EntOK(a.(queue := cars))
    ensures ExtOK(b) ==> ExtOK(b.(queue := rides))
  {
  }

  /** m_sim_gates is only called on a closed gate, so it never takes its early way out, and each
      of the four status changes is made by the one thread entitled to it. */
  lemma GateMoves(a: Entrance, b: Exit)
    ensures EntOK(a) && a.mgr.MInserted? ==> a.gate.C?
    ensures ExtOK(b) && b.mgr.NFound? ==> b.gate.C?
    ensures EntOK(a) && a.sim.SRaise? && !SimWaits(a.gate) ==> a.gate.R?
    ensures EntOK(a) && a.sim.SLower? && !SimWaits(a.gate) ==> a.gate.L?
    ensures ExtOK(b) && b.sim.XShown? && !SimWaits(b.gate) ==> b.gate.R?
    ensures ExtOK(b) && b.sim.XLower? && !SimWaits(b.gate) ==> b.gate.L?
  {
  }

  /** Were the gate not closed, m_sim_gates would leave it alone and its caller would go on. */
  lemma GateNotClosed(s: State, table: set<Plate>, a: Entrance, b: Exit)
    requires Shape(s) && a.mgr.MInserted? && !a.gate.C? && b.mgr.NFound? && !b.gate.C?
    ensures MgrEntrLocal(s, table, a) == a.(mgr := MWait)
    ensures MgrExitLocal(s, b) == b.(mgr := NBill(b.mgr.v))
  {
  }
}
