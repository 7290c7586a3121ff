/** m_counter against the cars: over every interleaving it equals the number of cars counted in
    and not yet out, and differs from the car list by exactly the operations in flight. */
module ProtocolCounts {
  import opened Parking
  import opened Levels
  import opened Counting
  import opened Protocol
  import opened ProtocolLocal
  import opened ProtocolCars
  import opened ProtocolRecords

  function RideLvl(r: Ride): Lvl { r.lvl }
  function IsLvl(a: Lvl, l: Lvl): nat { if a == l then 1 else 0 }

  // ----- cars counted in and not out, by level -----

  function EntCounted(a: Entrance, l: Lvl): nat {
    match a.sim
    case SOpened(r) => IsLvl(r.lvl, l)
    case STimed(r) => IsLvl(r.lvl, l)
    case STriggered(r) => IsLvl(r.lvl, l)
    case SShown(_) => MgrCounted(a.mgr, l)
    case SRaise(_) => MgrCounted(a.mgr, l)
    case _ => 0
  }

  function MgrCounted(m: MgrEntr, l: Lvl): nat {
    match m
    case MCounted(_, k) => IsLvl(k, l)
    case MShown(_, k) => IsLvl(k, l)
    case MTimed(st) => IsLvl(st.level, l)
    case MInserted(st) => IsLvl(st.level, l)
    case MAwaitOpen(st) => IsLvl(st.level, l)
    case _ => 0
  }

  function InsideCounted(t: Inside, l: Lvl): nat {
    match t
    case IWait => 0
    case ILeaving(r) => IsLvl(r.lvl, l)
    case ITriggered(r) => IsLvl(r.lvl, l)
  }

  function ExtHand(a: Exit, l: Lvl): nat {
    match a.sim
    case XPopped(r) => IsLvl(r.lvl, l)
    case XShown(r) => if a.mgr.NWait? then IsLvl(r.lvl, l) else 0
    case _ => 0
  }

  function ExtCounted(a: Exit, l: Lvl): nat { Count(a.queue, RideLvl, l) + ExtHand(a, l) }

  /** How many cars are counted on a level. */
  function OnLevel(s: State, l: Lvl): nat {
    Total(s.ents, EntCounted, l) + Count(s.inside, RideLvl, l) + InsideCounted(s.insideThread, l)
    + Total(s.exts, ExtCounted, l)
  }

  function PerLevel(s: State): (n: seq<int>)
    ensures |n| == LEVELS
    ensures forall l: Lvl :: n[l] == OnLevel(s, l)
  {
    [OnLevel(s, 0), OnLevel(s, 1), OnLevel(s, 2), OnLevel(s, 3), OnLevel(s, 4)]
  }

  // ----- operations in flight -----

  /** Counted, but not yet in the car list. */
  function Uninserted(a: Entrance, u: ()): nat {
    if a.mgr.MCounted? || a.mgr.MShown? || a.mgr.MTimed? then 1 else 0
  }

  /** Counted out, but still in the car list. */
  function Undeleted(a: Exit, u: ()): nat { if MgrHolds(a) then 1 else 0 }

  ghost predicate CountsOK(s: State) {
    && s.counters.m == Sum5(PerLevel(s)) <= TOTAL_CAPACITY
    && s.counters.m + Total(s.exts, Undeleted, ()) == |s.carList| + Total(s.ents, Uninserted, ())
  }

  // ----- one part changes -----

  lemma PutEntLevel(s: State, e: nat, a: Entrance, l: Lvl)
    requires e < |s.ents|
    ensures OnLevel(PutEnt(s, e, a), l) + EntCounted(s.ents[e], l) == OnLevel(s, l) + EntCounted(a, l)
  {
    TotalUpdate(s.ents, EntCounted, e, a, l);
  }

  lemma PutExtLevel(s: State, x: nat, a: Exit, l: Lvl)
    requires x < |s.exts|
    ensures OnLevel(PutExt(s, x, a), l) + ExtCounted(s.exts[x], l) == OnLevel(s, l) + ExtCounted(a, l)
  {
    TotalUpdate(s.exts, ExtCounted, x, a, l);
  }

  lemma SameLevels(s: State, s': State)
    requires forall l: Lvl :: OnLevel(s', l) == OnLevel(s, l)
    ensures PerLevel(s') == PerLevel(s)
  {
  }

  lemma OneLevelChanges(s: State, s': State, k: Lvl, d: int)
    requires forall l: Lvl :: OnLevel(s', l) == OnLevel(s, l) + if l == k then d else 0
    ensures PerLevel(s') == Plus(PerLevel(s), k, d)
  {
    forall l: Lvl ensures PerLevel(s')[l] == Plus(PerLevel(s), k, d)[l] {}
  }

  // ----- entrances -----

  lemma SimEntrLevel(a: Entrance, clock: nat, stay: nat, l: Lvl)
    requires EntOK(a) && SimEntrEnabled(a, stay)
    ensures EntCounted(SimEntrLocal(a, clock, stay), l) + (if a.sim.STriggered? then IsLvl(a.sim.ride.lvl, l) else 0)
      == EntCounted(a, l)
  {
  }

  lemma SimEntrKeepsCounts(s: State, e: nat, stay: nat)
    requires Shape(s) && LocalOK(s) && CountsOK(s) && e < ENTRANCES && SimEntrEnabled(s.ents[e], stay)
    ensures CountsOK(SimEntrStep(s, e, stay)) && PerLevel(SimEntrStep(s, e, stay)) == PerLevel(s)
  {
    var a, s' := s.ents[e], SimEntrStep(s, e, stay);
    var b := SimEntrLocal(a, s.simClock, stay);
    forall l: Lvl ensures OnLevel(s', l) == OnLevel(s, l) {
      SimEntrLevel(a, s.simClock, stay, l);
      PutEntLevel(s, e, b, l);
      if a.sim.STriggered? { CountCons(a.sim.ride, s.inside, RideLvl, l); }
    }
    SameLevels(s, s');
    TotalUpdate(s.ents, Uninserted, e, b, ());
  }

  predicate CountsIn(s: State, a: Entrance) { a.mgr.MAllowed? && HasRoom(s) }

  lemma MgrEntrLevel(s: State, table: set<Plate>, a: Entrance, l: Lvl)
    requires Shape(s) && EntOK(a) && MgrEntrEnabled(a)
    ensures EntCounted(MgrEntrLocal(s, table, a), l) ==
      EntCounted(a, l) + if CountsIn(s, a) then IsLvl(NextLevel(s.counters), l) else 0
  {
  }

  lemma MgrEntrLevels(s: State, table: set<Plate>, e: nat)
    requires Shape(s) && LocalOK(s) && e < ENTRANCES && MgrEntrEnabled(s.ents[e])
    ensures PerLevel(MgrEntrStep(s, table, e)) ==
      if CountsIn(s, s.ents[e]) then Plus(PerLevel(s), NextLevel(s.counters), 1) else PerLevel(s)
  {
    var s' := MgrEntrStep(s, table, e);
    forall l: Lvl ensures OnLevel(s', l) ==
      OnLevel(s, l) + if CountsIn(s, s.ents[e]) then IsLvl(NextLevel(s.counters), l) else 0
    {
      MgrEntrOnLevel(s, table, e, l);
    }
    if CountsIn(s, s.ents[e]) {
      OneLevelChanges(s, s', NextLevel(s.counters), 1);
    } else {
      SameLevels(s, s');
    }
  }

  lemma MgrEntrOnLevel(s: State, table: set<Plate>, e: nat, l: Lvl)
    requires Shape(s) && LocalOK(s) && e < ENTRANCES && MgrEntrEnabled(s.ents[e])
    ensures OnLevel(MgrEntrStep(s, table, e), l) ==
      OnLevel(s, l) + if CountsIn(s, s.ents[e]) then IsLvl(NextLevel(s.counters), l) else 0
  {
    MgrEntrLevel(s, table, s.ents[e], l);
    PutEntLevel(s, e, MgrEntrLocal(s, table, s.ents[e]), l);
  }

  lemma MgrEntrInFlight(s: State, table: set<Plate>, e: nat)
    requires Shape(s) && e < ENTRANCES && MgrEntrEnabled(s.ents[e])
    ensures var s' := MgrEntrStep(s, table, e);
      s'.counters.m - |s'.carList| - Total(s'.ents, Uninserted, ())
      == s.counters.m - |s.carList| - Total(s.ents, Uninserted, ())
  {
    TotalUpdate(s.ents, Uninserted, e, MgrEntrLocal(s, table, s.ents[e]), ());
  }

  lemma MgrEntrKeepsCounts(s: State, table: set<Plate>, e: nat)
    requires Shape(s) && LocalOK(s) && CountsOK(s) && e < ENTRANCES && MgrEntrEnabled(s.ents[e])
    ensures CountsOK(MgrEntrStep(s, table, e))
  {
    MgrEntrLevels(s, table, e);
    MgrEntrInFlight(s, table, e);
    if CountsIn(s, s.ents[e]) { SumPlus(PerLevel(s), NextLevel(s.counters), 1); }
  }

  // ----- inside and exits -----

  lemma InsideKeepsCounts(s: State, x: nat)
    requires Shape(s) && CarsOK(s) && CountsOK(s) && InsideEnabled(s, x)
    ensures CountsOK(InsideStep(s, x)) && PerLevel(InsideStep(s, x)) == PerLevel(s)
  {
    var s' := InsideStep(s, x);
    match s.insideThread
    case IWait =>
      var j := FirstDue(s.inside, s.simClock);
      TakesTheDue(s, j);
      forall l: Lvl ensures OnLevel(s', l) == OnLevel(s, l) {
        CountRemoveFirst(s.inside, RidePlate, RidePlate(s.inside[j]), RideLvl, l);
      }
      SameLevels(s, s');
    case ILeaving(r) =>
      forall l: Lvl ensures OnLevel(s', l) == OnLevel(s, l) {}
      SameLevels(s, s');
    case ITriggered(r) =>
      var a := s.exts[x].(queue := s.exts[x].queue + [r]);
      forall l: Lvl ensures OnLevel(s', l) == OnLevel(s, l) {
        CountSnoc(s.exts[x].queue, r, RideLvl, l);
        PutExtLevel(s, x, a, l);
      }
      SameLevels(s, s');
      TotalUpdate(s.exts, Undeleted, x, a, ());
  }

  lemma SimExitLevel(a: Exit, l: Lvl)
    requires ExtOK(a) && SimExitEnabled(a)
    ensures ExtCounted(SimExitLocal(a), l) == ExtCounted(a, l)
  {
  }

  lemma SimExitKeepsCounts(s: State, x: nat)
    requires Shape(s) && LocalOK(s) && CountsOK(s) && x < EXITS && SimExitEnabled(s.exts[x])
    ensures CountsOK(SimExitStep(s, x)) && PerLevel(SimExitStep(s, x)) == PerLevel(s)
  {
    var s' := SimExitStep(s, x);
    forall l: Lvl ensures OnLevel(s', l) == OnLevel(s, l) {
      SimExitLevel(s.exts[x], l);
      PutExtLevel(s, x, SimExitLocal(s.exts[x]), l);
    }
    SameLevels(s, s');
    TotalUpdate(s.exts, Undeleted, x, SimExitLocal(s.exts[x]), ());
  }

  lemma MgrExitLevel(s: State, a: Exit, l: Lvl)
    requires ExtOK(a) && MgrExitEnabled(a)
    requires a.mgr.NWait? ==> a.sim.XShown? && Lookup(s, a.plate) < |s.carList|
    ensures ExtCounted(MgrExitLocal(s, a), l) + (if a.mgr.NWait? then IsLvl(a.sim.ride.lvl, l) else 0)
      == ExtCounted(a, l)
  {
  }

  /** Counting out takes one car from the level of the car at the exit, which has one. */
  lemma MgrExitLevels(s: State, x: nat)
    requires Shape(s) && LocalOK(s) && RecordsOK(s) && x < EXITS && MgrExitEnabled(s.exts[x])
    ensures s.exts[x].mgr.NWait? ==> s.exts[x].sim.XShown? && OnLevel(s, s.exts[x].sim.ride.lvl) > 0
    ensures PerLevel(MgrExitStep(s, x)) ==
      if s.exts[x].mgr.NWait? then Plus(PerLevel(s), s.exts[x].sim.ride.lvl, -1) else PerLevel(s)
  {
    var a, s' := s.exts[x], MgrExitStep(s, x);
    if a.mgr.NWait? {
      ExitLookup(s, x);
      TotalCovers(s.exts, ExtCounted, x, a.sim.ride.lvl);
    }
    forall l: Lvl ensures OnLevel(s', l) + (if a.mgr.NWait? then IsLvl(a.sim.ride.lvl, l) else 0) == OnLevel(s, l) {
      MgrExitOnLevel(s, x, l);
    }
    if a.mgr.NWait? {
      OneLevelChanges(s, s', a.sim.ride.lvl, -1);
    } else {
      SameLevels(s, s');
    }
  }

  lemma MgrExitOnLevel(s: State, x: nat, l: Lvl)
    requires Shape(s) && LocalOK(s) && x < EXITS && MgrExitEnabled(s.exts[x])
    requires s.exts[x].mgr.NWait? ==> s.exts[x].sim.XShown? && Lookup(s, s.exts[x].plate) < |s.carList|
    ensures OnLevel(MgrExitStep(s, x), l) + (if s.exts[x].mgr.NWait? then IsLvl(s.exts[x].sim.ride.lvl, l) else 0)
      == OnLevel(s, l)
  {
    MgrExitLevel(s, s.exts[x], l);
    PutExtLevel(s, x, MgrExitLocal(s, s.exts[x]), l);
  }

  lemma MgrExitInFlight(s: State, x: nat)
    requires Shape(s) && LocalOK(s) && RecordsOK(s) && x < EXITS && MgrExitEnabled(s.exts[x])
    ensures var s' := MgrExitStep(s, x);
      s'.counters.m + Total(s'.exts, Undeleted, ()) - |s'.carList|
      == s.counters.m + Total(s.exts, Undeleted, ()) - |s.carList|
  {
    var a := s.exts[x];
    TotalUpdate(s.exts, Undeleted, x, MgrExitLocal(s, a), ());
    if a.mgr.NWait? {
      ExitLookup(s, x);
    } else if a.mgr.NDelete? {
      FoundSeat(s, x);
      LookupFinds(s, VehicleSeat(a.mgr.v));
    }
  }

  lemma MgrExitKeepsCounts(s: State, x: nat)
    requires Shape(s) && LocalOK(s) && RecordsOK(s) && CountsOK(s) && x < EXITS && MgrExitEnabled(s.exts[x])
    ensures CountsOK(MgrExitStep(s, x)) && Shape(MgrExitStep(s, x))
  {
    MgrExitLevels(s, x);
    MgrExitInFlight(s, x);
    if s.exts[x].mgr.NWait? {
      ExitLookup(s, x);
      SumPlus(PerLevel(s), s.exts[x].sim.ride.lvl, -1);
    }
  }

  lemma QueueKeepsCounts(s: State, e: nat, c: Car)
    requires Shape(s) && CountsOK(s) && e < ENTRANCES
    ensures var s' := PutEnt(s, e, s.ents[e].(queue := s.ents[e].queue + [c])).(creator := CIdle);
      CountsOK(s') && PerLevel(s') == PerLevel(s)
  {
    var b := s.ents[e].(queue := s.ents[e].queue + [c]);
    var s' := PutEnt(s, e, b).(creator := CIdle);
    forall l: Lvl ensures OnLevel(s', l) == OnLevel(s, l) { PutEntLevel(s, e, b, l); }
    SameLevels(s, s');
    TotalUpdate(s.ents, Uninserted, e, b, ());
  }

  /** Steps of the remaining threads leave every count alone. */
  predicate SameCounts(s: State, s': State) {
    && s'.ents == s.ents && s'.inside == s.inside && s'.insideThread == s.insideThread && s'.exts == s.exts
    && s'.counters == s.counters && |s'.carList| == |s.carList|
  }

  lemma SameKeepsCounts(s: State, s': State)
    requires SameCounts(s, s')
    ensures PerLevel(s') == PerLevel(s)
    ensures CountsOK(s) ==> CountsOK(s')
  {
    forall l: Lvl ensures OnLevel(s', l) == OnLevel(s, l) {}
    SameLevels(s, s');
  }

  lemma DoKeepsCounts(s: State, table: set<Plate>, act: Action)
    requires Shape(s) && LocalOK(s) && CarsOK(s) && RecordsOK(s) && CountsOK(s) && Enabled(s, act)
    ensures CountsOK(Do(s, table, act))
  {
    match act
    case CreatorMoves(p, e) =>
      if s.creator.CListed? { QueueKeepsCounts(s, e, s.creator.car); } else { SameKeepsCounts(s, Do(s, table, act)); }
    case SimEntrMoves(e, stay) => SimEntrKeepsCounts(s, e, stay);
    case MgrEntrMoves(e) => MgrEntrKeepsCounts(s, table, e);
    case InsideMoves(x) => InsideKeepsCounts(s, x);
    case SimExitMoves(x) => SimExitKeepsCounts(s, x);
    case MgrExitMoves(x) => MgrExitKeepsCounts(s, x);
    case ReaderMoves(l) => SameKeepsCounts(s, Do(s, table, act));
    case Tick(ms) => SameKeepsCounts(s, Do(s, table, act));
    case SimTick(ms) => SameKeepsCounts(s, Do(s, table, act));
  }

  lemma DoKeepsShape(s: State, table: set<Plate>, act: Action)
    requires Shape(s) && LocalOK(s) && RecordsOK(s) && CountsOK(s) && Enabled(s, act)
    ensures Shape(Do(s, table, act))
  {
    match act
    case CreatorMoves(p, e) =>
    case SimEntrMoves(e, stay) =>
    case MgrEntrMoves(e) =>
    case InsideMoves(x) =>
    case SimExitMoves(x) =>
    case MgrExitMoves(x) => MgrExitKeepsCounts(s, x);
    case ReaderMoves(l) =>
    case Tick(ms) =>
    case SimTick(ms) =>
  }

  lemma InitCounts()
    ensures CountsOK(Init()) && PerLevel(Init()) == EMPTY.t
  {
    forall l: Lvl ensures OnLevel(Init(), l) == 0 {
      TotalZero(Init().ents, EntCounted, l);
      TotalZero(Init().exts, ExtCounted, l);
    }
    TotalZero(Init().ents, Uninserted, ());
    TotalZero(Init().exts, Undeleted, ());
  }
}
