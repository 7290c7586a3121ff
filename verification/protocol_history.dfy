/** Where the times and the readings in a state come from: each is traced back to the step of the run
    that made it. */
module ProtocolHistory {
  import opened Parking
  import opened Wrappers
  import opened Levels
  import LinkedList
  import opened Protocol
  import opened ProtocolLocal
  import opened ProtocolRecords
  import opened ProtocolCounts
  import opened ProtocolSafety

  // ----- leaving times -----

  /** Rides whose leaving time has been set: in an entrance's hands past the gate, inside, or on the
      way out. */
  predicate Timed(s: State, r: Ride) { AtEntrance(s, r) || Parked(s, r) }

  predicate AtEntrance(s: State, r: Ride) {
    exists e :: 0 <= e < |s.ents| && (s.ents[e].sim == STimed(r) || s.ents[e].sim == STriggered(r))
  }

  /** The step that draws the leaving time of `r`'s car: its gate is open, it is to stay 100 to 9999 ms,
      and the time is stored in 16 bits. */
  predicate TimesRide(s: State, act: Action, r: Ride) {
    && Shape(s) && Enabled(s, act) && act.SimEntrMoves? && 100 <= act.stay <= 9999
    && var a := s.ents[act.e];
      && a.sim.SOpened? && a.sim.ride.car == r.car && a.sim.ride.lvl == r.lvl
      && r.leave == (s.simClock + act.stay) % 65536
  }

  lemma EntranceTimes(s: State, e: nat, stay: nat, r: Ride)
    requires Shape(s) && e < ENTRANCES && SimEntrEnabled(s.ents[e], stay) && Timed(SimEntrStep(s, e, stay), r)
    ensures Timed(s, r) || TimesRide(s, SimEntrMoves(e, stay), r)
  {
    var s' := SimEntrStep(s, e, stay);
    assert s'.exts == s.exts && s'.insideThread == s.insideThread;
    if AtEntrance(s', r) {
      var f :| 0 <= f < |s'.ents| && (s'.ents[f].sim == STimed(r) || s'.ents[f].sim == STriggered(r));
      if f != e {
        assert s'.ents[f] == s.ents[f];
      }
    } else if r in s'.inside && r !in s.inside {
      assert s.ents[e].sim == STriggered(r);
    }
  }

  lemma InsideTimes(s: State, x: nat, r: Ride)
    requires Shape(s) && InsideEnabled(s, x) && Timed(InsideStep(s, x), r)
    ensures Timed(s, r)
  {
    var s' := InsideStep(s, x);
    assert s'.ents == s.ents;
    if !AtEntrance(s', r) {
      ParkedBefore(s, x, r);
    }
  }

  lemma ParkedBefore(s: State, x: nat, r: Ride)
    requires Shape(s) && InsideEnabled(s, x) && Parked(InsideStep(s, x), r)
    ensures Parked(s, r)
  {
    var s' := InsideStep(s, x);
    match s.insideThread
    case IWait =>
      RemovedWasThere(s, r);
    case ILeaving(q) =>
    case ITriggered(q) =>
      if !(r in s'.inside) && r != q {
        var y :| 0 <= y < |s'.exts| && (r in s'.exts[y].queue || Handed(s'.exts[y], r));
        assert r in s.exts[y].queue || Handed(s.exts[y], r);
      }
  }

  lemma RemovedWasThere(s: State, r: Ride)
    requires FirstDue(s.inside, s.simClock) < |s.inside|
    ensures var p := RidePlate(s.inside[FirstDue(s.inside, s.simClock)]);
      r in LinkedList.RemoveFirst(s.inside, RidePlate, p) ==> r in s.inside
  {
    var p := RidePlate(s.inside[FirstDue(s.inside, s.simClock)]);
    var j := LinkedList.IndexOf(s.inside, RidePlate, p);
    if j < |s.inside| {
      var rest := LinkedList.Without(s.inside, j);
      if r in rest {
        var i :| 0 <= i < |rest| && rest[i] == r;
        assert s.inside[if i < j then i else i + 1] == r;
      }
    }
  }

  lemma ExitTimes(s: State, table: set<Plate>, act: Action, r: Ride)
    requires Shape(s) && Enabled(s, act) && (act.SimExitMoves? || act.MgrExitMoves?) && Timed(Do(s, table, act), r)
    ensures Timed(s, r)
  {
    var s' := Do(s, table, act);
    assert s'.ents == s.ents && s'.inside == s.inside && s'.insideThread == s.insideThread;
    if y :| 0 <= y < |s'.exts| && (r in s'.exts[y].queue || Handed(s'.exts[y], r)) {
      assert r in s.exts[y].queue || Handed(s.exts[y], r);
    }
  }

  lemma OthersTime(s: State, table: set<Plate>, act: Action, r: Ride)
    requires Shape(s) && Enabled(s, act)
    requires !act.SimEntrMoves? && !act.InsideMoves? && !act.SimExitMoves? && !act.MgrExitMoves?
    requires Timed(Do(s, table, act), r)
    ensures Timed(s, r)
  {
    var s' := Do(s, table, act);
    assert s'.inside == s.inside && s'.insideThread == s.insideThread && s'.exts == s.exts;
    if AtEntrance(s', r) {
      var f :| 0 <= f < |s'.ents| && (s'.ents[f].sim == STimed(r) || s'.ents[f].sim == STriggered(r));
      assert s'.ents[f].sim == s.ents[f].sim;
    }
  }

  lemma TimedStep(s: State, table: set<Plate>, act: Action, r: Ride)
    requires Shape(s) && Enabled(s, act) && Timed(Do(s, table, act), r)
    ensures Timed(s, r) || TimesRide(s, act, r)
  {
    match act
    case SimEntrMoves(e, stay) => EntranceTimes(s, e, stay, r);
    case InsideMoves(x) => InsideTimes(s, x, r);
    case SimExitMoves(_) => ExitTimes(s, table, act, r);
    case MgrExitMoves(_) => ExitTimes(s, table, act, r);
    case _ => OthersTime(s, table, act, r);
  }

  /** Every leaving time in every reachable state, from the gate to the exit, is the one drawn when the
      car's gate had opened: the simulator's clock then, plus the stay, in 16 bits. */
  lemma {:induction false} LeaveIsDrawn(states: seq<State>, acts: seq<Action>, table: set<Plate>, i: nat, r: Ride)
    returns (k: nat)
    requires IsRun(states, acts, table) && i < |states| && Timed(states[i], r)
    ensures k < i && TimesRide(states[k], acts[k], r)
  {
    assert i > 0;
    assert Follows(states[i - 1], states[i - 1 + 1], acts[i - 1], table);
    TimedStep(states[i - 1], table, acts[i - 1], r);
    if Timed(states[i - 1], r) {
      k := LeaveIsDrawn(states, acts, table, i - 1, r);
    } else {
      k := i - 1;
    }
  }

  /** Stays are kept: a car taken off the inside list at step `i` had its leaving time drawn at an
      earlier step `k`, and unless that time overflowed 16 bits, at least its whole stay, and so at
      least 100 ms, has passed since. */
  lemma StaysItsTime(states: seq<State>, acts: seq<Action>, table: set<Plate>, i: nat) returns (k: nat)
    requires IsRun(states, acts, table) && i < |acts| && acts[i].InsideMoves? && states[i].insideThread.IWait?
    ensures states[i + 1].insideThread.ILeaving? && k < i
    ensures TimesRide(states[k], acts[k], states[i + 1].insideThread.ride)
    ensures states[k].simClock + acts[k].stay < 65536 ==> states[i].simClock >= states[k].simClock + acts[k].stay
  {
    assert Follows(states[i], states[i + 1], acts[i], table);
    var s := states[i];
    var r := s.inside[FirstDue(s.inside, s.simClock)];
    assert Timed(s, r);
    k := LeaveIsDrawn(states, acts, table, i, r);
  }

  /** The condition is exact: a car is due from the very moment its time is drawn if and only if that
      time overflows. */
  lemma OverflowLeavesAtOnce(s: State, act: Action, r: Ride)
    requires TimesRide(s, act, r)
    ensures r.leave <= s.simClock <==> s.simClock + act.stay >= 65536
  {
    var t := s.simClock + act.stay;
    if t >= 65536 && t < 131072 { assert t % 65536 == t - 65536; }
  }

  // ----- arrivals and charges -----

  /** Stubs the manager has made: in its hands before the insertion, or entered. */
  predicate Made(s: State, st: Stub) {
    st in s.entered || (exists e :: 0 <= e < |s.ents| && s.ents[e].mgr == MTimed(st))
  }

  /** The step that makes a stub: the plate let in, the level chosen for it, the manager's clock. */
  predicate MakesStub(s: State, act: Action, st: Stub) {
    && Shape(s) && Enabled(s, act) && act.MgrEntrMoves?
    && s.ents[act.e].mgr == MShown(st.plate, st.level) && st.arrived == s.clock
  }

  lemma MadeStep(s: State, table: set<Plate>, act: Action, st: Stub)
    requires Shape(s) && Enabled(s, act) && Made(Do(s, table, act), st)
    ensures Made(s, st) || MakesStub(s, act, st)
  {
    if act.MgrEntrMoves? {
      ManagerMakes(s, table, act.e, st);
    } else {
      OthersMake(s, table, act, st);
    }
  }

  lemma ManagerMakes(s: State, table: set<Plate>, e: nat, st: Stub)
    requires Shape(s) && e < ENTRANCES && MgrEntrEnabled(s.ents[e]) && Made(MgrEntrStep(s, table, e), st)
    ensures Made(s, st) || MakesStub(s, MgrEntrMoves(e), st)
  {
    var s' := MgrEntrStep(s, table, e);
    if st in s'.entered {
      if st !in s.entered { assert s.ents[e].mgr == MTimed(st); }
    } else {
      var f :| 0 <= f < |s'.ents| && s'.ents[f].mgr == MTimed(st);
      if f != e { assert s'.ents[f] == s.ents[f]; }
    }
  }

  lemma OthersMake(s: State, table: set<Plate>, act: Action, st: Stub)
    requires Shape(s) && Enabled(s, act) && !act.MgrEntrMoves? && Made(Do(s, table, act), st)
    ensures Made(s, st)
  {
    var s' := Do(s, table, act);
    OthersLeaveManagers(s, table, act);
    assert s'.entered == s.entered;
    if st !in s.entered {
      var f :| 0 <= f < |s'.ents| && s'.ents[f].mgr == MTimed(st);
      assert s.ents[f].mgr == MTimed(st);
    }
  }

  /** Every arrival on the books is the manager's clock at a step at which it had counted that plate in
      and shown it that level. */
  lemma {:induction false} ArrivalIsClock(states: seq<State>, acts: seq<Action>, table: set<Plate>, i: nat, st: Stub)
    returns (k: nat)
    requires IsRun(states, acts, table) && i < |states| && Made(states[i], st)
    ensures k < i && MakesStub(states[k], acts[k], st)
  {
    assert i > 0;
    assert Follows(states[i - 1], states[i - 1 + 1], acts[i - 1], table);
    MadeStep(states[i - 1], table, acts[i - 1], st);
    if Made(states[i - 1], st) {
      k := ArrivalIsClock(states, acts, table, i - 1, st);
    } else {
      k := i - 1;
    }
  }

  /** The step that charges: an exit's manager, its gate's cycle over, with the record of that stay. */
  predicate Charges(s: State, act: Action, c: Charge) {
    && Shape(s) && Enabled(s, act) && act.MgrExitMoves?
    && s.exts[act.x].mgr.NBill? && s.exts[act.x].mgr.v.stub == c.stub && c.left == s.clock
  }

  lemma ChargeStep(s: State, table: set<Plate>, act: Action, c: Charge)
    requires Shape(s) && Enabled(s, act) && c in Do(s, table, act).charges
    ensures c in s.charges || Charges(s, act, c)
  {
    if !act.MgrExitMoves? { assert Do(s, table, act).charges == s.charges; }
  }

  /** Every charge is made at the manager's clock of the step that writes it, for the record the exit's
      manager had found. */
  lemma {:induction false} ChargeIsClock(states: seq<State>, acts: seq<Action>, table: set<Plate>, i: nat, c: Charge)
    returns (k: nat)
    requires IsRun(states, acts, table) && i < |states| && c in states[i].charges
    ensures k < i && Charges(states[k], acts[k], c)
  {
    assert i > 0;
    assert Follows(states[i - 1], states[i - 1 + 1], acts[i - 1], table);
    ChargeStep(states[i - 1], table, acts[i - 1], c);
    if c in states[i - 1].charges {
      k := ChargeIsClock(states, acts, table, i - 1, c);
    } else {
      k := i - 1;
    }
  }

  // ----- level readings -----

  /** The plate a step shows to level `l`: of a car driving in to the level, or out of it. */
  function Showing(s: State, act: Action, l: nat): Option<Plate> {
    match act
    case SimEntrMoves(e, _) =>
      if e < |s.ents| && s.ents[e].sim.STimed? && s.ents[e].sim.ride.lvl == l then Some(s.ents[e].sim.ride.car.plate)
      else None
    case InsideMoves(_) =>
      if s.insideThread.ILeaving? && s.insideThread.ride.lvl == l then Some(s.insideThread.ride.car.plate) else None
    case _ => None
  }

  /** The plate shown to level `l` last, unless its reader has handled it since. */
  ghost function Unread(states: seq<State>, acts: seq<Action>, l: nat, i: nat): Option<Plate>
    requires |states| == |acts| + 1 && i <= |acts|
  {
    if i == 0 then None
    else if acts[i - 1] == ReaderMoves(l) then None
    else if Showing(states[i - 1], acts[i - 1], l).Some? then Showing(states[i - 1], acts[i - 1], l)
    else Unread(states, acts, l, i - 1)
  }

  lemma ReaderChanges(s: State, table: set<Plate>, act: Action, l: nat)
    requires Shape(s) && Enabled(s, act) && l < LEVELS
    ensures var r, r', p := s.readers[l], Do(s, table, act).readers[l], Showing(s, act, l);
      if act == ReaderMoves(l) then !r'.signal else if p.Some? then r'.signal && r'.plate == p.value else r' == r
  {
    if !act.SimEntrMoves? && !act.InsideMoves? && !act.ReaderMoves? {
      assert Do(s, table, act).readers == s.readers;
    }
  }

  /** A level's reader has a reading to handle if and only if some car has been shown to it since it
      last handled one, and the plate it will look up is that of the last such car. */
  lemma {:induction false} ReaderIsCurrent(states: seq<State>, acts: seq<Action>, table: set<Plate>, i: nat, l: nat)
    requires IsRun(states, acts, table) && i < |states| && l < LEVELS
    ensures l < |states[i].readers|
    ensures var r, p := states[i].readers[l], Unread(states, acts, l, i);
      (r.signal <==> p.Some?) && (p.Some? ==> r.plate == p.value)
  {
    if i > 0 {
      ReaderIsCurrent(states, acts, table, i - 1, l);
      assert Follows(states[i - 1], states[i - 1 + 1], acts[i - 1], table);
      FiveOfEach(states, acts, table, i);
      ReaderChanges(states[i - 1], table, acts[i - 1], l);
    }
  }

  // ----- counting out -----

  /** An exit counts its car out of the level on record, whether or not that is the level it was sent
      to, and touches no other tracker. */
  lemma CountsOutRecorded(states: seq<State>, acts: seq<Action>, table: set<Plate>, i: nat, x: nat)
    requires IsRun(states, acts, table) && i < |acts| && acts[i] == MgrExitMoves(x)
    requires x < |states[i].exts| && states[i].exts[x].mgr.NWait?
    ensures var s, s' := states[i], states[i + 1]; var j := Lookup(s, s.exts[x].plate);
      && j < |s.carList| && |s.counters.t| == |s'.counters.t| && s'.counters.m == s.counters.m - 1
      && forall l | 0 <= l < |s.counters.t| :: s'.counters.t[l] ==
           (if l == s.carList[j].level && s.counters.t[l] > 0 then s.counters.t[l] - 1 else s.counters.t[l])
  {
    RunInv(states, acts, table, i);
    TrackersStayInRange(states, acts, table, i);
    assert Follows(states[i], states[i + 1], acts[i], table);
    ExitLookup(states[i], x);
  }
}
