/** Recorded levels. A level reading that arrives after its car has left and its plate has come
    back would overwrite the new record; as long as no reading is that late, the level on record
    is the level assigned at the entrance, and the trackers are bounded by the cars really there. */
module ProtocolLevels {
  import opened Parking
  import opened Levels
  import opened LinkedList
  import opened Counting
  import opened Protocol
  import opened ProtocolCars
  import opened ProtocolRecords
  import opened ProtocolCounts

  /** When a car is put on record, no other level's reader still has a reading of its plate. */
  predicate ReadersCaughtUp(s: State, act: Action)
    requires Shape(s) && Enabled(s, act)
  {
    act.MgrEntrMoves? && s.ents[act.e].mgr.MTimed? ==>
      var st := s.ents[act.e].mgr.stub;
      forall l :: 0 <= l < LEVELS && l != st.level ==> !(s.readers[l].signal && s.readers[l].plate == st.plate)
  }

  ghost predicate LevelsHold(vs: seq<Vehicle>) {
    forall i :: 0 <= i < |vs| ==> vs[i].level == vs[i].stub.level
  }

  /** A pending reading of a listed car is of its own level. */
  ghost predicate ReadingsFresh(s: State) {
    forall l, i | 0 <= l < |s.readers| && 0 <= i < |s.carList| ::
      s.readers[l].signal && s.carList[i].stub.plate == s.readers[l].plate ==> s.carList[i].stub.level == l
  }

  ghost predicate LevelsOK(s: State) {
    LevelsHold(s.carList) && ReadingsFresh(s) && |s.counters.t| == LEVELS && TrackersBounded(s.counters.t, PerLevel(s))
  }

  /** The record with a counted seat's plate has that seat. */
  lemma SeatOf(s: State, z: Seat, i: nat)
    requires RecordsOK(s) && Seats(s, z) >= 1 && i < |s.carList| && s.carList[i].stub.plate == z.plate
    ensures VehicleSeat(s.carList[i]) == z
  {
    assert Count(s.carList, VehicleSeat, z) >= 1 && Count(s.carList, VehiclePlate, z.plate) <= 1;
    CountHas(s.carList, VehicleSeat, i);
    if VehicleSeat(s.carList[i]) != z {
      CountBoth(s.carList, VehicleSeat, z, VehicleSeat(s.carList[i]), VehiclePlate, z.plate);
    }
  }

  /** A car that triggers a level's reader triggers the reader of its own level. */
  lemma TriggerIsFresh(s: State, z: Seat)
    requires Shape(s) && RecordsOK(s) && ReadingsFresh(s) && Seats(s, z) >= 1
    ensures ReadingsFresh(Trigger(s, z.level, z.plate))
  {
    forall i | 0 <= i < |s.carList| && s.carList[i].stub.plate == z.plate ensures s.carList[i].stub.level == z.level {
      SeatOf(s, z, i);
    }
  }

  lemma SimEntrKeepsLevels(s: State, e: nat, stay: nat)
    requires Shape(s) && LocalOK(s) && CarsOK(s) && RecordsOK(s) && CountsOK(s) && LevelsOK(s)
    requires e < ENTRANCES && SimEntrEnabled(s.ents[e], stay)
    ensures LevelsOK(SimEntrStep(s, e, stay))
  {
    var a := s.ents[e];
    SimEntrKeepsCounts(s, e, stay);
    if a.sim.STimed? {
      var z := RideSeat(a.sim.ride);
      TotalCovers(s.ents, EntSeat, e, z);
      TriggerIsFresh(s, z);
    }
  }

  lemma InsideKeepsLevels(s: State, x: nat)
    requires Shape(s) && CarsOK(s) && RecordsOK(s) && CountsOK(s) && LevelsOK(s) && InsideEnabled(s, x)
    ensures LevelsOK(InsideStep(s, x))
  {
    InsideKeepsCounts(s, x);
    if s.insideThread.ILeaving? {
      TriggerIsFresh(s, RideSeat(s.insideThread.ride));
    }
  }

  lemma MgrEntrKeepsLevels(s: State, table: set<Plate>, e: nat)
    requires Shape(s) && LocalOK(s) && CountsOK(s) && LevelsOK(s)
    requires e < ENTRANCES && MgrEntrEnabled(s.ents[e]) && ReadersCaughtUp(s, MgrEntrMoves(e))
    ensures LevelsOK(MgrEntrStep(s, table, e))
  {
    var s' := MgrEntrStep(s, table, e);
    MgrEntrLevels(s, table, e);
    if CountsIn(s, s.ents[e]) {
      CountInBounded(s.counters, PerLevel(s));
    } else if s.ents[e].mgr.MTimed? {
      var st := s.ents[e].mgr.stub;
      assert s'.carList == [Vehicle(st, st.level)] + s.carList;
    }
  }

  lemma MgrExitKeepsLevels(s: State, x: nat)
    requires Shape(s) && LocalOK(s) && RecordsOK(s) && CountsOK(s) && LevelsOK(s)
    requires x < EXITS && MgrExitEnabled(s.exts[x])
    ensures LevelsOK(MgrExitStep(s, x))
  {
    var a := s.exts[x];
    MgrExitLevels(s, x);
    if a.mgr.NWait? {
      ExitLookup(s, x);
      CountOutBounded(s.counters, PerLevel(s), a.sim.ride.lvl);
    } else if a.mgr.NDelete? {
      var j := Lookup(s, a.plate);
      if j < |s.carList| {
        var vs := Without(s.carList, j);
        forall i | 0 <= i < |vs| ensures vs[i] in s.carList {
          assert vs[i] == s.carList[if i < j then i else i + 1];
        }
      }
    }
  }

  lemma ReaderKeepsLevels(s: State, l: nat)
    requires Shape(s) && LevelsOK(s) && l < LEVELS && s.readers[l].signal
    ensures LevelsOK(ReaderStep(s, l)) && ReaderStep(s, l).carList == s.carList
  {
    var s' := ReaderStep(s, l);
    SameKeepsCounts(s, s');
    assert s'.carList == s.carList;
  }

  lemma CreatorKeepsLevels(s: State, p: Plate, e: nat)
    requires Shape(s) && CountsOK(s) && LevelsOK(s) && CreatorEnabled(s, p, e)
    ensures LevelsOK(CreatorStep(s, p, e))
  {
    if s.creator.CListed? { QueueKeepsCounts(s, e, s.creator.car); } else { SameKeepsCounts(s, CreatorStep(s, p, e)); }
  }

  lemma SimExitKeepsLevels(s: State, x: nat)
    requires Shape(s) && LocalOK(s) && CountsOK(s) && LevelsOK(s) && x < EXITS && SimExitEnabled(s.exts[x])
    ensures LevelsOK(SimExitStep(s, x))
  {
    SimExitKeepsCounts(s, x);
  }

  lemma DoKeepsLevels(s: State, table: set<Plate>, act: Action)
    requires Shape(s) && LocalOK(s) && CarsOK(s) && RecordsOK(s) && CountsOK(s) && LevelsOK(s)
    requires Enabled(s, act) && ReadersCaughtUp(s, act)
    ensures LevelsOK(Do(s, table, act))
  {
    match act
    case CreatorMoves(p, e) => CreatorKeepsLevels(s, p, e);
    case SimEntrMoves(e, stay) => SimEntrKeepsLevels(s, e, stay);
    case MgrEntrMoves(e) => MgrEntrKeepsLevels(s, table, e);
    case InsideMoves(x) => InsideKeepsLevels(s, x);
    case SimExitMoves(x) => SimExitKeepsLevels(s, x);
    case MgrExitMoves(x) => MgrExitKeepsLevels(s, x);
    case ReaderMoves(l) => ReaderKeepsLevels(s, l);
    case Tick(ms) => SameKeepsCounts(s, Do(s, table, act));
    case SimTick(ms) => SameKeepsCounts(s, Do(s, table, act));
  }

  // ----- exactly when a record is right -----

  /** A level reading about to be handled finds no record of its plate, or one of a car that was
      sent to this level. */
  predicate ReadsItsOwn(s: State, act: Action)
    requires Shape(s) && Enabled(s, act)
  {
    act.ReaderMoves? ==>
      var j := Lookup(s, s.readers[act.l].plate);
      j < |s.carList| ==> s.carList[j].stub.level == act.l
  }

  lemma ExitKeepsHold(s: State, x: nat)
    requires Shape(s) && x < EXITS && MgrExitEnabled(s.exts[x]) && LevelsHold(s.carList)
    ensures LevelsHold(MgrExitStep(s, x).carList)
  {
    var j := Lookup(s, s.exts[x].plate);
    if s.exts[x].mgr.NDelete? && j < |s.carList| {
      var vs := Without(s.carList, j);
      forall i | 0 <= i < |vs| ensures vs[i] in s.carList {
        assert vs[i] == s.carList[if i < j then i else i + 1];
      }
    }
  }

  lemma ReaderHolds(s: State, l: nat)
    requires Shape(s) && l < LEVELS && s.readers[l].signal && LevelsHold(s.carList)
    ensures LevelsHold(ReaderStep(s, l).carList) <==> ReadsItsOwn(s, ReaderMoves(l))
  {
    var j := Lookup(s, s.readers[l].plate);
    if j < |s.carList| {
      assert ReaderStep(s, l).carList[j].level == l;
    }
  }

  lemma OthersKeepHold(s: State, table: set<Plate>, act: Action)
    requires Shape(s) && Enabled(s, act) && LevelsHold(s.carList) && !act.MgrExitMoves? && !act.ReaderMoves?
    ensures LevelsHold(Do(s, table, act).carList)
  {
    if !act.MgrEntrMoves? {
      assert Do(s, table, act).carList == s.carList;
    }
  }

  /** A step leaves every record right if and only if it is not a reading at the wrong level. */
  lemma StepHolds(s: State, table: set<Plate>, act: Action)
    requires Shape(s) && Enabled(s, act) && LevelsHold(s.carList)
    ensures LevelsHold(Do(s, table, act).carList) <==> ReadsItsOwn(s, act)
  {
    match act
    case MgrExitMoves(x) => ExitKeepsHold(s, x);
    case ReaderMoves(l) => ReaderHolds(s, l);
    case _ => OthersKeepHold(s, table, act);
  }

  /** How a wrong reading comes about: a reading left over at another level when its plate goes on
      record puts the new car on the wrong level as soon as it is handled. */
  lemma LateReadingCorrupts(s: State, table: set<Plate>, e: nat, l: nat)
    requires Shape(s) && e < ENTRANCES && s.ents[e].mgr.MTimed? && l < LEVELS
    requires l != s.ents[e].mgr.stub.level
    requires s.readers[l].signal && s.readers[l].plate == s.ents[e].mgr.stub.plate
    ensures var s1 := Do(s, table, MgrEntrMoves(e));
      Enabled(s1, ReaderMoves(l)) && !LevelsHold(Do(s1, table, ReaderMoves(l)).carList)
  {
    var s1 := Do(s, table, MgrEntrMoves(e));
    assert s1.carList[0].stub == s.ents[e].mgr.stub;
    var s2 := Do(s1, table, ReaderMoves(l));
    assert s2.carList[0].level == l;
  }
}
