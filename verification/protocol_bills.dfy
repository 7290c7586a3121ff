/** Billing over a whole run: every car taken off the list has been charged exactly once, for the
    arrival that was recorded, at a time not before it. */
module ProtocolBills {
  import opened Parking
  import opened Counting
  import opened Protocol
  import opened ProtocolLocal
  import opened ProtocolRecords
  import opened Wrappers
  import Billing

  function StubItself(st: Stub): Stub { st }
  function VehicleStub(v: Vehicle): Stub { v.stub }
  function ChargeStub(c: Charge): Stub { c.stub }

  /** Charged, with the record still to be deleted. */
  function Charged(a: Exit, st: Stub): nat {
    if a.mgr.NDelete? && a.mgr.v.stub == st then 1 else 0
  }

  /** The vehicle an exit's manager points to is still in the list. */
  ghost predicate HeldListed(s: State) {
    forall x :: 0 <= x < |s.exts| && MgrHolds(s.exts[x]) ==>
      Count(s.carList, VehicleStub, MgrVehicle(s.exts[x]).stub) >= 1
  }

  /** What was entered is on record or has been charged; a charge in progress is both. */
  ghost predicate BooksBalance(s: State) {
    forall st :: Count(s.entered, StubItself, st) + Total(s.exts, Charged, st)
      == Count(s.carList, VehicleStub, st) + Count(s.charges, ChargeStub, st)
  }

  /** No recorded time lies in the future. */
  ghost predicate TimesOK(s: State) {
    && (forall e :: 0 <= e < |s.ents| && s.ents[e].mgr.MTimed? ==> s.ents[e].mgr.stub.arrived <= s.clock)
    && (forall i :: 0 <= i < |s.carList| ==> s.carList[i].stub.arrived <= s.clock)
    && (forall i :: 0 <= i < |s.charges| ==> s.charges[i].stub.arrived <= s.charges[i].left <= s.clock)
  }

  ghost predicate BillsOK(s: State) { HeldListed(s) && BooksBalance(s) && TimesOK(s) }

  // ----- facts about exits -----

  /** Two exits never hold records of the same plate. */
  lemma HeldApart(s: State, x: nat, y: nat)
    requires RecordsOK(s) && x < |s.exts| && y < |s.exts| && x != y
    requires MgrHolds(s.exts[x]) && MgrHolds(s.exts[y])
    ensures MgrVehicle(s.exts[x]).stub.plate != MgrVehicle(s.exts[y]).stub.plate
  {
    var z, w := VehicleSeat(MgrVehicle(s.exts[x])), VehicleSeat(MgrVehicle(s.exts[y]));
    FoundSeat(s, x);
    FoundSeat(s, y);
    assert Count(s.carList, VehiclePlate, z.plate) <= 1;
    if z == w {
      if x < y { TotalCoversBoth(s.exts, ExtSeat, x, y, z); } else { TotalCoversBoth(s.exts, ExtSeat, y, x, z); }
      assert Count(s.carList, VehicleSeat, z) >= 2;
      CountCoarser(s.carList, VehicleSeat, z, VehiclePlate, z.plate);
    } else if z.plate == w.plate {
      assert Count(s.carList, VehicleSeat, z) >= 1 && Count(s.carList, VehicleSeat, w) >= 1;
      CountBoth(s.carList, VehicleSeat, z, w, VehiclePlate, z.plate);
    }
  }

  /** Deleting by plate takes out the very record the exit's manager points to. */
  lemma DeletesTheHeld(s: State, x: nat)
    requires LocalOK(s) && RecordsOK(s) && HeldListed(s) && x < |s.exts| && MgrHolds(s.exts[x])
    ensures var j := Lookup(s, s.exts[x].plate);
      j < |s.carList| && s.carList[j].stub == MgrVehicle(s.exts[x]).stub
  {
    var st := MgrVehicle(s.exts[x]).stub;
    assert Count(s.carList, VehiclePlate, st.plate) <= 1;
    FindsTheOne(s.carList, VehiclePlate, st.plate, VehicleStub, st);
  }

  // ----- steps -----

  /** Steps that leave the list, the charges and every exit's manager alone. */
  predicate Aside(s: State, s': State) {
    && s'.carList == s.carList && s'.charges == s.charges && s'.entered == s.entered && s.clock <= s'.clock
    && |s'.exts| == |s.exts| && |s'.ents| == |s.ents|
    && (forall x :: 0 <= x < |s.exts| ==> s'.exts[x].mgr == s.exts[x].mgr)
    && (forall e :: 0 <= e < |s.ents| && s'.ents[e].mgr.MTimed? ==>
         s'.ents[e].mgr == s.ents[e].mgr || s'.ents[e].mgr.stub.arrived == s.clock)
  }

  lemma {:induction false} SameCharged(xs: seq<Exit>, ys: seq<Exit>, st: Stub)
    requires |xs| == |ys| && forall x :: 0 <= x < |xs| ==> xs[x].mgr == ys[x].mgr
    ensures Total(xs, Charged, st) == Total(ys, Charged, st)
  {
    if xs != [] { SameCharged(xs[1..], ys[1..], st); }
  }

  lemma AsideKeepsBills(s: State, s': State)
    requires BillsOK(s) && Aside(s, s')
    ensures BillsOK(s')
  {
    forall st ensures Total(s'.exts, Charged, st) == Total(s.exts, Charged, st) { SameCharged(s'.exts, s.exts, st); }
  }

  lemma CreatorKeepsBills(s: State, p: Plate, e: nat)
    requires Shape(s) && BillsOK(s) && CreatorEnabled(s, p, e)
    ensures BillsOK(CreatorStep(s, p, e))
  {
    AsideKeepsBills(s, CreatorStep(s, p, e));
  }

  lemma SimEntrKeepsBills(s: State, e: nat, stay: nat)
    requires Shape(s) && BillsOK(s) && e < ENTRANCES && SimEntrEnabled(s.ents[e], stay)
    ensures BillsOK(SimEntrStep(s, e, stay))
  {
    assert SimEntrLocal(s.ents[e], s.simClock, stay).mgr == s.ents[e].mgr;
    AsideKeepsBills(s, SimEntrStep(s, e, stay));
  }

  lemma InsideKeepsBills(s: State, x: nat)
    requires Shape(s) && BillsOK(s) && InsideEnabled(s, x)
    ensures BillsOK(InsideStep(s, x))
  {
    AsideKeepsBills(s, InsideStep(s, x));
  }

  lemma SimExitKeepsBills(s: State, x: nat)
    requires Shape(s) && BillsOK(s) && x < EXITS && SimExitEnabled(s.exts[x])
    ensures BillsOK(SimExitStep(s, x))
  {
    AsideKeepsBills(s, SimExitStep(s, x));
  }

  lemma MgrEntrKeepsBills(s: State, table: set<Plate>, e: nat)
    requires Shape(s) && BillsOK(s) && e < ENTRANCES && MgrEntrEnabled(s.ents[e])
    ensures BillsOK(MgrEntrStep(s, table, e))
  {
    if s.ents[e].mgr.MTimed? {
      InsertKeepsBills(s, table, e);
    } else {
      AsideKeepsBills(s, MgrEntrStep(s, table, e));
    }
  }

  lemma InsertKeepsBills(s: State, table: set<Plate>, e: nat)
    requires Shape(s) && BillsOK(s) && e < ENTRANCES && s.ents[e].mgr.MTimed?
    ensures BillsOK(MgrEntrStep(s, table, e))
  {
    var s' := MgrEntrStep(s, table, e);
    var st := s.ents[e].mgr.stub;
    var v := Vehicle(st, st.level);
    assert s'.exts == s.exts && s'.charges == s.charges && s'.clock == s.clock;
    forall t ensures Count(s'.carList, VehicleStub, t) == Count(s.carList, VehicleStub, t) + (if st == t then 1 else 0)
      && Count(s'.entered, StubItself, t) == Count(s.entered, StubItself, t) + (if st == t then 1 else 0)
    {
      CountCons(v, s.carList, VehicleStub, t);
      CountSnoc(s.entered, st, StubItself, t);
    }
  }

  lemma BillKeepsBills(s: State, x: nat)
    requires Shape(s) && BillsOK(s) && x < EXITS && s.exts[x].mgr.NBill?
    ensures BillsOK(MgrExitStep(s, x))
  {
    var s' := MgrExitStep(s, x);
    var c := Charge(s.exts[x].mgr.v.stub, s.clock);
    CountFinds(s.carList, VehicleStub, c.stub);
    forall st ensures Total(s'.exts, Charged, st) == Total(s.exts, Charged, st) + (if c.stub == st then 1 else 0)
      && Count(s'.charges, ChargeStub, st) == Count(s.charges, ChargeStub, st) + (if c.stub == st then 1 else 0)
    {
      CountSnoc(s.charges, c, ChargeStub, st);
      TotalUpdate(s.exts, Charged, x, MgrExitLocal(s, s.exts[x]), st);
    }
  }

  lemma DeleteKeepsBalance(s: State, x: nat, st: Stub)
    requires Shape(s) && LocalOK(s) && RecordsOK(s) && BillsOK(s) && x < EXITS && s.exts[x].mgr.NDelete?
    ensures var s' := MgrExitStep(s, x);
      && Count(s'.entered, StubItself, st) + Total(s'.exts, Charged, st)
         == Count(s'.carList, VehicleStub, st) + Count(s'.charges, ChargeStub, st)
      && Count(s'.carList, VehicleStub, st) + (if s.exts[x].mgr.v.stub == st then 1 else 0)
         == Count(s.carList, VehicleStub, st)
  {
    DeletesTheHeld(s, x);
    CountRemoveFirst(s.carList, VehiclePlate, s.exts[x].plate, VehicleStub, st);
    TotalUpdate(s.exts, Charged, x, MgrExitLocal(s, s.exts[x]), st);
  }

  lemma DeleteKeepsBills(s: State, x: nat)
    requires Shape(s) && LocalOK(s) && RecordsOK(s) && BillsOK(s) && x < EXITS && s.exts[x].mgr.NDelete?
    ensures BillsOK(MgrExitStep(s, x))
  {
    var s' := MgrExitStep(s, x);
    forall st ensures Count(s'.entered, StubItself, st) + Total(s'.exts, Charged, st)
      == Count(s'.carList, VehicleStub, st) + Count(s'.charges, ChargeStub, st)
    {
      DeleteKeepsBalance(s, x, st);
    }
    forall y | 0 <= y < |s'.exts| && MgrHolds(s'.exts[y])
      ensures Count(s'.carList, VehicleStub, MgrVehicle(s'.exts[y]).stub) >= 1
    {
      assert y != x && s'.exts[y] == s.exts[y];
      HeldApart(s, x, y);
      DeleteKeepsBalance(s, x, MgrVehicle(s.exts[y]).stub);
    }
    assert s'.ents == s.ents && s'.charges == s.charges && s'.clock == s.clock;
  }

  lemma MgrExitKeepsBills(s: State, x: nat)
    requires Shape(s) && LocalOK(s) && RecordsOK(s) && BillsOK(s) && x < EXITS && MgrExitEnabled(s.exts[x])
    ensures BillsOK(MgrExitStep(s, x))
  {
    var a := s.exts[x];
    if a.mgr.NDelete? {
      DeleteKeepsBills(s, x);
    } else if a.mgr.NBill? {
      BillKeepsBills(s, x);
    } else {
      var s' := MgrExitStep(s, x);
      if a.mgr.NWait? {
        ExitLookup(s, x);
        CountHas(s.carList, VehicleStub, Lookup(s, a.plate));
      }
      forall st ensures Total(s'.exts, Charged, st) == Total(s.exts, Charged, st) {
        TotalUpdate(s.exts, Charged, x, MgrExitLocal(s, a), st);
      }
      assert s'.carList == s.carList && s'.entered == s.entered && s'.charges == s.charges;
    }
  }

  lemma ReaderKeepsBills(s: State, l: nat)
    requires Shape(s) && BillsOK(s) && l < LEVELS
    ensures BillsOK(ReaderStep(s, l))
  {
    var s' := ReaderStep(s, l);
    var j := Lookup(s, s.readers[l].plate);
    forall st ensures Count(s'.carList, VehicleStub, st) == Count(s.carList, VehicleStub, st) {
      if j < |s.carList| { CountReplace(s.carList, j, s.carList[j].(level := l), VehicleStub, st); }
    }
    assert s'.exts == s.exts && s'.entered == s.entered && s'.charges == s.charges;
  }

  lemma DoKeepsBills(s: State, table: set<Plate>, act: Action)
    requires Shape(s) && LocalOK(s) && RecordsOK(s) && BillsOK(s) && Enabled(s, act)
    ensures BillsOK(Do(s, table, act))
  {
    match act
    case CreatorMoves(p, e) => CreatorKeepsBills(s, p, e);
    case SimEntrMoves(e, stay) => SimEntrKeepsBills(s, e, stay);
    case MgrEntrMoves(e) => MgrEntrKeepsBills(s, table, e);
    case InsideMoves(x) => InsideKeepsBills(s, x);
    case SimExitMoves(x) => SimExitKeepsBills(s, x);
    case MgrExitMoves(x) => MgrExitKeepsBills(s, x);
    case ReaderMoves(l) => ReaderKeepsBills(s, l);
    case Tick(ms) => AsideKeepsBills(s, Do(s, table, act));
    case SimTick(ms) => AsideKeepsBills(s, Do(s, table, act));
  }

  lemma InitBills()
    ensures BillsOK(Init())
  {
    forall st ensures Total(Init().exts, Charged, st) == 0 { TotalZero(Init().exts, Charged, st); }
  }

  /** The charge written for a departure, in milliseconds. */
  function BilledFor(c: Charge): nat { Billing.BilledMs(c.left, Billing.Arrival16(c.stub.arrived)) }

  /** Every charge is for the true stay, plus 65536 ms for each time the 16-bit arrival had wrapped;
      the unsigned subtraction never underflows. */
  lemma ChargeIsStay(s: State, i: nat)
    requires BillsOK(s) && i < |s.charges| && s.clock < TWO_TO_THE_64
    ensures var c := s.charges[i];
      BilledFor(c) == (c.left - c.stub.arrived) + 65536 * (c.stub.arrived / 65536)
  {
    Billing.BilledTime(s.charges[i].stub.arrived, s.charges[i].left);
  }
}
