/** Endless runs of the joint system that are fair to the two threads of an entrance or an exit: every
    round ends, and every car queued there is taken in its turn. */
module ProtocolProgress {
  import opened Parking
  import opened Fairness
  import opened Protocol
  import opened ProtocolLocal
  import opened ProtocolRecords
  import opened ProtocolSafety
  import opened ProtocolVisit

  /** A thread scheduled while its wait does not hold stays where it is. */
  ghost predicate Advances(s: State, s': State, act: Action, table: set<Plate>) {
    Shape(s) && s' == if Enabled(s, act) then Do(s, table, act) else s
  }

  ghost predicate Endless(run: nat -> State, acts: nat -> Action, table: set<Plate>) {
    Reachable(run(0), table) && forall i: nat :: Advances(run(i), run(i + 1), acts(i), table)
  }

  lemma {:induction false} EndlessInv(run: nat -> State, acts: nat -> Action, table: set<Plate>, i: nat)
    requires Endless(run, acts, table)
    ensures Inv(run(i), table)
  {
    if i == 0 {
      ReachableInv(run(0), table);
    } else {
      EndlessInv(run, acts, table, i - 1);
      assert Advances(run(i - 1), run(i - 1 + 1), acts(i - 1), table);
      if Enabled(run(i - 1), acts(i - 1)) { InvStep(run(i - 1), table, acts(i - 1)); }
    }
  }

  /** Which of the two threads of an entrance or exit a step schedules. */
  datatype Side = SimulatorSide | ManagerSide | Elsewhere

  // ----- entrances -----

  function EntSide(act: Action, e: nat): Side {
    match act
    case SimEntrMoves(f, stay) => if f == e && 100 <= stay < 10000 then SimulatorSide else Elsewhere
    case MgrEntrMoves(f) => if f == e then ManagerSide else Elsewhere
    case _ => Elsewhere
  }

  /** The entrance without its queue. */
  function EntView(s: State, e: nat): Entrance {
    if e < |s.ents| then s.ents[e].(queue := []) else Init().ents[0]
  }

  function EntHelper(v: Entrance): Side { if MgrEntrEnabled(v) then ManagerSide else SimulatorSide }

  predicate EntWaits(v: Entrance) { v.sim.SWait? }

  /** Its own thread's step, with a car in hand. */
  lemma SimEntrLowers(s: State, table: set<Plate>, e: nat, stay: nat)
    requires Inv(s, table) && e < ENTRANCES && !s.ents[e].sim.SWait? && SimEntrEnabled(s.ents[e], stay)
    ensures EntRank(EntView(SimEntrStep(s, e, stay), e)) < EntRank(EntView(s, e))
  {
    var a := s.ents[e];
    assert EntOK(a) && ExtOK(s.exts[0]);
    RoundsEnd(a, s.exts[0], s, table, stay);
    SameRank(a, SimEntrLocal(a, s.simClock, stay));
  }

  lemma MgrEntrLowers(s: State, table: set<Plate>, e: nat)
    requires Inv(s, table) && e < ENTRANCES && MgrEntrEnabled(s.ents[e])
    ensures EntRank(EntView(MgrEntrStep(s, table, e), e)) < EntRank(EntView(s, e))
  {
    var a := s.ents[e];
    assert EntOK(a) && ExtOK(s.exts[0]);
    RoundsEnd(a, s.exts[0], s, table, 100);
    SameRank(a, MgrEntrLocal(s, table, a));
  }

  predicate EntMoves(act: Action, e: nat) {
    (act.SimEntrMoves? && act.e == e) || (act.MgrEntrMoves? && act.e == e)
  }

  /** A step of the whole system leaves an entrance with a car in hand alone or lowers its rank. */
  lemma EntStep(s: State, table: set<Plate>, act: Action, e: nat)
    requires Inv(s, table) && Enabled(s, act) && e < ENTRANCES && !s.ents[e].sim.SWait?
    ensures var v, v' := EntView(s, e), EntView(Do(s, table, act), e);
      if EntMoves(act, e) then EntRank(v') < EntRank(v) else v' == v
  {
    if !EntMoves(act, e) {
      OthersLeaveEntrance(s, table, act, e);
    } else if act.SimEntrMoves? {
      SimEntrLowers(s, table, e, act.stay);
    } else {
      MgrEntrLowers(s, table, e);
    }
  }

  lemma SameRank(a: Entrance, b: Entrance)
    ensures EntRank(a.(queue := [])) == EntRank(a) && EntRank(b.(queue := [])) == EntRank(b)
  {
  }

  lemma OthersLeaveEntrance(s: State, table: set<Plate>, act: Action, e: nat)
    requires Shape(s) && Enabled(s, act) && e < ENTRANCES && !EntMoves(act, e)
    ensures EntView(Do(s, table, act), e) == EntView(s, e)
  {
  }

  /** The helper of an entrance can move. */
  lemma EntHelperMoves(s: State, table: set<Plate>, act: Action, e: nat)
    requires Inv(s, table) && e < ENTRANCES && !s.ents[e].sim.SWait? && EntSide(act, e) == EntHelper(EntView(s, e))
    ensures Enabled(s, act)
  {
    assert EntOK(s.ents[e]) && ExtOK(s.exts[0]);
    if act.SimEntrMoves? { RoundsEnd(s.ents[e], s.exts[0], s, table, act.stay); }
  }

  ghost predicate EntTurn(acts: nat -> Action, e: nat, side: Side, n: nat) {
    exists m: nat :: m >= n && EntSide(acts(m), e) == side
  }

  /** Both threads of entrance `e` are scheduled again and again. */
  ghost predicate FairToEntrance(acts: nat -> Action, e: nat) {
    forall n: nat :: EntTurn(acts, e, SimulatorSide, n) && EntTurn(acts, e, ManagerSide, n)
  }

  /** Every round of an entrance ends: from any state of the run its thread comes back to waiting for
      the next car. */
  lemma EntranceRoundEnds(run: nat -> State, acts: nat -> Action, table: set<Plate>, e: nat, n: nat) returns (k: nat)
    requires Endless(run, acts, table) && e < ENTRANCES && FairToEntrance(acts, e)
    ensures k >= n && e < |run(k).ents| && run(k).ents[e].sim.SWait?
  {
    var view, who := (i: nat) => EntView(run(i), e), (i: nat) => EntSide(acts(i), e);
    forall i: nat | !EntWaits(view(i))
      ensures view(i + 1) == view(i) || EntRank(view(i + 1)) < EntRank(view(i))
      ensures who(i) == EntHelper(view(i)) ==> view(i + 1) != view(i)
    {
      EndlessInv(run, acts, table, i);
      assert Advances(run(i), run(i + 1), acts(i), table);
      if who(i) == EntHelper(view(i)) { EntHelperMoves(run(i), table, acts(i), e); }
      if Enabled(run(i), acts(i)) { EntStep(run(i), table, acts(i), e); }
    }
    assert Sinks(view, EntRank, EntWaits, n);
    assert Moves(view, who, EntHelper, EntWaits, n);
    forall v: Entrance, m: nat ensures RunsAfter(who, EntHelper(v), m) {
      FairSides(acts, e, EntHelper(v), m);
    }
    k := Settles(view, who, EntRank, EntWaits, EntHelper, n);
    EndlessInv(run, acts, table, k);
  }

  lemma FairSides(acts: nat -> Action, e: nat, side: Side, m: nat)
    requires FairToEntrance(acts, e) && side != Elsewhere
    ensures RunsAfter((i: nat) => EntSide(acts(i), e), side, m)
  {
    assert EntTurn(acts, e, SimulatorSide, m) && EntTurn(acts, e, ManagerSide, m);
    var j: nat :| j >= m && EntSide(acts(j), e) == side;
    assert ((i: nat) => EntSide(acts(i), e))(j) == side;
  }

  // ----- service at an entrance -----

  function EntQueue(s: State, e: nat): seq<Car> { if e < |s.ents| then s.ents[e].queue else [] }

  /** The step that takes the next car. */
  predicate EntPops(s: State, act: Action, e: nat) {
    EntWaits(EntView(s, e)) && EntQueue(s, e) != [] && act.SimEntrMoves? && act.e == e
  }

  lemma SimEntrQueue(s: State, e: nat, stay: nat)
    requires Shape(s) && e < ENTRANCES && SimEntrEnabled(s.ents[e], stay)
    ensures var a, b := s.ents[e], SimEntrStep(s, e, stay).ents[e];
      if a.sim.SWait? then a.queue != [] && b.queue == a.queue[1..] && b.sim == SPopped(a.queue[0])
      else b.queue == a.queue
  {
  }

  lemma MgrEntrQueue(s: State, table: set<Plate>, e: nat)
    requires Shape(s) && e < ENTRANCES && MgrEntrEnabled(s.ents[e])
    ensures var a, b := s.ents[e], MgrEntrStep(s, table, e).ents[e]; b.queue == a.queue && b.sim == a.sim
  {
  }

  lemma OthersAppend(s: State, table: set<Plate>, act: Action, e: nat)
    requires Shape(s) && Enabled(s, act) && e < ENTRANCES && !EntMoves(act, e)
    ensures EntQueue(s, e) <= EntQueue(Do(s, table, act), e)
  {
    if act.CreatorMoves? || act.SimEntrMoves? || act.MgrEntrMoves? {
    } else {
      assert Do(s, table, act).ents == s.ents;
    }
  }

  lemma EntQueueStep(s: State, s': State, table: set<Plate>, act: Action, e: nat)
    requires Advances(s, s', act, table) && Shape(s') && e < ENTRANCES
    ensures QueueStep(EntQueue(s, e), EntQueue(s', e), EntWaits(EntView(s, e)), EntWaits(EntView(s', e)),
                      EntPops(s, act, e), EntSide(act, e) == SimulatorSide)
    ensures EntPops(s, act, e) ==> s'.ents[e].sim == SPopped(EntQueue(s, e)[0])
  {
    if Enabled(s, act) {
      if act.SimEntrMoves? && act.e == e {
        SimEntrQueue(s, e, act.stay);
      } else if act.MgrEntrMoves? && act.e == e {
        MgrEntrQueue(s, table, e);
      } else {
        OthersAppend(s, table, act, e);
        OthersLeaveEntrance(s, table, act, e);
      }
    }
  }

  /** No car waits at an entrance for ever: each car of the queue is taken in its turn. */
  lemma EntranceServes(run: nat -> State, acts: nat -> Action, table: set<Plate>, e: nat, n: nat, j: nat)
    returns (k: nat)
    requires Endless(run, acts, table) && e < ENTRANCES && FairToEntrance(acts, e)
    requires e < |run(n).ents| && j < |run(n).ents[e].queue|
    ensures k > n && e < |run(k).ents| && run(k).ents[e].sim == SPopped(run(n).ents[e].queue[j])
  {
    var q, idle := (i: nat) => EntQueue(run(i), e), (i: nat) => EntWaits(EntView(run(i), e));
    var pops, turn := (i: nat) => EntPops(run(i), acts(i), e), (i: nat) => EntSide(acts(i), e) == SimulatorSide;
    forall i: nat ensures QueueStep(q(i), q(i + 1), idle(i), idle(i + 1), pops(i), turn(i)) {
      EndlessInv(run, acts, table, i + 1);
      assert Advances(run(i), run(i + 1), acts(i), table);
      EntQueueStep(run(i), run(i + 1), table, acts(i), e);
    }
    forall m: nat ensures HoldsAfter(idle, m) && HoldsAfter(turn, m) {
      var i := EntranceRoundEnds(run, acts, table, e, m);
      assert idle(i);
      assert EntTurn(acts, e, SimulatorSide, m);
      var t: nat :| t >= m && EntSide(acts(t), e) == SimulatorSide;
      assert turn(t);
    }
    var i := ServedInTurn(q, idle, pops, turn, n, j);
    EndlessInv(run, acts, table, i + 1);
    assert Advances(run(i), run(i + 1), acts(i), table);
    EntQueueStep(run(i), run(i + 1), table, acts(i), e);
    k := i + 1;
  }

  // ----- exits -----

  function ExtSide(act: Action, x: nat): Side {
    match act
    case SimExitMoves(y) => if y == x then SimulatorSide else Elsewhere
    case MgrExitMoves(y) => if y == x then ManagerSide else Elsewhere
    case _ => Elsewhere
  }

  /** The exit without its queue. */
  function ExtView(s: State, x: nat): Exit {
    if x < |s.exts| then s.exts[x].(queue := []) else Init().exts[0]
  }

  function ExtHelper(v: Exit): Side { if MgrExitEnabled(v) then ManagerSide else SimulatorSide }

  predicate ExtWaits(v: Exit) { v.sim.XWait? }

  lemma SameExtRank(a: Exit, b: Exit)
    ensures ExtRank(a.(queue := [])) == ExtRank(a) && ExtRank(b.(queue := [])) == ExtRank(b)
  {
  }

  lemma SimExitLowers(s: State, table: set<Plate>, x: nat)
    requires Inv(s, table) && x < EXITS && !s.exts[x].sim.XWait? && SimExitEnabled(s.exts[x])
    ensures ExtRank(ExtView(SimExitStep(s, x), x)) < ExtRank(ExtView(s, x))
  {
    var b := s.exts[x];
    assert EntOK(s.ents[0]) && ExtOK(b);
    RoundsEnd(s.ents[0], b, s, table, 100);
    SameExtRank(b, SimExitLocal(b));
  }

  lemma MgrExitLowers(s: State, table: set<Plate>, x: nat)
    requires Inv(s, table) && x < EXITS && MgrExitEnabled(s.exts[x])
    ensures ExtRank(ExtView(MgrExitStep(s, x), x)) < ExtRank(ExtView(s, x))
  {
    var b := s.exts[x];
    assert EntOK(s.ents[0]) && ExtOK(b);
    RoundsEnd(s.ents[0], b, s, table, 100);
    SameExtRank(b, MgrExitLocal(s, b));
  }

  predicate ExtMoves(act: Action, x: nat) {
    (act.SimExitMoves? && act.x == x) || (act.MgrExitMoves? && act.x == x)
  }

  lemma OthersLeaveExit(s: State, table: set<Plate>, act: Action, x: nat)
    requires Shape(s) && Enabled(s, act) && x < EXITS && !ExtMoves(act, x)
    ensures ExtView(Do(s, table, act), x) == ExtView(s, x) && ExtQueue(s, x) <= ExtQueue(Do(s, table, act), x)
  {
    if act.InsideMoves? || act.SimExitMoves? || act.MgrExitMoves? {
    } else {
      assert Do(s, table, act).exts == s.exts;
    }
  }

  /** A step of the whole system leaves an exit with a car in hand alone or lowers its rank. */
  lemma ExtStep(s: State, table: set<Plate>, act: Action, x: nat)
    requires Inv(s, table) && Enabled(s, act) && x < EXITS && !s.exts[x].sim.XWait?
    ensures var v, v' := ExtView(s, x), ExtView(Do(s, table, act), x);
      if ExtMoves(act, x) then ExtRank(v') < ExtRank(v) else v' == v
  {
    if !ExtMoves(act, x) {
      OthersLeaveExit(s, table, act, x);
    } else if act.SimExitMoves? {
      SimExitLowers(s, table, x);
    } else {
      MgrExitLowers(s, table, x);
    }
  }

  /** The helper of an exit can move. */
  lemma ExtHelperMoves(s: State, table: set<Plate>, act: Action, x: nat)
    requires Inv(s, table) && x < EXITS && !s.exts[x].sim.XWait? && ExtSide(act, x) == ExtHelper(ExtView(s, x))
    ensures Enabled(s, act)
  {
    assert EntOK(s.ents[0]) && ExtOK(s.exts[x]);
    if act.SimExitMoves? { RoundsEnd(s.ents[0], s.exts[x], s, table, 100); }
  }

  ghost predicate ExtTurn(acts: nat -> Action, x: nat, side: Side, n: nat) {
    exists m: nat :: m >= n && ExtSide(acts(m), x) == side
  }

  /** Both threads of exit `x` are scheduled again and again. */
  ghost predicate FairToExit(acts: nat -> Action, x: nat) {
    forall n: nat :: ExtTurn(acts, x, SimulatorSide, n) && ExtTurn(acts, x, ManagerSide, n)
  }

  lemma FairExtSides(acts: nat -> Action, x: nat, side: Side, m: nat)
    requires FairToExit(acts, x) && side != Elsewhere
    ensures RunsAfter((i: nat) => ExtSide(acts(i), x), side, m)
  {
    assert ExtTurn(acts, x, SimulatorSide, m) && ExtTurn(acts, x, ManagerSide, m);
    var j: nat :| j >= m && ExtSide(acts(j), x) == side;
    assert ((i: nat) => ExtSide(acts(i), x))(j) == side;
  }

  /** Every round of an exit ends: from any state of the run its thread comes back to waiting for the
      next car, the one before having driven out. */
  lemma ExitRoundEnds(run: nat -> State, acts: nat -> Action, table: set<Plate>, x: nat, n: nat) returns (k: nat)
    requires Endless(run, acts, table) && x < EXITS && FairToExit(acts, x)
    ensures k >= n && x < |run(k).exts| && run(k).exts[x].sim.XWait?
  {
    var view, who := (i: nat) => ExtView(run(i), x), (i: nat) => ExtSide(acts(i), x);
    forall i: nat | !ExtWaits(view(i))
      ensures view(i + 1) == view(i) || ExtRank(view(i + 1)) < ExtRank(view(i))
      ensures who(i) == ExtHelper(view(i)) ==> view(i + 1) != view(i)
    {
      EndlessInv(run, acts, table, i);
      assert Advances(run(i), run(i + 1), acts(i), table);
      if who(i) == ExtHelper(view(i)) { ExtHelperMoves(run(i), table, acts(i), x); }
      if Enabled(run(i), acts(i)) { ExtStep(run(i), table, acts(i), x); }
    }
    assert Sinks(view, ExtRank, ExtWaits, n);
    assert Moves(view, who, ExtHelper, ExtWaits, n);
    forall v: Exit, m: nat ensures RunsAfter(who, ExtHelper(v), m) {
      FairExtSides(acts, x, ExtHelper(v), m);
    }
    k := Settles(view, who, ExtRank, ExtWaits, ExtHelper, n);
    EndlessInv(run, acts, table, k);
  }

  // ----- service at an exit -----

  function ExtQueue(s: State, x: nat): seq<Ride> { if x < |s.exts| then s.exts[x].queue else [] }

  /** The step that takes the next car. */
  predicate ExtPops(s: State, act: Action, x: nat) {
    ExtWaits(ExtView(s, x)) && ExtQueue(s, x) != [] && act.SimExitMoves? && act.x == x
  }

  lemma SimExitQueue(s: State, x: nat)
    requires Shape(s) && x < EXITS && SimExitEnabled(s.exts[x])
    ensures var a, b := s.exts[x], SimExitStep(s, x).exts[x];
      if a.sim.XWait? then a.queue != [] && b.queue == a.queue[1..] && b.sim == XPopped(a.queue[0])
      else b.queue == a.queue
  {
  }

  lemma MgrExitQueue(s: State, x: nat)
    requires Shape(s) && x < EXITS && MgrExitEnabled(s.exts[x])
    ensures var a, b := s.exts[x], MgrExitStep(s, x).exts[x]; b.queue == a.queue && b.sim == a.sim
  {
  }

  lemma ExtQueueStep(s: State, s': State, table: set<Plate>, act: Action, x: nat)
    requires Advances(s, s', act, table) && Shape(s') && x < EXITS
    ensures QueueStep(ExtQueue(s, x), ExtQueue(s', x), ExtWaits(ExtView(s, x)), ExtWaits(ExtView(s', x)),
                      ExtPops(s, act, x), ExtSide(act, x) == SimulatorSide)
    ensures ExtPops(s, act, x) ==> s'.exts[x].sim == XPopped(ExtQueue(s, x)[0])
  {
    if Enabled(s, act) {
      if act.SimExitMoves? && act.x == x {
        SimExitQueue(s, x);
      } else if act.MgrExitMoves? && act.x == x {
        MgrExitQueue(s, x);
      } else {
        OthersLeaveExit(s, table, act, x);
      }
    }
  }

  /** No car waits at an exit for ever. */
  lemma ExitServes(run: nat -> State, acts: nat -> Action, table: set<Plate>, x: nat, n: nat, j: nat)
    returns (k: nat)
    requires Endless(run, acts, table) && x < EXITS && FairToExit(acts, x)
    requires x < |run(n).exts| && j < |run(n).exts[x].queue|
    ensures k > n && x < |run(k).exts| && run(k).exts[x].sim == XPopped(run(n).exts[x].queue[j])
  {
    var q, idle := (i: nat) => ExtQueue(run(i), x), (i: nat) => ExtWaits(ExtView(run(i), x));
    var pops, turn := (i: nat) => ExtPops(run(i), acts(i), x), (i: nat) => ExtSide(acts(i), x) == SimulatorSide;
    forall i: nat ensures QueueStep(q(i), q(i + 1), idle(i), idle(i + 1), pops(i), turn(i)) {
      EndlessInv(run, acts, table, i + 1);
      assert Advances(run(i), run(i + 1), acts(i), table);
      ExtQueueStep(run(i), run(i + 1), table, acts(i), x);
    }
    forall m: nat ensures HoldsAfter(idle, m) && HoldsAfter(turn, m) {
      var i := ExitRoundEnds(run, acts, table, x, m);
      assert idle(i);
      assert ExtTurn(acts, x, SimulatorSide, m);
      var t: nat :| t >= m && ExtSide(acts(t), x) == SimulatorSide;
      assert turn(t);
    }
    var i := ServedInTurn(q, idle, pops, turn, n, j);
    EndlessInv(run, acts, table, i + 1);
    assert Advances(run(i), run(i + 1), acts(i), table);
    ExtQueueStep(run(i), run(i + 1), table, acts(i), x);
    k := i + 1;
  }
}
