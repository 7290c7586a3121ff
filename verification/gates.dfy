/** Boom gates: the handshake between one manager thread and one simulator thread, and the
    emergency opening. Each lock-protected section of the C code is one step; a thread whose
    condition wait does not hold stays where it is. */
module Gates {
  import opened Fairness

  /** The status character of a gate: closed, raising, open, lowering. */
  datatype Status = C | R | O | L

  /** sim_gates, lines 475-477: the simulator waits while the gate is at rest. */
  predicate SimWaits(status: Status) { status.O? || status.C? }

  /** sim_gates, lines 478-484: finish whichever movement is under way. */
  function SimMove(status: Status): Status { if status.L? then C else O }

  // ----- normal operation -----

  /** Where m_sim_gates stands. */
  datatype Manager = Calling | AwaitOpen | AwaitClosed | Returned

  /** Where the simulator thread stands: raising loop, car driving through, lowering loop. */
  datatype Simulator = Raising | Driving | Lowering | Through

  datatype Shared = Shared(status: Status, manager: Manager, simulator: Simulator)

  datatype Thread = ManagerThread | SimulatorThread

  function ManagerStep(g: Shared): Shared {
    match g.manager
    case Calling => if g.status.C? then g.(status := R, manager := AwaitOpen) else g.(manager := Returned)
    case AwaitOpen => if g.status.O? then g.(status := L, manager := AwaitClosed) else g
    case AwaitClosed => if g.status.C? then g.(manager := Returned) else g
    case Returned => g
  }

  function SimulatorStep(g: Shared): Shared {
    match g.simulator
    case Raising =>
      if SimWaits(g.status) then g
      else g.(status := SimMove(g.status), simulator := if SimMove(g.status).O? then Driving else Raising)
    case Driving => g.(simulator := Lowering)
    case Lowering =>
      if SimWaits(g.status) then g
      else g.(status := SimMove(g.status), simulator := if SimMove(g.status).C? then Through else Lowering)
    case Through => g
  }

  function Step(g: Shared, t: Thread): Shared {
    if t.ManagerThread? then ManagerStep(g) else SimulatorStep(g)
  }

  const START := Shared(C, Calling, Raising)

  /** The status seen from both program counters. */
  predicate InStep(g: Shared) {
    match g.manager
    case Calling => g.status.C? && g.simulator.Raising?
    case AwaitOpen => if g.simulator.Raising? then g.status.R? else g.status.O? && !g.simulator.Through?
    case AwaitClosed => if g.simulator.Through? then g.status.C? else g.status.L? && !g.simulator.Raising?
    case Returned => g.status.C? && g.simulator.Through?
  }

  /** A gate as the two threads update it. `manager` and `simulator` say where they stand; every
      method is one lock-protected section, called when its wait is over. */
  class Gate {
    var status: Status
    ghost var manager: Manager
    ghost var simulator: Simulator

    ghost function View(): Shared reads this { Shared(status, manager, simulator) }

    ghost predicate Valid() reads this { InStep(View()) }

    constructor ()
      ensures Valid() && View() == START
    {
      status, manager, simulator := C, Calling, Raising;
    }

    /** m_sim_gates, lines 102-105: the call always finds the gate closed, so it never returns early. */
    method Raise() returns (raised: bool)
      requires Valid() && manager.Calling?
      modifies this
      ensures Valid() && View() == ManagerStep(old(View()))
      ensures raised && status == R && manager.AwaitOpen?
    {
      raised := status == C;
      if raised {
        status := R;
        manager := AwaitOpen;
      }
    }

    /** m_sim_gates, lines 112-113. */
    method Lower()
      requires Valid() && manager.AwaitOpen? && status == O
      modifies this
      ensures Valid() && View() == ManagerStep(old(View())) && status == L
    {
      status := L;
      manager := AwaitClosed;
    }

    /** The simulator's car has driven through the open gate. */
    ghost method DriveThrough()
      requires Valid() && simulator.Driving?
      modifies this
      ensures Valid() && View() == SimulatorStep(old(View()))
    {
      simulator := Lowering;
    }

    /** sim_gates, once woken. Either polling loop of the simulator ends at its first woken call:
        the raising loop is handed 'O', the lowering loop 'C'. */
    method SimGates() returns (r: Status)
      requires Valid() && (simulator.Raising? || simulator.Lowering?) && !SimWaits(status)
      modifies this
      ensures Valid() && View() == SimulatorStep(old(View()))
      ensures r == status && manager == old(manager)
      ensures old(simulator).Raising? ==> r == O && simulator.Driving?
      ensures old(simulator).Lowering? ==> r == C && simulator.Through?
    {
      if status == L {
        status := C;
        simulator := Through;
      } else {
        status := O;
        simulator := Driving;
      }
      r := status;
    }
  }

  /** A call of m_sim_gates on a gate that is not closed returns at once and leaves the gate alone. */
  lemma CallOnOtherGate(g: Shared)
    requires g.manager.Calling? && !g.status.C?
    ensures ManagerStep(g) == g.(manager := Returned)
  {
  }

  predicate Finished(g: Shared) { g.manager.Returned? && g.simulator.Through? }

  function Rank(g: Shared): nat {
    (match g.manager case Calling => 3 case AwaitOpen => 2 case AwaitClosed => 1 case Returned => 0)
    + (match g.simulator case Raising => 3 case Driving => 2 case Lowering => 1 case Through => 0)
  }

  function Mover(g: Shared): Thread {
    if g.manager.Calling? || (g.manager.AwaitOpen? && g.status.O?) || (g.manager.AwaitClosed? && g.status.C?)
    then ManagerThread else SimulatorThread
  }

  /** Every step keeps the two threads in step, and the status only goes C, R, O, L, C, with the
      manager making the first and third move and the simulator the other two. */
  lemma HandshakeStep(g: Shared, t: Thread)
    requires InStep(g)
    ensures InStep(Step(g, t))
    ensures var s, s' := g.status, Step(g, t).status;
      s' == s || if t.ManagerThread? then (s.C? && s'.R?) || (s.O? && s'.L?) else (s.R? && s'.O?) || (s.L? && s'.C?)
    ensures Step(g, t) == g || Rank(Step(g, t)) < Rank(g)
    ensures !Finished(g) ==> Step(g, Mover(g)) != g
  {
  }

  /** Every fair run of one cycle ends with both sides finished and the gate closed; no schedule
      gets stuck, and m_sim_gates never takes its early way out. */
  lemma HandshakeCompletes(sched: nat -> Thread)
    requires Fair(sched)
    ensures exists n: nat :: Trace(Step, START, sched, n) == Shared(C, Returned, Through)
  {
    forall g: Shared, t: Thread | InStep(g)
      ensures InStep(Step(g, t)) && (Step(g, t) == g || Rank(Step(g, t)) < Rank(g))
    {
      HandshakeStep(g, t);
    }
    var n := Completes(Step, InStep, Rank, Finished, Mover, START, sched, 0);
    RankFalls(Step, InStep, Rank, START, sched, n, n);
    assert Trace(Step, START, sched, n) == Shared(C, Returned, Through);
  }

  /** At every point of every run the threads are in step. */
  lemma HandshakeAlways(sched: nat -> Thread, n: nat)
    ensures InStep(Trace(Step, START, sched, n))
  {
    forall g: Shared, t: Thread | InStep(g)
      ensures InStep(Step(g, t)) && (Step(g, t) == g || Rank(Step(g, t)) < Rank(g))
    {
      HandshakeStep(g, t);
    }
    RankFalls(Step, InStep, Rank, START, sched, n, n);
  }

  // ----- emergency -----

  /** Where thf_boomAlarm stands: in its loop, about to open with the lock held, returned. */
  datatype Boom = BLoop | BOpening | BDone

  datatype Alarmed = Alarmed(status: Status, openerDone: bool, boom: Boom)

  datatype AlarmThread = Opener | BoomAlarm

  /** openboomgate, its wait re-checking the status. The lock is taken while the other thread
      is opening. */
  function OpenerStep(g: Alarmed): Alarmed {
    if g.openerDone || g.boom.BOpening? then g
    else match g.status
      case O => g.(openerDone := true)
      case C => g.(status := R)
      case R => g
      case L => g
  }

  /** thf_boomAlarm: turn a lowering gate round, wait for a raising one, then open it. */
  function BoomStep(g: Alarmed): Alarmed {
    match g.boom
    case BLoop =>
      (match g.status
       case R => g.(boom := BOpening)
       case L => g.(status := R, boom := BOpening)
       case O => g
       case C => g)
    case BOpening => g.(status := O, boom := BDone)
    case BDone => g
  }

  function AlarmStep(g: Alarmed, t: AlarmThread): Alarmed {
    if t.Opener? then OpenerStep(g) else BoomStep(g)
  }

  predicate AlarmInv(g: Alarmed) {
    && (g.openerDone ==> g.status.O?)
    && (g.boom.BOpening? ==> g.status.R?)
    && (g.boom.BDone? ==> g.status.O?)
  }

  function AlarmRank(g: Alarmed): nat {
    (match g.status case C => 3 case L => 3 case R => 2 case O => 0)
    + (if g.openerDone then 0 else 1)
    + (match g.boom case BLoop => 2 case BOpening => 1 case BDone => 0)
  }

  predicate BothReturned(g: Alarmed) { g.openerDone && g.boom.BDone? }

  /** Not stuck for good: returned, or able to return. */
  predicate Settled(g: Alarmed) { g.openerDone && (g.boom.BDone? || (g.status.O? && g.boom.BLoop?)) }

  function AlarmMover(g: Alarmed): AlarmThread {
    if g.boom.BOpening? || (g.boom.BLoop? && (g.status.R? || g.status.L?)) then BoomAlarm else Opener
  }

  /** In an emergency the gate only ever moves towards open, O never left: the opener raises a closed
      gate, thf_boomAlarm turns a lowering one round, opening it at its next move, and opens a raising
      one. */
  lemma AlarmOnlyOpens(g: Alarmed, t: AlarmThread)
    requires AlarmInv(g)
    ensures AlarmInv(AlarmStep(g, t))
    ensures var s, s' := g.status, AlarmStep(g, t).status;
      s' == s || ((s.C? || s.L?) && s'.R?) || (s.R? && s'.O?)
    ensures g.status.C? && AlarmStep(g, t).status.R? ==> t.Opener?
    ensures (g.status.L? && AlarmStep(g, t).status.R?) || (g.status.R? && AlarmStep(g, t).status.O?) ==> t.BoomAlarm?
    ensures g.status.L? && g.boom.BLoop? && t.BoomAlarm? ==> AlarmStep(AlarmStep(g, t), t).status.O?
    ensures AlarmStep(g, t) == g || AlarmRank(AlarmStep(g, t)) < AlarmRank(g)
    ensures !Settled(g) ==> AlarmStep(g, AlarmMover(g)) != g
  {
  }

  lemma AlarmLowers()
    ensures Lowers(AlarmStep, AlarmInv, AlarmRank)
    ensures Helps(AlarmStep, AlarmInv, Settled, AlarmMover)
  {
    forall g: Alarmed, t: AlarmThread | AlarmInv(g)
      ensures AlarmInv(AlarmStep(g, t)) && (AlarmStep(g, t) == g || AlarmRank(AlarmStep(g, t)) < AlarmRank(g))
    {
      AlarmOnlyOpens(g, t);
    }
  }

  /** A gate open when the alarm threads start leaves thf_boomAlarm waiting for good. */
  lemma {:induction false} OpenGateStrandsBoom(sched: nat -> AlarmThread, n: nat)
    ensures var g := Trace(AlarmStep, Alarmed(O, false, BLoop), sched, n); g.status.O? && g.boom.BLoop?
  {
    if n > 0 { OpenGateStrandsBoom(sched, n - 1); }
  }

  /** From any other status thf_boomAlarm never waits on an open gate. */
  lemma {:induction false} BoomOpensItself(start: Status, sched: nat -> AlarmThread, n: nat)
    requires !start.O?
    ensures var g := Trace(AlarmStep, Alarmed(start, false, BLoop), sched, n); g.status.O? ==> g.boom.BDone?
  {
    if n > 0 { BoomOpensItself(start, sched, n - 1); }
  }

  ghost predicate OpenFrom(s: Alarmed, sched: nat -> AlarmThread, n: nat) {
    forall m: nat :: m >= n ==> Trace(AlarmStep, s, sched, m).status.O?
  }

  /** Emergency convergence. From every status every fair run opens the gate and it stays open;
      both threads return if and only if the gate was not already open. */
  lemma EmergencyOpens(start: Status, sched: nat -> AlarmThread)
    requires Fair(sched)
    ensures exists n: nat :: OpenFrom(Alarmed(start, false, BLoop), sched, n)
    ensures (exists n: nat :: BothReturned(Trace(AlarmStep, Alarmed(start, false, BLoop), sched, n))) <==> !start.O?
  {
    var s := Alarmed(start, false, BLoop);
    AlarmLowers();
    var k := Completes(AlarmStep, AlarmInv, AlarmRank, Settled, AlarmMover, s, sched, 0);
    RankFalls(AlarmStep, AlarmInv, AlarmRank, s, sched, k, k);
    forall m: nat | m >= k ensures Trace(AlarmStep, s, sched, m).status.O? {
      OpenStays(s, sched, k, m);
    }
    assert OpenFrom(s, sched, k);
    if start.O? {
      forall n: nat ensures !BothReturned(Trace(AlarmStep, s, sched, n)) {
        OpenGateStrandsBoom(sched, n);
      }
    } else {
      BoomOpensItself(start, sched, k);
      assert BothReturned(Trace(AlarmStep, s, sched, k));
    }
  }

  lemma {:induction false} OpenStays(s: Alarmed, sched: nat -> AlarmThread, k: nat, m: nat)
    requires k <= m && Trace(AlarmStep, s, sched, k).status.O? && AlarmInv(Trace(AlarmStep, s, sched, k))
    ensures Trace(AlarmStep, s, sched, m).status.O? && AlarmInv(Trace(AlarmStep, s, sched, m))
    decreases m
  {
    if m > k {
      OpenStays(s, sched, k, m - 1);
      AlarmOnlyOpens(Trace(AlarmStep, s, sched, m - 1), sched(m - 1));
    }
  }
}
