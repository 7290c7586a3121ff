/** Level capacity in the joint system. While records are right, every run counts cars in and out of
    levels as the books of module Levels do, whatever the interleaving. */
module ProtocolCapacity {
  import opened Parking
  import opened Wrappers
  import opened Levels
  import opened Protocol
  import opened ProtocolLocal
  import opened ProtocolRecords
  import opened ProtocolCounts
  import opened ProtocolLevels
  import opened ProtocolSafety

  predicate CountsInNow(s: State, act: Action)
    requires Shape(s) && Enabled(s, act)
  {
    act.MgrEntrMoves? && CountsIn(s, s.ents[act.e])
  }

  predicate CountsOutNow(s: State, act: Action)
    requires Shape(s) && Enabled(s, act)
  {
    act.MgrExitMoves? && s.exts[act.x].mgr.NWait?
  }

  /** One car counted into the level chosen. */
  lemma StepIn(s: State, table: set<Plate>, act: Action)
    requires Inv(s, table) && Enabled(s, act) && CountsInNow(s, act)
    ensures Do(s, table, act).counters == CountIn(s.counters)
    ensures PerLevel(Do(s, table, act)) == Plus(PerLevel(s), NextLevel(s.counters), 1)
  {
    MgrEntrLevels(s, table, act.e);
  }

  /** One car counted out of its own level. */
  lemma StepOut(s: State, table: set<Plate>, act: Action) returns (l: Lvl)
    requires Inv(s, table) && LevelsHold(s.carList) && Enabled(s, act) && CountsOutNow(s, act)
    ensures PerLevel(s)[l] > 0 && Do(s, table, act).counters == CountOut(s.counters, l)
    ensures PerLevel(Do(s, table, act)) == Plus(PerLevel(s), l, -1)
  {
    ExitLookup(s, act.x);
    MgrExitLevels(s, act.x);
    l := s.exts[act.x].sim.ride.lvl;
  }

  /** Everything else leaves counters and levels alone. */
  lemma StepAside(s: State, table: set<Plate>, act: Action)
    requires Inv(s, table) && Enabled(s, act) && !CountsInNow(s, act) && !CountsOutNow(s, act)
    ensures Do(s, table, act).counters == s.counters && PerLevel(Do(s, table, act)) == PerLevel(s)
  {
    match act
    case CreatorMoves(p, e) =>
      if s.creator.CListed? { QueueKeepsCounts(s, e, s.creator.car); } else { SameKeepsCounts(s, Do(s, table, act)); }
    case SimEntrMoves(e, stay) => SimEntrKeepsCounts(s, e, stay);
    case MgrEntrMoves(e) => MgrEntrLevels(s, table, e);
    case InsideMoves(x) => InsideKeepsCounts(s, x);
    case SimExitMoves(x) => SimExitKeepsCounts(s, x);
    case MgrExitMoves(x) => MgrExitLevels(s, x);
    case ReaderMoves(l) => SameKeepsCounts(s, Do(s, table, act));
    case Tick(ms) => SameKeepsCounts(s, Do(s, table, act));
    case SimTick(ms) => SameKeepsCounts(s, Do(s, table, act));
  }

  /** Counters and cars per level move as one event of the books would move them. */
  predicate Accounts(c: Counters, n: seq<int>, c': Counters, n': seq<int>, e: Option<Event>)
    requires c.Valid() && |n| == LEVELS
  {
    match e
    case None => c' == c && n' == n
    case Some(CarIn) => c' == CountIn(c) && n' == Plus(n, NextLevel(c), 1)
    case Some(CarOut(l)) => l < LEVELS && n[l] > 0 && c' == CountOut(c, l) && n' == Plus(n, l, -1)
  }

  /** Each step of the joint system is an event of the books or none. */
  lemma StepAccounts(s: State, table: set<Plate>, act: Action) returns (e: Option<Event>)
    requires Inv(s, table) && LevelsHold(s.carList) && Enabled(s, act)
    ensures Accounts(s.counters, PerLevel(s), Do(s, table, act).counters, PerLevel(Do(s, table, act)), e)
    ensures e == Some(CarIn) <==> CountsInNow(s, act)
  {
    if CountsInNow(s, act) {
      StepIn(s, table, act);
      e := Some(CarIn);
    } else if CountsOutNow(s, act) {
      var l := StepOut(s, table, act);
      e := Some(CarOut(l));
    } else {
      StepAside(s, table, act);
      e := None;
    }
  }

  // ----- runs in which the records are right -----

  /** The exact condition of ProtocolSafety.LevelsExactly. */
  ghost predicate OwnReadings(states: seq<State>, acts: seq<Action>)
    requires |states| == |acts| + 1
  {
    forall i :: 0 <= i < |acts| ==> OwnReading(states[i], acts[i])
  }

  lemma RunAccounts(states: seq<State>, acts: seq<Action>, table: set<Plate>, i: nat) returns (e: Option<Event>)
    requires IsRun(states, acts, table) && i < |acts| && OwnReadings(states, acts)
    ensures states[i].counters.Valid()
    ensures Accounts(states[i].counters, PerLevel(states[i]), states[i + 1].counters, PerLevel(states[i + 1]), e)
    ensures e == Some(CarIn) && !ChosenHasRoom(states[i].counters) <==> !FindsRoom(states[i], acts[i])
  {
    RunInv(states, acts, table, i);
    OwnReadingsHold(states, acts, table, i);
    assert Follows(states[i], states[i + 1], acts[i], table);
    e := StepAccounts(states[i], table, acts[i]);
  }

  lemma AccountsBounded(c: Counters, n: seq<int>, c': Counters, n': seq<int>, e: Option<Event>)
    requires c.Valid() && |n| == LEVELS && TrackersBounded(c.t, n) && Accounts(c, n, c', n', e)
    ensures |c'.t| == |n'| == LEVELS && TrackersBounded(c'.t, n')
  {
    match e
    case None =>
    case Some(CarIn) => CountInBounded(c, n);
    case Some(CarOut(l)) => CountOutBounded(c, n, l);
  }

  lemma InitBounded()
    ensures TrackersBounded(Init().counters.t, PerLevel(Init()))
  {
    InitCounts();
  }

  /** While records are right no tracker exceeds the cars really counted on its level. */
  lemma {:induction false} TrackersAreBounded(states: seq<State>, acts: seq<Action>, table: set<Plate>, i: nat)
    requires IsRun(states, acts, table) && i < |states| && OwnReadings(states, acts)
    ensures |states[i].counters.t| == LEVELS && TrackersBounded(states[i].counters.t, PerLevel(states[i]))
  {
    if i == 0 {
      InitBounded();
    } else {
      TrackersAreBounded(states, acts, table, i - 1);
      BoundedNext(states, acts, table, i - 1);
    }
  }

  lemma BoundedNext(states: seq<State>, acts: seq<Action>, table: set<Plate>, i: nat)
    requires IsRun(states, acts, table) && i < |acts| && OwnReadings(states, acts)
    requires |states[i].counters.t| == LEVELS && TrackersBounded(states[i].counters.t, PerLevel(states[i]))
    ensures |states[i + 1].counters.t| == LEVELS && TrackersBounded(states[i + 1].counters.t, PerLevel(states[i + 1]))
  {
    var e := RunAccounts(states, acts, table, i);
    var s, s' := states[i], states[i + 1];
    AccountsBounded(s.counters, PerLevel(s), s'.counters, PerLevel(s'), e);
  }

  // ----- capacity -----

  ghost predicate Overfull(s: State) { exists l: Lvl :: PerLevel(s)[l] > LEVEL_CAPACITY }

  /** car_count, if this is its step, finds the tracker of the level it chooses below capacity. */
  predicate FindsRoom(s: State, act: Action) {
    Shape(s) && Enabled(s, act) && CountsInNow(s, act) ==> ChosenHasRoom(s.counters)
  }

  lemma AccountsTrue(c: Counters, n: seq<int>, c': Counters, n': seq<int>, e: Option<Event>)
    requires c.Valid() && |n| == LEVELS && c.t == n && Accounts(c, n, c', n', e)
    ensures e == Some(CarIn) && !ChosenHasRoom(c) ==> n'[NextLevel(c)] > LEVEL_CAPACITY
    ensures !(e == Some(CarIn) && !ChosenHasRoom(c)) ==> c'.t == n'
  {
  }

  /** Until a tracker is found full, the trackers are the true numbers of cars. */
  lemma {:induction false} TrueSoFar(states: seq<State>, acts: seq<Action>, table: set<Plate>, i: nat)
    requires IsRun(states, acts, table) && i < |states| && OwnReadings(states, acts)
    requires forall k :: 0 <= k < i ==> FindsRoom(states[k], acts[k])
    ensures states[i].counters.t == PerLevel(states[i])
  {
    if i == 0 {
      InitCounts();
    } else {
      TrueSoFar(states, acts, table, i - 1);
      var e := RunAccounts(states, acts, table, i - 1);
      var s, s' := states[i - 1], states[i - 1 + 1];
      AccountsTrue(s.counters, PerLevel(s), s'.counters, PerLevel(s'), e);
    }
  }

  lemma FullTrackerOverfills(states: seq<State>, acts: seq<Action>, table: set<Plate>, i: nat)
    requires IsRun(states, acts, table) && i < |acts| && OwnReadings(states, acts)
    requires (forall k :: 0 <= k < i ==> FindsRoom(states[k], acts[k])) && !FindsRoom(states[i], acts[i])
    ensures Overfull(states[i + 1])
  {
    TrueSoFar(states, acts, table, i);
    var e := RunAccounts(states, acts, table, i);
    var s, s' := states[i], states[i + 1];
    AccountsTrue(s.counters, PerLevel(s), s'.counters, PerLevel(s'), e);
    var l: Lvl := NextLevel(s.counters);
    assert PerLevel(s')[l] > LEVEL_CAPACITY;
  }

  lemma {:induction false} FirstFull(states: seq<State>, acts: seq<Action>, i: nat) returns (j: nat)
    requires i < |acts| < |states| && !FindsRoom(states[i], acts[i])
    ensures j < |acts| && !FindsRoom(states[j], acts[j]) && forall k :: 0 <= k < j ==> FindsRoom(states[k], acts[k])
  {
    if k: nat :| k < i && !FindsRoom(states[k], acts[k]) {
      j := FirstFull(states, acts, k);
    } else {
      j := i;
    }
  }

  /** The manager's promise about levels, over every interleaving in which records are right: no
      level ever has more than ten cars counted on it if and only if car_count always found the
      tracker of the level it chose below capacity. */
  lemma CapacityExactly(states: seq<State>, acts: seq<Action>, table: set<Plate>)
    requires IsRun(states, acts, table) && OwnReadings(states, acts)
    ensures (forall i :: 0 <= i < |states| ==> !Overfull(states[i])) <==>
      (forall i :: 0 <= i < |acts| ==> FindsRoom(states[i], acts[i]))
  {
    if forall i :: 0 <= i < |acts| ==> FindsRoom(states[i], acts[i]) {
      forall i | 0 <= i < |states| ensures !Overfull(states[i]) {
        TrueSoFar(states, acts, table, i);
        TrackersStayInRange(states, acts, table, i);
      }
    } else {
      var i: nat :| i < |acts| && !FindsRoom(states[i], acts[i]);
      var j := FirstFull(states, acts, i);
      FullTrackerOverfills(states, acts, table, j);
    }
  }
}
