/** What the screens say: every verdict of an entrance's manager, over every run, as the character
    that stands on the screen when the manager waits for the next car. */
module ProtocolScreen {
  import opened Parking
  import opened Levels
  import LinkedList
  import opened Protocol
  import opened ProtocolSafety

  const ROOM_OR_FULL := {'1', '2', '3', '4', '5', 'F'}

  /** Whatever happens, the manager's next verdict is one of `verdicts`. */
  predicate Awaits(a: Entrance, table: set<Plate>, verdicts: set<char>) {
    match a.mgr
    case MWait => false
    case MRead(p) => p !in table && 'X' in verdicts
    case MAllowed(_) => ROOM_OR_FULL <= verdicts
    case MDenied => 'X' in verdicts
    case MFull => 'F' in verdicts
    case MCounted(_, l) => '1' + l as char in verdicts
    case _ => a.display in verdicts
  }

  predicate Verdict(a: Entrance, verdicts: set<char>) { a.mgr.MWait? && a.display in verdicts }

  lemma OwnVerdict(s: State, table: set<Plate>, a: Entrance, verdicts: set<char>)
    requires Shape(s) && MgrEntrEnabled(a) && Awaits(a, table, verdicts)
    ensures var b := MgrEntrLocal(s, table, a); Awaits(b, table, verdicts) || Verdict(b, verdicts)
  {
    if a.mgr.MAllowed? && HasRoom(s) {
      var l := NextLevel(s.counters);
      assert '1' + l as char in ROOM_OR_FULL;
    }
  }

  /** The other threads leave an entrance's manager and screen alone. */
  lemma OthersLeaveScreen(s: State, table: set<Plate>, act: Action, e: nat)
    requires Shape(s) && Enabled(s, act) && e < ENTRANCES && act != MgrEntrMoves(e)
    ensures var a, b := s.ents[e], Do(s, table, act).ents[e]; b.mgr == a.mgr && b.display == a.display
  {
    if !act.CreatorMoves? && !act.SimEntrMoves? && !act.MgrEntrMoves? {
      assert Do(s, table, act).ents == s.ents;
    }
  }

  lemma AwaitsStep(s: State, table: set<Plate>, act: Action, e: nat, verdicts: set<char>)
    requires Shape(s) && Enabled(s, act) && e < ENTRANCES && Awaits(s.ents[e], table, verdicts)
    ensures var b := Do(s, table, act).ents[e]; Awaits(b, table, verdicts) || Verdict(b, verdicts)
  {
    if act == MgrEntrMoves(e) {
      OwnVerdict(s, table, s.ents[e], verdicts);
    } else {
      OthersLeaveScreen(s, table, act, e);
    }
  }

  /** State `j` is the first after `i` in which the manager of entrance `e` waits for a car. */
  ghost predicate FirstWait(states: seq<State>, e: nat, i: nat, j: nat) {
    && i < j < |states| && (forall k :: i < k <= j ==> e < |states[k].ents|)
    && states[j].ents[e].mgr.MWait? && forall k :: i < k < j ==> !states[k].ents[e].mgr.MWait?
  }

  lemma {:induction false} VerdictShown(states: seq<State>, acts: seq<Action>, table: set<Plate>,
      e: nat, i: nat, j: nat, verdicts: set<char>)
    requires IsRun(states, acts, table) && e < ENTRANCES && FirstWait(states, e, i, j)
    requires var a := states[i + 1].ents[e]; Awaits(a, table, verdicts) || Verdict(a, verdicts)
    ensures states[j].ents[e].display in verdicts
    decreases j - i
  {
    if i + 1 < j {
      assert Follows(states[i + 1], states[i + 1 + 1], acts[i + 1], table);
      AwaitsStep(states[i + 1], table, acts[i + 1], e, verdicts);
      VerdictShown(states, acts, table, e, i + 1, j, verdicts);
    }
  }

  ghost predicate Listed(s: State, p: Plate) { exists k :: 0 <= k < |s.carList| && s.carList[k].stub.plate == p }

  lemma ListedKeys(s: State, p: Plate)
    ensures Listed(s, p) <==> p in LinkedList.Keys(s.carList, VehiclePlate)
  {
    var keys := LinkedList.Keys(s.carList, VehiclePlate);
    if p in keys {
      var k :| 0 <= k < |keys| && keys[k] == p;
      assert s.carList[k].stub.plate == p;
    }
    if k :| 0 <= k < |s.carList| && s.carList[k].stub.plate == p { assert keys[k] == p; }
  }

  /** A plate that is not permitted is shown 'X', from wherever its reading stands. */
  lemma UnpermittedShownX(states: seq<State>, acts: seq<Action>, table: set<Plate>, e: nat, i: nat, j: nat, p: Plate)
    requires IsRun(states, acts, table) && e < ENTRANCES && FirstWait(states, e, i, j)
    requires e < |states[i].ents| && states[i].ents[e].mgr == MRead(p) && p !in table
    ensures states[j].ents[e].display == 'X'
  {
    assert Follows(states[i], states[i + 1], acts[i], table);
    AwaitsStep(states[i], table, acts[i], e, {'X'});
    VerdictShown(states, acts, table, e, i, j, {'X'});
  }

  /** When the manager looks a plate up, its next verdict is 'X' if and only if the plate is not
      permitted or already on record. */
  lemma LookupVerdict(states: seq<State>, acts: seq<Action>, table: set<Plate>, e: nat, i: nat, j: nat, p: Plate)
    requires IsRun(states, acts, table) && e < ENTRANCES && FirstWait(states, e, i, j) && i < |acts|
    requires e < |states[i].ents| && states[i].ents[e].mgr == MRead(p) && acts[i] == MgrEntrMoves(e)
    ensures states[j].ents[e].display == 'X' <==> p !in table || Listed(states[i], p)
  {
    assert Follows(states[i], states[i + 1], acts[i], table);
    ListedKeys(states[i], p);
    VerdictShown(states, acts, table, e, i, j, if p !in table || Listed(states[i], p) then {'X'} else ROOM_OR_FULL);
  }

  /** When the manager counts, its next verdict is 'F' if the car park holds fifty cars, and otherwise
      the digit one above the level: levels 0 to 4 are dealt round from level 1 on. */
  lemma CountVerdict(states: seq<State>, acts: seq<Action>, table: set<Plate>, e: nat, i: nat, j: nat, p: Plate)
    requires IsRun(states, acts, table) && e < ENTRANCES && FirstWait(states, e, i, j) && i < |acts|
    requires e < |states[i].ents| && states[i].ents[e].mgr == MAllowed(p) && acts[i] == MgrEntrMoves(e)
    ensures var m := states[i].counters.m;
      if m == 50 then states[j].ents[e].display == 'F' else states[j].ents[e].display as int == 49 + (m + 1) % 5
  {
    RunInv(states, acts, table, i);
    assert Follows(states[i], states[i + 1], acts[i], table);
    var m := states[i].counters.m;
    var verdict := if m == 50 then 'F' else '1' + ((m + 1) % 5) as char;
    VerdictShown(states, acts, table, e, i, j, {verdict});
  }
}
