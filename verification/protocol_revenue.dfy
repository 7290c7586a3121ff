/** From the gates to the printed total: the revenue file a run leaves behind and what reading it
    back adds up to. */
module ProtocolRevenue {
  import opened Parking
  import opened LinkedList
  import opened Counting
  import opened Protocol
  import opened ProtocolLocal
  import opened ProtocolBills
  import opened ProtocolSafety
  import opened Billing
  import Decimal
  import opened Wrappers

  // ----- only permitted cars are charged -----

  ghost predicate PermittedOnly(s: State, table: set<Plate>) {
    && (forall i :: 0 <= i < |s.carList| ==> s.carList[i].stub.plate in table)
    && (forall i :: 0 <= i < |s.charges| ==> s.charges[i].stub.plate in table)
  }

  lemma ManagerKeepsPermitted(s: State, table: set<Plate>, x: nat)
    requires Inv(s, table) && PermittedOnly(s, table) && x < EXITS && MgrExitEnabled(s.exts[x])
    ensures PermittedOnly(MgrExitStep(s, x), table)
  {
    var a := s.exts[x];
    if a.mgr.NBill? {
      assert MgrHolds(a);
      CountFinds(s.carList, VehicleStub, a.mgr.v.stub);
    } else if a.mgr.NDelete? {
      var j := Lookup(s, a.plate);
      if j < |s.carList| {
        var vs := Without(s.carList, j);
        forall i | 0 <= i < |vs| ensures vs[i].stub.plate in table {
          assert vs[i] == s.carList[if i < j then i else i + 1];
        }
      }
    }
  }

  lemma StepKeepsPermitted(s: State, table: set<Plate>, act: Action)
    requires Inv(s, table) && PermittedOnly(s, table) && Enabled(s, act)
    ensures PermittedOnly(Do(s, table, act), table)
  {
    var s' := Do(s, table, act);
    match act
    case MgrExitMoves(x) => ManagerKeepsPermitted(s, table, x);
    case MgrEntrMoves(e) =>
      if s.ents[e].mgr.MTimed? { assert LetIn(s.ents[e].mgr, s.ents[e].mgr.stub.plate); }
    case ReaderMoves(l) =>
    case _ => assert s'.carList == s.carList && s'.charges == s.charges;
  }

  /** Every car on record or charged in any run is of a permitted plate. */
  lemma {:induction false} RunPermitted(states: seq<State>, acts: seq<Action>, table: set<Plate>, i: nat)
    requires IsRun(states, acts, table) && i < |states|
    ensures PermittedOnly(states[i], table)
  {
    if i > 0 {
      RunPermitted(states, acts, table, i - 1);
      RunInv(states, acts, table, i - 1);
      assert Follows(states[i - 1], states[i - 1 + 1], acts[i - 1], table);
      StepKeepsPermitted(states[i - 1], table, acts[i - 1]);
    }
  }

  // ----- the file -----

  /** A plate as printed. */
  function Text(p: Plate): string {
    seq(|p|, i requires 0 <= i < |p| => if p[i] >= 0 then p[i] as char else (p[i] as int + 256) as char)
  }

  function BillOf(c: Charge): Bill { Bill(Text(c.stub.plate), CENTS_PER_MS * BilledFor(c)) }

  /** The bills appended to the revenue file, in order. */
  function BillsOf(cs: seq<Charge>): (bs: seq<Bill>)
    ensures |bs| == |cs| && forall k :: 0 <= k < |cs| ==> bs[k] == BillOf(cs[k])
  {
    seq(|cs|, i requires 0 <= i < |cs| => BillOf(cs[i]))
  }

  /** Milliseconds charged: the stay, and 65536 for every overflow of the arrival clock. */
  function ChargedMs(c: Charge): int {
    c.left - c.stub.arrived + 65536 * (c.stub.arrived / 65536)
  }

  function CentsDue(cs: seq<Charge>): int {
    if cs == [] then 0 else CENTS_PER_MS * ChargedMs(cs[0]) + CentsDue(cs[1..])
  }

  /** A charge whose line reads back in full. */
  predicate Survives(ms: int) {
    || ms < 2_000_000_000
    || (ms < 20_000_000_000 && ms % 2 == 0)
    || (ms < 2_000_000_000_000 && ms % 20 == 0)
  }

  lemma SurvivesExactly(ms: nat)
    ensures Recovered(CENTS_PER_MS * ms) == CENTS_PER_MS * ms <==> Survives(ms)
  {
    FiveTimes(ms, ms / 2, ms % 2, 10);
    FiveTimes(ms, ms / 20, ms % 20, 100);
    RecoveredExactly(CENTS_PER_MS * ms);
  }

  lemma FiveTimes(ms: nat, q: nat, r: nat, d: nat)
    requires (d == 10 || d == 100) && 5 * r < d && 5 * ms == d * q + 5 * r
    ensures (5 * ms) % d == 5 * r
  {
    if d == 10 {
      assert (5 * ms) / 10 == q;
    } else {
      assert (5 * ms) / 100 == q;
    }
  }

  lemma {:induction false} ChargedIsDue(cs: seq<Charge>)
    requires forall k :: 0 <= k < |cs| ==> BilledFor(cs[k]) == ChargedMs(cs[k])
    ensures TotalCharged(BillsOf(cs)) == CentsDue(cs)
  {
    if cs != [] {
      ChargedIsDue(cs[1..]);
      assert BillsOf(cs)[1..] == BillsOf(cs[1..]);
    }
  }

  /** What print_revenue makes of the file of any run: never more than the cents due for every stay,
      and exactly those if and only if every charge's line reads back in full; so always during the
      first two thousand million milliseconds, about 23 days. */
  lemma RevenueOfRun(states: seq<State>, acts: seq<Action>, table: set<Plate>, i: nat)
    requires IsRun(states, acts, table) && i < |states| && states[i].clock < TWO_TO_THE_64
    requires forall p :: p in table ==> IsPlateText(Text(p))
    ensures var s := states[i]; var total := RevenueIn(FileOf(BillsOf(s.charges)));
      && total <= CentsDue(s.charges)
      && (total == CentsDue(s.charges) <==> forall k :: 0 <= k < |s.charges| ==> Survives(ChargedMs(s.charges[k])))
      && (s.clock < 2_000_000_000 ==> total == CentsDue(s.charges))
  {
    var s := states[i];
    RunInv(states, acts, table, i);
    RunPermitted(states, acts, table, i);
    var bills := BillsOf(s.charges);
    FileReadsBack(bills);
    RevenueIsExact(bills);
    forall k | 0 <= k < |s.charges|
      ensures BilledFor(s.charges[k]) == ChargedMs(s.charges[k]) <= s.clock
      ensures Recovered(bills[k].cents) == bills[k].cents <==> Survives(ChargedMs(s.charges[k]))
    {
      ChargeIsStay(s, k);
      SurvivesExactly(BilledFor(s.charges[k]));
    }
    ChargedIsDue(s.charges);
  }

  /** The file of any run is a faithful account of it: one line for each charge, in the order they were
      made, with the characters of the plate charged and five cents for every millisecond. */
  lemma FileOfRun(states: seq<State>, acts: seq<Action>, table: set<Plate>, i: nat)
    requires IsRun(states, acts, table) && i < |states| && states[i].clock < TWO_TO_THE_64
    requires forall p :: p in table ==> IsPlateText(Text(p))
    ensures var cs := states[i].charges; var lines := Lines(FileOf(BillsOf(cs)));
      && |lines| == |cs|
      && forall k | 0 <= k < |cs| :: ShowsCharge(lines[k], cs[k])
  {
    var s := states[i];
    RunInv(states, acts, table, i);
    RunPermitted(states, acts, table, i);
    var bills := BillsOf(s.charges);
    FileKeepsBills(bills);
    var lines := Lines(FileOf(bills));
    forall k | 0 <= k < |s.charges| ensures ShowsCharge(lines[k], s.charges[k]) {
      ChargeIsStay(s, k);
      LineOfCharge(lines[k], s.charges[k]);
    }
  }

  lemma LineOfCharge(line: string, c: Charge)
    requires LineShows(line, BillOf(c)) && BilledFor(c) == ChargedMs(c)
    ensures ShowsCharge(line, c)
  {
    var text := Text(c.stub.plate);
    assert forall i :: 0 <= i < 6 ==> line[i] == line[..6][i] == text[i];
  }

  /** The line starts with the plate, character by character (negative ones as 256 more), and shows the
      amount due. */
  predicate ShowsCharge(line: string, c: Charge) {
    && |line| >= 12
    && (forall i :: 0 <= i < 6 ==> line[i] as int == c.stub.plate[i] as int + if c.stub.plate[i] < 0 then 256 else 0)
    && line[6] == ' ' && line[7] == '$'
    && Decimal.Atof(line[8..]) ==
         5 * (c.left - c.stub.arrived + 65536 * (c.stub.arrived / 65536))
  }
}
