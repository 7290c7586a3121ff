/** Charging a car and adding up the revenue file (manager.c lines 163-164, 229-241, 377-411).
    Amounts are whole cents: RATE, 0.05 a millisecond, is 5 cents. */
module Billing {
  import opened Decimal
  import opened Stdio
  import opened Wrappers

  const CENTS_PER_MS := 5
  const BUFFER := 20

  /** The clock as stored in the 16-bit `arrival` field. */
  function Arrival16(elapsed: nat): nat { elapsed % 65536 }

  /** `runtime.elapsed - car->arrival`, in unsigned 64-bit arithmetic. */
  function BilledMs(now: nat, arrival: nat): nat { (now - arrival) % TWO_TO_THE_64 }

  /** With a clock that does not go back the subtraction does not wrap, and the car is charged for
      its stay plus 65536 ms for every time the arrival clock had overflowed 16 bits. */
  lemma BilledTime(arrived: nat, now: nat)
    requires arrived <= now < TWO_TO_THE_64
    ensures BilledMs(now, Arrival16(arrived)) == (now - arrived) + 65536 * (arrived / 65536)
    ensures BilledMs(now, Arrival16(arrived)) == now - arrived <==> arrived < 65536
  {
  }

  // ----- text -----

  predicate IsSpace(c: char) { c == ' ' || 9 as char <= c <= 13 as char }

  predicate AllPrintable(s: string) { forall i :: 0 <= i < |s| ==> !IsSpace(s[i]) }

  predicate IsPlateText(s: string) { |s| == 6 && AllPrintable(s) }

  /** How many of the first characters are spaces, or are not. */
  function Run(s: string, spaces: bool): (k: nat)
    ensures k <= |s|
    ensures forall i :: 0 <= i < k ==> IsSpace(s[i]) == spaces
    ensures k < |s| ==> IsSpace(s[k]) != spaces
  {
    if s == [] || IsSpace(s[0]) != spaces then 0 else 1 + Run(s[1..], spaces)
  }

  function Word(s: string): (r: Option<string>) {
    var t := s[Run(s, true)..];
    if Run(t, false) == 0 then None else Some(t[..Run(t, false)])
  }

  function AfterWord(s: string): string {
    var t := s[Run(s, true)..];
    t[Run(t, false)..]
  }

  /** sscanf(buff, "%*s $%s", revenue_str). */
  function Scan(buff: string): Option<string> {
    if Word(buff).None? then None
    else
      var t := AfterWord(buff)[Run(AfterWord(buff), true)..];
      if t == [] || t[0] != '$' then None else Word(t[1..])
  }

  /** What one buffer adds to the total: revenue_str is cleared before the next read. */
  function BufferValue(buff: string): nat {
    match Scan(buff) case None => 0 case Some(t) => Atof(t)
  }

  /** fgets with a 20-byte buffer: up to a newline, at most 19 characters. */
  function Fgets(text: string): (k: nat)
    ensures k <= |text| && k <= BUFFER - 1
    ensures text != [] ==> k > 0
  {
    FgetsUpTo(text, '\n', BUFFER - 1)
  }

  function RevenueIn(text: string): nat {
    if text == [] then 0
    else BufferValue(text[..Fgets(text)]) + RevenueIn(text[Fgets(text)..])
  }

  function Line(plate: string, cents: nat): string { plate + " $" + Amount(cents) + "\n" }

  datatype Bill = Bill(plate: string, cents: nat)

  function FileOf(bills: seq<Bill>): string {
    if bills == [] then [] else Line(bills[0].plate, bills[0].cents) + FileOf(bills[1..])
  }

  /** What the total gets from a bill: its first 11 characters of amount. */
  function Recovered(cents: nat): nat { Reread(cents, 11) }

  function TotalRecovered(bills: seq<Bill>): nat {
    if bills == [] then 0 else Recovered(bills[0].cents) + TotalRecovered(bills[1..])
  }

  function TotalCharged(bills: seq<Bill>): nat {
    if bills == [] then 0 else bills[0].cents + TotalCharged(bills[1..])
  }

  predicate PlatesPrint(bills: seq<Bill>) { forall i :: 0 <= i < |bills| ==> IsPlateText(bills[i].plate) }

  class RevenueFile {
    var text: string
    ghost var bills: seq<Bill>

    ghost predicate Valid() reads this { text == FileOf(bills) && PlatesPrint(bills) }

    constructor () ensures Valid() && bills == [] { text, bills := [], []; }

    /** money: append one line for the car. */
    method Money(plate: string, arrival: nat, now: nat)
      requires Valid() && IsPlateText(plate)
      modifies this
      ensures Valid() && bills == old(bills) + [Bill(plate, 5 * BilledMs(now, arrival))]
      ensures exists line :: LineShows(line, Bill(plate, 5 * BilledMs(now, arrival))) && text == old(text) + line + "\n"
    {
      var totalTime := BilledMs(now, arrival);
      var totalAmount := CENTS_PER_MS * totalTime;
      FileAppend(bills, Bill(plate, totalAmount));
      LineIsShown(Bill(plate, totalAmount), text);
      text := text + Line(plate, totalAmount);
      bills := bills + [Bill(plate, totalAmount)];
    }

    /** print_revenue: read the file back through the 20-byte buffer and add up. */
    method PrintRevenue() returns (total: nat)
      requires Valid()
      ensures total == TotalRecovered(bills)
    {
      var file := text;
      total := 0;
      while file != []
        invariant total + RevenueIn(file) == RevenueIn(text)
        decreases |file|
      {
        var n := Fgets(file);
        var buff, rest := file[..n], file[n..];
        assert RevenueIn(file) == BufferValue(buff) + RevenueIn(rest);
        var scanned := Scan(buff);
        if scanned.Some? { total := total + Atof(scanned.value); }
        file := rest;
      }
      FileReadsBack(bills);
    }
  }

  /** One read of the buffer. */
  lemma FirstBuffer(text: string, buff: string, tail: string)
    requires text == buff + tail && text != [] && Fgets(text) == |buff|
    ensures RevenueIn(text) == BufferValue(buff) + RevenueIn(tail)
  {
    assert text[..|buff|] == buff;
    assert text[|buff|..] == tail;
  }

  lemma {:induction false} FileAppend(bills: seq<Bill>, b: Bill)
    ensures FileOf(bills + [b]) == FileOf(bills) + Line(b.plate, b.cents)
  {
    if bills == [] {
      assert FileOf([b]) == Line(b.plate, b.cents) + [];
      assert [] + [b] == [b];
    } else {
      FileAppend(bills[1..], b);
      assert (bills + [b])[1..] == bills[1..] + [b];
    }
  }

  lemma RunIs(s: string, spaces: bool, k: nat)
    requires k <= |s|
    requires forall i :: 0 <= i < k ==> IsSpace(s[i]) == spaces
    requires k < |s| ==> IsSpace(s[k]) != spaces
    ensures Run(s, spaces) == k
  {
  }

  /** A buffer holding a plate, the dollar sign and part of an amount yields that part. */
  lemma ScanBill(plate: string, part: string, end: string)
    requires IsPlateText(plate) && AllPrintable(part) && part != [] && (end == [] || end == "\n")
    ensures Scan(plate + " $" + part + end) == Some(part)
  {
    var b := plate + " $" + part + end;
    RunIs(b, true, 0);
    assert b[0..] == b;
    RunIs(b, false, 6);
    var a := b[6..];
    assert a == " $" + part + end;
    RunIs(a, true, 1);
    var t := a[1..];
    assert t == "$" + part + end && t[1..] == part + end;
    var u := part + end;
    RunIs(u, true, 0);
    assert u[0..] == u;
    RunIs(u, false, |part|);
    assert u[..|part|] == part;
  }

  /** A buffer without a dollar sign adds nothing. */
  lemma ScanNoDollar(b: string)
    requires '$' !in b
    ensures Scan(b).None?
  {
    var a := AfterWord(b);
    var t := a[Run(a, true)..];
    forall i | 0 <= i < |t| ensures t[i] != '$' {
      assert t[i] == a[Run(a, true) + i];
      assert a[Run(a, true) + i] in b;
    }
  }

  lemma FgetsLine(line: string, rest: string)
    requires forall i :: 0 <= i < |line| ==> line[i] != '\n'
    ensures Fgets(line + "\n" + rest) == if |line| < BUFFER - 1 then |line| + 1 else BUFFER - 1
  {
    var text := line + "\n" + rest;
    assert text[|line|] == '\n';
    assert forall i :: 0 <= i < |line| ==> text[i] != '\n';
  }

  /** Left-overs of a split line, holding neither dollar sign nor newline, add nothing. */
  lemma {:induction false} LeftOver(line: string, rest: string)
    requires forall i :: 0 <= i < |line| ==> line[i] != '\n' && line[i] != '$'
    ensures RevenueIn(line + "\n" + rest) == RevenueIn(rest)
    decreases |line|
  {
    var text := line + "\n" + rest;
    FgetsLine(line, rest);
    var k := Fgets(text);
    ScanNoDollar(text[..k]);
    if |line| < BUFFER - 1 {
      assert text[k..] == rest;
    } else {
      assert text[k..] == line[k..] + "\n" + rest;
      LeftOver(line[k..], rest);
    }
  }

  lemma AmountPrints(cents: nat)
    ensures AllPrintable(Amount(cents)) && |Amount(cents)| >= 4
    ensures forall i :: 0 <= i < |Amount(cents)| ==> Amount(cents)[i] != '\n' && Amount(cents)[i] != '$'
  {
  }

  /** A line that fits one read. */
  lemma ShortLine(plate: string, amount: string, cents: nat, rest: string)
    requires IsPlateText(plate) && amount == Amount(cents) && |amount| < 11
    ensures RevenueIn(plate + " $" + amount + "\n" + rest) == cents + RevenueIn(rest)
  {
    AmountPrints(cents);
    var body := plate + " $" + amount;
    FgetsLine(body, rest);
    FirstBuffer(body + "\n" + rest, body + "\n", rest);
    ScanBill(plate, amount, "\n");
    AtofPrefix(cents, |amount|);
    assert amount[..|amount|] == amount;
  }

  /** A line whose amount is cut after 11 characters. */
  lemma LongLine(plate: string, amount: string, cents: nat, rest: string)
    requires IsPlateText(plate) && amount == Amount(cents) && |amount| >= 11
    ensures RevenueIn(plate + " $" + amount + "\n" + rest) == Recovered(cents) + RevenueIn(rest)
  {
    AmountPrints(cents);
    var body, part, cut := plate + " $" + amount, amount[..11], amount[11..];
    FgetsLine(body, rest);
    var buff, tail := plate + " $" + part + "", cut + "\n" + rest;
    assert body + "\n" + rest == buff + tail;
    FirstBuffer(body + "\n" + rest, buff, tail);
    ScanBill(plate, part, "");
    AtofPrefix(cents, 11);
    LeftOver(cut, rest);
  }

  /** One bill, read back through the buffer, whatever follows it. */
  lemma LineReadsBack(b: Bill, rest: string)
    requires IsPlateText(b.plate)
    ensures RevenueIn(Line(b.plate, b.cents) + rest) == Recovered(b.cents) + RevenueIn(rest)
  {
    var amount := Amount(b.cents);
    assert Line(b.plate, b.cents) + rest == b.plate + " $" + amount + "\n" + rest;
    if |amount| < 11 {
      ShortLine(b.plate, amount, b.cents, rest);
    } else {
      LongLine(b.plate, amount, b.cents, rest);
    }
  }

  lemma {:induction false} FileReadsBack(bills: seq<Bill>)
    requires PlatesPrint(bills)
    ensures RevenueIn(FileOf(bills)) == TotalRecovered(bills)
  {
    if bills != [] {
      FileReadsBack(bills[1..]);
      LineReadsBack(bills[0], FileOf(bills[1..]));
    }
  }

  /** Exactly which bills survive being printed and read back: those under 100,000,000 dollars,
      and larger ones as long as only trailing zeros of the cents, or the point, are cut off. */
  lemma RecoveredExactly(cents: nat)
    ensures Recovered(cents) == cents <==>
      || cents < 100_000_000_00
      || (cents < 1_000_000_000_00 && cents % 10 == 0)
      || (cents < 100_000_000_000_00 && cents % 100 == 0)
  {
    RereadEleven(cents);
  }

  /** No bill is ever read back as more than it was, and the printed revenue is what was charged
      if and only if every bill survives. */
  lemma {:induction false} RevenueIsExact(bills: seq<Bill>)
    ensures TotalRecovered(bills) <= TotalCharged(bills)
    ensures TotalRecovered(bills) == TotalCharged(bills) <==>
      forall i :: 0 <= i < |bills| ==> Recovered(bills[i].cents) == bills[i].cents
  {
    if bills != [] {
      RereadIsNoMore(bills[0].cents, 11);
      RevenueIsExact(bills[1..]);
      assert forall i :: 0 < i < |bills| ==> bills[i] == bills[1..][i - 1];
    }
  }

  // ----- the file as a record of the bills -----

  /** Characters before the first newline. */
  function LineLength(text: string): (k: nat)
    ensures k <= |text| && forall i :: 0 <= i < k ==> text[i] != '\n'
    ensures k < |text| ==> text[k] == '\n'
  {
    if text == [] || text[0] == '\n' then 0 else 1 + LineLength(text[1..])
  }

  /** A text split at its newlines. */
  function Lines(text: string): seq<string> {
    var k := LineLength(text);
    if text == [] then []
    else if k == |text| then [text]
    else [text[..k]] + Lines(text[k + 1..])
  }

  /** A line is a plate, a space, a dollar sign and the amount with two decimals. */
  predicate LineShows(line: string, b: Bill) {
    && |line| >= 12
    && line[..6] == b.plate && line[6] == ' ' && line[7] == '$'
    && AllDigits(line[8..|line| - 3]) && line[|line| - 3] == '.' && AllDigits(line[|line| - 2..])
    && Atof(line[8..]) == b.cents
  }

  lemma LineShowsBill(b: Bill)
    requires IsPlateText(b.plate)
    ensures LineShows(b.plate + " $" + Amount(b.cents), b)
  {
    var line, amount := b.plate + " $" + Amount(b.cents), Amount(b.cents);
    assert line[8..] == amount && amount[..|amount|] == amount;
    AtofPrefix(b.cents, |amount|);
    assert line[8..|line| - 3] == Digits(b.cents / 100);
    assert line[|line| - 2..] == Hundredths(b.cents);
    assert |Digits(b.cents / 100)| >= 1;
  }

  lemma LineIsShown(b: Bill, text: string)
    requires IsPlateText(b.plate)
    ensures exists line :: LineShows(line, b) && text + Line(b.plate, b.cents) == text + line + "\n"
  {
    LineShowsBill(b);
    var line := b.plate + " $" + Amount(b.cents);
    assert LineShows(line, b) && text + Line(b.plate, b.cents) == text + line + "\n";
  }

  lemma FirstLine(line: string, rest: string)
    requires forall i :: 0 <= i < |line| ==> line[i] != '\n'
    ensures Lines(line + "\n" + rest) == [line] + Lines(rest)
  {
    var text := line + "\n" + rest;
    assert text[|line|] == '\n';
    assert forall i :: 0 <= i < |line| ==> text[i] == line[i];
    assert LineLength(text) == |line|;
    assert text[..|line|] == line && text[|line| + 1..] == rest;
  }

  lemma BillLine(b: Bill, rest: string) returns (line: string)
    requires IsPlateText(b.plate)
    ensures LineShows(line, b) && Lines(Line(b.plate, b.cents) + rest) == [line] + Lines(rest)
  {
    line := b.plate + " $" + Amount(b.cents);
    LineShowsBill(b);
    AmountPrints(b.cents);
    assert Line(b.plate, b.cents) + rest == line + "\n" + rest;
    FirstLine(line, rest);
  }

  /** The file is a faithful record: one line for each bill, in order, with its plate and its
      amount. */
  lemma {:induction false} FileKeepsBills(bills: seq<Bill>)
    requires PlatesPrint(bills)
    ensures |Lines(FileOf(bills))| == |bills|
    ensures forall k :: 0 <= k < |bills| ==> LineShows(Lines(FileOf(bills))[k], bills[k])
  {
    if bills != [] {
      FileKeepsBills(bills[1..]);
      var line := BillLine(bills[0], FileOf(bills[1..]));
      assert forall k :: 0 < k < |bills| ==> bills[k] == bills[1..][k - 1];
    }
  }
}
