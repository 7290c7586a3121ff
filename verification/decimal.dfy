/** Decimal numerals: what printf writes and atof reads back. */
module Decimal {

  predicate IsDigit(c: char) { '0' <= c <= '9' }

  function DigitOf(n: nat): char requires n < 10 { '0' + n as char }

  function ValueOf(c: char): nat requires IsDigit(c) { (c - '0') as nat }

  predicate AllDigits(s: string) { forall i :: 0 <= i < |s| ==> IsDigit(s[i]) }

  function Pow10(k: nat): (p: nat) ensures p >= 1 { if k == 0 then 1 else 10 * Pow10(k - 1) }

  /** A natural number in decimal, without leading zeros. */
  function Digits(n: nat): (s: string)
    ensures |s| >= 1 && AllDigits(s)
  {
    if n < 10 then [DigitOf(n)] else Digits(n / 10) + [DigitOf(n % 10)]
  }

  function Value(s: string): nat
    requires AllDigits(s)
  {
    if s == [] then 0 else 10 * Value(s[..|s| - 1]) + ValueOf(s[|s| - 1])
  }

  lemma {:induction false} ValueOfDigits(n: nat)
    ensures Value(Digits(n)) == n
  {
    var s := Digits(n);
    if n < 10 {
      assert s[..0] == [];
    } else {
      ValueOfDigits(n / 10);
      assert s[..|s| - 1] == Digits(n / 10);
    }
  }

  /** The first `j` digits of `n` are `n` with its other digits dropped. */
  lemma {:induction false} ValueOfPrefix(n: nat, j: nat)
    requires j <= |Digits(n)|
    ensures Value(Digits(n)[..j]) == n / Pow10(|Digits(n)| - j)
  {
    var s := Digits(n);
    if j == |s| {
      assert s[..j] == s;
      ValueOfDigits(n);
    } else if n < 10 {
      assert Pow10(1) == 10;
    } else {
      ValueOfPrefix(n / 10, j);
      assert s[..j] == Digits(n / 10)[..j];
      DivideTwice(n, Pow10(|s| - 1 - j));
    }
  }

  lemma {:induction false} Times(k: nat, d: nat, e: nat)
    requires d >= e
    ensures k * d >= k * e
  {
    if k > 0 { Times(k - 1, d, e); }
  }

  lemma Quotient(n: int, d: int, q: int, r: int)
    requires d > 0 && n == q * d + r && 0 <= r < d
    ensures n / d == q
  {
    var q', r' := n / d, n % d;
    assert (q' - q) * d == r - r';
    if q' > q { Times(d, q' - q, 1); } else if q' < q { Times(d, q - q', 1); }
  }

  lemma DivideTwice(n: nat, p: nat)
    requires p >= 1
    ensures n / 10 / p == n / (10 * p)
  {
    var q, r := n / 10, n % 10;
    var a, b := q / p, q % p;
    assert n == 10 * (a * p + b) + r;
    assert a * (10 * p) == 10 * (a * p);
    Quotient(n, 10 * p, a, 10 * b + r);
  }

  lemma {:induction false} DigitsLength(n: nat, k: nat)
    requires k >= 1
    ensures |Digits(n)| <= k <==> n < Pow10(k)
  {
    if n >= 10 {
      if k > 1 { DigitsLength(n / 10, k - 1); }
      assert Pow10(1) == 10;
    } else {
      PowMonotone(1, k);
      assert Pow10(1) == 10;
    }
  }

  lemma {:induction false} PowMonotone(a: nat, b: nat)
    requires a <= b
    ensures Pow10(a) <= Pow10(b)
  {
    if a < b { PowMonotone(a, b - 1); }
  }

  /** How many digits `s` starts with. */
  function Leading(s: string): (k: nat)
    ensures k <= |s| && AllDigits(s[..k])
    ensures k < |s| ==> !IsDigit(s[k])
  {
    if s == [] || !IsDigit(s[0]) then 0
    else var k := 1 + Leading(s[1..]);
      assert s[..k] == [s[0]] + s[1..][..k - 1];
      k
  }

  lemma LeadingIs(s: string, k: nat)
    requires k <= |s| && AllDigits(s[..k]) && (k < |s| ==> !IsDigit(s[k]))
    ensures Leading(s) == k
  {
    assert forall i :: 0 <= i < k ==> s[..k][i] == s[i];
    assert forall i :: 0 <= i < Leading(s) ==> s[..Leading(s)][i] == s[i];
  }

  /** Cents after the decimal point; digits beyond the second do not occur in a bill and are dropped. */
  function Fraction(s: string): nat {
    var m := Leading(s);
    (if m >= 1 then 10 * Digit(s, 0) else 0) + (if m >= 2 then Digit(s, 1) else 0)
  }

  function Digit(s: string, i: nat): nat
    requires i < Leading(s)
  {
    assert s[..Leading(s)][i] == s[i];
    ValueOf(s[i])
  }

  /** atof, in cents: an integer part and, after a point, hundredths. */
  function Atof(s: string): nat {
    var k := Leading(s);
    100 * Value(s[..k]) + if k < |s| && s[k] == '.' then Fraction(s[k + 1..]) else 0
  }

  /** "%0.2f" of an amount in cents. */
  function Amount(cents: nat): string {
    Digits(cents / 100) + "." + Hundredths(cents)
  }

  /** `n` without its last `k` digits. */
  function DropDigits(n: nat, k: nat): nat {
    QuotientIsNoMore(n, Pow10(k));
    n / Pow10(k)
  }

  /** What reading only the first `j` characters of an amount gives. */
  function Reread(cents: nat, j: nat): nat {
    var n, d := cents / 100, |Digits(cents / 100)|;
    if j >= d + 3 then cents
    else if j == d + 2 then cents / 10 * 10
    else if j >= d then n * 100
    else 100 * DropDigits(n, d - j)
  }

  lemma AtofPrefix(cents: nat, j: nat)
    requires j <= |Amount(cents)|
    ensures Atof(Amount(cents)[..j]) == Reread(cents, j)
  {
    var ds := Digits(cents / 100);
    if j <= |ds| {
      assert Amount(cents)[..j] == ds[..j];
      AtofDollars(cents, j);
    } else {
      AmountSlice(ds, Hundredths(cents), j - |ds| - 1);
      AtofDecimals(cents, j - |ds| - 1);
    }
  }

  lemma AmountSlice(ds: string, f: string, m: nat)
    requires m <= |f|
    ensures (ds + "." + f)[..|ds| + 1 + m] == ds + "." + f[..m]
  {
  }

  /** The first `j` digits of the dollars. */
  lemma AtofDollars(cents: nat, j: nat)
    requires j <= |Digits(cents / 100)|
    ensures Atof(Digits(cents / 100)[..j]) == Reread(cents, j)
  {
    AtofWhole(cents / 100, j);
    assert Pow10(0) == 1;
  }

  /** The dollars, the point and the first `m` decimals. */
  lemma AtofDecimals(cents: nat, m: nat)
    requires m <= 2
    ensures Atof(Digits(cents / 100) + "." + Hundredths(cents)[..m]) == Reread(cents, |Digits(cents / 100)| + 1 + m)
  {
    AtofSplit(Digits(cents / 100), Hundredths(cents)[..m]);
    ValueOfDigits(cents / 100);
    FractionPrefix(cents, m);
    Places(cents);
  }

  lemma Places(cents: nat)
    ensures 100 * (cents / 100) + cents % 100 == cents
    ensures 100 * (cents / 100) + cents % 100 / 10 * 10 == cents / 10 * 10
  {
    var n, r := cents / 100, cents % 100;
    var t, u := r / 10, r % 10;
    Quotient(cents, 10, 10 * n + t, u);
  }

  lemma AtofWhole(n: nat, j: nat)
    requires j <= |Digits(n)|
    ensures Atof(Digits(n)[..j]) == 100 * (n / Pow10(|Digits(n)| - j))
  {
    var t := Digits(n)[..j];
    assert t[..j] == t;
    LeadingIs(t, j);
    ValueOfPrefix(n, j);
  }

  function Hundredths(cents: nat): string {
    [DigitOf(cents % 100 / 10), DigitOf(cents % 10)]
  }

  lemma AtofSplit(ds: string, f: string)
    requires AllDigits(ds)
    ensures Atof(ds + "." + f) == 100 * Value(ds) + Fraction(f)
  {
    var t := ds + "." + f;
    assert t[..|ds|] == ds && t[|ds| + 1..] == f && t[|ds|] == '.';
    LeadingIs(t, |ds|);
  }

  /** atof stops at the first character that is neither a digit, of codes 48 to 57, nor the point. */
  lemma AtofStops(ds: string, c: char, rest: string)
    requires forall i :: 0 <= i < |ds| ==> 48 <= ds[i] as int <= 57
    requires (c as int < 48 || 57 < c as int) && c != '.'
    ensures AllDigits(ds) && Atof(ds + [c] + rest) == 100 * Value(ds)
  {
    var t := ds + [c] + rest;
    assert t[..|ds|] == ds && t[|ds|] == c;
    LeadingIs(t, |ds|);
  }

  lemma FractionPrefix(cents: nat, m: nat)
    requires m <= 2
    ensures Fraction(Hundredths(cents)[..m]) ==
      if m == 0 then 0 else if m == 1 then cents % 100 / 10 * 10 else cents % 100
  {
    var f := Hundredths(cents)[..m];
    assert f[..m] == f;
    LeadingIs(f, m);
  }

  lemma QuotientIsNoMore(n: nat, p: nat)
    requires p >= 1
    ensures 0 <= n / p <= n
  {
    var q := n / p;
    assert q * p <= n;
    Times(q, p, 1);
  }

  lemma RereadIsNoMore(cents: nat, j: nat)
    ensures Reread(cents, j) <= cents
  {
    var n, d := cents / 100, |Digits(cents / 100)|;
    if j < d {
      QuotientIsNoMore(n, Pow10(d - j));
      assert DropDigits(n, d - j) <= n;
    }
  }

  /** Reading the first 11 characters of an amount recovers it exactly when nothing but trailing
      zeros (or the point) is cut off. */
  lemma RereadEleven(cents: nat)
    ensures Reread(cents, 11) == cents <==>
      || cents < 100_000_000_00
      || (cents < 1_000_000_000_00 && cents % 10 == 0)
      || (cents < 100_000_000_000_00 && cents % 100 == 0)
  {
    var n, d := cents / 100, |Digits(cents / 100)|;
    Powers();
    DigitsLength(n, 8);
    DigitsLength(n, 9);
    DigitsLength(n, 11);
    Places(cents);
    if d > 11 { DropShrinks(n, d - 11); }
  }

  lemma DropShrinks(n: nat, k: nat)
    requires n > 0 && k > 0
    ensures DropDigits(n, k) < n
  {
    PowMonotone(1, k);
    assert Pow10(1) == 10;
    Shrinks(n, Pow10(k));
  }

  lemma Powers()
    ensures Pow10(8) == 100_000_000 && Pow10(9) == 1_000_000_000 && Pow10(11) == 100_000_000_000
  {
    assert Pow10(4) == 10_000;
    assert Pow10(8) == 10_000 * Pow10(4);
  }

  lemma Shrinks(n: nat, p: nat)
    requires n > 0 && p >= 10
    ensures n / p < n
  {
    var q := n / p;
    assert q * p <= n;
    Times(q, p, 10);
  }
}
