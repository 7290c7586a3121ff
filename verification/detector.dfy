/** The two alarm tests of firealarm.c (lines 59-128), defined over the whole history of
    samples read so far, oldest first, and what they say about the raw samples. */
module Detector {
  import opened Sorting

  const MEDIAN_WINDOW := 5
  const TEMPCHANGE_WINDOW := 30
  const HIGH_TEMPERATURE := 58
  const HIGH_ENOUGH := 27
  const RISE := 8

  /** The newest `k` elements (or all of them), newest first. */
  function Newest(s: seq<int>, k: nat): seq<int> {
    seq(if |s| < k then |s| else k, i requires 0 <= i < |s| => s[|s| - 1 - i])
  }

  function MedianAt(h: seq<int>, n: nat): int
    requires 4 <= n < |h|
  {
    Median(Newest(h[..n + 1], MEDIAN_WINDOW))
  }

  /** Every median taken so far, oldest first: none for the first four samples. */
  function Medians(h: seq<int>): seq<int> {
    seq(if |h| < 4 then 0 else |h| - 4, i requires 0 <= i < |h| - 4 => MedianAt(h, i + 4))
  }

  function MedianList(h: seq<int>): seq<int> { Newest(Medians(h), TEMPCHANGE_WINDOW) }

  predicate FixedFires(h: seq<int>) {
    |MedianList(h)| == TEMPCHANGE_WINDOW && CountAtLeast(MedianList(h), HIGH_TEMPERATURE) >= HIGH_ENOUGH
  }

  predicate RiseFires(h: seq<int>) {
    |MedianList(h)| == TEMPCHANGE_WINDOW && h[|h| - 1] - MedianList(h)[TEMPCHANGE_WINDOW - 1] >= RISE
  }

  /** One more sample appends at most one median and disturbs none. */
  lemma MediansGrow(h: seq<int>, x: int)
    ensures |h| < 4 ==> Medians(h + [x]) == Medians(h) == []
    ensures |h| >= 4 ==> Medians(h + [x]) == Medians(h) + [Median(Newest(h + [x], MEDIAN_WINDOW))]
  {
    if |h| >= 4 {
      var g := h + [x];
      assert g[..|h| + 1] == g;
      forall n | 4 <= n < |h| ensures MedianAt(g, n) == MedianAt(h, n) {
        assert g[..n + 1] == h[..n + 1];
      }
    }
  }

  /** Median against threshold, in the samples' own order. */
  lemma WindowVote(h: seq<int>, n: nat, t: int)
    requires 4 <= n < |h|
    ensures MedianAt(h, n) >= t <==> CountAtLeast(h[n - 4..n + 1], t) >= 3
  {
    var w := Newest(h[..n + 1], MEDIAN_WINDOW);
    MedianIsMajority(w, t);
    CountFive(w, t);
    CountFive(h[n - 4..n + 1], t);
  }

  /** Chunks of five that each hold three high samples. */
  lemma {:induction false} FullChunks(s: seq<int>, t: int, k: nat)
    requires 5 * k <= |s|
    requires forall j {:trigger s[5 * j..5 * j + 5]} :: 0 <= j < k ==> CountAtLeast(s[5 * j..5 * j + 5], t) >= 3
    ensures CountAtLeast(s[..5 * k], t) >= 3 * k
  {
    if k > 0 {
      FullChunks(s, t, k - 1);
      var j := k - 1;
      assert s[..5 * k] == s[..5 * j] + s[5 * j..5 * j + 5];
      CountConcat(s[..5 * j], s[5 * j..5 * j + 5], t);
    }
  }

  /** Medians r, r+5, ..., r+25 of the thirty come from windows that share no sample. */
  ghost predicate CleanFamily(m: seq<int>, t: int, r: nat)
    requires |m| == TEMPCHANGE_WINDOW && r < 5
  {
    forall i :: 0 <= i < |m| && i % 5 == r ==> m[i] >= t
  }

  /** With at most four windows missing the threshold, one of the five families misses none. */
  lemma SomeFamilyIsClean(m: seq<int>, t: int)
    requires |m| == TEMPCHANGE_WINDOW
    requires CountAtLeast(m, t) > TEMPCHANGE_WINDOW - MEDIAN_WINDOW
    ensures exists r: nat :: r < 5 && CleanFamily(m, t, r)
  {
    if forall r: nat :: r < 5 ==> !CleanFamily(m, t, r) {
      var b0 := Miss(m, t, 0);
      var b1 := Miss(m, t, 1);
      var b2 := Miss(m, t, 2);
      var b3 := Miss(m, t, 3);
      var b4 := Miss(m, t, 4);
      var low := {b0, b1, b2, b3, b4};
      assert |low| == 5;
      CountMisses(m, t, low);
      assert false;
    }
  }

  lemma Miss(m: seq<int>, t: int, r: nat) returns (b: nat)
    requires |m| == TEMPCHANGE_WINDOW && r < 5 && !CleanFamily(m, t, r)
    ensures b < |m| && b % 5 == r && m[b] < t
  {
    b :| 0 <= b < |m| && b % 5 == r && m[b] < t;
  }

  /** Oldest first, window `j` of a clean family holds three high samples. */
  lemma FamilyChunk(h: seq<int>, t: int, r: nat, j: nat)
    requires |h| >= 34 && r < 5 && j < 6 && CleanFamily(MedianList(h), t, r)
    ensures var a := |h| - 30 - r + 5 * j; CountAtLeast(h[a..a + 5], t) >= 3
  {
    var i, last := r + 5 * (5 - j), |h| - 1;
    assert i % 5 == r && MedianList(h)[i] >= t;
    assert MedianList(h)[i] == MedianAt(h, last - i);
    WindowVote(h, last - i, t);
    assert last - i - 4 == |h| - 30 - r + 5 * j;
  }

  lemma SliceOfSlice(h: seq<int>, lo: nat, hi: nat, a: nat, b: nat)
    requires lo <= hi <= |h| && a <= b <= hi - lo
    ensures h[lo..hi][a..b] == h[lo + a..lo + b]
  {
    var x, y := h[lo..hi][a..b], h[lo + a..lo + b];
    assert |x| == |y|;
    assert forall i :: 0 <= i < |x| ==> x[i] == h[lo + a + i] == y[i];
  }

  /** The six windows of a clean family tile thirty consecutive samples. */
  lemma CleanFamilyIsHot(h: seq<int>, t: int, r: nat)
    requires |h| >= 34 && r < 5 && CleanFamily(MedianList(h), t, r)
    ensures CountAtLeast(h[|h| - 30 - r..|h| - r], t) >= 18
  {
    var lo := |h| - 30 - r;
    var s := h[lo..lo + 30];
    forall j {:trigger s[5 * j..5 * j + 5]} | 0 <= j < 6
      ensures CountAtLeast(s[5 * j..5 * j + 5], t) >= 3
    {
      FamilyChunk(h, t, r, j);
      SliceOfSlice(h, lo, lo + 30, 5 * j, 5 * j + 5);
    }
    FullChunks(s, t, 6);
    assert s[..30] == s;
  }

  lemma PartOfLast(h: seq<int>, t: int, r: nat)
    requires |h| >= 34 && r < 5
    ensures CountAtLeast(h[|h| - 30 - r..|h| - r], t) <= CountAtLeast(h[|h| - 34..], t)
  {
    assert h[|h| - 34..] == h[|h| - 34..|h|];
    SliceOfSlice(h, |h| - 34, |h|, 4 - r, 34 - r);
    CountSlice(h[|h| - 34..], 4 - r, 34 - r, t);
  }

  /** How many of the windows ending at the last `k` samples hold three samples of 58 or more. */
  function HotWindows(h: seq<int>, k: nat): nat
    requires k + 4 <= |h|
  {
    if k == 0 then 0
    else var n := |h| - k;
      (if CountAtLeast(h[n - 4..n + 1], 58) >= 3 then 1 else 0) + HotWindows(h, k - 1)
  }

  lemma {:induction false} HighMedians(h: seq<int>, k: nat)
    requires |h| >= 34 && k <= 30
    ensures CountAtLeast(MedianList(h)[..k], 58) == HotWindows(h, k)
  {
    if k > 0 {
      var m := MedianList(h);
      HighMedians(h, k - 1);
      assert m[..k][..k - 1] == m[..k - 1];
      assert m[k - 1] == MedianAt(h, |h| - k);
      WindowVote(h, |h| - k, 58);
    }
  }

  /** The fixed-temperature test, exactly: 34 samples have been read, and at least 27 of the last 30
      windows of five hold three samples of 58 or more. */
  lemma FixedExactly(h: seq<int>)
    ensures FixedFires(h) <==> |h| >= 34 && HotWindows(h, 30) >= 27
  {
    if |h| >= 34 {
      HighMedians(h, 30);
      assert MedianList(h)[..30] == MedianList(h);
    }
  }

  /** False-alarm bound. If the fixed-temperature test fires, at least 18 of the last 34 raw
      samples are 58 or more. */
  lemma FixedNeedsHighSamples(h: seq<int>)
    requires FixedFires(h)
    ensures |h| >= 34
    ensures CountAtLeast(h[|h| - 34..], 58) >= 18
  {
    var t := HIGH_TEMPERATURE;
    SomeFamilyIsClean(MedianList(h), t);
    var r: nat :| r < 5 && CleanFamily(MedianList(h), t, r);
    CleanFamilyIsHot(h, t, r);
    PartOfLast(h, t, r);
  }

  /** A history in which 18 high samples are all the alarm gets: two cool samples and three
      hot ones, six times over, then four cool ones. */
  function Sparse(): seq<int> {
    seq(34, i => if i < 30 && i % 5 >= 2 then 58 else 20)
  }

  /** The bound of 18 cannot be raised. */
  lemma EighteenCanBeEnough()
    ensures FixedFires(Sparse())
    ensures CountAtLeast(Sparse(), 58) == 18
  {
    var h, t := Sparse(), HIGH_TEMPERATURE;
    SparseFires(h);
    SparseCount(h, 6);
    CountConcat(h[..30], h[30..], t);
    CountUniform(h[30..], t);
    assert h == h[..30] + h[30..];
  }

  lemma SparseWindow(h: seq<int>, n: nat)
    requires h == Sparse() && 4 <= n < 32
    ensures MedianAt(h, n) >= HIGH_TEMPERATURE
  {
    WindowVote(h, n, HIGH_TEMPERATURE);
    CountFive(h[n - 4..n + 1], HIGH_TEMPERATURE);
  }

  lemma SparseFires(h: seq<int>)
    requires h == Sparse()
    ensures FixedFires(h)
  {
    var m, t := MedianList(h), HIGH_TEMPERATURE;
    forall i | 2 <= i < 30 ensures m[i] >= t {
      SparseWindow(h, 33 - i);
    }
    CountUniform(m[2..30], t);
    CountSlice(m, 2, 30, t);
  }

  lemma {:induction false} SparseCount(h: seq<int>, k: nat)
    requires h == Sparse() && k <= 6
    ensures CountAtLeast(h[..5 * k], HIGH_TEMPERATURE) == 3 * k
  {
    if k > 0 {
      var j := 5 * (k - 1);
      SparseCount(h, k - 1);
      assert h[..5 * k] == h[..j] + h[j..j + 5];
      CountConcat(h[..j], h[j..j + 5], HIGH_TEMPERATURE);
      CountFive(h[j..j + 5], HIGH_TEMPERATURE);
    }
  }

  /** Detection latency. Once 34 samples have been read, 29 high samples in a row make the test
      fire, whatever came before. */
  lemma HighRunFires(h: seq<int>)
    requires |h| >= 34
    requires forall i :: |h| - 29 <= i < |h| ==> h[i] >= 58
    ensures FixedFires(h)
  {
    var m, t, last := MedianList(h), HIGH_TEMPERATURE, |h| - 1;
    forall i | 0 <= i < 27 ensures m[i] >= t {
      WindowVote(h, last - i, t);
      CountFive(h[last - i - 4..last - i + 1], t);
    }
    CountUniform(m[..27], t);
    assert m[..27] == m[0..27];
    CountSlice(m, 0, 27, t);
  }

  /** The bound of 29 cannot be lowered: with nothing high before them, 28 do not fire it. */
  lemma TwentyEightAreTooFew(h: seq<int>)
    requires forall i :: 0 <= i < |h| && h[i] >= 58 ==> i >= |h| - 28
    ensures !FixedFires(h)
  {
    if |h| >= 34 {
      var m, t, last := MedianList(h), HIGH_TEMPERATURE, |h| - 1;
      forall i | 26 <= i < 30 ensures m[i] < t {
        WindowVote(h, last - i, t);
        CountFive(h[last - i - 4..last - i + 1], t);
      }
      CountMisses(m, t, {26, 27, 28, 29});
    }
  }

  /** Rate of rise over raw history: the newest sample stands at least 8 above three or more of
      the five samples taken 29 to 33 readings earlier. */
  lemma RiseOverRawSamples(h: seq<int>)
    ensures RiseFires(h) <==>
      |h| >= 34 && var n := |h| - 1; CountAtLeast(h[n - 33..n - 28], h[n] - 7) <= 2
  {
    if |h| >= 34 {
      var n := |h| - 1;
      WindowVote(h, n - 29, h[n] - RISE + 1);
      assert h[n - 29 - 4..n - 29 + 1] == h[n - 33..n - 28];
      assert MedianList(h)[29] == MedianAt(h, n - 29);
    }
  }

  /** How many elements of `s` are at most `t`. */
  function CountAtMost(s: seq<int>, t: int): nat {
    if s == [] then 0 else CountAtMost(s[..|s| - 1], t) + (if s[|s| - 1] <= t then 1 else 0)
  }

  lemma {:induction false} CountsAddUp(s: seq<int>, t: int)
    ensures CountAtMost(s, t) + CountAtLeast(s, t + 1) == |s|
  {
    if s != [] { CountsAddUp(s[..|s| - 1], t); }
  }

  /** The same test stated as a count of cooler samples. */
  lemma RiseIsThreeOfFive(h: seq<int>)
    ensures RiseFires(h) <==>
      |h| >= 34 && var n := |h| - 1; CountAtMost(h[n - 33..n - 28], h[n] - 8) >= 3
  {
    RiseOverRawSamples(h);
    if |h| >= 34 {
      CountsAddUp(h[|h| - 34..|h| - 29], h[|h| - 1] - RISE);
    }
  }

  /** When the temperature never falls, the test compares with the sample 31 readings earlier. */
  lemma RiseWhenMonotone(h: seq<int>)
    requires |h| >= 34 && Ascending(h)
    ensures RiseFires(h) <==> h[|h| - 1] - h[|h| - 32] >= 8
  {
    var n := |h| - 1;
    RiseOverRawSamples(h);
    CountFive(h[n - 33..n - 28], h[n] - RISE + 1);
  }

  /** A level that stays in a band below 58 keeps every median in that band and never fires
      the fixed-temperature test. */
  lemma BandIsQuiet(h: seq<int>, lo: int, hi: int)
    requires hi < 58
    requires forall i :: 0 <= i < |h| ==> lo <= h[i] <= hi
    ensures forall i :: 0 <= i < |Medians(h)| ==> lo <= Medians(h)[i] <= hi
    ensures !FixedFires(h)
  {
    forall i | 0 <= i < |Medians(h)| ensures lo <= Medians(h)[i] <= hi {
      WindowVote(h, i + 4, lo);
      WindowVote(h, i + 4, hi + 1);
      CountUniform(h[i..i + 5], lo);
      CountUniform(h[i..i + 5], hi + 1);
    }
    var m := MedianList(h);
    CountUniform(m, HIGH_TEMPERATURE);
  }
}
