/** The sort buffer as firealarm.c fills it (lines 80-87): the index is incremented before each
    store, so the newest four samples go to slots 1 to 4, the fifth outside the buffer, and slot 0
    keeps whatever was there. This module says what survives of the detector when that slot holds
    an arbitrary value; module Detector has the median of all five samples. */
module SortBuffer {
  import opened Sorting
  import opened Detector

  function NewestFour(h: seq<int>, n: nat): (r: seq<int>)
    requires 4 <= n < |h|
    ensures |r| == 4
  {
    Newest(h[..n + 1], 4)
  }

  /** The median taken at sample `n` when slot 0 held `stale`. */
  function MedianWritten(h: seq<int>, n: nat, stale: int): int
    requires 4 <= n < |h|
  {
    Median([stale] + NewestFour(h, n))
  }

  lemma WrittenVote(h: seq<int>, n: nat, stale: int, t: int)
    requires 4 <= n < |h|
    ensures MedianWritten(h, n, stale) >= t <==> Vote(stale, t) + CountAtLeast(NewestFour(h, n), t) >= 3
    ensures MedianAt(h, n) >= t <==> CountAtLeast(NewestFour(h, n), t) + Vote(h[n - 4], t) >= 3
  {
    var four := NewestFour(h, n);
    MedianIsMajority([stale] + four, t);
    CountConcat([stale], four, t);
    CountSingle(stale, t);
    var five := Newest(h[..n + 1], 5);
    assert five == four + [h[n - 4]];
    MedianIsMajority(five, t);
    CountConcat(four, [h[n - 4]], t);
    CountSingle(h[n - 4], t);
  }

  /** Votes of four values, by rank. */
  lemma FourVotes(four: seq<int>, t: int)
    requires |four| == 4
    ensures |Sorted(four)| == 4 && Ascending(Sorted(four))
    ensures var r := Sorted(four);
      CountAtLeast(four, t) == Vote(r[0], t) + Vote(r[1], t) + Vote(r[2], t) + Vote(r[3], t)
  {
    SortedIsAscendingPermutation(four);
    CountSorted(four, t);
    var r := Sorted(four);
    var s := r + [t];
    CountFive(s, t);
    CountConcat(r, [t], t);
    CountSingle(t, t);
  }

  /** The median as written is the median of the five samples, whatever the unwritten slot holds,
      if and only if the two middle values of the newest four samples are equal. */
  lemma WrittenAgrees(h: seq<int>, n: nat)
    requires 4 <= n < |h|
    ensures |Sorted(NewestFour(h, n))| == 4
    ensures (forall stale :: MedianWritten(h, n, stale) == MedianAt(h, n)) <==>
      Sorted(NewestFour(h, n))[1] == Sorted(NewestFour(h, n))[2]
  {
    var four := NewestFour(h, n);
    FourVotes(four, 0);
    var r := Sorted(four);
    if r[1] == r[2] {
      forall stale ensures MedianWritten(h, n, stale) == MedianAt(h, n) {
        WrittenVote(h, n, stale, r[1]);
        WrittenVote(h, n, stale, r[1] + 1);
        FourVotes(four, r[1]);
        FourVotes(four, r[1] + 1);
      }
    } else {
      FourVotes(four, r[2]);
      WrittenVote(h, n, r[1], r[2]);
      WrittenVote(h, n, r[2], r[2]);
      assert MedianWritten(h, n, r[1]) != MedianWritten(h, n, r[2]);
    }
  }

  /** The medians as written, `stale[n]` being what slot 0 held at sample n. */
  function MediansWritten(h: seq<int>, stale: seq<int>): seq<int>
    requires |stale| == |h|
  {
    seq(if |h| < 4 then 0 else |h| - 4, i requires 0 <= i < |h| - 4 => MedianWritten(h, i + 4, stale[i + 4]))
  }

  predicate FixedFiresWritten(h: seq<int>, stale: seq<int>)
    requires |stale| == |h|
  {
    var m := Newest(MediansWritten(h, stale), TEMPCHANGE_WINDOW);
    |m| == TEMPCHANGE_WINDOW && CountAtLeast(m, HIGH_TEMPERATURE) >= HIGH_ENOUGH
  }

  /** Detection latency survives: whatever the slot held, 29 high samples in a row fire the
      fixed-temperature test once 34 have been read. */
  lemma HighRunFiresWritten(h: seq<int>, stale: seq<int>)
    requires |stale| == |h| >= 34
    requires forall i :: |h| - 29 <= i < |h| ==> h[i] >= 58
    ensures FixedFiresWritten(h, stale)
  {
    var m, t, last := Newest(MediansWritten(h, stale), TEMPCHANGE_WINDOW), HIGH_TEMPERATURE, |h| - 1;
    forall i | 0 <= i < 27 ensures m[i] >= t {
      var n := last - i;
      WrittenVote(h, n, stale[n], t);
      ThreeHigh(NewestFour(h, n), t);
    }
    CountUniform(m[..27], t);
    assert m[..27] == m[0..27];
    CountSlice(m, 0, 27, t);
  }

  lemma ThreeHigh(four: seq<int>, t: int)
    requires |four| == 4 && four[0] >= t && four[1] >= t && four[2] >= t
    ensures CountAtLeast(four, t) >= 3
  {
    CountUniform(four[..3], t);
    assert four[..3] == four[0..3];
    CountSlice(four, 0, 3, t);
  }

  /** How many of the windows ending at the last `k` samples hold three values of 58 or more, the fifth
      sample of each replaced by what the slot held. */
  function HotWindowsWritten(h: seq<int>, stale: seq<int>, k: nat): nat
    requires |stale| == |h| && k + 4 <= |h|
  {
    if k == 0 then 0
    else var n := |h| - k;
      (if CountAtLeast([stale[n]] + h[n - 3..n + 1], 58) >= 3 then 1 else 0) + HotWindowsWritten(h, stale, k - 1)
  }

  lemma WrittenWindow(h: seq<int>, n: nat, stale: int, t: int)
    requires 4 <= n < |h|
    ensures MedianWritten(h, n, stale) >= t <==> CountAtLeast([stale] + h[n - 3..n + 1], t) >= 3
  {
    WrittenVote(h, n, stale, t);
    var w := [stale] + h[n - 3..n + 1];
    CountFive(w, t);
    CountFive([stale] + NewestFour(h, n), t);
    MedianIsMajority([stale] + NewestFour(h, n), t);
  }

  lemma {:induction false} HighMediansWritten(h: seq<int>, stale: seq<int>, k: nat)
    requires |stale| == |h| >= 34 && k <= 30
    ensures CountAtLeast(Newest(MediansWritten(h, stale), 30)[..k], 58) == HotWindowsWritten(h, stale, k)
  {
    if k > 0 {
      var m, n := Newest(MediansWritten(h, stale), 30), |h| - k;
      HighMediansWritten(h, stale, k - 1);
      assert m[..k][..k - 1] == m[..k - 1];
      assert m[k - 1] == MedianWritten(h, n, stale[n]);
      WrittenWindow(h, n, stale[n], 58);
    }
  }

  /** The fixed-temperature test with the buffer as written, exactly. */
  lemma FixedExactlyWritten(h: seq<int>, stale: seq<int>)
    requires |stale| == |h|
    ensures FixedFiresWritten(h, stale) <==> |h| >= 34 && HotWindowsWritten(h, stale, 30) >= 27
  {
    if |h| >= 34 {
      var m := Newest(MediansWritten(h, stale), 30);
      HighMediansWritten(h, stale, 30);
      assert m[..30] == m;
    }
  }
}
