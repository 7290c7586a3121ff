/** The simulated temperatures (simulator.c lines 278-378) seen by the detector. */
module Ambient {
  import opened Sorting
  import opened Detector

  const START_TEMP := 25
  const BASE_TEMP := 10

  /** One level's next temperature, given the change drawn for this round. */
  function Drift(temp: int, change: int): int {
    if temp < 11 then temp + 1
    else if temp > 39 then temp - 1
    else temp + change
  }

  /** temp_start: every level starts at a draw reduced into 10..34. */
  method TempStart(temps: array<int>, draws: seq<nat>)
    requires |draws| == temps.Length
    modifies temps
    ensures forall i :: 0 <= i < temps.Length ==> 10 <= temps[i] <= 34 && (temps[i] - 10 - draws[i]) % 25 == 0
  {
    for i := 0 to temps.Length
      invariant forall k :: 0 <= k < i ==> BASE_TEMP <= temps[k] < BASE_TEMP + START_TEMP
      invariant forall k :: 0 <= k < i ==> (temps[k] - BASE_TEMP - draws[k]) % START_TEMP == 0
    {
      temps[i] := draws[i] % START_TEMP + BASE_TEMP;
    }
  }

  /** One round of thf_temp over all levels. */
  method TempRound(temps: array<int>, change: int)
    requires -1 <= change <= 1
    modifies temps
    ensures forall i :: 0 <= i < temps.Length ==> temps[i] == Drift(old(temps[i]), change)
    ensures forall i :: 0 <= i < temps.Length && old(temps[i]) <= 10 ==> temps[i] == old(temps[i]) + 1
    ensures forall i :: 0 <= i < temps.Length && old(temps[i]) >= 40 ==> temps[i] == old(temps[i]) - 1
    ensures forall i :: 0 <= i < temps.Length && 11 <= old(temps[i]) <= 39 ==> temps[i] == old(temps[i]) + change
  {
    for i := 0 to temps.Length
      invariant forall k :: 0 <= k < i ==> temps[k] == Drift(old(temps[k]), change)
      invariant forall k :: i <= k < temps.Length ==> temps[k] == old(temps[k])
    {
      if temps[i] < 11 {
        temps[i] := temps[i] + 1;
      } else if temps[i] > 39 {
        temps[i] := temps[i] - 1;
      } else {
        temps[i] := temps[i] + change;
      }
    }
  }

  /** A level's temperatures over a run of thf_temp. */
  ghost predicate AmbientRun(run: seq<int>, changes: seq<int>) {
    && |run| == |changes| + 1
    && 10 <= run[0] <= 34
    && (forall i :: 0 <= i < |changes| ==> -1 <= changes[i] <= 1)
    && (forall i :: 0 <= i < |changes| ==> run[i + 1] == Drift(run[i], changes[i]))
  }

  lemma {:induction false} AmbientBand(run: seq<int>, changes: seq<int>, i: nat)
    requires AmbientRun(run, changes) && i < |run|
    ensures 10 <= run[i] <= 40
  {
    if i > 0 {
      AmbientBand(run, changes, i - 1);
      assert run[i - 1 + 1] == Drift(run[i - 1], changes[i - 1]);
    }
  }

  /** Both ends of the band are reached from inside it. */
  lemma BandIsReached()
    ensures exists run, changes ::
      AmbientRun(run, changes) && |run| >= 2 && run[|run| - 2] == 11 && run[|run| - 1] == 10
    ensures exists run, changes ::
      AmbientRun(run, changes) && |run| >= 2 && run[|run| - 2] == 39 && run[|run| - 1] == 40
  {
    assert AmbientRun([11, 10], [-1]);
    assert AmbientRun([34, 35, 36, 37, 38, 39, 40], [1, 1, 1, 1, 1, 1]);
  }

  /** Samples of a run: each is the temperature at some moment of it, whatever the two threads'
      relative speeds. */
  ghost predicate SampledFrom(h: seq<int>, run: seq<int>) {
    forall i :: 0 <= i < |h| ==> h[i] in run
  }

  /** Without a fire, every median stays in 10..40 and the fixed-temperature test is silent. */
  lemma AmbientIsQuiet(run: seq<int>, changes: seq<int>, h: seq<int>)
    requires AmbientRun(run, changes) && SampledFrom(h, run)
    ensures forall i :: 0 <= i < |Medians(h)| ==> 10 <= Medians(h)[i] <= 40
    ensures !FixedFires(h)
  {
    forall i | 0 <= i < |h| ensures 10 <= h[i] <= 40 {
      var j :| 0 <= j < |run| && run[j] == h[i];
      AmbientBand(run, changes, j);
    }
    BandIsQuiet(h, 10, 40);
  }

  /** fixed_temp holds a level at 100. After any ambient history the test fires at exactly the
      first sample that makes 29 hot ones and 34 in all: 29 samples in once the detector has
      read five, 34 from a cold start. */
  lemma FireIsFoundOnTime(run: seq<int>, changes: seq<int>, h: seq<int>, k: nat)
    requires AmbientRun(run, changes) && SampledFrom(h, run)
    ensures FixedFires(h + seq(k, _ => 100)) <==> k >= 29 && |h| + k >= 34
  {
    var g := h + seq(k, _ => 100);
    if k >= 29 && |g| >= 34 {
      HighRunFires(g);
    } else if k < 29 {
      forall i | 0 <= i < |g| && g[i] >= HIGH_TEMPERATURE ensures i >= |g| - 28 {
        if i < |h| {
          var j :| 0 <= j < |run| && run[j] == h[i];
          AmbientBand(run, changes, j);
        }
      }
      TwentyEightAreTooFew(g);
    }
  }

  // ----- the rate-of-rise test and the speed of sampling -----

  /** Samples taken one after another: sample `i` reads the temperature of round `pos[i]`. */
  ghost predicate Sampling(pos: seq<nat>, rounds: nat) {
    && (forall i, j :: 0 <= i < j < |pos| ==> pos[i] <= pos[j])
    && (forall i :: 0 <= i < |pos| ==> pos[i] < rounds)
  }

  function Readings(run: seq<int>, pos: seq<nat>): (h: seq<int>)
    requires forall i :: 0 <= i < |pos| ==> pos[i] < |run|
    ensures |h| == |pos| && forall i :: 0 <= i < |pos| ==> h[i] == run[pos[i]]
  {
    seq(|pos|, i requires 0 <= i < |pos| => run[pos[i]])
  }

  /** A temperature rises by at most one degree a round. */
  lemma {:induction false} RisesSlowly(run: seq<int>, changes: seq<int>, a: nat, b: nat)
    requires AmbientRun(run, changes) && a <= b < |run|
    ensures run[b] - run[a] <= b - a
    decreases b
  {
    if a < b {
      RisesSlowly(run, changes, a, b - 1);
      assert run[b - 1 + 1] == Drift(run[b - 1], changes[b - 1]);
    }
  }

  /** If it fires, the newest reading was taken at least eight rounds after the third of the five it
      is compared with. */
  lemma FiringTakesEightRounds(run: seq<int>, changes: seq<int>, pos: seq<nat>)
    requires AmbientRun(run, changes) && Sampling(pos, |run|) && RiseFires(Readings(run, pos))
    ensures |pos| >= 34 && pos[|pos| - 1] >= pos[|pos| - 32] + 8
  {
    var h, n := Readings(run, pos), |pos| - 1;
    RiseOverRawSamples(h);
    CountFive(h[n - 33..n - 28], h[n] - RISE + 1);
    var i: nat :| n - 31 <= i <= n - 29 && h[i] <= h[n] - RISE;
    RisesSlowly(run, changes, pos[i], pos[n]);
  }

  /** Level at 20 degrees, climbing through its last eight rounds. */
  function Climb(rounds: nat): seq<int> {
    seq(rounds + 1, i => if i <= rounds - 8 then 20 else 20 + i - (rounds - 8))
  }

  function ClimbChanges(rounds: nat): seq<int> { seq(rounds, i => if i < rounds - 8 then 0 else 1) }

  lemma ClimbFires(pos: seq<nat>)
    requires |pos| >= 34 && pos[|pos| - 1] >= pos[|pos| - 32] + 8 && Sampling(pos, pos[|pos| - 1] + 1)
    ensures var r := pos[|pos| - 1]; AmbientRun(Climb(r), ClimbChanges(r)) && RiseFires(Readings(Climb(r), pos))
  {
    var n := |pos| - 1;
    var run, changes := Climb(pos[n]), ClimbChanges(pos[n]);
    forall i | 0 <= i < |changes| ensures run[i + 1] == Drift(run[i], changes[i]) {}
    var h := Readings(run, pos);
    RiseOverRawSamples(h);
    CountFive(h[n - 33..n - 28], h[n] - RISE + 1);
  }

  /** Some ambient run, sampled at `pos`, fires the rate-of-rise test. */
  ghost predicate AmbientFires(pos: seq<nat>) {
    exists run, changes :: AmbientRun(run, changes) && Sampling(pos, |run|) && RiseFires(Readings(run, pos))
  }

  /** Exactly when ambient drift can raise a false rate-of-rise alarm: when at least eight rounds of
      drift pass between the newest sample and the one 31 readings earlier. */
  lemma AmbientRiseExactly(pos: seq<nat>)
    requires forall i, j :: 0 <= i < j < |pos| ==> pos[i] <= pos[j]
    ensures AmbientFires(pos) <==> |pos| >= 34 && pos[|pos| - 1] >= pos[|pos| - 32] + 8
  {
    if AmbientFires(pos) {
      var run, changes :| AmbientRun(run, changes) && Sampling(pos, |run|) && RiseFires(Readings(run, pos));
      FiringTakesEightRounds(run, changes, pos);
    }
    if |pos| >= 34 && pos[|pos| - 1] >= pos[|pos| - 32] + 8 {
      ClimbFires(pos);
    }
  }

  /** Five samples to a round, the ratio of the two threads' shortest sleeps (2 ms and 10 ms), are
      enough for silence. */
  lemma FiveARoundIsQuiet(pos: seq<nat>)
    requires forall i, j :: 0 <= i < j < |pos| ==> pos[i] <= pos[j]
    requires forall i :: 0 <= i < |pos| - 5 ==> pos[i + 5] <= pos[i] + 1
    ensures !AmbientFires(pos)
  {
    AmbientRiseExactly(pos);
    if |pos| >= 34 {
      var a := |pos| - 32;
      FiveSteps(pos, a, 6);
      assert pos[a + 31] <= pos[a + 30] + 1 by {
        assert pos[a + 26 + 5] <= pos[a + 26] + 1;
      }
    }
  }

  lemma {:induction false} FiveSteps(pos: seq<nat>, a: nat, k: nat)
    requires a + 5 * k < |pos| && forall i :: 0 <= i < |pos| - 5 ==> pos[i + 5] <= pos[i] + 1
    ensures pos[a + 5 * k] <= pos[a] + k
  {
    if k > 0 {
      FiveSteps(pos, a, k - 1);
      var i := a + 5 * (k - 1);
      assert pos[i + 5] <= pos[i] + 1;
    }
  }

  /** Four samples to a round are not. */
  lemma FourARoundCanRise()
    ensures AmbientFires(seq(34, i => i / 4))
  {
    AmbientRiseExactly(seq(34, i => i / 4));
  }
}
