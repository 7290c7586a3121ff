/** The manager's counters: m_counter and level_tracker (manager.c lines 87-96, 145-149, 254-261). */
module Levels {
  import opened Parking
  import opened Wrappers

  const TOTAL_CAPACITY := LEVELS * LEVEL_CAPACITY

  /** `m` is m_counter and `t` is level_tracker. */
  datatype Counters = Counters(m: int, t: seq<int>) {
    predicate Valid() { m >= 0 && |t| == LEVELS }
  }

  const EMPTY := Counters(0, [0, 0, 0, 0, 0])

  /** The level the next admission is sent to: m_counter is incremented before it is reduced. */
  function NextLevel(c: Counters): (level: nat)
    requires c.Valid()
    ensures level < LEVELS
  {
    (c.m + 1) % LEVELS
  }

  /** Counting a car in. */
  function CountIn(c: Counters): (r: Counters)
    requires c.Valid()
    ensures r.Valid()
  {
    var l := NextLevel(c);
    Counters(c.m + 1, if c.t[l] < LEVEL_CAPACITY then c.t[l := c.t[l] + 1] else c.t)
  }

  /** Counting a car out of `level`. */
  function CountOut(c: Counters, level: nat): (r: Counters)
    requires |c.t| == LEVELS && level < LEVELS
    ensures |r.t| == LEVELS && r.m == c.m - 1
  {
    Counters(c.m - 1, if c.t[level] != 0 then c.t[level := c.t[level] - 1] else c.t)
  }

  // ----- the books: how many cars really are on each level -----

  /** `n[i]` counts the cars counted in and not out on level i. `over[i]` counts admissions to i
      made while its tracker stood at capacity, `under[i]` releases from i made while it stood at 0. */
  datatype Books = Books(c: Counters, n: seq<int>, over: seq<int>, under: seq<int>)

  const EMPTY_BOOKS := Books(EMPTY, [0, 0, 0, 0, 0], [0, 0, 0, 0, 0], [0, 0, 0, 0, 0])

  datatype Event = CarIn | CarOut(level: nat)

  predicate Shaped(b: Books) {
    b.c.Valid() && |b.n| == |b.over| == |b.under| == LEVELS
  }

  /** A car is only admitted below total capacity, and only a counted car leaves. */
  predicate Possible(b: Books, e: Event)
    requires Shaped(b)
  {
    match e
    case CarIn => b.c.m < TOTAL_CAPACITY
    case CarOut(l) => l < LEVELS && b.n[l] > 0 && b.c.m > 0
  }

  function Plus(s: seq<int>, i: nat, d: int): (r: seq<int>)
    requires i < |s|
    ensures |r| == |s|
  {
    s[i := s[i] + d]
  }

  function Apply(b: Books, e: Event): (r: Books)
    requires Shaped(b) && Possible(b, e)
    ensures Shaped(r)
  {
    match e
    case CarIn =>
      var l := NextLevel(b.c);
      Books(CountIn(b.c), Plus(b.n, l, 1), if b.c.t[l] >= LEVEL_CAPACITY then Plus(b.over, l, 1) else b.over, b.under)
    case CarOut(l) =>
      Books(CountOut(b.c, l), Plus(b.n, l, -1), b.over, if b.c.t[l] == 0 then Plus(b.under, l, 1) else b.under)
  }

  function Sum5(s: seq<int>): int
    requires |s| == LEVELS
  {
    s[0] + s[1] + s[2] + s[3] + s[4]
  }

  /** The trackers never exceed capacity or the cars that are there. */
  predicate TrackersBounded(t: seq<int>, n: seq<int>)
    requires |t| == |n| == LEVELS
  {
    forall i :: 0 <= i < LEVELS ==> 0 <= t[i] <= n[i] && t[i] <= LEVEL_CAPACITY
  }

  predicate Balanced(b: Books) {
    && Shaped(b)
    && TrackersBounded(b.c.t, b.n)
    && (forall i :: 0 <= i < LEVELS ==> b.n[i] - b.c.t[i] == b.over[i] - b.under[i])
    && Sum5(b.n) == b.c.m <= TOTAL_CAPACITY
  }

  lemma SumPlus(s: seq<int>, i: nat, d: int)
    requires |s| == LEVELS && i < LEVELS
    ensures Sum5(Plus(s, i, d)) == Sum5(s) + d
  {
  }

  /** Counting in keeps every tracker bounded by the cars on its level. */
  lemma CountInBounded(c: Counters, n: seq<int>)
    requires c.Valid() && |n| == LEVELS && TrackersBounded(c.t, n)
    ensures TrackersBounded(CountIn(c).t, Plus(n, NextLevel(c), 1))
  {
  }

  /** So does counting out of a level that has a car. */
  lemma CountOutBounded(c: Counters, n: seq<int>, l: nat)
    requires |c.t| == LEVELS && |n| == LEVELS && l < LEVELS && n[l] > 0 && TrackersBounded(c.t, n)
    ensures TrackersBounded(CountOut(c, l).t, Plus(n, l, -1))
  {
  }

  lemma EventKeepsBalance(b: Books, e: Event)
    requires Balanced(b) && Possible(b, e)
    ensures Balanced(Apply(b, e))
  {
    match e
    case CarIn =>
      CountInBounded(b.c, b.n);
      SumPlus(b.n, NextLevel(b.c), 1);
    case CarOut(l) =>
      CountOutBounded(b.c, b.n, l);
      SumPlus(b.n, l, -1);
  }

  /** The books after `es`, when those events can happen in that order from `b`. */
  function Run(b: Books, es: seq<Event>): (r: Option<Books>)
    requires Shaped(b)
    ensures r.Some? ==> Shaped(r.value)
  {
    if es == [] then Some(b)
    else
      var before := Run(b, es[..|es| - 1]);
      if before.Some? && Possible(before.value, es[|es| - 1]) then Some(Apply(before.value, es[|es| - 1])) else None
  }

  lemma RunSnoc(b: Books, es: seq<Event>, e: Event)
    requires Shaped(b) && Run(b, es).Some? && Possible(Run(b, es).value, e)
    ensures Run(b, es + [e]) == Some(Apply(Run(b, es).value, e))
  {
    assert (es + [e])[..|es + [e]| - 1] == es;
  }

  /** What can happen, in numbers: an arrival below fifty cars, a departure from a level with a car. */
  lemma PossibleExactly(b: Books, l: nat)
    requires Balanced(b)
    ensures Possible(b, CarIn) <==> b.c.m < 50
    ensures Possible(b, CarOut(l)) <==> l < 5 && b.n[l] > 0
  {
  }

  /** Level accounting over every run of entries and exits: each tracker is bounded by capacity
      and by the cars on its level, the levels add up to m_counter, and the gap between cars and
      tracker is admissions at a full tracker minus releases at an empty one. */
  lemma {:induction false} LevelAccounting(es: seq<Event>)
    requires Run(EMPTY_BOOKS, es).Some?
    ensures var b := Run(EMPTY_BOOKS, es).value; Balanced(b) && Sum5(b.c.t) <= b.c.m
  {
    if es != [] {
      LevelAccounting(es[..|es| - 1]);
      EventKeepsBalance(Run(EMPTY_BOOKS, es[..|es| - 1]).value, es[|es| - 1]);
    }
  }

  // ----- arrivals only -----

  function Share(m: nat, i: nat): nat { m / LEVELS + if 1 <= i <= m % LEVELS then 1 else 0 }

  predicate RoundRobin(b: Books, m: nat) {
    && Shaped(b) && b.c.m == m
    && forall i :: 0 <= i < LEVELS ==> b.c.t[i] == b.n[i] == Share(m, i)
  }

  lemma OneMoreRound(b: Books, m: nat)
    requires m < TOTAL_CAPACITY && RoundRobin(b, m)
    ensures RoundRobin(Apply(b, CarIn), m + 1)
    ensures b.c.t[NextLevel(b.c)] < LEVEL_CAPACITY
  {
    var l := NextLevel(b.c);
    forall i | 0 <= i < LEVELS ensures Share(m + 1, i) == Share(m, i) + if i == l then 1 else 0 {
      if m % LEVELS == LEVELS - 1 {
        assert (m + 1) / LEVELS == m / LEVELS + 1;
      } else {
        assert (m + 1) / LEVELS == m / LEVELS;
      }
    }
  }

  function Arrivals(m: nat): seq<Event> { seq(m, _ => CarIn) }

  /** While nobody leaves, cars are dealt round the levels starting at level 1, and each of the
      first fifty finds its level below capacity. */
  lemma {:induction false} ArrivalsFillEvenly(m: nat)
    requires m <= TOTAL_CAPACITY
    ensures var r := Run(EMPTY_BOOKS, Arrivals(m)); r.Some? && RoundRobin(r.value, m)
    ensures m < TOTAL_CAPACITY ==>
      var c := Run(EMPTY_BOOKS, Arrivals(m)).value.c; c.t[NextLevel(c)] < LEVEL_CAPACITY
  {
    if m > 0 {
      ArrivalsFillEvenly(m - 1);
      assert Arrivals(m) == Arrivals(m - 1) + [CarIn];
      var b := Run(EMPTY_BOOKS, Arrivals(m - 1)).value;
      RunSnoc(EMPTY_BOOKS, Arrivals(m - 1), CarIn);
      OneMoreRound(b, m - 1);
    }
    if m < TOTAL_CAPACITY {
      OneMoreRound(Run(EMPTY_BOOKS, Arrivals(m)).value, m);
    }
  }

  /** Below total capacity some level has room. */
  lemma SomeLevelHasRoom(b: Books)
    requires Balanced(b) && b.c.m < TOTAL_CAPACITY
    ensures exists i :: 0 <= i < LEVELS && b.n[i] < LEVEL_CAPACITY
  {
    assert b.n[0] < 10 || b.n[1] < 10 || b.n[2] < 10 || b.n[3] < 10 || b.n[4] < 10;
  }

  /** But the level chosen need not be it: fifty arrivals, one departure from level 1 and one more
      arrival put an eleventh car on level 0 while level 1 has a free place. */
  lemma ChosenLevelCanBeFull()
    ensures var r := Run(EMPTY_BOOKS, Arrivals(50) + [CarOut(1)] + [CarIn]);
      r.Some? && r.value.n[0] == 11 && r.value.n[1] == 9
  {
    ArrivalsFillEvenly(50);
    RunSnoc(EMPTY_BOOKS, Arrivals(50), CarOut(1));
    RunSnoc(EMPTY_BOOKS, Arrivals(50) + [CarOut(1)], CarIn);
  }

  // ----- the intent that a car is only sent to a level with a free place -----

  /** Every prefix of a possible run is one. */
  lemma {:induction false} RunPrefix(start: Books, es: seq<Event>, k: nat)
    requires Shaped(start) && Run(start, es).Some? && k <= |es|
    ensures Run(start, es[..k]).Some?
  {
    if k < |es| {
      RunPrefix(start, es[..|es| - 1], k);
      assert es[..|es| - 1][..k] == es[..k];
    } else {
      assert es[..k] == es;
    }
  }

  /** The books after the first `k` events. */
  function After(start: Books, es: seq<Event>, k: nat): (b: Books)
    requires Shaped(start) && Run(start, es).Some? && k <= |es|
    ensures Shaped(b)
  {
    RunPrefix(start, es, k);
    Run(start, es[..k]).value
  }

  predicate NoneOverfull(b: Books)
    requires Shaped(b)
  {
    forall l :: 0 <= l < LEVELS ==> b.n[l] <= LEVEL_CAPACITY
  }

  /** The first test of car_count, on the level it is about to choose. */
  predicate ChosenHasRoom(c: Counters)
    requires c.Valid()
  {
    c.t[NextLevel(c)] < LEVEL_CAPACITY
  }

  /** Never more than ten cars on a level, after any of the events. */
  ghost predicate NeverOverfull(start: Books, es: seq<Event>)
    requires Shaped(start) && Run(start, es).Some?
  {
    forall k :: 0 <= k <= |es| ==> NoneOverfull(After(start, es, k))
  }

  /** Every arrival found the chosen level's tracker below capacity. */
  ghost predicate AlwaysRoom(start: Books, es: seq<Event>)
    requires Shaped(start) && Run(start, es).Some?
  {
    forall k :: 0 <= k < |es| && es[k].CarIn? ==> ChosenHasRoom(After(start, es, k).c)
  }

  /** The trackers are the true numbers of cars, as in the empty car park. */
  predicate Accurate(b: Books) { Balanced(b) && b.c.t == b.n }

  lemma AfterNext(start: Books, es: seq<Event>, k: nat)
    requires Shaped(start) && Run(start, es).Some? && k < |es|
    ensures Possible(After(start, es, k), es[k]) && After(start, es, k + 1) == Apply(After(start, es, k), es[k])
  {
    RunPrefix(start, es, k + 1);
    assert es[..k + 1][..k] == es[..k];
  }

  /** An event that does not find its tracker full keeps the trackers true. */
  lemma StaysTrue(b: Books, e: Event)
    requires Accurate(b) && Possible(b, e) && (e.CarIn? ==> ChosenHasRoom(b.c))
    ensures Accurate(Apply(b, e))
  {
    EventKeepsBalance(b, e);
  }

  /** Until a tracker is found full, the trackers stay true. */
  lemma {:induction false} TrackersTrue(start: Books, es: seq<Event>, k: nat)
    requires Accurate(start) && Run(start, es).Some? && k <= |es|
    requires forall j :: 0 <= j < k && es[j].CarIn? ==> ChosenHasRoom(After(start, es, j).c)
    ensures Accurate(After(start, es, k)) && NoneOverfull(After(start, es, k))
  {
    if k > 0 {
      TrackersTrue(start, es, k - 1);
      AfterNext(start, es, k - 1);
      StaysTrue(After(start, es, k - 1), es[k - 1]);
    }
  }

  /** The arrival that finds its level's tracker full, when all earlier ones found room, makes an
      eleventh car there. */
  lemma FullTrackerOverfills(start: Books, es: seq<Event>, k: nat)
    requires Accurate(start) && Run(start, es).Some?
    requires k < |es| && es[k].CarIn? && !ChosenHasRoom(After(start, es, k).c)
    requires forall j :: 0 <= j < k && es[j].CarIn? ==> ChosenHasRoom(After(start, es, j).c)
    ensures After(start, es, k + 1).n[NextLevel(After(start, es, k).c)] == LEVEL_CAPACITY + 1
  {
    TrackersTrue(start, es, k);
    AfterNext(start, es, k);
  }

  lemma {:induction false} FirstFull(start: Books, es: seq<Event>, k: nat) returns (j: nat)
    requires Shaped(start) && Run(start, es).Some?
    requires k < |es| && es[k].CarIn? && !ChosenHasRoom(After(start, es, k).c)
    ensures j < |es| && es[j].CarIn? && !ChosenHasRoom(After(start, es, j).c)
    ensures forall i :: 0 <= i < j && es[i].CarIn? ==> ChosenHasRoom(After(start, es, i).c)
  {
    if i: nat :| i < k && es[i].CarIn? && !ChosenHasRoom(After(start, es, i).c) {
      j := FirstFull(start, es, i);
    } else {
      j := k;
    }
  }

  /** From any state with true trackers, over every run of entries and exits: no level ever holds
      more cars than its capacity if and only if car_count never found the tracker of the level it
      chose at capacity. */
  lemma OverfullFrom(start: Books, es: seq<Event>)
    requires Accurate(start) && Run(start, es).Some?
    ensures NeverOverfull(start, es) <==> AlwaysRoom(start, es)
  {
    if AlwaysRoom(start, es) {
      forall k | 0 <= k <= |es| ensures NoneOverfull(After(start, es, k)) { TrackersTrue(start, es, k); }
    } else {
      var k: nat :| k < |es| && es[k].CarIn? && !ChosenHasRoom(After(start, es, k).c);
      var j := FirstFull(start, es, k);
      FullTrackerOverfills(start, es, j);
      assert !NoneOverfull(After(start, es, j + 1));
    }
  }

  /** So it is for a car park that starts empty. */
  lemma OverfullExactly(es: seq<Event>)
    requires Run(EMPTY_BOOKS, es).Some?
    ensures NeverOverfull(EMPTY_BOOKS, es) <==> AlwaysRoom(EMPTY_BOOKS, es)
  {
    OverfullFrom(EMPTY_BOOKS, es);
  }
}
