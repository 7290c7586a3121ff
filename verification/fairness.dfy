/** Infinite runs of threads that each take one atomic step when scheduled, and the one argument
    all progress results here use: a rank that every effective step lowers. */
module Fairness {

  /** The state after the first `n` scheduled steps. A blocked thread's step changes nothing. */
  ghost function Trace<S, T>(step: (S, T) -> S, s: S, sched: nat -> T, n: nat): S {
    if n == 0 then s else step(Trace(step, s, sched, n - 1), sched(n - 1))
  }

  ghost predicate RunsAfter<T>(sched: nat -> T, t: T, n: nat) {
    exists m: nat :: m >= n && sched(m) == t
  }

  /** Every thread is scheduled again and again. */
  ghost predicate Fair<T(!new)>(sched: nat -> T) {
    forall t, n: nat :: RunsAfter(sched, t, n)
  }

  ghost predicate Lowers<S(!new), T(!new)>(step: (S, T) -> S, inv: S -> bool, rank: S -> nat) {
    forall s, t :: inv(s) ==> inv(step(s, t)) && (step(s, t) == s || rank(step(s, t)) < rank(s))
  }

  ghost predicate Helps<S(!new), T>(step: (S, T) -> S, inv: S -> bool, done: S -> bool, helper: S -> T) {
    forall s :: inv(s) && !done(s) ==> step(s, helper(s)) != s
  }

  lemma {:induction false} RankFalls<S(!new), T(!new)>(step: (S, T) -> S, inv: S -> bool, rank: S -> nat,
      s: S, sched: nat -> T, n: nat, m: nat)
    requires inv(s) && Lowers(step, inv, rank) && n <= m
    ensures inv(Trace(step, s, sched, n)) && inv(Trace(step, s, sched, m))
    ensures var a, b := Trace(step, s, sched, n), Trace(step, s, sched, m); a == b || rank(b) < rank(a)
    decreases m
  {
    if n < m {
      RankFalls(step, inv, rank, s, sched, n, m - 1);
    } else if m > 0 {
      RankFalls(step, inv, rank, s, sched, m - 1, m - 1);
    }
  }

  // ----- one part of a larger system -----

  /** Until it is done, what is seen of the part only changes by lowering the rank. */
  ghost predicate Sinks<V(!new)>(view: nat -> V, rank: V -> nat, done: V -> bool, n: nat) {
    forall i: nat :: i >= n && !done(view(i)) ==> view(i + 1) == view(i) || rank(view(i + 1)) < rank(view(i))
  }

  /** Until it is done, it changes whenever its helper is scheduled. */
  ghost predicate Moves<V(!new), T>(view: nat -> V, who: nat -> T, helper: V -> T, done: V -> bool, n: nat) {
    forall i: nat :: i >= n && !done(view(i)) && who(i) == helper(view(i)) ==> view(i + 1) != view(i)
  }

  lemma {:induction false} NextChange<V(!new), T>(view: nat -> V, who: nat -> T, rank: V -> nat, done: V -> bool,
      helper: V -> T, n: nat, m: nat) returns (k: nat)
    requires Sinks(view, rank, done, n) && Moves(view, who, helper, done, n)
    requires n <= m && !done(view(n)) && who(m) == helper(view(n))
    ensures n < k && rank(view(k)) < rank(view(n))
    decreases m - n
  {
    if view(n + 1) != view(n) {
      k := n + 1;
    } else {
      assert n < m;
      k := NextChange(view, who, rank, done, helper, n + 1, m);
    }
  }

  /** If every helper is scheduled again and again, the part is done some time. */
  lemma {:induction false} Settles<V(!new), T(!new)>(view: nat -> V, who: nat -> T, rank: V -> nat, done: V -> bool,
      helper: V -> T, n: nat) returns (k: nat)
    requires Sinks(view, rank, done, n) && Moves(view, who, helper, done, n)
    requires forall v: V, m: nat :: RunsAfter(who, helper(v), m)
    ensures k >= n && done(view(k))
    decreases rank(view(n))
  {
    if done(view(n)) {
      return n;
    }
    assert RunsAfter(who, helper(view(n)), n);
    var m: nat :| m >= n && who(m) == helper(view(n));
    var later := NextChange(view, who, rank, done, helper, n, m);
    k := Settles(view, who, rank, done, helper, later);
  }

  /** If every effective step lowers the rank, and before completion some thread can always take
      an effective step, every fair run completes. */
  lemma Completes<S(!new), T(!new)>(step: (S, T) -> S, inv: S -> bool, rank: S -> nat,
      done: S -> bool, helper: S -> T, s: S, sched: nat -> T, n: nat) returns (k: nat)
    requires inv(s) && Lowers(step, inv, rank) && Helps(step, inv, done, helper) && Fair(sched)
    ensures k >= n && done(Trace(step, s, sched, k))
  {
    var view := (i: nat) => Trace(step, s, sched, i);
    forall i: nat ensures inv(view(i)) { RankFalls(step, inv, rank, s, sched, i, i); }
    assert Sinks(view, rank, done, n);
    assert Moves(view, sched, helper, done, n);
    k := Settles(view, sched, rank, done, helper, n);
  }

  // ----- service in order -----

  ghost predicate HoldsAfter(p: nat -> bool, n: nat) {
    exists m: nat :: m >= n && p(m)
  }

  ghost predicate Recurs(p: nat -> bool) {
    forall n: nat :: HoldsAfter(p, n)
  }

  /** One step of a queue with one server: only a pop takes from the front, everything else appends,
      and an idle server that gets its turn pops. */
  ghost predicate QueueStep<X>(q: seq<X>, q': seq<X>, idle: bool, idle': bool, pops: bool, turn: bool) {
    && (pops ==> q != [] && q[1..] <= q')
    && (!pops ==> q <= q' && (idle ==> idle'))
    && (idle && turn && q != [] ==> pops)
  }

  ghost predicate Queueing<X(!new)>(q: nat -> seq<X>, idle: nat -> bool, pops: nat -> bool, turn: nat -> bool) {
    forall i: nat :: QueueStep(q(i), q(i + 1), idle(i), idle(i + 1), pops(i), turn(i))
  }

  /** Walking from `n` to `m`, up to the first pop. */
  lemma {:induction false} Walk<X(!new)>(q: nat -> seq<X>, idle: nat -> bool, pops: nat -> bool, turn: nat -> bool,
      n: nat, m: nat) returns (k: nat)
    requires Queueing(q, idle, pops, turn) && n <= m
    ensures n <= k <= m && q(n) <= q(k)
    ensures !pops(k) ==> k == m && (idle(n) ==> idle(m))
    decreases m - n
  {
    assert QueueStep(q(n), q(n + 1), idle(n), idle(n + 1), pops(n), turn(n));
    if pops(n) || n == m {
      k := n;
    } else {
      k := Walk(q, idle, pops, turn, n + 1, m);
    }
  }

  lemma NextPop<X(!new)>(q: nat -> seq<X>, idle: nat -> bool, pops: nat -> bool, turn: nat -> bool, n: nat)
    returns (k: nat)
    requires Queueing(q, idle, pops, turn) && Recurs(idle) && Recurs(turn) && q(n) != []
    ensures k >= n && pops(k) && q(n) <= q(k)
  {
    assert HoldsAfter(idle, n);
    var i: nat :| i >= n && idle(i);
    k := Walk(q, idle, pops, turn, n, i);
    if !pops(k) {
      assert HoldsAfter(turn, i);
      var m: nat :| m >= i && turn(m);
      k := Walk(q, idle, pops, turn, i, m);
      assert QueueStep(q(k), q(k + 1), idle(k), idle(k + 1), pops(k), turn(k));
    }
  }

  /** A server that is idle again and again, and gets its turn again and again, serves everything
      queued, whatever position it has. */
  lemma {:induction false} ServedInTurn<X(!new)>(q: nat -> seq<X>, idle: nat -> bool, pops: nat -> bool,
      turn: nat -> bool, n: nat, j: nat) returns (k: nat)
    requires Queueing(q, idle, pops, turn) && Recurs(idle) && Recurs(turn) && j < |q(n)|
    ensures k >= n && pops(k) && q(k) != [] && q(k)[0] == q(n)[j]
    decreases j
  {
    k := NextPop(q, idle, pops, turn, n);
    assert QueueStep(q(k), q(k + 1), idle(k), idle(k + 1), pops(k), turn(k));
    if j > 0 {
      assert q(k)[1..][j - 1] == q(n)[j];
      k := ServedInTurn(q, idle, pops, turn, k + 1, j - 1);
    }
  }
}
