/** tempmonitor (firealarm.c lines 44-139) as it runs: two linked lists cut to length, a sort
    buffer, and two alarm tests at every sample. It computes the tests of module Detector. */
module FireAlarm {
  import opened LinkedList
  import opened Sorting
  import opened Detector

  /** Pushing one element and cutting at `k` gives the newest `k` again. */
  lemma NewestGrows(s: seq<int>, x: int, k: nat)
    requires k > 0
    ensures var r := [x] + Newest(s, k); Newest(s + [x], k) == r[..Kept(k, |r|)]
  {
  }

  /** Lines 64-70 and 91-97: push a temperature, then delete everything after the `cap`th node.
      The caller's pointer is the pushed node; what deletenodes returns is dropped. */
  method Record(list: Node?<int>, x: int, cap: nat, ghost spine: seq<Node<int>>, ghost all: seq<int>)
    returns (r: Node<int>, ghost kept: seq<Node<int>>)
    requires cap > 0 && Linked(list, spine) && Values(spine) == Newest(all, cap)
    modifies set n | n in spine
    ensures Linked(r, kept) && Values(kept) == Newest(all + [x], cap)
    ensures forall n :: n in kept ==> n in spine || fresh(n)
  {
    r := Push(list, x, spine);
    ghost var longer := [r] + spine;
    ghost var v := Values(longer);
    kept := longer[..Kept(cap, |longer|)];
    var dropped := Truncate(r, cap, longer);
    assert dropped == r;
    NewestGrows(all, x, cap);
    assert Values(kept) == v[..Kept(cap, |longer|)];
  }

  method CountNodes(list: Node?<int>, ghost spine: seq<Node<int>>) returns (count: nat)
    requires Linked(list, spine)
    ensures count == |spine|
  {
    count := 0;
    var t := list;
    while t != null
      invariant count <= |spine| && t == At(spine, count)
      decreases |spine| - count
    {
      t := t.next;
      count := count + 1;
    }
  }

  /** Lines 80-87: copy the five samples into the buffer, sort it, take the middle. */
  method MiddleOf(list: Node?<int>, ghost spine: seq<Node<int>>) returns (mediantemp: int)
    requires Linked(list, spine) && |spine| == MEDIAN_WINDOW
    requires forall i :: 0 <= i < |spine| ==> IsInt16(spine[i].val)
    ensures mediantemp == Median(Values(spine))
  {
    var sorttemp := new int[MEDIAN_WINDOW];
    var count := 0;
    var t := list;
    while t != null
      invariant count <= |spine| && t == At(spine, count)
      invariant forall i :: 0 <= i < count ==> sorttemp[i] == spine[i].val
      decreases |spine| - count
    {
      sorttemp[count] := t.val;
      t := t.next;
      count := count + 1;
    }
    assert sorttemp[..] == Values(spine);
    Qsort(sorttemp);
    SortedIsAscendingPermutation(Values(spine));
    mediantemp := sorttemp[(MEDIAN_WINDOW - 1) / 2];
  }

  /** Lines 100-109: how many medians, how many of them high, and the oldest. */
  method Scan(medians: Node<int>, ghost spine: seq<Node<int>>) returns (count: nat, hightemps: nat, oldest: int)
    requires Linked(medians, spine)
    ensures count == |spine|
    ensures hightemps == CountAtLeast(Values(spine), 58)
    ensures oldest == spine[|spine| - 1].val
  {
    count, hightemps, oldest := 0, 0, medians.val;
    ghost var v := Values(spine);
    var t: Node?<int> := medians;
    while t != null
      invariant count <= |spine| && t == At(spine, count)
      invariant hightemps == CountAtLeast(v[..count], HIGH_TEMPERATURE)
      invariant count > 0 ==> oldest == spine[count - 1].val
      decreases |spine| - count
    {
      assert v[..count + 1][..count] == v[..count];
      if t.val >= HIGH_TEMPERATURE { hightemps := hightemps + 1; }
      oldest := t.val;
      t := t.next;
      count := count + 1;
    }
    assert v[..count] == v;
  }

  /** The two lists after the samples `h`. */
  ghost predicate Tracks(templist: Node?<int>, ts: seq<Node<int>>, medianlist: Node?<int>, ms: seq<Node<int>>,
                         h: seq<int>)
    reads ts, ms
  {
    && Linked(templist, ts) && Values(ts) == Newest(h, MEDIAN_WINDOW)
    && Linked(medianlist, ms) && Values(ms) == MedianList(h)
    && forall x :: x in ts ==> x !in ms
  }

  /** Lines 63-128: one sample. `full` says whether five samples were there to take a median of. */
  method Sample(templist: Node?<int>, medianlist: Node?<int>, temp: int,
                ghost ts: seq<Node<int>>, ghost ms: seq<Node<int>>, ghost h: seq<int>)
    returns (templist': Node?<int>, medianlist': Node?<int>, full: bool, isFixed: bool, isRise: bool,
             ghost ts': seq<Node<int>>, ghost ms': seq<Node<int>>)
    requires Tracks(templist, ts, medianlist, ms, h)
    requires IsInt16(temp) && forall i :: 0 <= i < |h| ==> IsInt16(h[i])
    modifies set n | n in ts, set n | n in ms
    ensures Tracks(templist', ts', medianlist', ms', h + [temp])
    ensures forall n :: n in ts' ==> n in ts || fresh(n)
    ensures forall n :: n in ms' ==> n in ms || fresh(n)
    ensures full <==> |h| >= MEDIAN_WINDOW - 1
    ensures isFixed == FixedFires(h + [temp]) && isRise == RiseFires(h + [temp])
  {
    MediansGrow(h, temp);
    var head, ts1 := Record(templist, temp, MEDIAN_WINDOW, ts, h);
    ts' := ts1;
    templist', medianlist', ms', isFixed, isRise := head, medianlist, ms, false, false;
    var count := CountNodes(templist', ts');
    full := count == MEDIAN_WINDOW;
    if full {
      forall i | 0 <= i < |ts'| ensures IsInt16(ts'[i].val) {
        assert ts'[i].val == Values(ts')[i];
      }
      var mediantemp := MiddleOf(templist', ts');
      label L:
      var top, ms1 := Record(medianlist, mediantemp, TEMPCHANGE_WINDOW, ms, Medians(h));
      assert Values(ts') == old@L(Values(ts'));
      medianlist', ms' := top, ms1;
      var medians, hightemps, oldest := Scan(top, ms');
      if medians == TEMPCHANGE_WINDOW {
        isFixed := hightemps >= HIGH_ENOUGH;
        isRise := head.val - oldest >= RISE;
        assert head.val == Values(ts')[0] == temp;
        assert oldest == Values(ms')[29];
      }
    }
  }

  /** The broadcasts made so far are those the history calls for. */
  ghost predicate Faithful(temps: seq<int>, fixed: seq<bool>, rise: seq<bool>) {
    && |fixed| == |rise| <= |temps|
    && forall n :: 0 <= n < |fixed| ==> fixed[n] == FixedFires(temps[..n + 1]) && rise[n] == RiseFires(temps[..n + 1])
  }

  lemma FaithfulGrows(temps: seq<int>, fixed: seq<bool>, rise: seq<bool>, f: bool, r: bool)
    requires Faithful(temps, fixed, rise) && |fixed| < |temps|
    requires f == FixedFires(temps[..|fixed| + 1]) && r == RiseFires(temps[..|fixed| + 1])
    ensures Faithful(temps, fixed + [f], rise + [r])
  {
  }

  /** None of the first `n` iterations ended the loop. */
  ghost predicate Quiet(alarms: seq<char>, n: int)
    requires n <= |alarms|
  {
    forall i :: 0 <= i < n ==> i < 4 || alarms[i] == '0'
  }

  /** The flag read last; none is read before the fifth sample. */
  ghost function Last(alarms: seq<char>, n: nat): char
    requires n <= |alarms|
  {
    if n <= 4 then '0' else alarms[n - 1]
  }

  lemma QuietGrows(alarms: seq<char>, n: nat)
    requires n < |alarms| && Quiet(alarms, n - 1) && Last(alarms, n) == '0'
    ensures Quiet(alarms, n)
  {
  }

  /** The monitor over one observed run: `temps[n]` is the level's temperature and `alarms[n]`
      its alarm flag as read in iteration n. `fixed[n]` and `rise[n]` say which of the two
      broadcasts iteration n made. The loop ends with the first iteration, from the fifth on, that reads
      an alarm flag other than '0'. */
  method TempMonitor(temps: seq<int>, alarms: seq<char>) returns (fixed: seq<bool>, rise: seq<bool>)
    requires |alarms| == |temps|
    requires forall i :: 0 <= i < |temps| ==> IsInt16(temps[i])
    ensures |fixed| == |rise| <= |temps|
    ensures forall n :: 0 <= n < |fixed| - 1 ==> n < 4 || alarms[n] == '0'
    ensures |fixed| < |temps| ==> |fixed| >= 5 && alarms[|fixed| - 1] != '0'
    ensures forall n :: 0 <= n < |fixed| ==> fixed[n] == FixedFires(temps[..n + 1])
    ensures forall n :: 0 <= n < |rise| ==> rise[n] == RiseFires(temps[..n + 1])
  {
    fixed, rise := [], [];
    var templist: Node?<int>, medianlist: Node?<int> := null, null;
    ghost var ts: seq<Node<int>>, ms: seq<Node<int>> := [], [];
    var localCheck := '0';
    var n := 0;
    while localCheck == '0' && n < |temps|
      invariant n <= |temps| && |fixed| == n
      invariant Tracks(templist, ts, medianlist, ms, temps[..n])
      invariant fresh(set x | x in ts) && fresh(set x | x in ms)
      invariant Faithful(temps, fixed, rise)
      invariant localCheck == Last(alarms, n) && Quiet(alarms, n - 1)
      decreases |temps| - n
    {
      assert temps[..n + 1] == temps[..n] + [temps[n]];
      var full, isFixed, isRise;
      templist, medianlist, full, isFixed, isRise, ts, ms := Sample(templist, medianlist, temps[n], ts, ms, temps[..n]);
      if full {
        localCheck := alarms[n];
      }
      QuietGrows(alarms, n);
      FaithfulGrows(temps, fixed, rise, isFixed, isRise);
      fixed, rise := fixed + [isFixed], rise + [isRise];
      n := n + 1;
    }
  }
}
