/** Specifications over the contents of a counter array (a sequence of slot counts):
    totals, the first busiest and first quietest slot, and the two-hour windows. */
module Counts {

  /** Sum of all slots, accumulated from the front as a scanning loop does. */
  function Sum(s: seq<int>): (total: int)
    ensures (forall i :: 0 <= i < |s| ==> 0 <= s[i]) ==> 0 <= total
  {
    if s == [] then 0 else Sum(s[..|s| - 1]) + s[|s| - 1]
  }

  /** Incrementing one slot by one increments the sum by one. */
  lemma {:induction false} SumBump(s: seq<int>, k: int)
    requires 0 <= k < |s|
    ensures Sum(s[k := s[k] + 1]) == Sum(s) + 1
  {
    var t := s[k := s[k] + 1];
    var n := |s| - 1;
    if k == n {
      assert t[..n] == s[..n];
    } else {
      assert t[..n] == s[..n][k := s[k] + 1];
      SumBump(s[..n], k);
    }
  }

  /** Extending a prefix by one slot adds that slot to the running total. */
  lemma SumPrefix(s: seq<int>, i: int)
    requires 0 <= i < |s|
    ensures Sum(s[..i + 1]) == Sum(s[..i]) + s[i]
  {
    assert s[..i + 1][..i] == s[..i];
  }

  /** i is a slot holding the largest count, and no slot before it holds as much. */
  ghost predicate IsFirstMax(s: seq<int>, i: int)
  {
    0 <= i < |s| &&
    (forall j :: 0 <= j < |s| ==> s[j] <= s[i]) &&
    (forall j :: 0 <= j < i ==> s[j] < s[i])
  }

  /** i is a slot holding the smallest count, and no slot before it holds as little. */
  ghost predicate IsFirstMin(s: seq<int>, i: int)
  {
    0 <= i < |s| &&
    (forall j :: 0 <= j < |s| ==> s[i] <= s[j]) &&
    (forall j :: 0 <= j < i ==> s[i] < s[j])
  }

  /** The first busiest slot is determined uniquely. */
  lemma FirstMaxUnique(s: seq<int>, i: int, k: int)
    requires IsFirstMax(s, i) && IsFirstMax(s, k)
    ensures i == k
  {
    assert s[i] == s[k];
  }

  /** The first quietest slot is determined uniquely. */
  lemma FirstMinUnique(s: seq<int>, i: int, k: int)
    requires IsFirstMin(s, i) && IsFirstMin(s, k)
    ensures i == k
  {
    assert s[i] == s[k];
  }

  /** Scan for the busiest slot: a strictly greater count replaces the running best,
      so the first slot holding the maximum wins. */
  method FirstMaxIndex(counts: array<int>) returns (busiest: int)
    requires counts.Length > 0
    ensures IsFirstMax(counts[..], busiest)
  {
    busiest := 0;
    var firstPlace := counts[0];
    for slot := 1 to counts.Length
      invariant 0 <= busiest < slot
      invariant firstPlace == counts[busiest]
      invariant forall j :: 0 <= j < slot ==> counts[j] <= firstPlace
      invariant forall j :: 0 <= j < busiest ==> counts[j] < firstPlace
    {
      if counts[slot] > firstPlace {
        firstPlace := counts[slot];
        busiest := slot;
      }
    }
  }

  /** Scan for the quietest slot: a strictly smaller count replaces the running best,
      so the first slot holding the minimum wins. */
  method FirstMinIndex(counts: array<int>) returns (quietest: int)
    requires counts.Length > 0
    ensures IsFirstMin(counts[..], quietest)
  {
    quietest := 0;
    var lastPlace := counts[0];
    for slot := 1 to counts.Length
      invariant 0 <= quietest < slot
      invariant lastPlace == counts[quietest]
      invariant forall j :: 0 <= j < slot ==> lastPlace <= counts[j]
      invariant forall j :: 0 <= j < quietest ==> lastPlace < counts[j]
    {
      if counts[slot] < lastPlace {
        lastPlace := counts[slot];
        quietest := slot;
      }
    }
  }

  /** When every slot is zero, the first busiest and the first quietest slot are both 0. */
  lemma AllZeroPicksFirst(s: seq<int>, i: int)
    requires |s| > 0 && forall j :: 0 <= j < |s| ==> s[j] == 0
    ensures IsFirstMax(s, i) ==> i == 0
    ensures IsFirstMin(s, i) ==> i == 0
    ensures IsFirstMax(s, 0) && IsFirstMin(s, 0)
  {
  }

  /** The hourly example [5, 1, 1, ..., 1, 9]: the busiest hour is 23, the quietest is 1. */
  lemma {:induction false} PeakAndTroughExample(i: int)
    ensures var s := [5] + seq(22, _ => 1) + [9];
      (IsFirstMax(s, i) <==> i == 23) && (IsFirstMin(s, i) <==> i == 1)
  {
    var s := [5] + seq(22, _ => 1) + [9];
    assert s[0] == 5 && s[1] == 1 && s[23] == 9;
    assert forall j :: 1 <= j < 23 ==> s[j] == 1;
    if IsFirstMax(s, i) {
      assert s[23] <= s[i];
    }
    if IsFirstMin(s, i) {
      assert s[i] <= s[1];
      if i == 0 { assert false; }
      if i > 1 { assert false; }
    }
  }

  // ---- two-hour windows over a circular day ----

  /** Combined count of hour h and the hour after it, wrapping from the last slot to slot 0. */
  function PairSum(s: seq<int>, h: int): int
    requires 0 <= h < |s|
  {
    s[h] + s[(h + 1) % |s|]
  }

  /** The starting value of the two-hour scan: the window that wraps from the last slot to slot 0. */
  function Baseline(s: seq<int>): int
    requires |s| > 0
  {
    s[0] + s[|s| - 1]
  }

  /** What the two-hour scan computes when its running best is never updated:
      r is the last hour whose window exceeds the baseline, or the last slot if none does. */
  ghost predicate IsLastAboveBaseline(s: seq<int>, r: int)
    requires |s| > 0
  {
    0 <= r < |s| &&
    (r == |s| - 1 <==> forall h :: 0 <= h < |s| ==> PairSum(s, h) <= Baseline(s)) &&
    (r != |s| - 1 ==> PairSum(s, r) > Baseline(s)) &&
    (forall h :: r < h < |s| ==> PairSum(s, h) <= Baseline(s))
  }

  /** r starts a two-hour window with the largest combined count; ties go to the last slot
      (the scan's starting candidate) and then to the lowest hour. */
  ghost predicate IsPeakPair(s: seq<int>, r: int)
    requires |s| > 0
  {
    0 <= r < |s| &&
    (forall h :: 0 <= h < |s| ==> PairSum(s, h) <= PairSum(s, r)) &&
    (r != |s| - 1 ==>
      PairSum(s, |s| - 1) < PairSum(s, r) &&
      forall h :: 0 <= h < r ==> PairSum(s, h) < PairSum(s, r))
  }

  /** The wrap-around example: only hour 23 (3) and hour 0 (4) are non-zero. Their window is the
      busiest, and both readings of the scan return 23. */
  lemma WrapAroundExample(r: int)
    ensures var s := [4] + seq(22, _ => 0) + [3];
      (IsLastAboveBaseline(s, r) <==> r == 23) && (IsPeakPair(s, r) <==> r == 23)
  {
    var s := [4] + seq(22, _ => 0) + [3];
    assert s[0] == 4 && s[23] == 3;
    assert forall j :: 1 <= j < 23 ==> s[j] == 0;
    assert PairSum(s, 23) == 7 && PairSum(s, 0) == 4 && PairSum(s, 22) == 3;
    assert forall h :: 1 <= h < 22 ==> PairSum(s, h) == 0;
  }

  /** A day whose busiest window (hours 1-2, 10 accesses) is not the one the never-updated
      baseline scan reports: that scan returns hour 3, whose window holds 1 access. */
  lemma BaselineScanMissesPeak(r: int)
    ensures var s := [0, 5, 5, 1] + seq(20, _ => 0);
      (IsLastAboveBaseline(s, r) <==> r == 3) &&
      PairSum(s, 3) < PairSum(s, 1) &&
      (IsPeakPair(s, r) <==> r == 1)
  {
    var s := [0, 5, 5, 1] + seq(20, _ => 0);
    assert s[0] == 0 && s[1] == 5 && s[2] == 5 && s[3] == 1 && s[23] == 0;
    assert forall j :: 4 <= j < 24 ==> s[j] == 0;
    assert PairSum(s, 0) == 5 && PairSum(s, 1) == 10 && PairSum(s, 2) == 6 && PairSum(s, 3) == 1;
    assert forall h :: 4 <= h < 24 ==> PairSum(s, h) == 0;
  }
}
