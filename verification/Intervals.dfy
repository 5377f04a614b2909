/** Half-open intervals of nanoseconds, and the merge that every gap total is read from. */
module Intervals {

  datatype Interval = Interval(start: int, end: int)

  ghost predicate Inside(iv: Interval, t: int) {
    iv.start <= t < iv.end
  }

  /** Instant t lies in some interval of the sequence. */
  ghost predicate Covers(ivs: seq<Interval>, t: int) {
    exists k :: 0 <= k < |ivs| && Inside(ivs[k], t)
  }

  ghost predicate Proper(ivs: seq<Interval>) {
    forall k :: 0 <= k < |ivs| ==> ivs[k].start < ivs[k].end
  }

  /** In increasing order with at least one uncovered instant between neighbours. */
  ghost predicate Separated(ivs: seq<Interval>) {
    forall i, j :: 0 <= i < j < |ivs| ==> ivs[i].end < ivs[j].start
  }

  ghost predicate Within(ivs: seq<Interval>, lo: int, hi: int) {
    forall k :: 0 <= k < |ivs| ==> lo <= ivs[k].start && ivs[k].end <= hi
  }

  ghost predicate SameCover(a: seq<Interval>, b: seq<Interval>) {
    forall t :: Covers(a, t) <==> Covers(b, t)
  }

  // ---------- sorting ----------

  predicate Before(a: Interval, b: Interval) {
    a.start < b.start || (a.start == b.start && a.end <= b.end)
  }

  ghost predicate Sorted(ivs: seq<Interval>) {
    forall i :: 0 < i < |ivs| ==> Before(ivs[i - 1], ivs[i])
  }

  function Insert(x: Interval, ivs: seq<Interval>): (r: seq<Interval>)
    ensures r != [] && (r[0] == x || (ivs != [] && r[0] == ivs[0]))
    ensures Sorted(ivs) ==> Sorted(r)
    ensures multiset(r) == multiset(ivs) + multiset{x}
  {
    if ivs == [] then [x]
    else if Before(x, ivs[0]) then [x] + ivs
    else
      assert ivs == [ivs[0]] + ivs[1..];
      [ivs[0]] + Insert(x, ivs[1..])
  }

  /** The built-in sort: the same intervals, ordered by start and then by end. */
  function Sort(ivs: seq<Interval>): (r: seq<Interval>)
    ensures Sorted(r) && multiset(r) == multiset(ivs)
  {
    if ivs == [] then []
    else
      assert ivs == [ivs[0]] + ivs[1..];
      Insert(ivs[0], Sort(ivs[1..]))
  }

  lemma SameElementsCover(a: seq<Interval>, b: seq<Interval>)
    requires forall x :: x in a ==> x in b
    ensures forall t :: Covers(a, t) ==> Covers(b, t)
    ensures Proper(b) ==> Proper(a)
    ensures forall lo, hi :: Within(b, lo, hi) ==> Within(a, lo, hi)
  {
    forall t | Covers(a, t) ensures Covers(b, t) {
      var k :| 0 <= k < |a| && Inside(a[k], t);
      assert a[k] in b;
    }
    forall k | 0 <= k < |a| ensures a[k] in b {
    }
  }

  lemma SortCovers(ivs: seq<Interval>)
    ensures SameCover(Sort(ivs), ivs)
    ensures Proper(ivs) ==> Proper(Sort(ivs))
    ensures forall lo, hi :: Within(ivs, lo, hi) ==> Within(Sort(ivs), lo, hi)
  {
    var s := Sort(ivs);
    forall x ensures x in s <==> x in ivs {
      assert x in s <==> x in multiset(s);
      assert x in ivs <==> x in multiset(ivs);
    }
    SameElementsCover(s, ivs);
    SameElementsCover(ivs, s);
  }

  // ---------- merging ----------

  ghost predicate Tight(from: seq<Interval>, merged: seq<Interval>) {
    && (Proper(from) ==> Proper(merged))
    && forall lo, hi :: Within(from, lo, hi) ==> Within(merged, lo, hi)
  }

  /** What the first k sorted intervals have been merged into. */
  ghost predicate Merged(sorted: seq<Interval>, k: nat, merged: seq<Interval>)
    requires k <= |sorted|
  {
    && SameCover(merged, sorted[..k])
    && Separated(merged)
    && Tight(sorted, merged)
    && (merged != [] && k < |sorted| ==> merged[|merged| - 1].start <= sorted[k].start)
  }

  function Joined(last: Interval, next: Interval): Interval {
    Interval(last.start, if last.end >= next.end then last.end else next.end)
  }

  function MergeNext(merged: seq<Interval>, next: Interval): seq<Interval> {
    var last := |merged| - 1;
    if merged != [] && next.start <= merged[last].end then merged[last := Joined(merged[last], next)]
    else merged + [next]
  }

  lemma MergeStep(sorted: seq<Interval>, k: nat, merged: seq<Interval>)
    requires k < |sorted| && Merged(sorted, k, merged)
    requires k + 1 < |sorted| ==> sorted[k].start <= sorted[k + 1].start
    ensures Merged(sorted, k + 1, MergeNext(merged, sorted[k]))
  {
    var next, after := sorted[k], MergeNext(merged, sorted[k]);
    ExtendCover(merged, after, sorted[..k], next);
    assert sorted[..k + 1] == sorted[..k] + [next];
    forall lo, hi | Within(sorted, lo, hi)
      ensures Within(after, lo, hi)
    {
      assert Within(merged, lo, hi);
    }
  }

  /** Apart, covering the same instants, and no wider than the intervals that went in. */
  ghost predicate MergeOf(ivs: seq<Interval>, merged: seq<Interval>) {
    SameCover(merged, ivs) && Separated(merged) && Tight(ivs, merged)
  }

  lemma MergedIsMerge(ivs: seq<Interval>, merged: seq<Interval>)
    requires var sorted := Sort(ivs); Merged(sorted, |sorted|, merged)
    ensures MergeOf(ivs, merged)
  {
    var sorted := Sort(ivs);
    SortCovers(ivs);
    assert sorted[..|sorted|] == sorted;
    forall lo, hi | Within(ivs, lo, hi)
      ensures Within(merged, lo, hi)
    {
      assert Within(sorted, lo, hi);
    }
  }

  /** The first k intervals, merged one after another. */
  function MergedUpTo(sorted: seq<Interval>, k: nat): seq<Interval>
    requires k <= |sorted|
  {
    if k == 0 then [] else MergeNext(MergedUpTo(sorted, k - 1), sorted[k - 1])
  }

  lemma {:induction false} MergedUpToMerges(sorted: seq<Interval>, k: nat)
    requires k <= |sorted| && forall i :: 0 < i < |sorted| ==> sorted[i - 1].start <= sorted[i].start
    ensures Merged(sorted, k, MergedUpTo(sorted, k))
  {
    if k > 0 {
      MergedUpToMerges(sorted, k - 1);
      MergeStep(sorted, k - 1, MergedUpTo(sorted, k - 1));
    }
  }

  lemma MergedUpToIsMerge(ivs: seq<Interval>)
    ensures var sorted := Sort(ivs); MergeOf(ivs, MergedUpTo(sorted, |sorted|))
  {
    var sorted := Sort(ivs);
    MergedUpToMerges(sorted, |sorted|);
    MergedIsMerge(ivs, MergedUpTo(sorted, |sorted|));
  }

  /** Merges overlapping and touching intervals: what remains is apart and covers the same instants. */
  method MergeIntervals(ivs: seq<Interval>) returns (merged: seq<Interval>)
    ensures MergeOf(ivs, merged)
  {
    var sorted := Sort(ivs);
    merged := [];
    for k := 0 to |sorted|
      invariant merged == MergedUpTo(sorted, k)
    {
      var next := sorted[k];
      var last := |merged| - 1;
      if merged != [] && next.start <= merged[last].end {
        var end := if merged[last].end >= next.end then merged[last].end else next.end;
        merged := merged[last := Interval(merged[last].start, end)];
      } else {
        merged := merged + [next];
      }
    }
    MergedUpToIsMerge(ivs);
  }

  /** One merge step adds exactly the instants of the next interval. */
  lemma ExtendCover(before: seq<Interval>, after: seq<Interval>, done: seq<Interval>, next: Interval)
    requires SameCover(before, done)
    requires after == before + [next]
             || (before != [] && var l := |before| - 1;
                 before[l].start <= next.start <= before[l].end
                 && after == before[l := Joined(before[l], next)])
    ensures SameCover(after, done + [next])
  {
    forall t ensures Covers(after, t) <==> Covers(done + [next], t) {
      CoverAppend(done, next, t);
      if after == before + [next] {
        CoverAppend(before, next, t);
      } else {
        var l := |before| - 1;
        CoverAppend(before[..l], before[l], t);
        CoverAppend(before[..l], after[l], t);
        assert before == before[..l] + [before[l]] && after == before[..l] + [after[l]];
      }
    }
  }

  lemma CoverAppend(ivs: seq<Interval>, x: Interval, t: int)
    ensures Covers(ivs + [x], t) <==> Covers(ivs, t) || Inside(x, t)
  {
    var s := ivs + [x];
    if k :| 0 <= k < |ivs| && Inside(ivs[k], t) {
      assert Inside(s[k], t);
    }
    if Inside(x, t) {
      assert Inside(s[|ivs|], t);
    }
  }

  // ---------- the merged form is unique ----------

  /** Apart and proper, an interval sequence is determined by the instants it covers. */
  lemma {:induction false} MergedFormIsUnique(a: seq<Interval>, b: seq<Interval>)
    requires Proper(a) && Separated(a) && Proper(b) && Separated(b)
    requires SameCover(a, b)
    ensures a == b
  {
    FirstInterval(a);
    FirstInterval(b);
    assert a != [] ==> Covers(b, a[0].start);
    assert b != [] ==> Covers(a, b[0].start);
    if a != [] {
      assert a[0].start == b[0].start;
      assert !Covers(b, a[0].end) && !Covers(a, b[0].end);
      assert a[0].end == b[0].end;
      forall t ensures Covers(a[1..], t) <==> Covers(b[1..], t) {
        CoverTail(a, t);
        CoverTail(b, t);
        assert Covers(a, t) <==> Covers(b, t);
      }
      MergedFormIsUnique(a[1..], b[1..]);
    }
  }

  /** The first interval holds the least covered instants, and its end is not covered. */
  lemma FirstInterval(a: seq<Interval>)
    requires Proper(a) && Separated(a)
    ensures a != [] ==> forall t :: Inside(a[0], t) ==> Covers(a, t)
    ensures a != [] ==> Covers(a, a[0].start) && !Covers(a, a[0].end)
    ensures a != [] ==> forall t :: Covers(a, t) ==> a[0].start <= t
  {
    if a != [] {
      assert Inside(a[0], a[0].start);
    }
  }

  /** The tail of a separated sequence covers what the whole covers past the first end. */
  lemma CoverTail(a: seq<Interval>, t: int)
    requires a != [] && Proper(a) && Separated(a)
    ensures Covers(a[1..], t) <==> Covers(a, t) && a[0].end <= t
  {
    if k :| 0 <= k < |a| && Inside(a[k], t) && a[0].end <= t {
      assert k > 0 && a[1..][k - 1] == a[k];
    }
    if k :| 0 <= k < |a[1..]| && Inside(a[1..][k], t) {
      assert a[k + 1] == a[1..][k];
    }
  }

  // ---------- durations are counts of covered instants ----------

  function TotalGap(ivs: seq<Interval>): int {
    if ivs == [] then 0 else TotalGap(ivs[..|ivs| - 1]) + ivs[|ivs| - 1].end - ivs[|ivs| - 1].start
  }

  function LongestGap(ivs: seq<Interval>): int {
    if ivs == [] then 0
    else
      var rest := LongestGap(ivs[..|ivs| - 1]);
      var d := ivs[|ivs| - 1].end - ivs[|ivs| - 1].start;
      if rest >= d then rest else d
  }

  /** How many instants of [lo, hi) the intervals cover. */
  ghost function CoveredCount(ivs: seq<Interval>, lo: int, hi: int): nat
    decreases hi - lo
  {
    if hi <= lo then 0
    else CoveredCount(ivs, lo, hi - 1) + (if Covers(ivs, hi - 1) then 1 else 0)
  }

  lemma {:induction false} CountConstant(ivs: seq<Interval>, lo: int, mid: int, hi: int, covered: bool)
    requires lo <= mid <= hi
    requires forall t :: mid <= t < hi ==> (Covers(ivs, t) <==> covered)
    ensures CoveredCount(ivs, lo, hi) == CoveredCount(ivs, lo, mid) + if covered then hi - mid else 0
    decreases hi - mid
  {
    if mid < hi {
      CountConstant(ivs, lo, mid, hi - 1, covered);
    }
  }

  lemma {:induction false} CountSame(a: seq<Interval>, b: seq<Interval>, lo: int, hi: int)
    requires forall t :: lo <= t < hi ==> (Covers(a, t) <==> Covers(b, t))
    ensures CoveredCount(a, lo, hi) == CoveredCount(b, lo, hi)
    decreases hi - lo
  {
    if lo < hi {
      CountSame(a, b, lo, hi - 1);
    }
  }

  lemma {:induction false} CountBound(ivs: seq<Interval>, lo: int, hi: int)
    requires lo <= hi
    ensures CoveredCount(ivs, lo, hi) <= hi - lo
    decreases hi - lo
  {
    if lo < hi {
      CountBound(ivs, lo, hi - 1);
    }
  }

  /** The summed durations of a merged sequence are the number of instants it covers: nothing is counted twice. */
  lemma {:induction false} TotalCountsInstants(ivs: seq<Interval>, lo: int, hi: int)
    requires Proper(ivs) && Separated(ivs) && Within(ivs, lo, hi) && lo <= hi
    ensures TotalGap(ivs) == CoveredCount(ivs, lo, hi)
    decreases |ivs|
  {
    if ivs == [] {
      CountConstant(ivs, lo, lo, hi, false);
    } else {
      var n := |ivs| - 1;
      var rest, last := ivs[..n], ivs[n];
      forall t ensures Covers(ivs, t) <==> Covers(rest, t) || Inside(last, t) {
        CoverAppend(rest, last, t);
        assert ivs == rest + [last];
      }
      TotalCountsInstants(rest, lo, last.start);
      CountSame(rest, ivs, lo, last.start);
      CountConstant(ivs, lo, last.start, last.end, true);
      CountConstant(ivs, lo, last.end, hi, false);
    }
  }

  /** The longest gap never exceeds the total, and one is zero exactly when the other is. */
  lemma {:induction false} LongestWithinTotal(ivs: seq<Interval>)
    requires Proper(ivs)
    ensures 0 <= LongestGap(ivs) <= TotalGap(ivs)
    ensures LongestGap(ivs) == 0 <==> TotalGap(ivs) == 0
    ensures LongestGap(ivs) == 0 <==> ivs == []
  {
    if ivs != [] {
      LongestWithinTotal(ivs[..|ivs| - 1]);
    }
  }

  /** The longest gap is at most a bound exactly when every gap is. */
  lemma {:induction false} LongestBounds(ivs: seq<Interval>, bound: nat)
    ensures LongestGap(ivs) <= bound <==> forall k :: 0 <= k < |ivs| ==> ivs[k].end - ivs[k].start <= bound
  {
    if ivs != [] {
      var n := |ivs| - 1;
      LongestBounds(ivs[..n], bound);
      assert ivs == ivs[..n] + [ivs[n]];
    }
  }
}
