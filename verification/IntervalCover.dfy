/** Whether reported coverage intervals leave no instant of a window unobserved. */
module IntervalCover {
  import opened Reporting
  import opened Sorting

  predicate Qualifies(c: Coverage, activity: bool) {
    if activity then c.activityComplete else c.flowsComplete
  }

  predicate Covers(c: Coverage, activity: bool, t: Instant) {
    Qualifies(c, activity) && c.start <= t < c.end
  }

  predicate StartLe(a: Coverage, b: Coverage) {
    a.start <= b.start
  }

  ghost predicate InstantCovered(coverage: seq<Coverage>, activity: bool, t: Instant) {
    exists c | c in coverage :: Covers(c, activity, t)
  }

  /** The meaning of coverage: every instant of the half-open window lies in a qualifying interval.
      An inverted window, which no caller asks about, needs only some qualifying interval. */
  ghost predicate Covered(start: Instant, end: Instant, coverage: seq<Coverage>, activity: bool) {
    if start <= end then
      forall t :: start <= t < end ==> InstantCovered(coverage, activity, t)
    else
      exists c | c in coverage :: Qualifies(c, activity)
  }

  lemma StartLeIsPreorder()
    ensures TotalPreorder(StartLe)
  {
  }

  /** The greedy walk over intervals sorted by their start decides exactly that. */
  method ComputeCovered(start: Instant, end: Instant, coverage: seq<Coverage>, activity: bool)
    returns (r: bool)
    ensures r <==> Covered(start, end, coverage, activity)
  {
    if start == end {
      return true;
    }
    var through := start;
    var items := Sort(coverage, StartLe);
    StartLeIsPreorder();
    SortSorts(coverage, StartLe);
    SameMembers(items, coverage);
    for i := 0 to |items|
      invariant start <= through
      invariant start < end ==> through < end
      invariant forall t | start <= t < through :: InstantCovered(coverage, activity, t)
      invariant forall k | 0 <= k < i :: !Covers(items[k], activity, through)
      invariant end < start ==> forall k | 0 <= k < i :: !Qualifies(items[k], activity)
    {
      var item := items[i];
      assert item in coverage;
      if !Qualifies(item, activity) {
        continue;
      }
      if item.start <= through < item.end {
        forall t | through <= t < item.end ensures InstantCovered(coverage, activity, t) {
          assert Covers(item, activity, t);
        }
        forall k | 0 <= k < i ensures !Covers(items[k], activity, item.end) {
          assert StartLe(items[k], item);
        }
        through := item.end;
      }
      if end <= through {
        return true;
      }
    }
    forall c | c in coverage
      ensures !Covers(c, activity, through) && (end < start ==> !Qualifies(c, activity))
    {
      assert c in items;
    }
    assert !InstantCovered(coverage, activity, through);
    return false;
  }

  /** Two adjacent windows are covered exactly when the joined window is. */
  lemma CoverSplits(a: Instant, b: Instant, c: Instant, coverage: seq<Coverage>, activity: bool)
    requires a <= b <= c
    ensures Covered(a, c, coverage, activity)
       <==> Covered(a, b, coverage, activity) && Covered(b, c, coverage, activity)
  {
  }

  lemma CoverIgnoresOrder(
    a: Instant, b: Instant, coverage: seq<Coverage>, shuffled: seq<Coverage>, activity: bool)
    requires multiset(coverage) == multiset(shuffled)
    ensures Covered(a, b, coverage, activity) == Covered(a, b, shuffled, activity)
  {
    SameMembers(coverage, shuffled);
    forall t
      ensures InstantCovered(coverage, activity, t) == InstantCovered(shuffled, activity, t)
    {
    }
  }
}
