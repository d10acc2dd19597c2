/** Thinning a long chart to 400 points without hiding where its data is incomplete. */
module Sampling {
  import opened Sorting

  const LIMIT: nat := 400

  datatype Sampled = Whole | TooManyGaps | Points(indices: seq<nat>)

  /** `r` is an integer nearest to `i * (total - 1) / 399`; a tie may go either way. */
  predicate Nearest(total: nat, i: nat, r: nat) {
    -399 <= 2 * (399 * r - i * (total - 1)) <= 399
  }

  ghost predicate Rounds(total: nat, nearest: nat -> nat) {
    forall i: nat | i < LIMIT :: Nearest(total, i, nearest(i))
  }

  /** The points a thinned chart must keep: both ends, and both sides of every change of gap class. */
  predicate Forced(gaps: seq<bool>, i: nat) {
    && i < |gaps|
    && (i == 0 || i == |gaps| - 1 || gaps[i] != gaps[i - 1] || gaps[i + 1] != gaps[i])
  }

  function ForcedSet(gaps: seq<bool>): set<nat> {
    set i: nat | i < |gaps| && Forced(gaps, i)
  }

  function Ascending(selected: set<nat>, n: nat): seq<nat> {
    if n == 0 then [] else Ascending(selected, n - 1) + if n - 1 in selected then [n - 1] else []
  }

  function Members(s: seq<nat>): set<nat> {
    set i | i in s
  }

  lemma {:induction false} AscendingIs(selected: set<nat>, n: nat)
    ensures var s := Ascending(selected, n);
            && (forall i, j | 0 <= i < j < |s| :: s[i] < s[j])
            && (forall x :: x in s <==> x in selected && x < n)
  {
    if n > 0 {
      var rest := Ascending(selected, n - 1);
      AscendingIs(selected, n - 1);
      forall i | 0 <= i < |rest| ensures rest[i] < n - 1 {
        assert rest[i] in rest;
      }
    }
  }

  lemma {:induction false} AscendingCounts(selected: set<nat>, n: nat)
    ensures |Ascending(selected, n)| == |set x | x in selected && x < n|
  {
    var now := set x | x in selected && x < n;
    if n > 0 {
      AscendingCounts(selected, n - 1);
      var before := set x | x in selected && x < n - 1;
      assert now == before + if n - 1 in selected then {n - 1} else {};
    } else {
      assert now == {};
    }
  }

  // ----- Rounded positions -----

  /** How far `r` is from a 399th of `x`, in 399ths. */
  function Off(x: int, r: int): nat {
    if 399 * r < x then x - 399 * r else 399 * r - x
  }

  ghost predicate NoneCloser(x: int, r: int) {
    forall q: int :: Off(x, r) <= Off(x, q)
  }

  lemma OffByAtMostHalf(x: int, r: int)
    ensures 2 * Off(x, r) <= 399 <==> NoneCloser(x, r)
  {
    if 2 * Off(x, r) <= 399 {
      forall q: int ensures Off(x, r) <= Off(x, q) {
        OffApart(x, r, q);
      }
    } else {
      var q := if 399 * r < x then r + 1 else r - 1;
      assert Off(x, q) < Off(x, r);
    }
  }

  lemma OffApart(x: int, r: int, q: int)
    ensures q == r || 399 <= Off(x, r) + Off(x, q)
  {
    assert q < r ==> 399 * q + 399 <= 399 * r;
    assert r < q ==> 399 * r + 399 <= 399 * q;
  }

  /** A nearest integer is one that no other is closer than. */
  lemma NearestExactly(total: nat, i: nat, r: nat)
    requires 0 < total
    ensures Nearest(total, i, r) <==> NoneCloser(i * (total - 1), r)
  {
    OffByAtMostHalf(i * (total - 1), r);
  }

  lemma RoundsIncrease(total: nat, i: nat, a: nat, b: nat)
    requires LIMIT < total && Nearest(total, i, a) && Nearest(total, i + 1, b)
    ensures a < b
  {
    assert (i + 1) * (total - 1) == i * (total - 1) + (total - 1);
  }

  lemma RoundsWithin(total: nat, i: nat, r: nat)
    requires LIMIT < total && i < LIMIT && Nearest(total, i, r)
    ensures r < total
  {
    assert i * (total - 1) <= 399 * (total - 1) by {
      MultiplyLe(i, 399, total - 1);
    }
  }

  lemma MultiplyLe(a: nat, b: nat, c: nat)
    requires a <= b
    ensures a * c <= b * c
  {
  }

  lemma {:induction false} RoundsSorted(total: nat, nearest: nat -> nat, i: nat, j: nat)
    requires LIMIT < total && Rounds(total, nearest) && i < j < LIMIT
    ensures nearest(i) < nearest(j)
  {
    RoundsIncrease(total, j - 1, nearest(j - 1), nearest(j));
    if i < j - 1 { RoundsSorted(total, nearest, i, j - 1); }
  }

  /** The first `k` rounded positions. */
  ghost function Spread(nearest: nat -> nat, k: nat): set<nat> {
    set i: nat | i < k :: nearest(i)
  }

  /** The rounded positions are all different. */
  lemma {:induction false} RoundsCount(total: nat, nearest: nat -> nat, k: nat)
    requires LIMIT < total && Rounds(total, nearest) && k <= LIMIT
    ensures |Spread(nearest, k)| == k
  {
    if k > 0 {
      RoundsCount(total, nearest, k - 1);
      forall i: nat | i < k - 1 ensures nearest(i) != nearest(k - 1) {
        RoundsSorted(total, nearest, i, k - 1);
      }
      SpreadGrows(nearest, k - 1);
    } else {
      assert Spread(nearest, 0) == {};
    }
  }

  lemma SpreadGrows(nearest: nat -> nat, k: nat)
    ensures Spread(nearest, k + 1) == Spread(nearest, k) + {nearest(k)}
  {
  }

  /** The forced points and the first `k` rounded positions, which fill the selection and no fewer do. */
  ghost predicate FilledBy(forced: set<nat>, nearest: nat -> nat, k: nat, selected: set<nat>) {
    && k <= LIMIT && selected == forced + Spread(nearest, k) && |selected| == LIMIT
    && forall j: nat | j < k :: |forced + Spread(nearest, j)| < LIMIT
  }

  /** What the second loop has selected after `index` rounds. */
  ghost predicate Filling(forced: set<nat>, nearest: nat -> nat, index: nat, selected: set<nat>) {
    && index <= LIMIT && selected == forced + Spread(nearest, index) && |selected| <= LIMIT
    && forall j: nat | j < index :: |forced + Spread(nearest, j)| < LIMIT
  }

  lemma FillingStarts(forced: set<nat>, nearest: nat -> nat)
    requires |forced| <= LIMIT
    ensures Filling(forced, nearest, 0, forced)
  {
    assert forced + Spread(nearest, 0) == forced;
  }

  lemma FillingGoesOn(forced: set<nat>, nearest: nat -> nat, index: nat, selected: set<nat>)
    requires Filling(forced, nearest, index, selected) && index < LIMIT && |selected| < LIMIT
    ensures Filling(forced, nearest, index + 1, selected + {nearest(index)})
  {
    SpreadGrows(nearest, index);
    assert forced + Spread(nearest, index + 1) == selected + {nearest(index)};
  }

  lemma FillingEnds(total: nat, forced: set<nat>, nearest: nat -> nat, index: nat, selected: set<nat>)
    requires LIMIT < total && Rounds(total, nearest)
    requires Filling(forced, nearest, index, selected) && (index == LIMIT || |selected| == LIMIT)
    ensures FilledBy(forced, nearest, index, selected)
  {
    if index == LIMIT {
      RoundsCount(total, nearest, LIMIT);
      SubsetCounts(Spread(nearest, LIMIT), selected);
    }
  }

  ghost predicate FilledFrom(forced: set<nat>, nearest: nat -> nat, selected: set<nat>) {
    exists k: nat :: FilledBy(forced, nearest, k, selected)
  }

  /** Neighbouring rounded positions are no further apart than their share of the chart, rounded up. */
  lemma SpreadIsEven(total: nat, nearest: nat -> nat, i: nat)
    requires LIMIT < total && Rounds(total, nearest) && i + 1 < LIMIT
    ensures 0 < nearest(i + 1) - nearest(i) <= (total - 1) / 399 + 1
  {
    assert Nearest(total, i, nearest(i)) && Nearest(total, i + 1, nearest(i + 1));
    RoundsIncrease(total, i, nearest(i), nearest(i + 1));
    assert (i + 1) * (total - 1) == i * (total - 1) + (total - 1);
  }

  /** When no more than the ends are forced, the chart keeps all the rounded positions and nothing else. */
  lemma SpreadAlone(total: nat, nearest: nat -> nat, k: nat, selected: set<nat>)
    requires LIMIT < total && Rounds(total, nearest)
    requires FilledBy({0, total - 1}, nearest, k, selected)
    ensures selected == Spread(nearest, LIMIT)
  {
    assert Nearest(total, 0, nearest(0)) && Nearest(total, 399, nearest(399));
    assert nearest(0) == 0 && nearest(399) == total - 1;
    assert Spread(nearest, LIMIT) >= {0, total - 1} + Spread(nearest, k);
    RoundsCount(total, nearest, LIMIT);
    SubsetIsAll(selected, Spread(nearest, LIMIT));
  }

  lemma SubsetIsAll(a: set<nat>, b: set<nat>)
    requires a <= b && |a| == |b|
    ensures a == b
  {
    assert |b - a| == |b| - |a|;
  }

  // ----- The sampler -----

  /** Kept points, in order, from the first to the last, such that every dropped point has the gap
      class of the kept points on both sides of it. */
  ghost predicate KeepsGaps(gaps: seq<bool>, indices: seq<nat>) {
    && indices != [] && indices[0] == 0 && indices[|indices| - 1] == |gaps| - 1
    && (forall i, j | 0 <= i < j < |indices| :: indices[i] < indices[j] < |gaps|)
    && (forall i, d | 0 <= i < |indices| - 1 && indices[i] < d < indices[i + 1] ::
          gaps[indices[i]] == gaps[d] == gaps[indices[i + 1]])
  }

  /** Between two neighbouring kept points nothing changes class. */
  lemma {:induction false} ClassHolds(gaps: seq<bool>, a: nat, d: nat, b: nat)
    requires a <= d <= b < |gaps| && a + 1 < b
    requires forall k: nat | a < k < b :: !Forced(gaps, k)
    ensures gaps[d] == gaps[a]
  {
    if a < d < b {
      ClassHolds(gaps, a, d - 1, b);
      assert !Forced(gaps, d);
    } else if d == b {
      assert !Forced(gaps, b - 1);
      ClassHolds(gaps, a, b - 1, b);
    }
  }

  lemma SelectionKeepsGaps(gaps: seq<bool>, selected: set<nat>)
    requires gaps != [] && ForcedSet(gaps) <= selected
    requires forall x | x in selected :: x < |gaps|
    ensures KeepsGaps(gaps, Ascending(selected, |gaps|))
    ensures |Ascending(selected, |gaps|)| == |selected|
    ensures selected == Members(Ascending(selected, |gaps|))
  {
    var s := Ascending(selected, |gaps|);
    AscendingIs(selected, |gaps|);
    AscendingCounts(selected, |gaps|);
    assert selected == set x | x in selected && x < |gaps|;
    assert 0 in ForcedSet(gaps) && |gaps| - 1 in ForcedSet(gaps);
    assert 0 in s && |gaps| - 1 in s;
    forall i, d | 0 <= i < |s| - 1 && s[i] < d < s[i + 1]
      ensures gaps[s[i]] == gaps[d] == gaps[s[i + 1]]
    {
      forall k: nat | s[i] < k < s[i + 1] ensures !Forced(gaps, k) {
        NotBetween(s, i, k);
        assert k !in selected;
        assert k < |gaps| ==> (Forced(gaps, k) ==> k in ForcedSet(gaps));
      }
      assert s[i + 1] in s;
      ClassHolds(gaps, s[i], d, s[i + 1]);
      ClassHolds(gaps, s[i], s[i + 1], s[i + 1]);
    }
  }

  lemma NotBetween(s: seq<nat>, i: nat, k: nat)
    requires forall x, y | 0 <= x < y < |s| :: s[x] < s[y]
    requires i + 1 < |s| && s[i] < k < s[i + 1]
    ensures k !in s
  {
  }

  lemma {:induction false} Bracket(s: seq<nat>, d: nat) returns (i: nat)
    requires s != [] && s[0] < d < s[|s| - 1] && d !in s
    requires forall x, y | 0 <= x < y < |s| :: s[x] < s[y]
    ensures i + 1 < |s| && s[i] < d < s[i + 1]
    decreases |s|
  {
    if d < s[1] {
      i := 0;
    } else {
      assert s[1] in s;
      i := Bracket(s[1..], d);
      i := i + 1;
    }
  }

  /** A forced point cannot be dropped. */
  lemma ForcedIsNeeded(gaps: seq<bool>, indices: seq<nat>, d: nat)
    requires KeepsGaps(gaps, indices) && d in ForcedSet(gaps)
    ensures d in indices
  {
    if d !in indices {
      assert indices[0] in indices && indices[|indices| - 1] in indices;
      var i := Bracket(indices, d);
      forall k | indices[i] <= k <= indices[i + 1] ensures gaps[k] == gaps[d] {
        assert gaps[indices[i]] == gaps[d] == gaps[indices[i + 1]];
        if indices[i] < k < indices[i + 1] { assert gaps[indices[i]] == gaps[k]; }
      }
      assert false;
    }
  }

  /** Increasing points keep the gap classes exactly when they include the forced ones; so a chart that is refused
      has no 400 points that would. */
  lemma KeepsGapsExactly(gaps: seq<bool>, indices: seq<nat>)
    requires gaps != [] && forall i, j | 0 <= i < j < |indices| :: indices[i] < indices[j]
    requires forall i | i in indices :: i < |gaps|
    ensures KeepsGaps(gaps, indices) <==> forall i | i in ForcedSet(gaps) :: i in indices
    ensures KeepsGaps(gaps, indices) ==> |ForcedSet(gaps)| <= |indices|
  {
    var n := |gaps|;
    AscendingIs(Members(indices), n);
    AscendingCounts(Members(indices), n);
    SameAscending(indices, Ascending(Members(indices), n));
    if forall i | i in ForcedSet(gaps) :: i in indices {
      SelectionKeepsGaps(gaps, Members(indices));
      SubsetCounts(ForcedSet(gaps), Members(indices));
    }
    if KeepsGaps(gaps, indices) {
      forall i | i in ForcedSet(gaps) ensures i in indices {
        ForcedIsNeeded(gaps, indices, i);
      }
    }
  }

  /** Increasing sequences with the same members are the same. */
  lemma {:induction false} SameAscending(a: seq<nat>, b: seq<nat>)
    requires forall i, j | 0 <= i < j < |a| :: a[i] < a[j]
    requires forall i, j | 0 <= i < j < |b| :: b[i] < b[j]
    requires forall x :: x in a <==> x in b
    ensures a == b
    decreases |a|
  {
    assert a != [] ==> a[0] in b;
    assert b != [] ==> b[0] in a;
    if a != [] {
      assert a[0] == b[0];
      forall x ensures x in a[1..] <==> x in b[1..] {
        if x in a[1..] { assert x in a && x != a[0]; }
        if x in b[1..] { assert x in b && x != b[0]; }
      }
      SameAscending(a[1..], b[1..]);
    }
  }

  /** The first loop: both ends and both sides of every change. */
  method SelectForced(gaps: seq<bool>) returns (selected: set<nat>)
    requires 1 < |gaps|
    ensures selected == ForcedSet(gaps)
  {
    var total := |gaps|;
    selected := {0, total - 1};
    var previous := gaps[0];
    for index := 1 to total
      invariant previous == gaps[index - 1]
      invariant selected == {0, total - 1}
                            + (set i: nat | i < index && Forced(gaps, i)
                                            && (i < index - 1 || (0 < i && gaps[i] != gaps[i - 1])))
    {
      if gaps[index] != previous {
        selected := selected + {index - 1, index};
      }
      previous := gaps[index];
    }
  }

  /** The second loop: rounded positions until 400 points are selected. */
  method SelectSpread(total: nat, forced: set<nat>, nearest: nat -> nat) returns (selected: set<nat>)
    requires LIMIT < total && Rounds(total, nearest)
    requires |forced| <= LIMIT && forall x | x in forced :: x < total
    ensures |selected| == LIMIT && forced <= selected && forall x | x in selected :: x < total
    ensures FilledFrom(forced, nearest, selected)
  {
    selected := forced;
    var index := 0;
    FillingStarts(forced, nearest);
    while index < LIMIT && |selected| < LIMIT
      invariant Filling(forced, nearest, index, selected)
      invariant forall x | x in selected :: x < total
    {
      assert Nearest(total, index, nearest(index));
      RoundsWithin(total, index, nearest(index));
      FillingGoesOn(forced, nearest, index, selected);
      selected := selected + {nearest(index)};
      index := index + 1;
    }
    FillingEnds(total, forced, nearest, index, selected);
  }

  /** Up to 400 points are kept whole. A longer chart is refused when more than 400 points are forced;
      otherwise exactly 400 points are kept. */
  method Sample(gaps: seq<bool>, nearest: nat -> nat) returns (r: Sampled)
    requires LIMIT < |gaps| ==> Rounds(|gaps|, nearest)
    ensures r.Whole? <==> |gaps| <= LIMIT
    ensures r.TooManyGaps? <==> LIMIT < |gaps| && LIMIT < |ForcedSet(gaps)|
    ensures r.Points? ==> |r.indices| == LIMIT && KeepsGaps(gaps, r.indices)
    ensures r.Points? ==> forall i | i in ForcedSet(gaps) :: i in r.indices
    ensures r.Points? ==> FilledFrom(ForcedSet(gaps), nearest, Members(r.indices))
  {
    if |gaps| <= LIMIT {
      return Whole;
    }
    var selected := SelectForced(gaps);
    if LIMIT < |selected| {
      return TooManyGaps;
    }
    selected := SelectSpread(|gaps|, selected, nearest);
    SelectionKeepsGaps(gaps, selected);
    return Points(Ascending(selected, |gaps|));
  }
}
