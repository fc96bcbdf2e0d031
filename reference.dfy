/** The per-criterion reference values that rsm() and sp_cs() both derive from
    a direction-sorted column (rsm.py:30-54, sp_cs.py:28-48). */
module Reference {
  import opened Common
  import opened Ranking

  /** The best value of a column: its maximum for a maximised criterion, its
      minimum otherwise. */
  function Best(col: seq<real>, maximize: bool): real
    requires |col| >= 1
  {
    if maximize then MaxOf(col) else MinOf(col)
  }

  /** The worst value of a column: the opposite extreme. */
  function Worst(col: seq<real>, maximize: bool): real
    requires |col| >= 1
  {
    if maximize then MinOf(col) else MaxOf(col)
  }

  /** Every value is the same: the best-index loop then reads past the end. */
  predicate Constant(col: seq<real>)
    requires |col| >= 1
  {
    forall i :: 0 <= i < |col| ==> col[i] == col[0]
  }

  /** What one criterion contributes: the direction-sorted positions
      (`elements_sorted`), best and worst value, the RSM threshold, the two
      quo values and the positions holding the best value (`best_idxs`). */
  datatype CriterionRef = CriterionRef(
    sorted: seq<nat>,
    best: real,
    worst: real,
    threshold: real,
    quoMean: real,
    quoMedian: real,
    bestIdxs: seq<nat>)

  /** The full meaning of a derived CriterionRef, independently of how it
      is computed. */
  ghost predicate Describes(col: seq<real>, maximize: bool, r: CriterionRef)
    requires |col| >= 1
  {
    && IsStableOrder(Fins(col), maximize, r.sorted)
    && r.best == Best(col, maximize)
    && r.worst == Worst(col, maximize)
    && r.threshold == Abs(r.best - r.worst) * 0.25 + (if maximize then r.worst else r.best)
    && r.quoMean == Abs(r.best - r.worst) / 2.0
    && r.quoMedian == col[r.sorted[|col| / 2]]
    && (forall i :: i in r.bestIdxs <==> 0 <= i < |col| && col[i] == r.best)
  }

  /** In a sort of the column towards the best value, every later entry is
      no better than an earlier one. */
  lemma SortedAt(col: seq<real>, maximize: bool, sorted: seq<nat>, p: nat, q: nat)
    requires IsStableOrder(Fins(col), maximize, sorted)
    requires p < q < |sorted|
    ensures if maximize then col[sorted[q]] <= col[sorted[p]] else col[sorted[p]] <= col[sorted[q]]
  {
    assert Precedes(Fins(col), maximize, sorted[p], sorted[q]);
  }

  /** The first sorted entry is the best value and the last the worst. */
  lemma {:induction false} SortedEnds(col: seq<real>, maximize: bool, sorted: seq<nat>)
    requires |col| >= 1
    requires IsStableOrder(Fins(col), maximize, sorted)
    ensures col[sorted[0]] == Best(col, maximize)
    ensures col[sorted[|col| - 1]] == Worst(col, maximize)
  {
    var last := |col| - 1;
    forall i | 0 <= i < |col|
      ensures if maximize then col[sorted[last]] <= col[i] <= col[sorted[0]]
              else col[sorted[0]] <= col[i] <= col[sorted[last]]
    {
      assert i in sorted;
      var p :| 0 <= p < |sorted| && sorted[p] == i;
      if 0 < p { SortedAt(col, maximize, sorted, 0, p); }
      if p < last { SortedAt(col, maximize, sorted, p, last); }
    }
    ExtremeIsMax(col, sorted[0]);
    ExtremeIsMax(col, sorted[last]);
    ExtremeIsMin(col, sorted[0]);
    ExtremeIsMin(col, sorted[last]);
  }

  /** An entry no smaller than every entry is max(); used to identify the sort's ends. */
  lemma ExtremeIsMax(col: seq<real>, w: nat)
    requires w < |col|
    ensures (forall i :: 0 <= i < |col| ==> col[i] <= col[w]) ==> col[w] == MaxOf(col)
  {
  }

  lemma ExtremeIsMin(col: seq<real>, w: nat)
    requires w < |col|
    ensures (forall i :: 0 <= i < |col| ==> col[w] <= col[i]) ==> col[w] == MinOf(col)
  {
  }

  /** The RSM threshold lies between the best and the worst value inclusive. */
  lemma ThresholdBetween(col: seq<real>, maximize: bool, r: CriterionRef)
    requires |col| >= 1 && Describes(col, maximize, r)
    ensures Min(r.best, r.worst) <= r.threshold <= Max(r.best, r.worst)
  {
    assert MinOf(col) <= col[0] <= MaxOf(col);
  }

  /** The quo-median value is a value of the column, between best and worst. */
  lemma {:induction false} QuoMedianBetween(col: seq<real>, maximize: bool, r: CriterionRef)
    requires |col| >= 1 && Describes(col, maximize, r)
    ensures Min(r.best, r.worst) <= r.quoMedian <= Max(r.best, r.worst)
  {
    var w := r.sorted[|col| / 2];
    assert MinOf(col) <= col[w] <= MaxOf(col);
    assert MinOf(col) <= col[0] <= MaxOf(col);
  }

  /** One pass of the per-criterion loop: sort, read off the reference values
      and collect the positions holding the best value with the `while`
      loop, which fails with IndexError when every value equals the best
      (elements_sorted[m] is read). */
  method Derive(col: seq<real>, maximize: bool) returns (r: Result<CriterionRef>)
    requires |col| >= 1
    ensures r.Err? <==> Constant(col)
    ensures r.Err? ==> r.error == IndexOutOfRange
    ensures r.Ok? ==> Describes(col, maximize, r.value)
  {
    var m := |col|;
    var sorted := StableOrder(Fins(col), maximize);
    SortedEnds(col, maximize, sorted);
    var best := col[sorted[0]];
    var worst := col[sorted[m - 1]];
    var threshold := Abs(best - worst) * 0.25 + (if maximize then worst else best);
    var quoMean := Abs(best - worst) / 2.0;
    var quoMedian := col[sorted[m / 2]];
    var bestIdxs := CollectBest(col, maximize, sorted);
    if bestIdxs.Err? {
      return Err(bestIdxs.error);
    }
    r := Ok(CriterionRef(sorted, best, worst, threshold, quoMean, quoMedian, bestIdxs.value));
  }

  /** The `while` loop of rsm.py:48-52 (sp_cs.py:42-46): walks the sorted
      column while it holds the best value. It collects exactly the positions
      holding the best value, and reads past the end (IndexError) exactly
      when the column is constant. */
  method CollectBest(col: seq<real>, maximize: bool, sorted: seq<nat>) returns (r: Result<seq<nat>>)
    requires |col| >= 1 && IsStableOrder(Fins(col), maximize, sorted)
    ensures r.Err? <==> Constant(col)
    ensures r.Err? ==> r.error == IndexOutOfRange
    ensures r.Ok? ==> forall i :: i in r.value <==> 0 <= i < |col| && col[i] == col[sorted[0]]
  {
    var m := |col|;
    var best := col[sorted[0]];
    var bestIdxs := [sorted[0]];
    var k := 1;
    while true
      invariant 1 <= k <= m
      invariant bestIdxs == sorted[..k]
      invariant forall q :: 0 <= q < k ==> col[sorted[q]] == best
      decreases m - k
    {
      if k == m {
        ConstantWhenAllBest(col, sorted, best);
        return Err(IndexOutOfRange);
      }
      if col[sorted[k]] != best {
        break;
      }
      bestIdxs := bestIdxs + [sorted[k]];
      k := k + 1;
    }
    BestPrefix(col, maximize, sorted, k);
    assert col[sorted[0]] != col[sorted[k]];
    r := Ok(bestIdxs);
  }

  /** When the best value fills the whole sorted column, the column is constant. */
  lemma ConstantWhenAllBest(col: seq<real>, sorted: seq<nat>, best: real)
    requires |col| >= 1 && |sorted| == |col|
    requires forall i :: 0 <= i < |col| ==> i in sorted
    requires forall q :: 0 <= q < |sorted| ==> sorted[q] < |col| && col[sorted[q]] == best
    ensures Constant(col)
  {
    forall i | 0 <= i < |col| ensures col[i] == best {
      assert i in sorted;
    }
  }

  /** If the sorted column stops holding the best value at k, the positions
      holding it are exactly sorted[..k]. */
  lemma BestPrefix(col: seq<real>, maximize: bool, sorted: seq<nat>, k: nat)
    requires IsStableOrder(Fins(col), maximize, sorted)
    requires 1 <= k < |col|
    requires forall q :: 0 <= q < k ==> col[sorted[q]] == col[sorted[0]]
    requires col[sorted[k]] != col[sorted[0]]
    ensures forall i :: i in sorted[..k] <==> 0 <= i < |col| && col[i] == col[sorted[0]]
  {
    forall i | 0 <= i < |col| && col[i] == col[sorted[0]]
      ensures i in sorted[..k]
    {
      assert i in sorted;
      var p :| 0 <= p < |sorted| && sorted[p] == i;
      if p >= k {
        SortedAt(col, maximize, sorted, 0, k);
        if p > k { SortedAt(col, maximize, sorted, k, p); }
        assert false;
      }
      assert sorted[..k][p] == i;
    }
  }

  /** All reference values of a matrix and the union of the best-value
      positions over every criterion (`aspiration_idx_set`). */
  datatype References = References(refs: seq<CriterionRef>, aspiration: set<nat>)

  /** The per-criterion loop over all criteria; the first constant column
      aborts it with IndexError. */
  method DeriveAll(D: Matrix, wmax: seq<bool>) returns (r: Result<References>)
    requires WellShaped(D) && |wmax| == |D|
    ensures r.Err? <==> exists j :: 0 <= j < |D| && Constant(D[j])
    ensures r.Err? ==> r.error == IndexOutOfRange
    ensures r.Ok? ==> |r.value.refs| == |D|
    ensures r.Ok? ==> forall j :: 0 <= j < |D| ==> Describes(D[j], wmax[j], r.value.refs[j])
    ensures r.Ok? ==> forall i :: i in r.value.aspiration <==>
      exists j :: 0 <= j < |D| && 0 <= i < |D[0]| && D[j][i] == r.value.refs[j].best
  {
    var refs: seq<CriterionRef> := [];
    var aspiration: set<nat> := {};
    for j := 0 to |D|
      invariant |refs| == j
      invariant forall q :: 0 <= q < j ==> !Constant(D[q])
      invariant forall q :: 0 <= q < j ==> Describes(D[q], wmax[q], refs[q])
      invariant aspiration == BestUnion(refs)
    {
      var c := Derive(D[j], wmax[j]);
      if c.Err? {
        return Err(c.error);
      }
      DescribesStep(D, wmax, refs, c.value, j);
      BestUnionAppend(refs, c.value);
      refs := refs + [c.value];
      aspiration := aspiration + set b | b in c.value.bestIdxs;
    }
    AspirationHolders(D, wmax, refs);
    r := Ok(References(refs, aspiration));
  }

  /** Appending criterion j's references keeps every criterion described. */
  lemma DescribesStep(D: Matrix, wmax: seq<bool>, refs: seq<CriterionRef>, c: CriterionRef, j: nat)
    requires WellShaped(D) && |wmax| == |D| && j < |D| && |refs| == j
    requires forall q :: 0 <= q < j ==> Describes(D[q], wmax[q], refs[q])
    requires Describes(D[j], wmax[j], c)
    ensures forall q :: 0 <= q < j + 1 ==> Describes(D[q], wmax[q], (refs + [c])[q])
  {
    var next := refs + [c];
    forall q | 0 <= q < j + 1 ensures Describes(D[q], wmax[q], next[q]) {
      if q < j {
        assert next[q] == refs[q];
      }
    }
  }

  /** The union of the best-value positions of every criterion, built one
      criterion at a time as the source's loop does. */
  function BestUnion(refs: seq<CriterionRef>): set<nat> {
    if |refs| == 0 then {}
    else
      var last := refs[|refs| - 1];
      BestUnion(refs[..|refs| - 1]) + (set b | b in last.bestIdxs)
  }

  /** The union grows by the new criterion's best positions. */
  lemma BestUnionAppend(refs: seq<CriterionRef>, c: CriterionRef)
    ensures BestUnion(refs + [c]) == BestUnion(refs) + set b | b in c.bestIdxs
  {
    assert (refs + [c])[..|refs|] == refs;
  }

  /** A position is in the union exactly when it holds the best value of some
      criterion. */
  lemma {:induction false} BestUnionHolders(D: Matrix, refs: seq<CriterionRef>)
    requires WellShaped(D) && |refs| <= |D|
    requires forall q, i :: 0 <= q < |refs| ==>
      (i in refs[q].bestIdxs <==> 0 <= i < |D[0]| && D[q][i] == refs[q].best)
    ensures forall i :: i in BestUnion(refs) <==>
      exists q :: 0 <= q < |refs| && 0 <= i < |D[0]| && D[q][i] == refs[q].best
  {
    if |refs| > 0 {
      var j := |refs| - 1;
      var prev := refs[..j];
      assert forall q :: 0 <= q < j ==> prev[q] == refs[q];
      BestUnionHolders(D, prev);
      forall i ensures i in BestUnion(refs) <==>
        exists q :: 0 <= q < |refs| && 0 <= i < |D[0]| && D[q][i] == refs[q].best
      {
        if i in BestUnion(prev) {
          var q :| 0 <= q < j && 0 <= i < |D[0]| && D[q][i] == prev[q].best;
          assert prev[q] == refs[q];
        } else if i !in refs[j].bestIdxs {
          forall q | 0 <= q < |refs| && 0 <= i < |D[0]|
            ensures D[q][i] != refs[q].best
          {
            if q < j {
              assert prev[q] == refs[q];
            }
          }
        }
      }
    }
  }

  /** The union of the best-value positions of described criteria holds
      exactly the positions that carry some criterion's best value. */
  lemma AspirationHolders(D: Matrix, wmax: seq<bool>, refs: seq<CriterionRef>)
    requires WellShaped(D) && |wmax| == |D| && |refs| == |D|
    requires forall q :: 0 <= q < |D| ==> Describes(D[q], wmax[q], refs[q])
    ensures forall i :: i in BestUnion(refs) <==>
      exists q :: 0 <= q < |D| && 0 <= i < |D[0]| && D[q][i] == refs[q].best
  {
    forall q, i | 0 <= q < |refs|
      ensures i in refs[q].bestIdxs <==> 0 <= i < |D[0]| && D[q][i] == refs[q].best
    {
      assert Describes(D[q], wmax[q], refs[q]);
    }
    BestUnionHolders(D, refs);
  }

  /** Every aspiration position holds the best value of some criterion, and
      the holder of the best value on criterion 0 is always one. */
  lemma AspirationNonEmpty(D: Matrix, wmax: seq<bool>, R: References)
    requires WellShaped(D) && |wmax| == |D| && |R.refs| == |D|
    requires forall j :: 0 <= j < |D| ==> Describes(D[j], wmax[j], R.refs[j])
    requires forall i :: i in R.aspiration <==>
      exists j :: 0 <= j < |D| && 0 <= i < |D[0]| && D[j][i] == R.refs[j].best
    ensures R.aspiration != {}
    ensures forall i :: i in R.aspiration ==> i < |D[0]|
  {
    assert Describes(D[0], wmax[0], R.refs[0]);
    var w := R.refs[0].sorted[0];
    SortedEnds(D[0], wmax[0], R.refs[0].sorted);
    assert w in R.aspiration;
  }

  /** The reference points of a matrix (aspiration_value, anti_ideal_point,
      quo_point_median, quo_point_mean), with the per-criterion values they
      are read from. */
  datatype Points = Points(
    refs: seq<CriterionRef>,
    aspiration: seq<real>,
    antiIdeal: seq<real>,
    quoMedian: seq<real>,
    quoMean: seq<real>)

  /** Each reference point holds, per criterion, the value the source derives
      from that criterion's column. */
  ghost predicate PointsOf(D: Matrix, wmax: seq<bool>, pts: Points)
    requires WellShaped(D) && |wmax| == |D|
  {
    && |pts.refs| == |D| && |pts.aspiration| == |D| && |pts.antiIdeal| == |D|
    && |pts.quoMedian| == |D| && |pts.quoMean| == |D|
    && (forall j :: 0 <= j < |D| ==> Describes(D[j], wmax[j], pts.refs[j]))
    && (forall j :: 0 <= j < |D| ==>
          && pts.aspiration[j] == Best(D[j], wmax[j])
          && pts.antiIdeal[j] == Worst(D[j], wmax[j])
          && pts.quoMean[j] == Abs(pts.aspiration[j] - pts.antiIdeal[j]) / 2.0
          && pts.quoMedian[j] == pts.refs[j].quoMedian)
  }

  /** The reference points are determined by the matrix: two sets of points
      that both satisfy PointsOf agree on every value and every threshold. */
  lemma PointsUnique(D: Matrix, wmax: seq<bool>, p1: Points, p2: Points)
    requires WellShaped(D) && |wmax| == |D|
    requires PointsOf(D, wmax, p1) && PointsOf(D, wmax, p2)
    ensures p1.aspiration == p2.aspiration && p1.antiIdeal == p2.antiIdeal
    ensures p1.quoMean == p2.quoMean && p1.quoMedian == p2.quoMedian
    ensures forall j :: 0 <= j < |D| ==> p1.refs[j].threshold == p2.refs[j].threshold
  {
    forall j | 0 <= j < |D| ensures p1.quoMedian[j] == p2.quoMedian[j] {
      StableOrderEqual(Fins(D[j]), wmax[j], p1.refs[j].sorted, p2.refs[j].sorted);
    }
  }

  /** The best, worst and quo-mean values a description fixes. */
  lemma DescribedValues(col: seq<real>, maximize: bool, c: CriterionRef)
    requires |col| >= 1 && Describes(col, maximize, c)
    ensures c.best == Best(col, maximize) && c.worst == Worst(col, maximize)
    ensures c.quoMean == Abs(c.best - c.worst) / 2.0
  {
  }

  /** The aspiration, anti-ideal, quo-mean and quo-median points, appended
      one criterion at a time (rsm.py:40-47, sp_cs.py:38-40). */
  method ReferencePoints(D: Matrix, wmax: seq<bool>, refs: seq<CriterionRef>) returns (pts: Points)
    requires WellShaped(D) && |wmax| == |D| && |refs| == |D|
    requires forall j :: 0 <= j < |D| ==> Describes(D[j], wmax[j], refs[j])
    ensures pts.refs == refs && PointsOf(D, wmax, pts)
  {
    pts := CollectPoints(refs);
    PointsFromRefs(D, wmax, pts);
  }

  /** The appending loop itself: entry j of each point is read off refs[j]. */
  method CollectPoints(refs: seq<CriterionRef>) returns (pts: Points)
    ensures pts.refs == refs
    ensures |pts.aspiration| == |refs| && |pts.antiIdeal| == |refs|
    ensures |pts.quoMean| == |refs| && |pts.quoMedian| == |refs|
    ensures forall j :: 0 <= j < |refs| ==> pts.aspiration[j] == refs[j].best
    ensures forall j :: 0 <= j < |refs| ==> pts.antiIdeal[j] == refs[j].worst
    ensures forall j :: 0 <= j < |refs| ==> pts.quoMean[j] == refs[j].quoMean
    ensures forall j :: 0 <= j < |refs| ==> pts.quoMedian[j] == refs[j].quoMedian
  {
    var aspiration, antiIdeal, quoMean, quoMedian := [], [], [], [];
    for j := 0 to |refs|
      invariant |aspiration| == j && |antiIdeal| == j && |quoMean| == j && |quoMedian| == j
      invariant forall q :: 0 <= q < j ==> aspiration[q] == refs[q].best
      invariant forall q :: 0 <= q < j ==> antiIdeal[q] == refs[q].worst
      invariant forall q :: 0 <= q < j ==> quoMean[q] == refs[q].quoMean
      invariant forall q :: 0 <= q < j ==> quoMedian[q] == refs[q].quoMedian
    {
      aspiration := aspiration + [refs[j].best];
      antiIdeal := antiIdeal + [refs[j].worst];
      quoMean := quoMean + [refs[j].quoMean];
      quoMedian := quoMedian + [refs[j].quoMedian];
    }
    pts := Points(refs, aspiration, antiIdeal, quoMedian, quoMean);
  }

  /** Points read off described criteria are the reference points. */
  lemma PointsFromRefs(D: Matrix, wmax: seq<bool>, pts: Points)
    requires WellShaped(D) && |wmax| == |D| && |pts.refs| == |D|
    requires forall j :: 0 <= j < |D| ==> Describes(D[j], wmax[j], pts.refs[j])
    requires |pts.aspiration| == |D| && |pts.antiIdeal| == |D| && |pts.quoMean| == |D| && |pts.quoMedian| == |D|
    requires forall j :: 0 <= j < |D| ==> pts.aspiration[j] == pts.refs[j].best
    requires forall j :: 0 <= j < |D| ==> pts.antiIdeal[j] == pts.refs[j].worst
    requires forall j :: 0 <= j < |D| ==> pts.quoMean[j] == pts.refs[j].quoMean
    requires forall j :: 0 <= j < |D| ==> pts.quoMedian[j] == pts.refs[j].quoMedian
    ensures PointsOf(D, wmax, pts)
  {
    forall j | 0 <= j < |D| {
      DescribedValues(D[j], wmax[j], pts.refs[j]);
    }
  }
}
