/** The non-domination filter shared by rsm() (rsm.py:56-69) and sp_cs()
    (sp_cs.py:66-79): an alternative is kept when at least one criterion
    reaches that criterion's threshold in the preferred direction. */
module Pareto {
  import opened Common
  import opened Reference

  /** Alternative i reaches the threshold of criterion j. */
  predicate PassesOn(D: Matrix, wmax: seq<bool>, threshold: seq<real>, i: nat, j: nat)
    requires j < |D| && j < |wmax| && j < |threshold| && i < |D[j]|
  {
    if wmax[j] then D[j][i] >= threshold[j] else D[j][i] <= threshold[j]
  }

  /** Alternative i is not dominated: some criterion passes. */
  predicate Passes(D: Matrix, wmax: seq<bool>, threshold: seq<real>, i: nat)
    requires WellShaped(D) && |wmax| == |D| && |threshold| == |D| && i < |D[0]|
  {
    exists j :: 0 <= j < |D| && PassesOn(D, wmax, threshold, i, j)
  }

  /** The strictly ascending list of positions that pass. */
  method Filter(D: Matrix, wmax: seq<bool>, threshold: seq<real>) returns (kept: seq<nat>)
    requires WellShaped(D) && |wmax| == |D| && |threshold| == |D|
    ensures forall p, q :: 0 <= p < q < |kept| ==> kept[p] < kept[q]
    ensures forall p :: 0 <= p < |kept| ==> kept[p] < |D[0]|
    ensures forall i :: i in kept <==> 0 <= i < |D[0]| && Passes(D, wmax, threshold, i)
  {
    var m := |D[0]|;
    var n := |D|;
    kept := [];
    for i := 0 to m
      invariant forall p, q :: 0 <= p < q < |kept| ==> kept[p] < kept[q]
      invariant forall p :: 0 <= p < |kept| ==> kept[p] < i
      invariant forall x :: x in kept <==> 0 <= x < i && Passes(D, wmax, threshold, x)
    {
      var dominated := true;
      ghost var passing := 0;
      for j := 0 to n
        invariant dominated <==> forall q :: 0 <= q < j ==> !PassesOn(D, wmax, threshold, i, q)
      {
        if wmax[j] {
          if D[j][i] >= threshold[j] {
            dominated, passing := false, j;
            break;
          }
        } else {
          if D[j][i] <= threshold[j] {
            dominated, passing := false, j;
            break;
          }
        }
      }
      if !dominated {
        assert PassesOn(D, wmax, threshold, i, passing);
        kept := kept + [i];
      }
    }
  }

  /** RSM: the holder of a criterion's best value passes that criterion's
      threshold, because the threshold lies between best and worst. */
  lemma BestHolderPasses(D: Matrix, wmax: seq<bool>, R: References, j: nat, i: nat)
    requires WellShaped(D) && |wmax| == |D| && |R.refs| == |D|
    requires forall q :: 0 <= q < |D| ==> Describes(D[q], wmax[q], R.refs[q])
    requires j < |D| && i < |D[0]| && D[j][i] == R.refs[j].best
    ensures PassesOn(D, wmax, Thresholds(R.refs), i, j)
  {
    assert Describes(D[j], wmax[j], R.refs[j]);
    ThresholdBetween(D[j], wmax[j], R.refs[j]);
    assert MinOf(D[j]) <= D[j][0] <= MaxOf(D[j]);
  }

  /** The RSM thresholds (`opt_threshold`), one per criterion. */
  function Thresholds(refs: seq<CriterionRef>): (t: seq<real>)
    ensures |t| == |refs| && forall j :: 0 <= j < |refs| ==> t[j] == refs[j].threshold
  {
    seq(|refs|, j requires 0 <= j < |refs| => refs[j].threshold)
  }

  /** RSM: every aspiration position survives the filter, so `pareto` is never empty. */
  lemma AspirationKept(D: Matrix, wmax: seq<bool>, R: References, i: nat)
    requires WellShaped(D) && |wmax| == |D| && |R.refs| == |D|
    requires forall j :: 0 <= j < |D| ==> Describes(D[j], wmax[j], R.refs[j])
    requires forall x :: x in R.aspiration <==>
      exists j :: 0 <= j < |D| && 0 <= x < |D[0]| && D[j][x] == R.refs[j].best
    requires i in R.aspiration
    ensures i < |D[0]| && Passes(D, wmax, Thresholds(R.refs), i)
  {
    var j :| 0 <= j < |D| && 0 <= i < |D[0]| && D[j][i] == R.refs[j].best;
    BestHolderPasses(D, wmax, R, j, i);
  }

  /** In a strictly ascending list of naturals, entry p is at least p. */
  lemma {:induction false} AtLeastPosition(kept: seq<nat>, p: nat)
    requires forall a, b :: 0 <= a < b < |kept| ==> kept[a] < kept[b]
    requires p <= |kept|
    ensures forall q :: 0 <= q < p ==> kept[q] >= q
  {
    if p > 0 {
      AtLeastPosition(kept, p - 1);
      if p >= 2 {
        assert kept[p - 2] < kept[p - 1];
      }
    }
  }

  /** In a strictly ascending list below m, entry p leaves room for the
      entries after it: kept[p] + (|kept| - p) <= m. */
  lemma {:induction false} AtMostRoom(kept: seq<nat>, m: nat, p: nat)
    requires forall a, b :: 0 <= a < b < |kept| ==> kept[a] < kept[b]
    requires forall a :: 0 <= a < |kept| ==> kept[a] < m
    requires p < |kept|
    ensures kept[p] + (|kept| - p) <= m
    decreases |kept| - p
  {
    if p + 1 < |kept| {
      AtMostRoom(kept, m, p + 1);
      assert kept[p] < kept[p + 1];
    }
  }

  /** If every position below m occurs in the list, its first p entries are
      0, 1, ..., p - 1. */
  lemma {:induction false} IdentityPrefix(kept: seq<nat>, m: nat, p: nat)
    requires forall a, b :: 0 <= a < b < |kept| ==> kept[a] < kept[b]
    requires forall i :: 0 <= i < m ==> i in kept
    requires p <= m
    ensures p <= |kept| && forall q :: 0 <= q < p ==> kept[q] == q
  {
    if p > 0 {
      IdentityPrefix(kept, m, p - 1);
      var t := p - 1;
      assert t in kept;
      var w :| 0 <= w < |kept| && kept[w] == t;
      AtLeastPosition(kept, |kept|);
    }
  }

  /** A strictly ascending list of positions below m (the shape of
      `not_dominated_idx`) has m entries exactly when every position is in
      it, that is, when no alternative is dominated. */
  lemma KeptAllIff(kept: seq<nat>, m: nat)
    requires forall a, b :: 0 <= a < b < |kept| ==> kept[a] < kept[b]
    requires forall a :: 0 <= a < |kept| ==> kept[a] < m
    ensures |kept| == m <==> forall i :: 0 <= i < m ==> i in kept
  {
    AtLeastPosition(kept, |kept|);
    assert |kept| <= m by {
      if |kept| > 0 {
        assert kept[|kept| - 1] < m;
      }
    }
    if |kept| == m {
      forall i | 0 <= i < m ensures i in kept {
        AtMostRoom(kept, m, i);
        assert kept[i] == i;
      }
    }
    if forall i :: 0 <= i < m ==> i in kept {
      IdentityPrefix(kept, m, m);
    }
  }

  /** A strictly ascending list is determined by its members: two such lists
      holding the same positions are equal, so the filter's result is the
      only list with its contract. */
  lemma {:induction false} AscendingUnique(a: seq<nat>, b: seq<nat>)
    requires forall p, q :: 0 <= p < q < |a| ==> a[p] < a[q]
    requires forall p, q :: 0 <= p < q < |b| ==> b[p] < b[q]
    requires forall i :: i in a <==> i in b
    ensures a == b
    decreases |a|
  {
    SameMembersEmpty(a, b);
    if |a| > 0 {
      assert a[0] in a && b[0] in b;
      var q :| 0 <= q < |b| && b[q] == a[0];
      var p :| 0 <= p < |a| && a[p] == b[0];
      AscendingFirstLeast(b, q);
      AscendingFirstLeast(a, p);
      forall i ensures i in a[1..] <==> i in b[1..] {
        AscendingTail(a, i);
        AscendingTail(b, i);
      }
      AscendingUnique(a[1..], b[1..]);
      assert a == [a[0]] + a[1..] && b == [b[0]] + b[1..];
    }
  }

  lemma SameMembersEmpty(a: seq<nat>, b: seq<nat>)
    requires forall i :: i in a <==> i in b
    ensures |a| == 0 <==> |b| == 0
  {
    if |a| > 0 {
      assert a[0] in b;
    }
    if |b| > 0 {
      assert b[0] in a;
    }
  }

  /** The head of a strictly ascending list is its least entry. */
  lemma AscendingFirstLeast(s: seq<nat>, k: nat)
    requires forall p, q :: 0 <= p < q < |s| ==> s[p] < s[q]
    requires k < |s|
    ensures s[0] <= s[k]
  {
  }

  /** The tail of a strictly ascending list holds every member but the head. */
  lemma AscendingTail(s: seq<nat>, i: nat)
    requires forall p, q :: 0 <= p < q < |s| ==> s[p] < s[q]
    requires |s| > 0
    ensures i in s[1..] <==> i in s && i != s[0]
  {
    if i in s {
      var k :| 0 <= k < |s| && s[k] == i;
      AscendingFirstLeast(s, k);
    }
  }
}
