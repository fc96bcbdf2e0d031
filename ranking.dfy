/** Python's stable `list.sort(key=..., reverse=...)` on score keys, and the
    (name, score) ranking lists that compute_rsm, compute_sp_cs and
    compute_topsis build from it. */
module Ranking {
  import opened Common

  /** In a stable sort by `keys`, position x is placed before position y:
      its key comes strictly first in the sort direction, or the keys are
      equal and x came first in the input (reverse=True keeps ties in input
      order too). */
  predicate Precedes(keys: seq<Ext>, descending: bool, x: nat, y: nat)
    requires x < |keys| && y < |keys|
  {
    (if descending then Below(keys[y], keys[x]) else Below(keys[x], keys[y]))
    || (keys[x] == keys[y] && x < y)
  }

  /** `order` lists every position of `keys` once, in stable sorted order. */
  predicate IsStableOrder(keys: seq<Ext>, descending: bool, order: seq<nat>) {
    && |order| == |keys|
    && (forall p :: 0 <= p < |order| ==> order[p] < |keys|)
    && (forall i :: 0 <= i < |keys| ==> i in order)
    && (forall p, q :: 0 <= p < q < |order| ==> Precedes(keys, descending, order[p], order[q]))
  }

  /** Precedes is a strict total order on positions. */
  lemma PrecedesTotal(keys: seq<Ext>, descending: bool, x: nat, y: nat)
    requires x < |keys| && y < |keys|
    ensures !(Precedes(keys, descending, x, y) && Precedes(keys, descending, y, x))
    ensures x != y ==> Precedes(keys, descending, x, y) || Precedes(keys, descending, y, x)
  {
  }

  lemma PrecedesTransitive(keys: seq<Ext>, descending: bool, x: nat, y: nat, z: nat)
    requires x < |keys| && y < |keys| && z < |keys|
    requires Precedes(keys, descending, x, y) && Precedes(keys, descending, y, z)
    ensures Precedes(keys, descending, x, z)
  {
  }

  /** The stable order of positions by key, built by inserting each position
      after every earlier position that precedes it. */
  method StableOrder(keys: seq<Ext>, descending: bool) returns (order: seq<nat>)
    ensures IsStableOrder(keys, descending, order)
  {
    order := [];
    for i := 0 to |keys|
      invariant |order| == i
      invariant forall p :: 0 <= p < |order| ==> order[p] < i
      invariant forall k :: 0 <= k < i ==> k in order
      invariant forall p, q :: 0 <= p < q < |order| ==> Precedes(keys, descending, order[p], order[q])
    {
      var p := 0;
      while p < |order| && Precedes(keys, descending, order[p], i)
        invariant p <= |order|
        invariant forall q :: 0 <= q < p ==> Precedes(keys, descending, order[q], i)
      {
        p := p + 1;
      }
      if p < |order| {
        PrecedesTotal(keys, descending, order[p], i);
        forall q | p < q < |order|
          ensures Precedes(keys, descending, i, order[q])
        {
          PrecedesTransitive(keys, descending, i, order[p], order[q]);
        }
      }
      var next := order[..p] + [i] + order[p..];
      assert forall k :: 0 <= k < i ==> k in next by {
        forall k | 0 <= k < i ensures k in next {
          assert k in order;
          var w :| 0 <= w < |order| && order[w] == k;
          if w < p { assert next[w] == k; } else { assert next[w + 1] == k; }
        }
      }
      assert next[p] == i;
      order := next;
    }
  }

  /** Distinct positions in a stable order hold distinct items. */
  lemma StableOrderDistinct(keys: seq<Ext>, descending: bool, order: seq<nat>, p: nat, q: nat)
    requires IsStableOrder(keys, descending, order)
    requires p < |order| && q < |order| && p != q
    ensures order[p] != order[q]
  {
    if p < q {
      PrecedesTotal(keys, descending, order[p], order[q]);
    } else {
      PrecedesTotal(keys, descending, order[q], order[p]);
    }
  }

  /** The stable sorted order is unique: any two orders that satisfy
      IsStableOrder agree, so the insertion procedure above computes the same
      list as Python's sort. */
  lemma {:induction false} StableOrderUnique(keys: seq<Ext>, descending: bool, o1: seq<nat>, o2: seq<nat>, p: nat)
    requires IsStableOrder(keys, descending, o1) && IsStableOrder(keys, descending, o2)
    requires p <= |o1|
    ensures forall q :: 0 <= q < p ==> o1[q] == o2[q]
  {
    if p > 0 {
      StableOrderUnique(keys, descending, o1, o2, p - 1);
      var t := p - 1;
      var a, b := o1[t], o2[t];
      if a != b {
        assert a in o2 && b in o1;
        var u :| 0 <= u < |o2| && o2[u] == a;
        var v :| 0 <= v < |o1| && o1[v] == b;
        if u < t {
          StableOrderDistinct(keys, descending, o1, u, t);
          assert false;
        }
        if v < t {
          StableOrderDistinct(keys, descending, o2, v, t);
          assert false;
        }
        assert Precedes(keys, descending, b, a);
        assert Precedes(keys, descending, a, b);
        PrecedesTotal(keys, descending, a, b);
      }
    }
  }

  lemma StableOrderEqual(keys: seq<Ext>, descending: bool, o1: seq<nat>, o2: seq<nat>)
    requires IsStableOrder(keys, descending, o1) && IsStableOrder(keys, descending, o2)
    ensures o1 == o2
  {
    StableOrderUnique(keys, descending, o1, o2, |o1|);
  }

  /** One line of the ranking: an alternative's name and its score. */
  datatype Entry = Entry(name: string, score: Ext)

  /** `rank = [(names[i], scores[i]) for i ...]; rank.sort(key=score, reverse=descending)`. */
  method Rank(names: seq<string>, scores: seq<Ext>, descending: bool) returns (rank: seq<Entry>, order: seq<nat>)
    requires |names| == |scores|
    ensures IsStableOrder(scores, descending, order)
    ensures |rank| == |scores|
    ensures forall p :: 0 <= p < |rank| ==> rank[p] == Entry(names[order[p]], scores[order[p]])
  {
    order := StableOrder(scores, descending);
    rank := [];
    for p := 0 to |order|
      invariant |rank| == p
      invariant forall q :: 0 <= q < p ==> rank[q] == Entry(names[order[q]], scores[order[q]])
    {
      rank := rank + [Entry(names[order[p]], scores[order[p]])];
    }
  }

  /** The scores of a ranking read top to bottom never go the wrong way. */
  lemma RankSorted(scores: seq<Ext>, descending: bool, order: seq<nat>, p: nat, q: nat)
    requires IsStableOrder(scores, descending, order)
    requires p < q < |order|
    ensures if descending then !Below(scores[order[p]], scores[order[q]])
            else !Below(scores[order[q]], scores[order[p]])
  {
    assert Precedes(scores, descending, order[p], order[q]);
  }

  /** Alternatives with equal scores stay in input order. */
  lemma RankTiesKeepInputOrder(scores: seq<Ext>, descending: bool, order: seq<nat>, p: nat, q: nat)
    requires IsStableOrder(scores, descending, order)
    requires p < q < |order| && scores[order[p]] == scores[order[q]]
    ensures order[p] < order[q]
  {
    assert Precedes(scores, descending, order[p], order[q]);
  }

  /** In an ascending ranking (compute_rsm) every inf score comes after every
      finite one. */
  lemma InfLast(scores: seq<Ext>, order: seq<nat>, p: nat, q: nat)
    requires IsStableOrder(scores, false, order)
    requires p < q < |order| && scores[order[p]] == Inf
    ensures scores[order[q]] == Inf
  {
    assert Precedes(scores, false, order[p], order[q]);
  }
}
