/** TOPSIS (topsis.py): column norms, the weighted normalised matrix, the
    ideal and anti-ideal points found by running extrema, the distances of
    every alternative to both, the closeness score, and the descending
    ranking of compute_topsis. */
module Topsis {
  import opened Common
  import opened Ranking

  /** euclid_norm(D, j) (topsis.py:8-18): the square root of the sum of
      D[j][i]**2 over i < len(D). The bound is the number of criteria, not
      the number of alternatives; with more criteria than alternatives
      D[j][i] raises IndexError. Without a zero among the first len(D)
      entries the norm is positive. */
  method EuclidNorm(D: Matrix, j: nat, Sqrt: real -> real) returns (r: Result<real>)
    requires j < |D|
    ensures r.Err? <==> |D| > |D[j]|
    ensures r.Err? ==> r.error == IndexOutOfRange
    ensures r.Ok? ==> r.value == Sqrt(SumSquaresUpTo(D[j], |D|))
    ensures r.Ok? && SqrtSpec(Sqrt) ==> (r.value == 0.0 <==> forall i :: 0 <= i < |D| ==> D[j][i] == 0.0)
  {
    var s := 0.0;
    for i := 0 to |D|
      invariant i <= |D[j]|
      invariant s == SumSquaresUpTo(D[j], i)
    {
      if i >= |D[j]| {
        return Err(IndexOutOfRange);
      }
      s := s + Square(D[j][i]);
    }
    SumSquaresZeroIff(D[j], |D|);
    r := Ok(Sqrt(s));
  }

  /** The norm euclid_norm returns for every criterion. */
  function Norms(D: Matrix, Sqrt: real -> real): (norms: seq<real>)
    requires WellShaped(D) && |D| <= |D[0]|
    ensures |norms| == |D|
  {
    seq(|D|, j requires 0 <= j < |D| => Sqrt(SumSquaresUpTo(D[j], |D|)))
  }

  /** `W_max`, or all criteria maximised when it is None (topsis.py:43-44). */
  function Directions(wmax: Option<seq<bool>>, n: nat): (maximize: seq<bool>)
    requires wmax.Some? ==> |wmax.value| == n
    ensures |maximize| == n
    ensures wmax.None? ==> forall j :: 0 <= j < n ==> maximize[j]
    ensures wmax.Some? ==> maximize == wmax.value
  {
    if wmax.Some? then wmax.value else seq(n, _ => true)
  }

  /** Row j of the normalised matrix: `W[j] * D[j][i] / en` (topsis.py:49). */
  function Row(D: Matrix, W: seq<real>, j: nat, en: real): (row: seq<real>)
    requires WellShaped(D) && j < |D| && j < |W| && en != 0.0
    ensures |row| == |D[0]|
  {
    seq(|D[0]|, i requires 0 <= i < |D[0]| => Times(W[j], D[j][i]) / en)
  }

  /** The normalised matrix N, criterion-major like D. */
  function NMatrix(D: Matrix, W: seq<real>, norms: seq<real>): (N: Matrix)
    requires WellShaped(D) && |W| >= |D| && |norms| == |D|
    requires forall j :: 0 <= j < |D| ==> norms[j] != 0.0
    ensures |N| == |D| && forall j :: 0 <= j < |D| ==> N[j] == Row(D, W, j, norms[j])
  {
    seq(|D|, j requires 0 <= j < |D| => Row(D, W, j, norms[j]))
  }

  /** The ideal value of a criterion (topsis.py:32, 41, 50-53): the running
      maximum seeded with 0 when maximising, so never below 0, and the
      running minimum seeded with inf when minimising, always an entry. */
  function Ideal(row: seq<real>, maximize: bool): (r: real)
    requires |row| >= 1
    ensures maximize ==> 0.0 <= r && (forall k :: 0 <= k < |row| ==> row[k] <= r) &&
                         (r == 0.0 || exists k :: 0 <= k < |row| && r == row[k])
    ensures !maximize ==> (forall k :: 0 <= k < |row| ==> r <= row[k]) &&
                          (exists k :: 0 <= k < |row| && r == row[k])
  {
    if maximize then Max(0.0, MaxOf(row)) else MinOf(row)
  }

  /** The anti-ideal value of a criterion (topsis.py:33, 42, 54-57): the
      mirror image of Ideal, with inf seeding the minimum when maximising and
      0 seeding the maximum when minimising. */
  function AntiIdeal(row: seq<real>, maximize: bool): (r: real)
    requires |row| >= 1
    ensures maximize ==> (forall k :: 0 <= k < |row| ==> r <= row[k]) &&
                         (exists k :: 0 <= k < |row| && r == row[k])
    ensures !maximize ==> 0.0 <= r && (forall k :: 0 <= k < |row| ==> row[k] <= r) &&
                          (r == 0.0 || exists k :: 0 <= k < |row| && r == row[k])
  {
    if maximize then MinOf(row) else Max(0.0, MaxOf(row))
  }

  /** The ideal value never falls on the wrong side of the anti-ideal one:
      for a maximised criterion the ideal is at least the anti-ideal, for a
      minimised one at most. */
  lemma IdealBeyondAntiIdeal(row: seq<real>, maximize: bool)
    requires |row| >= 1
    ensures maximize ==> AntiIdeal(row, maximize) <= Ideal(row, maximize)
    ensures !maximize ==> Ideal(row, maximize) <= AntiIdeal(row, maximize)
  {
    assert row[0] <= MaxOf(row);
    assert MinOf(row) <= row[0];
  }

  function IdealPoint(N: Matrix, maximize: seq<bool>): (p: seq<real>)
    requires |maximize| == |N| && forall j :: 0 <= j < |N| ==> |N[j]| >= 1
    ensures |p| == |N| && forall j :: 0 <= j < |N| ==> p[j] == Ideal(N[j], maximize[j])
  {
    seq(|N|, j requires 0 <= j < |N| => Ideal(N[j], maximize[j]))
  }

  function AntiIdealPoint(N: Matrix, maximize: seq<bool>): (p: seq<real>)
    requires |maximize| == |N| && forall j :: 0 <= j < |N| ==> |N[j]| >= 1
    ensures |p| == |N| && forall j :: 0 <= j < |N| ==> p[j] == AntiIdeal(N[j], maximize[j])
  {
    seq(|N|, j requires 0 <= j < |N| => AntiIdeal(N[j], maximize[j]))
  }

  /** `d_minus / (d_minus + d_star)` (topsis.py:67). Both distances zero
      raises ZeroDivisionError; for non-negative distances the score lies in
      [0,1], is 1 exactly when d_star is 0 and 0 exactly when d_minus is 0. */
  function Closeness(dStar: real, dMinus: real): (r: Result<real>)
    ensures r.Err? <==> dMinus + dStar == 0.0
    ensures r.Err? ==> r.error == DivisionByZero
    ensures r.Ok? && 0.0 <= dStar && 0.0 <= dMinus ==>
      && 0.0 <= r.value <= 1.0
      && (r.value == 1.0 <==> dStar == 0.0)
      && (r.value == 0.0 <==> dMinus == 0.0)
  {
    if dMinus + dStar == 0.0 then Err(DivisionByZero)
    else
      ClosenessFacts(dStar, dMinus);
      Ok(dMinus / (dMinus + dStar))
  }

  lemma ClosenessFacts(dStar: real, dMinus: real)
    requires dMinus + dStar != 0.0
    ensures 0.0 <= dStar && 0.0 <= dMinus ==>
      && 0.0 <= dMinus / (dMinus + dStar) <= 1.0
      && (dMinus / (dMinus + dStar) == 1.0 <==> dStar == 0.0)
      && (dMinus / (dMinus + dStar) == 0.0 <==> dMinus == 0.0)
  {
    if 0.0 <= dStar && 0.0 <= dMinus {
      var s := dMinus + dStar;
      DivUnit(dMinus, s);
      DivTimes(dMinus, s);
      if dStar == 0.0 {
        DivSelf(s);
      }
    }
  }

  /** Distance of alternative i to a reference point over all criteria
      (topsis.py:62-66): the square root of the summed squared differences. */
  function Distance(N: Matrix, i: nat, point: seq<real>, Sqrt: real -> real): (r: real)
    requires |point| == |N| && forall j :: 0 <= j < |N| ==> i < |N[j]|
    ensures SqrtSpec(Sqrt) ==> r >= 0.0 && (r == 0.0 <==> Column(N, i) == point)
  {
    SqDistZeroIff(Column(N, i), point, |N|);
    assert Column(N, i) == point <==> forall k :: 0 <= k < |N| ==> Column(N, i)[k] == point[k];
    Sqrt(SqDist(Column(N, i), point))
  }

  /** The closeness scores of all alternatives, or the first division by zero. */
  function Scores(N: Matrix, ideal: seq<real>, anti: seq<real>, Sqrt: real -> real, m: nat): (r: Result<seq<real>>)
    requires |ideal| == |N| && |anti| == |N| && forall j :: 0 <= j < |N| ==> |N[j]| == m
    ensures r.Err? <==> exists i :: 0 <= i < m && Closeness(Distance(N, i, ideal, Sqrt), Distance(N, i, anti, Sqrt)).Err?
    ensures r.Err? ==> r.error == DivisionByZero
    ensures r.Ok? ==> |r.value| == m && forall i :: 0 <= i < m ==>
      Closeness(Distance(N, i, ideal, Sqrt), Distance(N, i, anti, Sqrt)) == Ok(r.value[i])
  {
    if exists i :: 0 <= i < m && Closeness(Distance(N, i, ideal, Sqrt), Distance(N, i, anti, Sqrt)).Err? then
      Err(DivisionByZero)
    else
      Ok(seq(m, i requires 0 <= i < m => Closeness(Distance(N, i, ideal, Sqrt), Distance(N, i, anti, Sqrt)).value))
  }

  /** What topsis(D, W, W_max) returns (topsis.py:21-69), in the order its
      failures occur: IndexError in euclid_norm when there are more criteria
      than alternatives, ZeroDivisionError for a zero norm, then
      ZeroDivisionError for an alternative at distance 0 from both points. */
  function TopsisSpec(D: Matrix, W: seq<real>, maximize: seq<bool>, Sqrt: real -> real): (r: Result<seq<real>>)
    requires WellShaped(D) && |W| >= |D| && |maximize| == |D|
    ensures r.Err? ==> r.error in {IndexOutOfRange, DivisionByZero}
    ensures r.Ok? ==> |r.value| == |D[0]|
  {
    if |D| > |D[0]| then Err(IndexOutOfRange)
    else
      var norms := Norms(D, Sqrt);
      if exists j :: 0 <= j < |D| && norms[j] == 0.0 then Err(DivisionByZero)
      else
        var N := NMatrix(D, W, norms);
        Scores(N, IdealPoint(N, maximize), AntiIdealPoint(N, maximize), Sqrt, |D[0]|)
  }

  /** `if p < x: p = x`, the running maximum's step. */
  function Raise(p: Ext, x: real): (r: Ext)
    ensures r == p || r == Fin(x)
    ensures !Below(r, p) && !Below(r, Fin(x))
  {
    if Below(p, Fin(x)) then Fin(x) else p
  }

  /** `if p > x: p = x`, the running minimum's step. */
  function Lower(p: Ext, x: real): (r: Ext)
    ensures r == p || r == Fin(x)
    ensures r.Fin? && !Below(p, r) && !Below(Fin(x), r)
  {
    if Below(Fin(x), p) then Fin(x) else p
  }

  /** `p_ideal[j]` after the first i entries of row j: seeded with 0 and
      raised when maximising, seeded with inf and lowered when minimising. */
  function RunningIdeal(row: seq<real>, maximize: bool, i: nat): (r: Ext)
    requires i <= |row|
    ensures maximize ==> r.Fin? && r.val >= 0.0
    ensures !maximize ==> (r.Inf? <==> i == 0)
  {
    if i == 0 then (if maximize then Fin(0.0) else Inf)
    else if maximize then Raise(RunningIdeal(row, maximize, i - 1), row[i - 1])
    else Lower(RunningIdeal(row, maximize, i - 1), row[i - 1])
  }

  /** `p_anti_ideal[j]` after the first i entries of row j: seeded with inf
      and lowered when maximising, seeded with 0 and raised when minimising. */
  function RunningAntiIdeal(row: seq<real>, maximize: bool, i: nat): (r: Ext)
    requires i <= |row|
    ensures maximize ==> (r.Inf? <==> i == 0)
    ensures !maximize ==> r.Fin? && r.val >= 0.0
  {
    if i == 0 then (if maximize then Inf else Fin(0.0))
    else if maximize then Lower(RunningAntiIdeal(row, maximize, i - 1), row[i - 1])
    else Raise(RunningAntiIdeal(row, maximize, i - 1), row[i - 1])
  }

  /** The running values of the loop are the closed forms Ideal and
      AntiIdeal use: a maximum floored at 0 and a plain minimum. */
  lemma {:induction false} RunningValues(row: seq<real>, maximize: bool, i: nat)
    requires 1 <= i <= |row|
    ensures RunningIdeal(row, maximize, i) ==
      Fin(if maximize then Max(0.0, MaxUpTo(row, i)) else MinUpTo(row, i))
    ensures RunningAntiIdeal(row, maximize, i) ==
      Fin(if maximize then MinUpTo(row, i) else Max(0.0, MaxUpTo(row, i)))
  {
    if i > 1 {
      RunningValues(row, maximize, i - 1);
    }
  }

  /** After the whole row the running values are the ideal and anti-ideal. */
  lemma RunningEnd(row: seq<real>, maximize: bool)
    requires |row| >= 1
    ensures RunningIdeal(row, maximize, |row|) == Fin(Ideal(row, maximize))
    ensures RunningAntiIdeal(row, maximize, |row|) == Fin(AntiIdeal(row, maximize))
  {
    RunningValues(row, maximize, |row|);
  }

  /** The four comparisons of topsis.py:50-57 for one entry x of row j. */
  method Track(ideal: array<Ext>, anti: array<Ext>, j: nat, x: real, maximize: bool)
    requires j < ideal.Length && j < anti.Length && ideal != anti
    modifies ideal, anti
    ensures ideal[j] == if maximize then Raise(old(ideal[j]), x) else Lower(old(ideal[j]), x)
    ensures anti[j] == if maximize then Lower(old(anti[j]), x) else Raise(old(anti[j]), x)
    ensures forall q :: 0 <= q < ideal.Length && q != j ==> ideal[q] == old(ideal[q])
    ensures forall q :: 0 <= q < anti.Length && q != j ==> anti[q] == old(anti[q])
  {
    if maximize && Below(ideal[j], Fin(x)) {
      ideal[j] := Fin(x);
    }
    if !maximize && Below(Fin(x), ideal[j]) {
      ideal[j] := Fin(x);
    }
    if maximize && Below(Fin(x), anti[j]) {
      anti[j] := Fin(x);
    }
    if !maximize && Below(anti[j], Fin(x)) {
      anti[j] := Fin(x);
    }
  }

  /** One cell of topsis.py:49-57: `N[j][i] = W[j] * D[j][i] / en`, then the
      four comparisons against it. */
  method FillCell(D: Matrix, W: seq<real>, maximize: bool, j: nat, i: nat, en: real,
                  N: array2<real>, ideal: array<Ext>, anti: array<Ext>)
    requires j < |D| && j < |W| && i < |D[j]| && en != 0.0
    requires j < N.Length0 && i < N.Length1 && j < ideal.Length && j < anti.Length && ideal != anti
    modifies N, ideal, anti
    ensures N[j, i] == Times(W[j], D[j][i]) / en
    ensures forall q, k :: 0 <= q < N.Length0 && 0 <= k < N.Length1 && (q, k) != (j, i) ==> N[q, k] == old(N[q, k])
    ensures ideal[j] == if maximize then Raise(old(ideal[j]), N[j, i]) else Lower(old(ideal[j]), N[j, i])
    ensures anti[j] == if maximize then Lower(old(anti[j]), N[j, i]) else Raise(old(anti[j]), N[j, i])
    ensures forall q :: 0 <= q < ideal.Length && q != j ==> ideal[q] == old(ideal[q])
    ensures forall q :: 0 <= q < anti.Length && q != j ==> anti[q] == old(anti[q])
  {
    var x := Times(W[j], D[j][i]) / en;
    N[j, i] := x;
    Track(ideal, anti, j, x, maximize);
  }

  /** The inner loop of topsis.py:48-57 for criterion j: writes row j of N
      and runs the ideal and anti-ideal extrema of that row from their seeds.
      Nothing outside row j and entry j changes. */
  method FillRow(D: Matrix, W: seq<real>, maximize: seq<bool>, j: nat, en: real,
                 N: array2<real>, ideal: array<Ext>, anti: array<Ext>)
    requires WellShaped(D) && |W| >= |D| && |maximize| == |D| && j < |D| && en != 0.0
    requires N.Length0 == |D| && N.Length1 == |D[0]| && ideal.Length == |D| && anti.Length == |D|
    requires ideal != anti
    requires ideal[j] == RunningIdeal(Row(D, W, j, en), maximize[j], 0)
    requires anti[j] == RunningAntiIdeal(Row(D, W, j, en), maximize[j], 0)
    modifies N, ideal, anti
    ensures forall i :: 0 <= i < |D[0]| ==> N[j, i] == Row(D, W, j, en)[i]
    ensures forall q, i :: 0 <= q < |D| && q != j && 0 <= i < |D[0]| ==> N[q, i] == old(N[q, i])
    ensures ideal[j] == RunningIdeal(Row(D, W, j, en), maximize[j], |D[0]|)
    ensures anti[j] == RunningAntiIdeal(Row(D, W, j, en), maximize[j], |D[0]|)
    ensures forall q :: 0 <= q < |D| && q != j ==> ideal[q] == old(ideal[q]) && anti[q] == old(anti[q])
  {
    ghost var row := Row(D, W, j, en);
    assert forall i :: 0 <= i < |D[0]| ==> row[i] == Times(W[j], D[j][i]) / en;
    for i := 0 to |D[0]|
      invariant forall k :: 0 <= k < i ==> N[j, k] == row[k]
      invariant forall q, k :: 0 <= q < |D| && q != j && 0 <= k < |D[0]| ==> N[q, k] == old(N[q, k])
      invariant ideal[j] == RunningIdeal(row, maximize[j], i)
      invariant anti[j] == RunningAntiIdeal(row, maximize[j], i)
      invariant forall q :: 0 <= q < |D| && q != j ==> ideal[q] == old(ideal[q]) && anti[q] == old(anti[q])
    {
      FillCell(D, W, maximize[j], j, i, en, N, ideal, anti);
    }
  }

  /** The outer loop of topsis.py:46-57: one norm per criterion, then its row. */
  method FillMatrix(D: Matrix, W: seq<real>, maximize: seq<bool>, Sqrt: real -> real,
                    N: array2<real>, ideal: array<Ext>, anti: array<Ext>) returns (err: Option<Error>)
    requires WellShaped(D) && |W| >= |D| && |maximize| == |D|
    requires N.Length0 == |D| && N.Length1 == |D[0]| && ideal.Length == |D| && anti.Length == |D|
    requires ideal != anti
    requires forall q :: 0 <= q < |D| ==> ideal[q] == (if maximize[q] then Fin(0.0) else Inf)
    requires forall q :: 0 <= q < |D| ==> anti[q] == (if maximize[q] then Inf else Fin(0.0))
    modifies N, ideal, anti
    ensures err.Some? <==> |D| > |D[0]| || exists q :: 0 <= q < |D| && Norms(D, Sqrt)[q] == 0.0
    ensures err.Some? ==> err.value == (if |D| > |D[0]| then IndexOutOfRange else DivisionByZero)
    ensures err.None? ==>
      var M := NMatrix(D, W, Norms(D, Sqrt));
      && (forall q, i :: 0 <= q < |D| && 0 <= i < |D[0]| ==> N[q, i] == M[q][i])
      && (forall q :: 0 <= q < |D| ==> ideal[q] == Fin(IdealPoint(M, maximize)[q]))
      && (forall q :: 0 <= q < |D| ==> anti[q] == Fin(AntiIdealPoint(M, maximize)[q]))
  {
    if |D| > |D[0]| {
      // The first norm already reads past the end of a criterion row.
      var en := EuclidNorm(D, 0, Sqrt);
      return Some(en.error);
    }
    err := FillRows(D, W, maximize, Sqrt, N, ideal, anti);
    if err.None? {
      forall q | 0 <= q < |D| {
        RunningEnd(Row(D, W, q, Norms(D, Sqrt)[q]), maximize[q]);
      }
    }
  }

  /** The loop of topsis.py:46-57 on a matrix with no more criteria than
      alternatives, stated row by row. */
  method FillRows(D: Matrix, W: seq<real>, maximize: seq<bool>, Sqrt: real -> real,
                  N: array2<real>, ideal: array<Ext>, anti: array<Ext>) returns (err: Option<Error>)
    requires WellShaped(D) && |D| <= |D[0]| && |W| >= |D| && |maximize| == |D|
    requires N.Length0 == |D| && N.Length1 == |D[0]| && ideal.Length == |D| && anti.Length == |D|
    requires ideal != anti
    requires forall q :: 0 <= q < |D| ==> ideal[q] == (if maximize[q] then Fin(0.0) else Inf)
    requires forall q :: 0 <= q < |D| ==> anti[q] == (if maximize[q] then Inf else Fin(0.0))
    modifies N, ideal, anti
    ensures err.Some? <==> exists q :: 0 <= q < |D| && Norms(D, Sqrt)[q] == 0.0
    ensures err.Some? ==> err.value == DivisionByZero
    ensures err.None? ==> forall q :: 0 <= q < |D| ==> Norms(D, Sqrt)[q] != 0.0
    ensures err.None? ==> forall q, i :: 0 <= q < |D| && 0 <= i < |D[0]| ==>
      N[q, i] == Row(D, W, q, Norms(D, Sqrt)[q])[i]
    ensures err.None? ==> forall q :: 0 <= q < |D| ==>
      ideal[q] == RunningIdeal(Row(D, W, q, Norms(D, Sqrt)[q]), maximize[q], |D[0]|) &&
      anti[q] == RunningAntiIdeal(Row(D, W, q, Norms(D, Sqrt)[q]), maximize[q], |D[0]|)
  {
    for j := 0 to |D|
      invariant forall q :: 0 <= q < j ==> Norms(D, Sqrt)[q] != 0.0
      invariant RowsDone(D, W, maximize, Norms(D, Sqrt), j, N, ideal, anti)
      invariant forall q :: j <= q < |D| ==> ideal[q] == (if maximize[q] then Fin(0.0) else Inf)
      invariant forall q :: j <= q < |D| ==> anti[q] == (if maximize[q] then Inf else Fin(0.0))
    {
      var en := EuclidNorm(D, j, Sqrt);
      assert en.Ok? && en.value == Norms(D, Sqrt)[j];
      if en.value == 0.0 {
        return Some(DivisionByZero);
      }
      FillRow(D, W, maximize, j, en.value, N, ideal, anti);
    }
    err := None;
  }

  /** Rows 0..j-1 of N hold the normalised rows and entries 0..j-1 of the
      ideal and anti-ideal arrays their running extrema. */
  ghost predicate RowsDone(D: Matrix, W: seq<real>, maximize: seq<bool>, norms: seq<real>, j: nat,
                           N: array2<real>, ideal: array<Ext>, anti: array<Ext>)
    requires WellShaped(D) && |W| >= |D| && |maximize| == |D| && |norms| == |D| && j <= |D|
    requires N.Length0 == |D| && N.Length1 == |D[0]| && ideal.Length == |D| && anti.Length == |D|
    reads N, ideal, anti
  {
    forall q :: 0 <= q < j ==>
      && norms[q] != 0.0
      && (forall i :: 0 <= i < |D[0]| ==> N[q, i] == Row(D, W, q, norms[q])[i])
      && ideal[q] == RunningIdeal(Row(D, W, q, norms[q]), maximize[q], |D[0]|)
      && anti[q] == RunningAntiIdeal(Row(D, W, q, norms[q]), maximize[q], |D[0]|)
  }

  /** The distance loop of topsis.py:59-67 for alternative i: the running
      sums s_star and s_minus over the criteria, their square roots, and the
      closeness score. */
  method ScoreOne(N: array2<real>, ideal: array<Ext>, anti: array<Ext>, i: nat, Sqrt: real -> real,
                  ghost M: Matrix, ghost idealPt: seq<real>, ghost antiPt: seq<real>) returns (c: Result<real>)
    requires N.Length0 == |M| && ideal.Length == |M| && anti.Length == |M| && i < N.Length1
    requires |idealPt| == |M| && |antiPt| == |M| && forall j :: 0 <= j < |M| ==> |M[j]| == N.Length1
    requires forall j, k :: 0 <= j < |M| && 0 <= k < N.Length1 ==> N[j, k] == M[j][k]
    requires forall j :: 0 <= j < |M| ==> ideal[j] == Fin(idealPt[j]) && anti[j] == Fin(antiPt[j])
    ensures c == Closeness(Distance(M, i, idealPt, Sqrt), Distance(M, i, antiPt, Sqrt))
  {
    var sStar, sMinus := 0.0, 0.0;
    for j := 0 to N.Length0
      invariant sStar == SqDistUpTo(Column(M, i), idealPt, j)
      invariant sMinus == SqDistUpTo(Column(M, i), antiPt, j)
    {
      sStar := sStar + Square(N[j, i] - ideal[j].val);
      sMinus := sMinus + Square(N[j, i] - anti[j].val);
    }
    var dStar := Sqrt(sStar);
    var dMinus := Sqrt(sMinus);
    if dMinus + dStar == 0.0 {
      return Err(DivisionByZero);
    }
    c := Ok(dMinus / (dMinus + dStar));
  }

  /** The loop over alternatives (topsis.py:59-67), filling `c`. */
  method ScoreAll(N: array2<real>, ideal: array<Ext>, anti: array<Ext>, Sqrt: real -> real,
                  ghost M: Matrix, ghost idealPt: seq<real>, ghost antiPt: seq<real>) returns (r: Result<seq<real>>)
    requires N.Length0 == |M| && ideal.Length == |M| && anti.Length == |M|
    requires |idealPt| == |M| && |antiPt| == |M| && forall j :: 0 <= j < |M| ==> |M[j]| == N.Length1
    requires forall j, k :: 0 <= j < |M| && 0 <= k < N.Length1 ==> N[j, k] == M[j][k]
    requires forall j :: 0 <= j < |M| ==> ideal[j] == Fin(idealPt[j]) && anti[j] == Fin(antiPt[j])
    ensures r == Scores(M, idealPt, antiPt, Sqrt, N.Length1)
  {
    var c := new real[N.Length1](_ => 0.0);
    for i := 0 to N.Length1
      invariant forall k :: 0 <= k < i ==>
        Closeness(Distance(M, k, idealPt, Sqrt), Distance(M, k, antiPt, Sqrt)) == Ok(c[k])
    {
      var ci := ScoreOne(N, ideal, anti, i, Sqrt, M, idealPt, antiPt);
      if ci.Err? {
        assert Scores(M, idealPt, antiPt, Sqrt, N.Length1) == Err(DivisionByZero);
        assert ci.error == DivisionByZero;
        return Err(ci.error);
      }
      c[i] := ci.value;
    }
    ghost var expected := Scores(M, idealPt, antiPt, Sqrt, N.Length1);
    assert expected.Ok?;
    assert forall k :: 0 <= k < N.Length1 ==> c[k] == expected.value[k];
    assert c[..] == expected.value;
    r := Ok(c[..]);
  }

  /** topsis(D, W, W_max) (topsis.py:21-69), returning `c`. */
  method Topsis(D: Matrix, W: seq<real>, wmax: Option<seq<bool>>, Sqrt: real -> real) returns (r: Result<seq<real>>)
    requires WellShaped(D) && |W| >= |D|
    requires wmax.Some? ==> |wmax.value| == |D|
    ensures r == TopsisSpec(D, W, Directions(wmax, |D|), Sqrt)
  {
    var m, n := |D[0]|, |D|;
    var N := new real[n, m]((_, _) => 0.0);
    var ideal := new Ext[n](_ => Fin(0.0));
    var anti := new Ext[n](_ => Inf);
    var maximize: seq<bool>;
    if wmax.Some? {
      for i := 0 to |wmax.value|
        invariant forall q :: 0 <= q < i ==> ideal[q] == (if wmax.value[q] then Fin(0.0) else Inf)
        invariant forall q :: 0 <= q < i ==> anti[q] == (if wmax.value[q] then Inf else Fin(0.0))
        invariant forall q :: i <= q < n ==> ideal[q] == Fin(0.0) && anti[q] == Inf
      {
        if !wmax.value[i] {
          ideal[i] := Inf;
          anti[i] := Fin(0.0);
        }
      }
      maximize := wmax.value;
    } else {
      maximize := seq(n, _ => true);
    }
    assert maximize == Directions(wmax, n);
    var err := FillMatrix(D, W, maximize, Sqrt, N, ideal, anti);
    if err.Some? {
      return Err(err.value);
    }
    ghost var M := NMatrix(D, W, Norms(D, Sqrt));
    r := ScoreAll(N, ideal, anti, Sqrt, M, IdealPoint(M, maximize), AntiIdealPoint(M, maximize));
  }

  /** Every score topsis returns lies in [0,1]. */
  lemma ScoresInUnit(D: Matrix, W: seq<real>, maximize: seq<bool>, Sqrt: real -> real, i: nat)
    requires WellShaped(D) && |W| >= |D| && |maximize| == |D| && SqrtSpec(Sqrt)
    requires TopsisSpec(D, W, maximize, Sqrt).Ok? && i < |D[0]|
    ensures 0.0 <= TopsisSpec(D, W, maximize, Sqrt).value[i] <= 1.0
  {
    var M := NMatrix(D, W, Norms(D, Sqrt));
    var dStar := Distance(M, i, IdealPoint(M, maximize), Sqrt);
    var dMinus := Distance(M, i, AntiIdealPoint(M, maximize), Sqrt);
    assert Closeness(dStar, dMinus) == Ok(TopsisSpec(D, W, maximize, Sqrt).value[i]);
  }

  /** An alternative scores 1 exactly when it sits on the ideal point in
      every criterion, and 0 exactly when it sits on the anti-ideal point. */
  lemma ScoreExtremes(D: Matrix, W: seq<real>, maximize: seq<bool>, Sqrt: real -> real, i: nat)
    requires WellShaped(D) && |W| >= |D| && |maximize| == |D| && SqrtSpec(Sqrt)
    requires TopsisSpec(D, W, maximize, Sqrt).Ok? && i < |D[0]|
    ensures var M := NMatrix(D, W, Norms(D, Sqrt));
      && (TopsisSpec(D, W, maximize, Sqrt).value[i] == 1.0 <==> Column(M, i) == IdealPoint(M, maximize))
      && (TopsisSpec(D, W, maximize, Sqrt).value[i] == 0.0 <==> Column(M, i) == AntiIdealPoint(M, maximize))
  {
    var M := NMatrix(D, W, Norms(D, Sqrt));
    var ip, ap := IdealPoint(M, maximize), AntiIdealPoint(M, maximize);
    var dStar := Distance(M, i, ip, Sqrt);
    var dMinus := Distance(M, i, ap, Sqrt);
    assert Closeness(dStar, dMinus) == Ok(TopsisSpec(D, W, maximize, Sqrt).value[i]);
  }

  /** A criterion's norm is zero exactly when its first len(D) entries are
      all zero. */
  lemma NormZeroIff(D: Matrix, Sqrt: real -> real, j: nat)
    requires WellShaped(D) && |D| <= |D[0]| && SqrtSpec(Sqrt) && j < |D|
    ensures Norms(D, Sqrt)[j] == 0.0 <==> forall i :: 0 <= i < |D| ==> D[j][i] == 0.0
  {
    SumSquaresZeroIff(D[j], |D|);
  }

  /** topsis fails exactly where its loops reach a bad value: more criteria
      than alternatives, a zero norm, or an alternative standing on both the
      ideal and the anti-ideal point. */
  lemma TopsisFailures(D: Matrix, W: seq<real>, maximize: seq<bool>, Sqrt: real -> real)
    requires WellShaped(D) && |W| >= |D| && |maximize| == |D| && SqrtSpec(Sqrt)
    ensures TopsisSpec(D, W, maximize, Sqrt) == Err(IndexOutOfRange) <==> |D| > |D[0]|
    ensures |D| <= |D[0]| && (exists j :: 0 <= j < |D| && Norms(D, Sqrt)[j] == 0.0) ==>
      TopsisSpec(D, W, maximize, Sqrt) == Err(DivisionByZero)
    ensures |D| <= |D[0]| && (forall j :: 0 <= j < |D| ==> Norms(D, Sqrt)[j] != 0.0) ==>
      var M := NMatrix(D, W, Norms(D, Sqrt));
      (TopsisSpec(D, W, maximize, Sqrt).Err? <==>
        exists i :: 0 <= i < |D[0]| && Column(M, i) == IdealPoint(M, maximize) && Column(M, i) == AntiIdealPoint(M, maximize))
  {
    if |D| <= |D[0]| && (forall j :: 0 <= j < |D| ==> Norms(D, Sqrt)[j] != 0.0) {
      var M := NMatrix(D, W, Norms(D, Sqrt));
      var ip, ap := IdealPoint(M, maximize), AntiIdealPoint(M, maximize);
      forall i | 0 <= i < |D[0]|
        ensures Closeness(Distance(M, i, ip, Sqrt), Distance(M, i, ap, Sqrt)).Err? <==>
          Column(M, i) == ip && Column(M, i) == ap
      {
      }
    }
  }

  /** The ranking part of compute_topsis (topsis.py:86-90): one entry per
      alternative, sorted by score, highest first, ties in input order. */
  method RankTopsis(names: seq<string>, c: seq<real>) returns (rank: seq<Entry>)
    requires |names| == |c|
    ensures |rank| == |c|
    ensures exists order ::
      IsStableOrder(Fins(c), true, order) &&
      forall p :: 0 <= p < |rank| ==> rank[p] == Entry(names[order[p]], Fin(c[order[p]]))
    ensures forall p, q :: 0 <= p < q < |rank| ==> rank[q].score.val <= rank[p].score.val
  {
    var order;
    rank, order := Rank(names, Fins(c), true);
    forall p, q | 0 <= p < q < |rank|
      ensures rank[q].score.val <= rank[p].score.val
    {
      RankSorted(Fins(c), true, order, p, q);
    }
  }
}
