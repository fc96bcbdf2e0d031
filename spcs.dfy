/** The SP-CS kernel, sp_cs() in sp_cs.py, and the ranking step of
    compute_sp_cs. The three random.random() streams are passed in as the
    draws they would produce. */
module SpCs {
  import opened Common
  import opened Ranking
  import opened Reference
  import opened Pareto

  /** n draws of random.random(), each in [0,1). */
  predicate Draws(r: seq<real>, n: nat) {
    |r| == n && forall j :: 0 <= j < n ==> 0.0 <= r[j] < 1.0
  }

  lemma ScaleUnit(A: real, r: real)
    requires A >= 0.0 && 0.0 <= r < 1.0
    ensures 0.0 <= Times(A, r) <= A
  {
    assert A * r <= A * 1.0;
  }

  /** `abs(best - worst) * random.random() + worst` (sp_cs.py:41). The
      value lies between the worst value and the worst value moved by the
      full range in the direction of increasing values: towards the best
      value for a maximised criterion, away from it for a minimised one. */
  function RandomCoordinate(best: real, worst: real, draw: real): (q: real)
    requires 0.0 <= draw < 1.0
    ensures worst <= q <= worst + Abs(best - worst)
  {
    var range := Abs(best - worst);
    ScaleUnit(range, draw);
    Times(range, draw) + worst
  }

  /** `quo_point_random`, appended one criterion at a time. */
  method RandomQuo(pts: Points, draws: seq<real>) returns (quo: seq<real>)
    requires |pts.antiIdeal| == |pts.aspiration| && Draws(draws, |pts.aspiration|)
    ensures |quo| == |draws|
    ensures forall j :: 0 <= j < |quo| ==> quo[j] == RandomCoordinate(pts.aspiration[j], pts.antiIdeal[j], draws[j])
  {
    quo := [];
    for j := 0 to |draws|
      invariant |quo| == j
      invariant forall q :: 0 <= q < j ==> quo[q] == RandomCoordinate(pts.aspiration[q], pts.antiIdeal[q], draws[q])
    {
      quo := quo + [RandomCoordinate(pts.aspiration[j], pts.antiIdeal[j], draws[j])];
    }
  }

  /** The SP-CS threshold of one criterion over the aspiration positions:
      their minimum for a maximised criterion; for a minimised one the
      maximum of 0 and their values, since the running maximum starts at 0. */
  ghost predicate IsThreshold(col: seq<real>, maximize: bool, asp: set<nat>, v: real)
    requires forall i :: i in asp ==> i < |col|
  {
    if maximize then
      (forall i :: i in asp ==> v <= col[i]) && (exists i :: i in asp && v == col[i])
    else
      0.0 <= v && (forall i :: i in asp ==> col[i] <= v) && (v == 0.0 || exists i :: i in asp && v == col[i])
  }

  /** The running minimum (seed inf) or running maximum (seed 0) over the
      aspiration positions (sp_cs.py:54-63). */
  method ThresholdValue(col: seq<real>, maximize: bool, asp: set<nat>) returns (t: Ext)
    requires forall i :: i in asp ==> i < |col|
    ensures maximize && asp == {} ==> t == Inf
    ensures !maximize || asp != {} ==> t.Fin? && IsThreshold(col, maximize, asp, t.val)
  {
    t := if maximize then Inf else Fin(0.0);
    var rest := asp;
    while rest != {}
      invariant rest <= asp
      invariant maximize && rest == asp ==> t == Inf
      invariant !maximize || rest != asp ==> t.Fin? && IsThreshold(col, maximize, asp - rest, t.val)
      decreases |rest|
    {
      var i :| i in rest;
      if maximize {
        if Below(Fin(col[i]), t) {
          t := Fin(col[i]);
        }
      } else {
        if Below(t, Fin(col[i])) {
          t := Fin(col[i]);
        }
      }
      rest := rest - {i};
      assert asp - rest == (asp - (rest + {i})) + {i};
    }
    assert asp - rest == asp;
  }

  /** `threshold_value`, one per criterion (sp_cs.py:52-64). The aspiration
      set is never empty, so every threshold is finite. */
  method Thresholds(D: Matrix, wmax: seq<bool>, asp: set<nat>) returns (th: seq<real>)
    requires WellShaped(D) && |wmax| == |D|
    requires asp != {} && forall i :: i in asp ==> i < |D[0]|
    ensures |th| == |D| && forall j :: 0 <= j < |D| ==> IsThreshold(D[j], wmax[j], asp, th[j])
  {
    th := [];
    for j := 0 to |D|
      invariant |th| == j && forall q :: 0 <= q < j ==> IsThreshold(D[q], wmax[q], asp, th[q])
    {
      var t := ThresholdValue(D[j], wmax[j], asp);
      th := th + [t.val];
    }
  }

  /** Every aspiration position passes every SP-CS threshold, so
      `not_dominated_idx` contains the whole aspiration set. */
  lemma AspirationPassesAll(D: Matrix, wmax: seq<bool>, asp: set<nat>, th: seq<real>, i: nat)
    requires WellShaped(D) && |wmax| == |D| && forall x :: x in asp ==> x < |D[0]|
    requires |th| == |D| && forall j :: 0 <= j < |D| ==> IsThreshold(D[j], wmax[j], asp, th[j])
    requires i in asp
    ensures forall j :: 0 <= j < |D| ==> PassesOn(D, wmax, th, i, j)
    ensures Passes(D, wmax, th, i)
  {
    forall j | 0 <= j < |D| ensures PassesOn(D, wmax, th, i, j) {
      assert IsThreshold(D[j], wmax[j], asp, th[j]);
    }
    assert PassesOn(D, wmax, th, i, 0);
  }

  /** `[coord * (lo + random.random() * width) for coord in aspiration_value]`
      (sp_cs.py:81-83). */
  function Disrupt(aspiration: seq<real>, draws: seq<real>, lo: real, width: real): (r: seq<real>)
    requires |draws| == |aspiration|
    ensures |r| == |aspiration|
  {
    seq(|aspiration|, j requires 0 <= j < |aspiration| => Times(aspiration[j], lo + draws[j] * width))
  }

  /** `data_0` and `data_1`: the first two criteria of the kept alternatives,
      in kept order (sp_cs.py:85-89). With a single criterion D[1] raises
      IndexError at the first kept alternative. */
  method Project2(D: Matrix, kept: seq<nat>) returns (r: Result<(seq<real>, seq<real>)>)
    requires WellShaped(D) && forall p :: 0 <= p < |kept| ==> kept[p] < |D[0]|
    ensures r.Err? <==> |D| < 2 && |kept| >= 1
    ensures r.Err? ==> r.error == IndexOutOfRange
    ensures r.Ok? ==> |r.value.0| == |kept| && |r.value.1| == |kept|
    ensures r.Ok? && |D| >= 2 ==> r.value == (Projection(D, 0, kept), Projection(D, 1, kept))
  {
    var data0, data1 := [], [];
    for p := 0 to |kept|
      invariant |data0| == p && |data1| == p
      invariant p > 0 ==> |D| >= 2
      invariant |D| >= 2 ==> forall q :: 0 <= q < p ==> data0[q] == D[0][kept[q]] && data1[q] == D[1][kept[q]]
    {
      data0 := data0 + [D[0][kept[p]]];
      if |D| < 2 {
        return Err(IndexOutOfRange);
      }
      data1 := data1 + [D[1][kept[p]]];
    }
    if |D| >= 2 {
      assert data0 == Projection(D, 0, kept) && data1 == Projection(D, 1, kept);
    }
    r := Ok((data0, data1));
  }

  /** Slope and intercept of the line through the quo point and the
      aspiration point, in the plane of the first two criteria
      (sp_cs.py:95-96): both points lie on it. Equal first coordinates raise
      ZeroDivisionError. */
  function Line(quo: seq<real>, asp: seq<real>): (r: Result<(real, real)>)
    requires |quo| >= 2 && |asp| >= 2
    ensures r.Err? <==> quo[0] == asp[0]
    ensures r.Err? ==> r.error == DivisionByZero
    ensures r.Ok? ==> quo[1] == r.value.0 * quo[0] + r.value.1 && asp[1] == r.value.0 * asp[0] + r.value.1
  {
    if quo[0] - asp[0] == 0.0 then Err(DivisionByZero)
    else
      var a := (quo[1] - asp[1]) / (quo[0] - asp[0]);
      var b := quo[1] - a * quo[0];
      DivTimes(quo[1] - asp[1], quo[0] - asp[0]);
      Distribute(a, quo[0], asp[0]);
      Ok((a, b))
  }

  lemma Distribute(a: real, x: real, y: real)
    ensures a * (x - y) == a * x - a * y
  {
  }

  /** A non-zero slope plus the reciprocal of its perpendicular's slope is
      never zero: a + 1/a == 0 would need a * a == -1. */
  lemma PerpendicularMeets(a: real)
    requires a != 0.0
    ensures a - (-1.0 / a) != 0.0
  {
  }

  /** The foot of the perpendicular from (px, py) onto the line y = a*x + b
      (sp_cs.py:101-104); a horizontal line raises ZeroDivisionError in
      `-1 / a`. */
  function Foot(a: real, b: real, px: real, py: real): (r: Result<(real, real)>)
    ensures r.Err? <==> a == 0.0
    ensures r.Err? ==> r.error == DivisionByZero
    ensures r.Ok? ==> r.value.1 == a * r.value.0 + b
  {
    if a == 0.0 then Err(DivisionByZero)
    else
      var ap := -1.0 / a;
      var bp := py - ap * px;
      PerpendicularMeets(a);
      if a - ap == 0.0 then Err(DivisionByZero)
      else
        var x := (bp - b) / (a - ap);
        Ok((x, a * x + b))
  }

  /** The positional score of one point from the segment length d and the
      distances d1 (to the quo point) and d2 (to the aspiration point) of
      its projection (sp_cs.py:107-112): d1/d inside the band, beyond the
      aspiration point 1 + d2/d, before the quo point -d1/d, and no score at
      all when d1 == d2 outside the band. */
  function Classify(d: real, d1: real, d2: real): (r: Result<Option<real>>)
    ensures r.Err? <==> !InBand(d, d1, d2) && d1 != d2 && d == 0.0
    ensures r.Err? ==> r.error == DivisionByZero
    ensures r == Ok(None) <==> !InBand(d, d1, d2) && d1 == d2
    ensures r.Ok? && r.value.Some? ==> d != 0.0
    ensures InBand(d, d1, d2) ==> r.Ok? && r.value.Some? && Times(r.value.value, d) == d1
    ensures !InBand(d, d1, d2) && d1 > d2 && r.Ok? ==>
      r.value.Some? && Times(r.value.value - 1.0, d) == d2
    ensures !InBand(d, d1, d2) && d2 > d1 && r.Ok? ==>
      r.value.Some? && Times(r.value.value, d) == -d1
    ensures 0.0 <= d && 0.0 <= d1 && 0.0 <= d2 && r.Ok? && r.value.Some? ==>
      if InBand(d, d1, d2) then 0.0 <= r.value.value < 1.01
      else if d1 > d2 then r.value.value >= 1.0
      else r.value.value <= 0.0
  {
    if InBand(d, d1, d2) then
      InBandQuotient(d, d1, d2);
      Ok(Some(d1 / d))
    else if d1 > d2 then
      if d == 0.0 then Err(DivisionByZero)
      else
        BeyondQuotient(d, d2);
        Ok(Some(1.0 + d2 / d))
    else if d2 > d1 then
      if d == 0.0 then Err(DivisionByZero)
      else
        BeforeQuotient(d, d1);
        Ok(Some(-d1 / d))
    else Ok(None)
  }

  /** The projection lies within 1% of the segment: d1 + d2 is close to d. */
  predicate InBand(d: real, d1: real, d2: real) {
    0.99 * d < d1 + d2 < 1.01 * d
  }

  lemma InBandQuotient(d: real, d1: real, d2: real)
    requires InBand(d, d1, d2)
    ensures d != 0.0 && Times(d1 / d, d) == d1
    ensures 0.0 <= d && 0.0 <= d1 && 0.0 <= d2 ==> 0.0 <= d1 / d < 1.01
  {
    assert d > 0.0;
    DivTimes(d1, d);
    DivRange(d1, d, 1.01);
  }

  lemma BeyondQuotient(d: real, d2: real)
    requires d != 0.0
    ensures Times(1.0 + d2 / d - 1.0, d) == d2
    ensures 0.0 <= d && 0.0 <= d2 ==> 1.0 + d2 / d >= 1.0
  {
    DivTimes(d2, d);
    DivSign(d2, d);
  }

  lemma BeforeQuotient(d: real, d1: real)
    requires d != 0.0
    ensures Times(-d1 / d, d) == -d1
    ensures 0.0 <= d && 0.0 <= d1 ==> -d1 / d <= 0.0
  {
    DivTimes(-d1, d);
    DivSign(d1, d);
    assert -d1 / d == -(d1 / d);
  }

  lemma DivRange(x: real, d: real, c: real)
    requires d > 0.0
    ensures 0.0 <= x < c * d ==> 0.0 <= x / d < c
  {
  }

  lemma DivSign(x: real, d: real)
    requires d != 0.0
    ensures d > 0.0 && x >= 0.0 ==> x / d >= 0.0
  {
  }

  /** `-el / max(score2)` over the perpendicular offsets (sp_cs.py:115):
      values in [-1,0], the largest offset mapped to -1; no offsets give an
      empty list. */
  function Offsets(h: seq<real>): (r: Result<seq<real>>)
    ensures r.Err? <==> Normalize(h).Err?
    ensures r.Err? ==> r.error == Normalize(h).error
    ensures r.Ok? ==> |r.value| == |h| && forall k :: 0 <= k < |h| ==> r.value[k] == -Normalize(h).value[k]
    ensures r.Ok? && (forall k :: 0 <= k < |h| ==> h[k] >= 0.0) ==>
      (forall k :: 0 <= k < |h| ==> -1.0 <= r.value[k] <= 0.0) &&
      (|h| >= 1 ==> exists k :: 0 <= k < |h| && r.value[k] == -1.0)
  {
    match Normalize(h)
    case Err(e) => Err(e)
    case Ok(q) =>
      if |h| == 0 then Ok([])
      else
        var top := MaxOf(h);
        var o := seq(|q|, k requires 0 <= k < |q| => -h[k] / top);
        NegatedQuotients(h, top, q, o);
        Ok(o)
  }

  lemma NegatedQuotients(h: seq<real>, top: real, q: seq<real>, o: seq<real>)
    requires top != 0.0 && |q| == |h| && |o| == |h|
    requires forall k :: 0 <= k < |h| ==> Times(q[k], top) == h[k]
    requires forall k :: 0 <= k < |h| ==> o[k] == -h[k] / top
    ensures forall k :: 0 <= k < |h| ==> o[k] == -q[k]
  {
    forall k | 0 <= k < |h| ensures o[k] == -q[k] {
      NegDiv(h[k], top, q[k]);
    }
  }

  lemma NegDiv(x: real, m: real, q: real)
    requires m != 0.0 && Times(q, m) == x
    ensures -x / m == -q
  {
  }

  /** The score and perpendicular offset of one kept point for one
      (quo, aspiration) pair: projection, distances of the projection from
      both ends of the segment, classification. */
  function PointScore(a: real, b: real, d: real, quo: seq<real>, asp: seq<real>, px: real, py: real,
                      Sqrt: real -> real): (r: Result<(Option<real>, real)>)
    requires |quo| >= 2 && |asp| >= 2
    ensures r.Err? ==> r.error == DivisionByZero
    ensures r.Ok? && SqrtSpec(Sqrt) ==> r.value.1 >= 0.0
  {
    match Foot(a, b, px, py)
    case Err(e) => Err(e)
    case Ok((x, y)) =>
      var d1 := Sqrt(Square(quo[0] - x) + Square(quo[1] - y));
      var d2 := Sqrt(Square(x - asp[0]) + Square(y - asp[1]));
      match Classify(d, d1, d2)
      case Err(e) => Err(e)
      case Ok(c) => Ok((c, Sqrt(Square(x - px) + Square(y - py))))
  }

  /** score1 and the raw offsets after the first k points' results (the
      body of sp_cs.py:99-113 run over the kept points): a point without a
      score adds nothing to score1, and the first error ends the pass. */
  function Collect(results: seq<Result<(Option<real>, real)>>, k: nat): (r: Result<(seq<real>, seq<real>)>)
    requires k <= |results|
    ensures r.Ok? <==> forall q :: 0 <= q < k ==> results[q].Ok?
    ensures r.Err? ==> exists q :: 0 <= q < k && results[q] == Err(r.error)
    ensures r.Ok? ==> |r.value.1| == k && |r.value.0| <= k
    ensures r.Ok? ==> forall q :: 0 <= q < k ==> r.value.1[q] == results[q].value.1
    ensures r.Ok? ==> (|r.value.0| == k <==> forall q :: 0 <= q < k ==> results[q].value.0.Some?)
  {
    if k == 0 then Ok(([], []))
    else
      match Collect(results, k - 1)
      case Err(e) => Err(e)
      case Ok((s1, hs)) =>
        match results[k - 1]
        case Err(e) => Err(e)
        case Ok((c, h)) =>
          Ok((if c.Some? then s1 + [c.value] else s1, hs + [h]))
  }

  /** A failed point ends the pass: every longer prefix fails the same way. */
  lemma {:induction false} CollectErr(results: seq<Result<(Option<real>, real)>>, k: nat, n: nat)
    requires k <= n <= |results|
    requires Collect(results, k).Err?
    ensures Collect(results, n) == Collect(results, k)
    decreases n - k
  {
    if k < n {
      CollectErr(results, k + 1, n);
    }
  }

  /** The per-point results of one pass over the kept points. */
  function PointResults(a: real, b: real, d: real, quo: seq<real>, asp: seq<real>,
                        data0: seq<real>, data1: seq<real>, Sqrt: real -> real): (rs: seq<Result<(Option<real>, real)>>)
    requires |quo| >= 2 && |asp| >= 2 && |data1| == |data0|
    ensures |rs| == |data0|
    ensures forall q :: 0 <= q < |data0| ==> rs[q] == PointScore(a, b, d, quo, asp, data0[q], data1[q], Sqrt)
  {
    seq(|data0|, q requires 0 <= q < |data0| => PointScore(a, b, d, quo, asp, data0[q], data1[q], Sqrt))
  }

  /** The length of the segment between the quo and aspiration points (sp_cs.py:97). */
  function SegmentLength(quo: seq<real>, asp: seq<real>, Sqrt: real -> real): (r: real)
    requires |quo| >= 2 && |asp| >= 2
    ensures SqrtSpec(Sqrt) ==> r >= 0.0 && (r == 0.0 <==> quo[0] == asp[0] && quo[1] == asp[1])
  {
    Sqrt(Square(quo[0] - asp[0]) + Square(quo[1] - asp[1]))
  }

  /** One pass of the loop over (quo, aspiration) pairs (sp_cs.py:95-115):
      score1, one entry per classified point, and score2, the normalised
      negated offsets, one per point, in [-1,0] with -1 attained. */
  function PairSpec(quo: seq<real>, asp: seq<real>, data0: seq<real>, data1: seq<real>,
                    Sqrt: real -> real): (r: Result<(seq<real>, seq<real>)>)
    requires |quo| >= 2 && |asp| >= 2 && |data1| == |data0|
    ensures r.Err? ==> r.error == DivisionByZero
    ensures r.Ok? ==> |r.value.0| <= |data0| && |r.value.1| == |data0|
    ensures r.Ok? && SqrtSpec(Sqrt) ==>
      (forall k :: 0 <= k < |data0| ==> -1.0 <= r.value.1[k] <= 0.0) &&
      (|data0| >= 1 ==> exists k :: 0 <= k < |data0| && r.value.1[k] == -1.0)
  {
    match Line(quo, asp)
    case Err(e) => Err(e)
    case Ok((a, b)) =>
      var rs := PointResults(a, b, SegmentLength(quo, asp, Sqrt), quo, asp, data0, data1, Sqrt);
      match Collect(rs, |rs|)
      case Err(e) => Err(e)
      case Ok((s1, hs)) =>
        assert SqrtSpec(Sqrt) ==> forall k :: 0 <= k < |hs| ==> hs[k] >= 0.0;
        match Offsets(hs)
        case Err(e) => Err(e)
        case Ok(s2) => Ok((s1, s2))
  }

  /** The loop body of sp_cs.py:95-115 for one (quo, aspiration) pair. */
  method PairScore(quo: seq<real>, asp: seq<real>, data0: seq<real>, data1: seq<real>,
                   Sqrt: real -> real) returns (r: Result<(seq<real>, seq<real>)>)
    requires |quo| >= 2 && |asp| >= 2 && |data1| == |data0|
    ensures r == PairSpec(quo, asp, data0, data1, Sqrt)
  {
    var line := Line(quo, asp);
    if line.Err? {
      return Err(line.error);
    }
    var (a, b) := line.value;
    var d := SegmentLength(quo, asp, Sqrt);
    ghost var rs := PointResults(a, b, d, quo, asp, data0, data1, Sqrt);
    var score1, offsets := [], [];
    for k := 0 to |data0|
      invariant Collect(rs, k) == Ok((score1, offsets))
    {
      var point := PointScore(a, b, d, quo, asp, data0[k], data1[k], Sqrt);
      if point.Err? {
        assert Collect(rs, k + 1) == Err(point.error);
        CollectErr(rs, k + 1, |data0|);
        return Err(point.error);
      }
      var (c, h) := point.value;
      if c.Some? {
        score1 := score1 + [c.value];
      }
      offsets := offsets + [h];
    }
    var score2 := Offsets(offsets);
    if score2.Err? {
      return Err(score2.error);
    }
    r := Ok((score1, score2.value));
  }

  /** What the first half of sp_cs() produces: reference points, the random
      quo point, the aspiration set, the thresholds and the kept positions. */
  datatype Screened = Screened(
    points: Points,
    quoRandom: seq<real>,
    aspiration: set<nat>,
    thresholds: seq<real>,
    kept: seq<nat>)

  ghost predicate ScreenedOf(D: Matrix, wmax: seq<bool>, quoDraws: seq<real>, s: Screened)
    requires WellShaped(D) && |wmax| == |D| && Draws(quoDraws, |D|)
  {
    && PointsOf(D, wmax, s.points)
    && |s.quoRandom| == |D|
    && (forall j :: 0 <= j < |D| ==>
          s.quoRandom[j] == RandomCoordinate(s.points.aspiration[j], s.points.antiIdeal[j], quoDraws[j]))
    && (forall i :: i in s.aspiration <==>
          exists j :: 0 <= j < |D| && 0 <= i < |D[0]| && D[j][i] == s.points.refs[j].best)
    && s.aspiration != {}
    && (forall i :: i in s.aspiration ==> i < |D[0]|)
    && |s.thresholds| == |D|
    && (forall j :: 0 <= j < |D| ==> IsThreshold(D[j], wmax[j], s.aspiration, s.thresholds[j]))
    && (forall p, q :: 0 <= p < q < |s.kept| ==> s.kept[p] < s.kept[q])
    && (forall p :: 0 <= p < |s.kept| ==> s.kept[p] < |D[0]|)
    && (forall i :: i in s.kept <==> 0 <= i < |D[0]| && Passes(D, wmax, s.thresholds, i))
    && (forall i :: i in s.aspiration ==> i in s.kept)
  }

  /** The first half of sp_cs() (sp_cs.py:20-79): per-criterion reference
      values, the aspiration set, the thresholds over it and the
      non-domination filter. A constant column raises IndexError. */
  method Screen(D: Matrix, wmax: seq<bool>, quoDraws: seq<real>) returns (r: Result<Screened>)
    requires WellShaped(D) && |wmax| == |D| && Draws(quoDraws, |D|)
    ensures r.Err? <==> exists j :: 0 <= j < |D| && Constant(D[j])
    ensures r.Err? ==> r.error == IndexOutOfRange
    ensures r.Ok? ==> ScreenedOf(D, wmax, quoDraws, r.value)
  {
    var refsR := DeriveAll(D, wmax);
    if refsR.Err? {
      return Err(refsR.error);
    }
    var R := refsR.value;
    var pts := ReferencePoints(D, wmax, R.refs);
    var quoRandom := RandomQuo(pts, quoDraws);
    AspirationNonEmpty(D, wmax, R);
    var th := Thresholds(D, wmax, R.aspiration);
    var kept := Filter(D, wmax, th);
    forall i | i in R.aspiration ensures i in kept {
      AspirationPassesAll(D, wmax, R.aspiration, th, i);
    }
    r := Ok(Screened(pts, quoRandom, R.aspiration, th, kept));
  }

  /** The first t pairs score every point: none fails, none skips a point. */
  ghost predicate PairsFull(ps: seq<(seq<real>, seq<real>)>, data0: seq<real>, data1: seq<real>,
                            Sqrt: real -> real, t: nat)
    requires t <= |ps| && |data1| == |data0|
    requires forall u :: 0 <= u < |ps| ==> |ps[u].0| >= 2 && |ps[u].1| >= 2
  {
    forall u :: 0 <= u < t ==>
      PairSpec(ps[u].0, ps[u].1, data0, data1, Sqrt).Ok? &&
      |PairSpec(ps[u].0, ps[u].1, data0, data1, Sqrt).value.0| == |data0|
  }

  /** `score_sum[i]` after the first t pairs: the sum of score1[i] + score2[i]. */
  ghost function Accumulated(ps: seq<(seq<real>, seq<real>)>, data0: seq<real>, data1: seq<real>,
                             Sqrt: real -> real, t: nat, i: nat): real
    requires t <= |ps| && |data1| == |data0| && i < |data0|
    requires forall u :: 0 <= u < |ps| ==> |ps[u].0| >= 2 && |ps[u].1| >= 2
    requires PairsFull(ps, data0, data1, Sqrt, t)
  {
    if t == 0 then 0.0
    else
      var P := PairSpec(ps[t - 1].0, ps[t - 1].1, data0, data1, Sqrt).value;
      Accumulated(ps, data0, data1, Sqrt, t - 1, i) + (P.0[i] + P.1[i])
  }

  /** A full pass t extends PairsFull and adds its scores to the running sums. */
  lemma PassAccumulated(ps: seq<(seq<real>, seq<real>)>, data0: seq<real>, data1: seq<real>,
                        Sqrt: real -> real, t: nat, score1: seq<real>, score2: seq<real>)
    requires t < |ps| && |data1| == |data0|
    requires forall u :: 0 <= u < |ps| ==> |ps[u].0| >= 2 && |ps[u].1| >= 2
    requires PairsFull(ps, data0, data1, Sqrt, t)
    requires PairSpec(ps[t].0, ps[t].1, data0, data1, Sqrt) == Ok((score1, score2))
    requires |score1| >= |data0|
    ensures PairsFull(ps, data0, data1, Sqrt, t + 1)
    ensures forall i :: 0 <= i < |data0| ==>
      Accumulated(ps, data0, data1, Sqrt, t + 1, i) == Accumulated(ps, data0, data1, Sqrt, t, i) + (score1[i] + score2[i])
  {
  }

  /** `score_sum[i] += score1[i] + score2[i]` for every i (sp_cs.py:117-118);
      false when score1 is shorter than score_sum, where Python raises
      IndexError. */
  method AddPass(sum: array<real>, score1: seq<real>, score2: seq<real>) returns (full: bool)
    requires |score2| == sum.Length
    modifies sum
    ensures full <==> |score1| >= sum.Length
    ensures full ==> forall k :: 0 <= k < sum.Length ==> sum[k] == old(sum[k]) + (score1[k] + score2[k])
  {
    for i := 0 to sum.Length
      invariant i <= |score1|
      invariant forall k :: 0 <= k < i ==> sum[k] == old(sum[k]) + (score1[k] + score2[k])
      invariant forall k :: i <= k < sum.Length ==> sum[k] == old(sum[k])
    {
      if i >= |score1| {
        return false;
      }
      sum[i] := sum[i] + (score1[i] + score2[i]);
    }
    return true;
  }

  /** `score_sum` after the loop over the three pairs (sp_cs.py:90-118):
      every pass must succeed and score every point, and then entry i is the
      sum over the passes of score1[i] + score2[i]. */
  method Accumulate(ps: seq<(seq<real>, seq<real>)>, data0: seq<real>, data1: seq<real>,
                    Sqrt: real -> real) returns (r: Result<seq<real>>)
    requires |ps| == 3 && |data1| == |data0|
    requires forall u :: 0 <= u < |ps| ==> |ps[u].0| >= 2 && |ps[u].1| >= 2
    ensures r.Ok? <==> PairsFull(ps, data0, data1, Sqrt, |ps|)
    ensures r.Err? ==> r.error in {IndexOutOfRange, DivisionByZero}
    ensures r.Ok? ==> |r.value| == |data0|
    ensures r.Ok? ==> forall i :: 0 <= i < |data0| ==> r.value[i] == Accumulated(ps, data0, data1, Sqrt, |ps|, i)
  {
    var sum := new real[|data0|](_ => 0.0);
    for t := 0 to 3
      invariant PairsFull(ps, data0, data1, Sqrt, t)
      invariant forall i :: 0 <= i < sum.Length ==> sum[i] == Accumulated(ps, data0, data1, Sqrt, t, i)
    {
      var pass := PairScore(ps[t].0, ps[t].1, data0, data1, Sqrt);
      if pass.Err? {
        return Err(pass.error);
      }
      var (score1, score2) := pass.value;
      var full := AddPass(sum, score1, score2);
      if !full {
        return Err(IndexOutOfRange);
      }
      PassAccumulated(ps, data0, data1, Sqrt, t, score1, score2);
    }
    r := Ok(sum[..]);
  }

  /** `score = score_sum / 3` after the three passes (sp_cs.py:120). */
  method Average(ps: seq<(seq<real>, seq<real>)>, data0: seq<real>, data1: seq<real>,
                 Sqrt: real -> real) returns (r: Result<seq<real>>)
    requires |ps| == 3 && |data1| == |data0|
    requires forall u :: 0 <= u < |ps| ==> |ps[u].0| >= 2 && |ps[u].1| >= 2
    ensures r.Ok? <==> PairsFull(ps, data0, data1, Sqrt, |ps|)
    ensures r.Err? ==> r.error in {IndexOutOfRange, DivisionByZero}
    ensures r.Ok? ==> |r.value| == |data0|
    ensures r.Ok? ==> forall i :: 0 <= i < |data0| ==> r.value[i] == Accumulated(ps, data0, data1, Sqrt, |ps|, i) / 3.0
  {
    var sums := Accumulate(ps, data0, data1, Sqrt);
    if sums.Err? {
      return Err(sums.error);
    }
    var sum := sums.value;
    r := Ok(seq(|sum|, i requires 0 <= i < |sum| => sum[i] / 3.0));
  }

  /** What sp_cs() returns (score, data_0, data_1, the three quo points and
      the three disrupted aspiration points), with the first half's values. */
  datatype SpCsOutcome = SpCsOutcome(
    score: seq<real>,
    data0: seq<real>,
    data1: seq<real>,
    disrupted1: seq<real>,
    disrupted2: seq<real>,
    disrupted3: seq<real>,
    screened: Screened)

  /** The three (quo point, disrupted aspiration point) pairs of
      sp_cs.py:91-93, in loop order. */
  function PassPairs(s: Screened, disrupted1: seq<real>, disrupted2: seq<real>, disrupted3: seq<real>):
    (ps: seq<(seq<real>, seq<real>)>)
    ensures |ps| == 3
    ensures ps[0] == (s.points.quoMean, disrupted1) && ps[1] == (s.points.quoMedian, disrupted2)
    ensures ps[2] == (s.quoRandom, disrupted3)
  {
    [(s.points.quoMean, disrupted1), (s.points.quoMedian, disrupted2), (s.quoRandom, disrupted3)]
  }

  /** Row j of D restricted to the kept alternatives, in kept order. */
  function Projection(D: Matrix, j: nat, kept: seq<nat>): (r: seq<real>)
    requires WellShaped(D) && j < |D|
    requires forall p :: 0 <= p < |kept| ==> kept[p] < |D[0]|
    ensures |r| == |kept| && forall p :: 0 <= p < |kept| ==> r[p] == D[j][kept[p]]
  {
    seq(|kept|, p requires 0 <= p < |kept| => D[j][kept[p]])
  }

  /** The second half of sp_cs() gets through: there are two criteria, and
      each of the three passes over the projected kept alternatives
      succeeds and scores every one of them. */
  ghost predicate Succeeds(D: Matrix, s: Screened, jitter1: seq<real>, jitter2: seq<real>, jitter3: seq<real>,
                           Sqrt: real -> real)
    requires WellShaped(D) && |s.points.aspiration| == |D| && |s.points.quoMean| == |D|
    requires |s.points.quoMedian| == |D| && |s.quoRandom| == |D|
    requires forall p :: 0 <= p < |s.kept| ==> s.kept[p] < |D[0]|
    requires Draws(jitter1, |D|) && Draws(jitter2, |D|) && Draws(jitter3, |D|)
  {
    && |D| >= 2
    && var ps := PassPairs(s, Disrupt(s.points.aspiration, jitter1, 0.9, 0.2),
                           Disrupt(s.points.aspiration, jitter2, 0.85, 0.3),
                           Disrupt(s.points.aspiration, jitter3, 0.8, 0.4));
       PairsFull(ps, Projection(D, 0, s.kept), Projection(D, 1, s.kept), Sqrt, |ps|)
  }

  /** The outcome o is what the second half of sp_cs() returns for the
      screened values s: the projection onto the first two criteria, the
      three disrupted aspiration points, every pass full, and each score the
      average of the three passes' score1[i] + score2[i]. */
  ghost predicate ScoredOf(D: Matrix, s: Screened, jitter1: seq<real>, jitter2: seq<real>, jitter3: seq<real>,
                           Sqrt: real -> real, o: SpCsOutcome)
    requires WellShaped(D) && |s.points.aspiration| == |D|
    requires forall p :: 0 <= p < |s.kept| ==> s.kept[p] < |D[0]|
    requires Draws(jitter1, |D|) && Draws(jitter2, |D|) && Draws(jitter3, |D|)
  {
    && |D| >= 2
    && o.screened == s
    && |o.data0| == |s.kept| && |o.data1| == |s.kept|
    && (forall p :: 0 <= p < |s.kept| ==> o.data0[p] == D[0][s.kept[p]] && o.data1[p] == D[1][s.kept[p]])
    && o.disrupted1 == Disrupt(s.points.aspiration, jitter1, 0.9, 0.2)
    && o.disrupted2 == Disrupt(s.points.aspiration, jitter2, 0.85, 0.3)
    && o.disrupted3 == Disrupt(s.points.aspiration, jitter3, 0.8, 0.4)
    && |s.points.quoMean| >= 2 && |s.points.quoMedian| >= 2 && |s.quoRandom| >= 2
    && var ps := PassPairs(s, o.disrupted1, o.disrupted2, o.disrupted3);
       && PairsFull(ps, o.data0, o.data1, Sqrt, |ps|)
       && |o.score| == |s.kept|
       && (forall i :: 0 <= i < |s.kept| ==> o.score[i] == Accumulated(ps, o.data0, o.data1, Sqrt, |ps|, i) / 3.0)
  }

  /** The second half of sp_cs() (sp_cs.py:81-120): the two-criterion
      projection, one scoring pass per (quo, aspiration) pair accumulated in
      `score_sum`, and the average over the three passes. With a single
      criterion `D[1]` (or `quo_point[1]`) raises IndexError; a pass that
      fails or skips a point fails the whole computation. */
  method Score(D: Matrix, s: Screened, jitter1: seq<real>, jitter2: seq<real>, jitter3: seq<real>,
               Sqrt: real -> real) returns (r: Result<SpCsOutcome>)
    requires WellShaped(D) && |s.points.aspiration| == |D| && |s.points.quoMean| == |D|
    requires |s.points.quoMedian| == |D| && |s.quoRandom| == |D|
    requires forall p :: 0 <= p < |s.kept| ==> s.kept[p] < |D[0]|
    requires Draws(jitter1, |D|) && Draws(jitter2, |D|) && Draws(jitter3, |D|)
    ensures |D| < 2 ==> r == Err(IndexOutOfRange)
    ensures r.Ok? <==> Succeeds(D, s, jitter1, jitter2, jitter3, Sqrt)
    ensures r.Err? ==> r.error in {IndexOutOfRange, DivisionByZero}
    ensures r.Ok? ==> ScoredOf(D, s, jitter1, jitter2, jitter3, Sqrt, r.value)
  {
    var projected := Project2(D, s.kept);
    if projected.Err? {
      return Err(projected.error);
    }
    var (data0, data1) := projected.value;
    if |D| < 2 {
      // no kept alternative: the pair loop below indexes quo_point[1] and fails
      return Err(IndexOutOfRange);
    }
    var disrupted1 := Disrupt(s.points.aspiration, jitter1, 0.9, 0.2);
    var disrupted2 := Disrupt(s.points.aspiration, jitter2, 0.85, 0.3);
    var disrupted3 := Disrupt(s.points.aspiration, jitter3, 0.8, 0.4);
    var averaged := Average(PassPairs(s, disrupted1, disrupted2, disrupted3), data0, data1, Sqrt);
    if averaged.Err? {
      return Err(averaged.error);
    }
    r := Ok(SpCsOutcome(averaged.value, data0, data1, disrupted1, disrupted2, disrupted3, s));
  }

  /** sp_cs(D, W_max) (sp_cs.py:9-122). A constant criterion raises
      IndexError in the best-value scan; a single criterion raises IndexError
      in the projection; otherwise the outcome is the screened reference
      values and the averaged scores of the kept alternatives. The ghost
      result is the first half's values, which the matrix and the draws
      determine (ScreenedUnique, SucceedsUnique), so success is a condition on the inputs. */
  method SpCs(D: Matrix, wmax: seq<bool>, quoDraws: seq<real>, jitter1: seq<real>, jitter2: seq<real>,
              jitter3: seq<real>, Sqrt: real -> real) returns (r: Result<SpCsOutcome>, ghost s: Screened)
    requires WellShaped(D) && |wmax| == |D| && Draws(quoDraws, |D|)
    requires Draws(jitter1, |D|) && Draws(jitter2, |D|) && Draws(jitter3, |D|)
    ensures (exists j :: 0 <= j < |D| && Constant(D[j])) ==> r == Err(IndexOutOfRange)
    ensures |D| < 2 ==> r == Err(IndexOutOfRange)
    ensures (forall j :: 0 <= j < |D| ==> !Constant(D[j])) ==>
      && ScreenedOf(D, wmax, quoDraws, s)
      && (r.Ok? <==> Succeeds(D, s, jitter1, jitter2, jitter3, Sqrt))
    ensures r.Err? ==> r.error in {IndexOutOfRange, DivisionByZero}
    ensures r.Ok? ==> r.value.screened == s
    ensures r.Ok? ==> ScreenedOf(D, wmax, quoDraws, r.value.screened)
    ensures r.Ok? ==> ScoredOf(D, r.value.screened, jitter1, jitter2, jitter3, Sqrt, r.value)
  {
    s := Screened(Points([], [], [], [], []), [], {}, [], []);
    var screened := Screen(D, wmax, quoDraws);
    if screened.Err? {
      r := Err(screened.error);
      return;
    }
    s := screened.value;
    r := Score(D, screened.value, jitter1, jitter2, jitter3, Sqrt);
  }

  /** The threshold over a given aspiration set is unique. */
  lemma ThresholdUnique(col: seq<real>, maximize: bool, asp: set<nat>, v1: real, v2: real)
    requires forall i :: i in asp ==> i < |col|
    requires IsThreshold(col, maximize, asp, v1) && IsThreshold(col, maximize, asp, v2)
    ensures v1 == v2
  {
    if maximize {
      var i1 :| i1 in asp && v1 == col[i1];
      var i2 :| i2 in asp && v2 == col[i2];
      assert v1 <= col[i2] && v2 <= col[i1];
    } else {
      if v1 != 0.0 {
        var i1 :| i1 in asp && v1 == col[i1];
        assert col[i1] <= v2;
      }
      if v2 != 0.0 {
        var i2 :| i2 in asp && v2 == col[i2];
        assert col[i2] <= v1;
      }
    }
  }

  /** So is the whole threshold vector. */
  lemma ThresholdsUnique(D: Matrix, wmax: seq<bool>, asp: set<nat>, t1: seq<real>, t2: seq<real>)
    requires WellShaped(D) && |wmax| == |D| && |t1| == |D| && |t2| == |D|
    requires forall i :: i in asp ==> i < |D[0]|
    requires forall j :: 0 <= j < |D| ==> IsThreshold(D[j], wmax[j], asp, t1[j])
    requires forall j :: 0 <= j < |D| ==> IsThreshold(D[j], wmax[j], asp, t2[j])
    ensures t1 == t2
  {
    forall j | 0 <= j < |D| ensures t1[j] == t2[j] {
      ThresholdUnique(D[j], wmax[j], asp, t1[j], t2[j]);
    }
  }

  /** The first half of sp_cs() is determined by the matrix and the draws:
      any two screenings that satisfy its contract agree on every value the
      second half reads. */
  lemma ScreenedUnique(D: Matrix, wmax: seq<bool>, quoDraws: seq<real>, s1: Screened, s2: Screened)
    requires WellShaped(D) && |wmax| == |D| && Draws(quoDraws, |D|)
    requires ScreenedOf(D, wmax, quoDraws, s1) && ScreenedOf(D, wmax, quoDraws, s2)
    ensures s1.points.aspiration == s2.points.aspiration && s1.points.quoMean == s2.points.quoMean
    ensures s1.points.quoMedian == s2.points.quoMedian && s1.quoRandom == s2.quoRandom
    ensures s1.aspiration == s2.aspiration && s1.thresholds == s2.thresholds && s1.kept == s2.kept
  {
    PointsUnique(D, wmax, s1.points, s2.points);
    assert s1.quoRandom == s2.quoRandom;
    KeptUnique(D, wmax, quoDraws, s1, s2);
  }

  /** The aspiration set, the thresholds and the kept list of a screening
      are determined by the matrix. */
  lemma KeptUnique(D: Matrix, wmax: seq<bool>, quoDraws: seq<real>, s1: Screened, s2: Screened)
    requires WellShaped(D) && |wmax| == |D| && Draws(quoDraws, |D|)
    requires ScreenedOf(D, wmax, quoDraws, s1) && ScreenedOf(D, wmax, quoDraws, s2)
    ensures s1.aspiration == s2.aspiration && s1.thresholds == s2.thresholds && s1.kept == s2.kept
  {
    assert s1.aspiration == s2.aspiration;
    ThresholdsUnique(D, wmax, s1.aspiration, s1.thresholds, s2.thresholds);
    AscendingUnique(s1.kept, s2.kept);
  }

  /** So whether the second half of sp_cs() succeeds depends on the inputs
      only, not on which screening satisfying the contract is used. */
  lemma SucceedsUnique(D: Matrix, wmax: seq<bool>, quoDraws: seq<real>, s1: Screened, s2: Screened,
                       jitter1: seq<real>, jitter2: seq<real>, jitter3: seq<real>, Sqrt: real -> real)
    requires WellShaped(D) && |wmax| == |D| && Draws(quoDraws, |D|)
    requires Draws(jitter1, |D|) && Draws(jitter2, |D|) && Draws(jitter3, |D|)
    requires ScreenedOf(D, wmax, quoDraws, s1) && ScreenedOf(D, wmax, quoDraws, s2)
    ensures Succeeds(D, s1, jitter1, jitter2, jitter3, Sqrt) <==> Succeeds(D, s2, jitter1, jitter2, jitter3, Sqrt)
  {
    ScreenedUnique(D, wmax, quoDraws, s1, s2);
  }

  /** sp_cs scores only the kept alternatives, so it returns a score for
      every alternative exactly when none is dominated. */
  lemma ScoresEveryAlternative(D: Matrix, wmax: seq<bool>, quoDraws: seq<real>, s: Screened)
    requires WellShaped(D) && |wmax| == |D| && Draws(quoDraws, |D|)
    requires ScreenedOf(D, wmax, quoDraws, s)
    ensures |s.kept| == |D[0]| <==> forall i :: 0 <= i < |D[0]| ==> Passes(D, wmax, s.thresholds, i)
  {
    KeptAllIff(s.kept, |D[0]|);
  }

  /** The ranking part of compute_sp_cs (sp_cs.py:155-160): one entry per
      alternative, sorted by score, highest first, ties in input order.
      `score[i]` raises IndexError when sp_cs returned fewer scores than
      there are alternatives, that is, when some alternative was dominated. */
  method RankSpCs(names: seq<string>, score: seq<real>) returns (r: Result<seq<Entry>>)
    ensures r.Err? <==> |score| < |names|
    ensures r.Err? ==> r.error == IndexOutOfRange
    ensures r.Ok? ==> |r.value| == |names|
    ensures r.Ok? ==> exists order ::
      IsStableOrder(Fins(score[..|names|]), true, order) &&
      forall p :: 0 <= p < |r.value| ==> r.value[p] == Entry(names[order[p]], Fin(score[order[p]]))
  {
    if |score| < |names| {
      return Err(IndexOutOfRange);
    }
    var scores := Fins(score[..|names|]);
    var rank, order := Rank(names, scores, true);
    r := Ok(rank);
  }
}
