/** The RSM (reference set method) kernel, rsm() in rsm.py, and the ranking
    step of compute_rsm. */
module Rsm {
  import opened Common
  import opened Ranking
  import opened Reference
  import opened Pareto

  /** The distance measures the `metric` argument selects. */
  datatype Metric = Default | BrayCurtis | Canberra | Chebyshev | CityBlock

  /** The metric names rsm() recognises (rsm.py:87, 109, 126, 143, 160). */
  function ParseMetric(name: string): Option<Metric> {
    if name == "Default" then Some(Default)
    else if name == "Bray-Curtis" then Some(BrayCurtis)
    else if name == "Canberra" then Some(Canberra)
    else if name == "Chebyshev" then Some(Chebyshev)
    else if name == "City Block" then Some(CityBlock)
    else None
  }

  function MetricName(metric: Metric): string {
    match metric
    case Default => "Default"
    case BrayCurtis => "Bray-Curtis"
    case Canberra => "Canberra"
    case Chebyshev => "Chebyshev"
    case CityBlock => "City Block"
  }

  /** Every metric is recognised under its own name. */
  lemma ParseMetricName(metric: Metric)
    ensures ParseMetric(MetricName(metric)) == Some(metric)
  {
  }

  /** scipy's braycurtis, canberra, chebyshev and cityblock are never negative. */
  ghost predicate ScipyNonneg(Scipy: (Metric, seq<real>, seq<real>) -> real) {
    forall metric, u, v :: Scipy(metric, u, v) >= 0.0
  }

  /** `n` rows of equal length, possibly empty. */
  predicate Rectangular(data: Matrix) {
    |data| >= 1 && forall i :: 0 <= i < |data| ==> |data[i]| == |data[0]|
  }

  /** The criterion values of the kept alternatives, in kept order (`data`). */
  function Columns(D: Matrix, kept: seq<nat>): (data: Matrix)
    requires WellShaped(D) && forall p :: 0 <= p < |kept| ==> kept[p] < |D[0]|
    ensures |data| == |D| && Rectangular(data) && |data[0]| == |kept|
    ensures forall p :: 0 <= p < |kept| ==> Column(data, p) == Column(D, kept[p])
  {
    var data := seq(|D|, i requires 0 <= i < |D| => seq(|kept|, p requires 0 <= p < |kept| => D[i][kept[p]]));
    assert forall p :: 0 <= p < |kept| ==> Column(data, p) == Column(D, kept[p]);
    data
  }

  /** The nested append loop building `data` (rsm.py:80-85). */
  method Select(D: Matrix, kept: seq<nat>) returns (data: Matrix)
    requires WellShaped(D) && forall p :: 0 <= p < |kept| ==> kept[p] < |D[0]|
    ensures data == Columns(D, kept)
  {
    data := [];
    for i := 0 to |D|
      invariant |data| == i
      invariant forall r :: 0 <= r < i ==> data[r] == Columns(D, kept)[r]
    {
      var criterion := [];
      for p := 0 to |kept|
        invariant criterion == Columns(D, kept)[i][..p]
      {
        criterion := criterion + [D[i][kept[p]]];
      }
      data := data + [criterion];
    }
  }

  /** The distance of each kept alternative from a reference point: the
      square root of the squared Euclidean distance for "Default", scipy's
      measure otherwise. */
  function Distances(data: Matrix, ref: seq<real>, metric: Metric,
                     Sqrt: real -> real, Scipy: (Metric, seq<real>, seq<real>) -> real): (d: seq<real>)
    requires Rectangular(data) && |ref| == |data|
    ensures |d| == |data[0]|
  {
    seq(|data[0]|, k requires 0 <= k < |data[0]| =>
      if metric == Default then Sqrt(SqDist(Column(data, k), ref)) else Scipy(metric, Column(data, k), ref))
  }

  /** Distances are never negative, and a Euclidean distance vanishes exactly
      at the reference point itself. */
  lemma DistancesFacts(data: Matrix, ref: seq<real>, metric: Metric,
                       Sqrt: real -> real, Scipy: (Metric, seq<real>, seq<real>) -> real, k: nat)
    requires Rectangular(data) && |ref| == |data| && k < |data[0]|
    requires SqrtSpec(Sqrt) && ScipyNonneg(Scipy)
    ensures Distances(data, ref, metric, Sqrt, Scipy)[k] >= 0.0
    ensures metric == Default ==> (Distances(data, ref, metric, Sqrt, Scipy)[k] == 0.0 <==> Column(data, k) == ref)
  {
    var c := Column(data, k);
    var d := Distances(data, ref, metric, Sqrt, Scipy);
    assert d[k] == if metric == Default then Sqrt(SqDist(c, ref)) else Scipy(metric, c, ref);
    SqDistZeroIff(c, ref, |c|);
    assert (forall q :: 0 <= q < |c| ==> c[q] == ref[q]) <==> c == ref;
  }

  /** The squared distances accumulated in place, criterion by criterion
      (`d_square_*[j] += (data[i][j] - ref[i]) ** 2`, rsm.py:88-91). */
  method SquaredDistances(data: Matrix, ref: seq<real>) returns (sq: seq<real>)
    requires Rectangular(data) && |ref| == |data|
    ensures |sq| == |data[0]|
    ensures forall k :: 0 <= k < |sq| ==> sq[k] == SqDist(Column(data, k), ref)
  {
    var acc := new real[|data[0]|](_ => 0.0);
    for i := 0 to |data|
      invariant forall k :: 0 <= k < acc.Length ==> acc[k] == SqDistUpTo(Column(data, k), ref, i)
    {
      AddCriterion(data, ref, i, acc);
    }
    sq := acc[..];
  }

  /** The inner loop for criterion i: adds each alternative's squared
      difference on i to its running sum. */
  method AddCriterion(data: Matrix, ref: seq<real>, i: nat, acc: array<real>)
    requires Rectangular(data) && |ref| == |data| && i < |data| && acc.Length == |data[0]|
    requires forall k :: 0 <= k < acc.Length ==> acc[k] == SqDistUpTo(Column(data, k), ref, i)
    modifies acc
    ensures forall k :: 0 <= k < acc.Length ==> acc[k] == SqDistUpTo(Column(data, k), ref, i + 1)
  {
    for j := 0 to acc.Length
      invariant forall k :: 0 <= k < j ==> acc[k] == SqDistUpTo(Column(data, k), ref, i + 1)
      invariant forall k :: j <= k < acc.Length ==> acc[k] == SqDistUpTo(Column(data, k), ref, i)
    {
      assert Column(data, j)[i] == data[i][j];
      acc[j] := acc[j] + Square(data[i][j] - ref[i]);
    }
  }

  /** One metric branch of rsm(): the distances of every kept alternative
      from one reference point (rsm.py:87-176). */
  method MetricDistances(data: Matrix, ref: seq<real>, metric: Metric,
                         Sqrt: real -> real, Scipy: (Metric, seq<real>, seq<real>) -> real) returns (d: seq<real>)
    requires Rectangular(data) && |ref| == |data|
    ensures d == Distances(data, ref, metric, Sqrt, Scipy)
  {
    if metric == Default {
      var sq := SquaredDistances(data, ref);
      d := seq(|sq|, k requires 0 <= k < |sq| => Sqrt(sq[k]));
    } else {
      d := [];
      for i := 0 to |data[0]|
        invariant d == Distances(data, ref, metric, Sqrt, Scipy)[..i]
      {
        d := d + [Scipy(metric, Column(data, i), ref)];
      }
    }
  }

  /** The RSM score of each kept alternative from its three normalised
      distances: distance to the aspiration point minus the smaller distance
      to a quo point. With every normalised distance in [0,1], each score
      lies in [-1,1]. */
  function Combined(aspN: seq<real>, meanN: seq<real>, medianN: seq<real>): (score: seq<real>)
    requires |meanN| == |aspN| && |medianN| == |aspN|
    ensures |score| == |aspN|
    ensures forall k :: 0 <= k < |score| ==>
      score[k] >= aspN[k] - medianN[k] && score[k] >= aspN[k] - meanN[k] &&
      (score[k] == aspN[k] - medianN[k] || score[k] == aspN[k] - meanN[k])
    ensures (forall k :: 0 <= k < |aspN| ==> 0.0 <= aspN[k] <= 1.0 && 0.0 <= meanN[k] <= 1.0 && 0.0 <= medianN[k] <= 1.0)
      ==> forall k :: 0 <= k < |score| ==> -1.0 <= score[k] <= 1.0
  {
    seq(|aspN|, k requires 0 <= k < |aspN| => aspN[k] - Min(medianN[k], meanN[k]))
  }

  /** The loop of rsm.py:178-180 appending
      `d_aspiration_n[j] - min(d_quo_median_n[j], d_quo_mean_n[j])`. */
  method Combine(aspN: seq<real>, meanN: seq<real>, medianN: seq<real>) returns (score: seq<real>)
    requires |meanN| == |aspN| && |medianN| == |aspN|
    ensures score == Combined(aspN, meanN, medianN)
  {
    score := [];
    for j := 0 to |aspN|
      invariant score == Combined(aspN, meanN, medianN)[..j]
    {
      score := score + [aspN[j] - Min(medianN[j], meanN[j])];
    }
  }

  /** The scores of the kept alternatives as a function of the three
      distance lists: each list is max-normalised (a zero maximum raises
      ZeroDivisionError), then combined. */
  function RetainedScores(dAsp: seq<real>, dMean: seq<real>, dMedian: seq<real>): (r: Result<seq<real>>)
    requires |dMean| == |dAsp| && |dMedian| == |dAsp|
    ensures r.Ok? ==> |r.value| == |dAsp|
    ensures r.Ok? <==> Normalize(dAsp).Ok? && Normalize(dMean).Ok? && Normalize(dMedian).Ok?
    ensures r.Err? ==> r.error == DivisionByZero
    ensures r.Ok? && (forall k :: 0 <= k < |dAsp| ==> dAsp[k] >= 0.0 && dMean[k] >= 0.0 && dMedian[k] >= 0.0)
      ==> forall k :: 0 <= k < |dAsp| ==> -1.0 <= r.value[k] <= 1.0
  {
    match Normalize(dAsp)
    case Err(e) => Err(e)
    case Ok(a) =>
      match Normalize(dMean)
      case Err(e) => Err(e)
      case Ok(me) =>
        match Normalize(dMedian)
        case Err(e) => Err(e)
        case Ok(md) => Ok(Combined(a, me, md))
  }

  /** The three distance lists of the kept alternatives, normalised and
      combined (rsm.py:87-180); every score lies in [-1,1]. */
  method KeptScores(data: Matrix, aspiration: seq<real>, quoMean: seq<real>, quoMedian: seq<real>, metric: Metric,
                    Sqrt: real -> real, Scipy: (Metric, seq<real>, seq<real>) -> real) returns (r: Result<seq<real>>)
    requires Rectangular(data) && |aspiration| == |data| && |quoMean| == |data| && |quoMedian| == |data|
    requires SqrtSpec(Sqrt) && ScipyNonneg(Scipy)
    ensures r == RetainedScores(Distances(data, aspiration, metric, Sqrt, Scipy),
                                Distances(data, quoMean, metric, Sqrt, Scipy),
                                Distances(data, quoMedian, metric, Sqrt, Scipy))
    ensures r.Ok? ==> |r.value| == |data[0]| && forall k :: 0 <= k < |r.value| ==> -1.0 <= r.value[k] <= 1.0
  {
    var dAsp := MetricDistances(data, aspiration, metric, Sqrt, Scipy);
    var dMean := MetricDistances(data, quoMean, metric, Sqrt, Scipy);
    var dMedian := MetricDistances(data, quoMedian, metric, Sqrt, Scipy);
    forall k | 0 <= k < |dAsp|
      ensures dAsp[k] >= 0.0 && dMean[k] >= 0.0 && dMedian[k] >= 0.0
    {
      DistancesFacts(data, aspiration, metric, Sqrt, Scipy, k);
      DistancesFacts(data, quoMean, metric, Sqrt, Scipy, k);
      DistancesFacts(data, quoMedian, metric, Sqrt, Scipy, k);
    }
    var aspN := Normalize(dAsp);
    if aspN.Err? {
      return Err(aspN.error);
    }
    var meanN := Normalize(dMean);
    if meanN.Err? {
      return Err(meanN.error);
    }
    var medianN := Normalize(dMedian);
    if medianN.Err? {
      return Err(medianN.error);
    }
    var score := Combine(aspN.value, meanN.value, medianN.value);
    r := Ok(score);
  }

  /** `for j in range(m): if j not in pareto: score.insert(j, inf)`
      (rsm.py:181-183): the retained scores spread back to full length. */
  method InsertDominated(retained: seq<real>, kept: seq<nat>, m: nat) returns (score: seq<Ext>)
    requires |retained| == |kept|
    requires forall p, q :: 0 <= p < q < |kept| ==> kept[p] < kept[q]
    requires forall p :: 0 <= p < |kept| ==> kept[p] < m
    ensures |score| == m
    ensures forall i :: 0 <= i < m ==> (score[i] == Inf <==> i !in kept)
    ensures forall p :: 0 <= p < |kept| ==> score[kept[p]] == Fin(retained[p])
  {
    score := Fins(retained);
    ghost var c := 0;
    for j := 0 to m
      invariant c <= |kept|
      invariant forall p :: 0 <= p < c ==> kept[p] < j
      invariant forall p :: c <= p < |kept| ==> kept[p] >= j
      invariant |score| == j + |kept| - c
      invariant forall i :: 0 <= i < j ==> (score[i] == Inf <==> i !in kept)
      invariant forall p :: 0 <= p < c ==> score[kept[p]] == Fin(retained[p])
      invariant score[j..] == Fins(retained)[c..]
    {
      if j !in kept {
        InsertAt(score, j, Inf);
        score := score[..j] + [Inf] + score[j..];
      } else {
        NextKept(kept, c, j);
        SuffixStep(score, Fins(retained), j, c);
        c := c + 1;
      }
    }
  }

  /** In an ascending list split at c around j, a j that occurs sits at c. */
  lemma NextKept(kept: seq<nat>, c: nat, j: nat)
    requires forall p, q :: 0 <= p < q < |kept| ==> kept[p] < kept[q]
    requires c <= |kept|
    requires forall p :: 0 <= p < c ==> kept[p] < j
    requires forall p :: c <= p < |kept| ==> kept[p] >= j
    requires j in kept
    ensures c < |kept| && kept[c] == j
  {
    var w :| 0 <= w < |kept| && kept[w] == j;
    assert c <= w;
    assert j <= kept[c];
    assert kept[c] <= kept[w];
  }

  /** Equal suffixes agree on their first element and on what follows it. */
  lemma SuffixStep(s: seq<Ext>, t: seq<Ext>, j: nat, c: nat)
    requires j < |s| && c <= |t| && s[j..] == t[c..]
    ensures c < |t| && s[j] == t[c] && s[j + 1..] == t[c + 1..]
  {
    assert s[j..][0] == t[c..][0];
    assert s[j + 1..] == s[j..][1..];
    assert t[c + 1..] == t[c..][1..];
  }

  /** Python's `s.insert(j, x)` for j within the list. */
  lemma InsertAt(s: seq<Ext>, j: nat, x: Ext)
    requires j <= |s|
    ensures var t := s[..j] + [x] + s[j..];
      |t| == |s| + 1 && t[j] == x && t[j + 1..] == s[j..] && forall i :: 0 <= i < j ==> t[i] == s[i]
  {
    var t := s[..j] + [x] + s[j..];
    assert t[j + 1..] == s[j..];
  }

  /** `pareto` is the non-empty ascending list of the alternatives that pass
      the RSM thresholds. */
  ghost predicate KeptOf(D: Matrix, wmax: seq<bool>, refs: seq<CriterionRef>, pareto: seq<nat>)
    requires WellShaped(D) && |wmax| == |D| && |refs| == |D|
  {
    && |pareto| >= 1
    && (forall p :: 0 <= p < |pareto| ==> pareto[p] < |D[0]|)
    && (forall p, q :: 0 <= p < q < |pareto| ==> pareto[p] < pareto[q])
    && (forall i :: i in pareto <==> 0 <= i < |D[0]| && Passes(D, wmax, Thresholds(refs), i))
  }

  /** The first half of rsm(): reference values per criterion, then the
      non-domination filter (rsm.py:21-69). A constant column stops it with
      IndexError. */
  method Screen(D: Matrix, wmax: seq<bool>) returns (r: Result<(Points, seq<nat>)>)
    requires WellShaped(D) && |wmax| == |D|
    ensures r.Err? <==> exists j :: 0 <= j < |D| && Constant(D[j])
    ensures r.Err? ==> r.error == IndexOutOfRange
    ensures r.Ok? ==> PointsOf(D, wmax, r.value.0) && KeptOf(D, wmax, r.value.0.refs, r.value.1)
  {
    var refsR := DeriveAll(D, wmax);
    if refsR.Err? {
      return Err(refsR.error);
    }
    var R := refsR.value;
    var pts := ReferencePoints(D, wmax, R.refs);
    var pareto := Filter(D, wmax, Thresholds(R.refs));
    AspirationNonEmpty(D, wmax, R);
    var w :| w in R.aspiration;
    AspirationKept(D, wmax, R, w);
    assert w in pareto;
    r := Ok((pts, pareto));
  }

  /** rsm() gets past its normalisation: none of the three distance lists of
      the kept alternatives has maximum 0. */
  ghost predicate Scorable(D: Matrix, metric: Metric, Sqrt: real -> real,
                           Scipy: (Metric, seq<real>, seq<real>) -> real, pts: Points, pareto: seq<nat>)
    requires WellShaped(D)
    requires |pts.aspiration| == |D| && |pts.quoMedian| == |D| && |pts.quoMean| == |D|
    requires forall p :: 0 <= p < |pareto| ==> pareto[p] < |D[0]|
  {
    RetainedScores(
      Distances(Columns(D, pareto), pts.aspiration, metric, Sqrt, Scipy),
      Distances(Columns(D, pareto), pts.quoMean, metric, Sqrt, Scipy),
      Distances(Columns(D, pareto), pts.quoMedian, metric, Sqrt, Scipy)).Ok?
  }

  /** The score vector: the retained scores are what the metric's distances
      give, each in [-1,1], placed at the kept positions, and inf elsewhere. */
  ghost predicate ScoresOf(D: Matrix, metric: Metric, Sqrt: real -> real,
                           Scipy: (Metric, seq<real>, seq<real>) -> real,
                           pts: Points, pareto: seq<nat>, retained: seq<real>, score: seq<Ext>)
    requires WellShaped(D)
  {
    && |pts.aspiration| == |D| && |pts.quoMedian| == |D| && |pts.quoMean| == |D|
    && (forall p :: 0 <= p < |pareto| ==> pareto[p] < |D[0]|)
    && RetainedScores(
         Distances(Columns(D, pareto), pts.aspiration, metric, Sqrt, Scipy),
         Distances(Columns(D, pareto), pts.quoMean, metric, Sqrt, Scipy),
         Distances(Columns(D, pareto), pts.quoMedian, metric, Sqrt, Scipy)) == Ok(retained)
    && |score| == |D[0]| && |retained| == |pareto|
    && (forall i :: 0 <= i < |D[0]| ==> (score[i] == Inf <==> i !in pareto))
    && (forall p :: 0 <= p < |pareto| ==> score[pareto[p]] == Fin(retained[p]))
    && (forall p :: 0 <= p < |pareto| ==> -1.0 <= retained[p] <= 1.0)
  }

  /** The second half of rsm(): distances of the kept alternatives from the
      three reference points, their normalisation and combination, and the
      full-length score with inf at dominated positions (rsm.py:80-185). */
  method Score(D: Matrix, pts: Points, pareto: seq<nat>, metricName: string,
               Sqrt: real -> real, Scipy: (Metric, seq<real>, seq<real>) -> real)
    returns (r: Result<(seq<real>, seq<Ext>)>)
    requires WellShaped(D)
    requires |pts.aspiration| == |D| && |pts.quoMedian| == |D| && |pts.quoMean| == |D|
    requires |pareto| >= 1 && forall p :: 0 <= p < |pareto| ==> pareto[p] < |D[0]|
    requires forall p, q :: 0 <= p < q < |pareto| ==> pareto[p] < pareto[q]
    requires SqrtSpec(Sqrt) && ScipyNonneg(Scipy)
    ensures ParseMetric(metricName).None? ==> r == Err(UnboundLocal)
    ensures ParseMetric(metricName).Some? ==>
      (r.Ok? <==> Scorable(D, ParseMetric(metricName).value, Sqrt, Scipy, pts, pareto))
    ensures r.Err? ==> r.error in {UnboundLocal, DivisionByZero}
    ensures r.Ok? ==>
      && ParseMetric(metricName).Some?
      && ScoresOf(D, ParseMetric(metricName).value, Sqrt, Scipy, pts, pareto, r.value.0, r.value.1)
  {
    var data := Select(D, pareto);
    var parsed := ParseMetric(metricName);
    if parsed.None? {
      return Err(UnboundLocal);
    }
    var metric := parsed.value;
    var scores := KeptScores(data, pts.aspiration, pts.quoMean, pts.quoMedian, metric, Sqrt, Scipy);
    if scores.Err? {
      return Err(scores.error);
    }
    var retained := scores.value;
    var score := InsertDominated(retained, pareto, |D[0]|);
    r := Ok((retained, score));
  }

  /** What rsm() returns (score, aspiration_value, anti_ideal_point,
      quo_point_median, quo_point_mean), with the retained positions
      (`pareto`) and their scores. */
  datatype RsmOutcome = RsmOutcome(score: seq<Ext>, points: Points, pareto: seq<nat>, retained: seq<real>)

  /** rsm(D, W_max, metric). The ghost results are the reference points and
      the kept list rsm() computes on its way; they are what the matrix
      determines (RsmInputsUnique), so success is a condition on D alone. */
  method Rsm(D: Matrix, wmax: seq<bool>, metricName: string,
             Sqrt: real -> real, Scipy: (Metric, seq<real>, seq<real>) -> real)
    returns (r: Result<RsmOutcome>, ghost pts: Points, ghost pareto: seq<nat>)
    requires WellShaped(D) && |wmax| == |D|
    requires SqrtSpec(Sqrt) && ScipyNonneg(Scipy)
    ensures (exists j :: 0 <= j < |D| && Constant(D[j])) ==> r == Err(IndexOutOfRange)
    ensures (forall j :: 0 <= j < |D| ==> !Constant(D[j])) ==>
      && PointsOf(D, wmax, pts) && KeptOf(D, wmax, pts.refs, pareto)
      && (ParseMetric(metricName).None? ==> r == Err(UnboundLocal))
      && (ParseMetric(metricName).Some? ==>
            (r.Ok? <==> Scorable(D, ParseMetric(metricName).value, Sqrt, Scipy, pts, pareto)))
    ensures r.Err? ==> r.error in {IndexOutOfRange, UnboundLocal, DivisionByZero}
    ensures r.Ok? ==> r.value.points == pts && r.value.pareto == pareto
    ensures r.Ok? ==> PointsOf(D, wmax, r.value.points) && KeptOf(D, wmax, r.value.points.refs, r.value.pareto)
    ensures r.Ok? ==>
      && ParseMetric(metricName).Some?
      && ScoresOf(D, ParseMetric(metricName).value, Sqrt, Scipy, r.value.points, r.value.pareto, r.value.retained, r.value.score)
  {
    pts, pareto := Points([], [], [], [], []), [];
    var screened := Screen(D, wmax);
    if screened.Err? {
      r := Err(screened.error);
      return;
    }
    var (points, kept) := screened.value;
    pts, pareto := points, kept;
    var scored := Score(D, points, kept, metricName, Sqrt, Scipy);
    if scored.Err? {
      r := Err(scored.error);
      return;
    }
    var (retained, score) := scored.value;
    r := Ok(RsmOutcome(score, points, kept, retained));
  }

  /** The reference points and the kept list are determined by the matrix:
      any two that satisfy rsm()'s contract give the same distances, so the
      same success condition. */
  lemma RsmInputsUnique(D: Matrix, wmax: seq<bool>, metric: Metric, Sqrt: real -> real,
                        Scipy: (Metric, seq<real>, seq<real>) -> real,
                        pts1: Points, pareto1: seq<nat>, pts2: Points, pareto2: seq<nat>)
    requires WellShaped(D) && |wmax| == |D|
    requires PointsOf(D, wmax, pts1) && KeptOf(D, wmax, pts1.refs, pareto1)
    requires PointsOf(D, wmax, pts2) && KeptOf(D, wmax, pts2.refs, pareto2)
    ensures pts1.aspiration == pts2.aspiration && pts1.quoMean == pts2.quoMean && pts1.quoMedian == pts2.quoMedian
    ensures pareto1 == pareto2
    ensures Scorable(D, metric, Sqrt, Scipy, pts1, pareto1) <==> Scorable(D, metric, Sqrt, Scipy, pts2, pareto2)
  {
    PointsUnique(D, wmax, pts1, pts2);
    assert Thresholds(pts1.refs) == Thresholds(pts2.refs);
    AscendingUnique(pareto1, pareto2);
  }

  /** With the Default (Euclidean) metric, one distance list normalises
      exactly when some kept alternative is not at its reference point. */
  lemma DefaultNormalizes(D: Matrix, pareto: seq<nat>, ref: seq<real>, Sqrt: real -> real,
                          Scipy: (Metric, seq<real>, seq<real>) -> real)
    requires WellShaped(D) && |ref| == |D| && SqrtSpec(Sqrt)
    requires |pareto| >= 1 && forall p :: 0 <= p < |pareto| ==> pareto[p] < |D[0]|
    ensures Normalize(Distances(Columns(D, pareto), ref, Default, Sqrt, Scipy)).Ok? <==>
      exists p :: 0 <= p < |pareto| && Column(D, pareto[p]) != ref
  {
    var data := Columns(D, pareto);
    var d := Distances(data, ref, Default, Sqrt, Scipy);
    forall k | 0 <= k < |d| ensures d[k] >= 0.0 && (d[k] == 0.0 <==> Column(D, pareto[k]) == ref) {
      var c := Column(data, k);
      assert d[k] == Sqrt(SqDist(c, ref));
      SqDistZeroIff(c, ref, |c|);
      assert (forall q :: 0 <= q < |c| ==> c[q] == ref[q]) <==> c == ref;
    }
    MaxZeroIff(d);
  }

  /** With the Default metric rsm() succeeds exactly when, for each of the
      aspiration, quo-mean and quo-median points, some kept alternative lies
      away from it; otherwise `elem / max(...)` divides by zero. */
  lemma DefaultScorable(D: Matrix, Sqrt: real -> real, Scipy: (Metric, seq<real>, seq<real>) -> real,
                        pts: Points, pareto: seq<nat>)
    requires WellShaped(D) && SqrtSpec(Sqrt)
    requires |pts.aspiration| == |D| && |pts.quoMedian| == |D| && |pts.quoMean| == |D|
    requires |pareto| >= 1 && forall p :: 0 <= p < |pareto| ==> pareto[p] < |D[0]|
    ensures Scorable(D, Default, Sqrt, Scipy, pts, pareto) <==>
      && (exists p :: 0 <= p < |pareto| && Column(D, pareto[p]) != pts.aspiration)
      && (exists p :: 0 <= p < |pareto| && Column(D, pareto[p]) != pts.quoMean)
      && (exists p :: 0 <= p < |pareto| && Column(D, pareto[p]) != pts.quoMedian)
  {
    DefaultNormalizes(D, pareto, pts.aspiration, Sqrt, Scipy);
    DefaultNormalizes(D, pareto, pts.quoMean, Sqrt, Scipy);
    DefaultNormalizes(D, pareto, pts.quoMedian, Sqrt, Scipy);
  }

  /** compute_rsm's ranking: (name, score) pairs sorted by ascending score,
      stably (rsm.py:217-221). Every dominated alternative (score inf) is
      ranked after every retained one. */
  method RankRsm(names: seq<string>, score: seq<Ext>) returns (rank: seq<Entry>)
    requires |names| == |score|
    ensures |rank| == |score|
    ensures exists order ::
      IsStableOrder(score, false, order) &&
      forall p :: 0 <= p < |rank| ==> rank[p] == Entry(names[order[p]], score[order[p]])
    ensures forall p, q :: 0 <= p < q < |rank| && rank[p].score == Inf ==> rank[q].score == Inf
  {
    var order;
    rank, order := Rank(names, score, false);
    forall p, q | 0 <= p < q < |rank| && rank[p].score == Inf
      ensures rank[q].score == Inf
    {
      InfLast(score, order, p, q);
    }
  }
}
