/** Values, errors and vector arithmetic shared by the three ranking kernels. */
module Common {

  /** The Python exceptions the kernels raise on a well-shaped decision matrix. */
  datatype Error =
    | IndexOutOfRange   // IndexError: a list is read past its end
    | DivisionByZero    // ZeroDivisionError: a float divided by 0.0
    | UnboundLocal      // UnboundLocalError: a variable no branch assigned is read

  datatype Result<T> = Ok(value: T) | Err(error: Error)

  datatype Option<T> = None | Some(value: T)

  /** A Python float as the kernels use it: a finite value or float('inf'). */
  datatype Ext = Fin(val: real) | Inf

  /** Python's `a < b` on floats, with inf above every finite value. */
  predicate Below(a: Ext, b: Ext) {
    match a
    case Inf => false
    case Fin(x) => b.Inf? || x < b.val
  }

  /** Lifts a list of finite floats. */
  function Fins(s: seq<real>): (r: seq<Ext>)
    ensures |r| == |s| && forall k :: 0 <= k < |s| ==> r[k] == Fin(s[k])
  {
    seq(|s|, k requires 0 <= k < |s| => Fin(s[k]))
  }

  /** What the model assumes of math.sqrt on non-negative arguments. */
  ghost predicate SqrtSpec(Sqrt: real -> real) {
    forall x :: 0.0 <= x ==> 0.0 <= Sqrt(x) && (Sqrt(x) == 0.0 <==> x == 0.0)
  }

  /** A decision matrix, criterion-major: D[j][i] is alternative i on criterion j. */
  type Matrix = seq<seq<real>>

  /** At least one criterion and one alternative, every criterion row of the same length. */
  predicate WellShaped(D: Matrix) {
    |D| >= 1 && |D[0]| >= 1 && forall j :: 0 <= j < |D| ==> |D[j]| == |D[0]|
  }

  function Abs(x: real): real { if x < 0.0 then -x else x }
  function Max(a: real, b: real): real { if a < b then b else a }
  function Min(a: real, b: real): real { if b < a then b else a }

  /** x * y, kept behind a function so the solver treats the product of a value
      with itself like any other product. */
  function Times(x: real, y: real): real { x * y }

  lemma TimesPositive(x: real, y: real)
    requires x > 0.0 && y > 0.0
    ensures Times(x, y) > 0.0
  {
  }

  /** x ** 2: never negative, and zero only at zero. */
  function Square(x: real): (r: real)
    ensures r >= 0.0 && (r == 0.0 <==> x == 0.0)
  {
    var a := Abs(x);
    if a > 0.0 then TimesPositive(a, a); Times(a, a) else 0.0
  }

  /** Square is the ordinary product of a value with itself. */
  lemma SquareIsProduct(x: real)
    ensures Square(x) == x * x
  {
  }

  /** The largest of s[0..i]. */
  function MaxUpTo(s: seq<real>, i: nat): (r: real)
    requires 1 <= i <= |s|
    ensures forall k :: 0 <= k < i ==> s[k] <= r
    ensures exists k :: 0 <= k < i && r == s[k]
  {
    if i == 1 then s[0] else Max(MaxUpTo(s, i - 1), s[i - 1])
  }

  /** The smallest of s[0..i]. */
  function MinUpTo(s: seq<real>, i: nat): (r: real)
    requires 1 <= i <= |s|
    ensures forall k :: 0 <= k < i ==> r <= s[k]
    ensures exists k :: 0 <= k < i && r == s[k]
  {
    if i == 1 then s[0] else Min(MinUpTo(s, i - 1), s[i - 1])
  }

  /** Python's max(s) on a non-empty list. */
  function MaxOf(s: seq<real>): real
    requires |s| >= 1
  {
    MaxUpTo(s, |s|)
  }

  /** Python's min(s) on a non-empty list. */
  function MinOf(s: seq<real>): real
    requires |s| >= 1
  {
    MinUpTo(s, |s|)
  }

  /** s[0]**2 + ... + s[i-1]**2, accumulated left to right as the source's loops do. */
  function SumSquaresUpTo(s: seq<real>, i: nat): (r: real)
    requires i <= |s|
    ensures r >= 0.0
  {
    if i == 0 then 0.0 else SumSquaresUpTo(s, i - 1) + Square(s[i - 1])
  }

  /** Squared Euclidean distance between a[0..i] and b[0..i]. */
  function SqDistUpTo(a: seq<real>, b: seq<real>, i: nat): (r: real)
    requires i <= |a| && i <= |b|
    ensures r >= 0.0
  {
    if i == 0 then 0.0 else SqDistUpTo(a, b, i - 1) + Square(a[i - 1] - b[i - 1])
  }

  /** Squared Euclidean distance between two equal-length vectors. */
  function SqDist(a: seq<real>, b: seq<real>): real
    requires |a| == |b|
  {
    SqDistUpTo(a, b, |a|)
  }

  /** Column i of a criterion-major matrix: the vector of one alternative. */
  function Column(M: Matrix, i: nat): (r: seq<real>)
    requires forall j :: 0 <= j < |M| ==> i < |M[j]|
    ensures |r| == |M| && forall j :: 0 <= j < |M| ==> r[j] == M[j][i]
  {
    seq(|M|, j requires 0 <= j < |M| => M[j][i])
  }

  /** A squared distance vanishes exactly when the two vectors agree on every coordinate. */
  lemma {:induction false} SqDistZeroIff(a: seq<real>, b: seq<real>, i: nat)
    requires i <= |a| && i <= |b|
    ensures SqDistUpTo(a, b, i) == 0.0 <==> forall k :: 0 <= k < i ==> a[k] == b[k]
  {
    if i > 0 {
      SqDistZeroIff(a, b, i - 1);
    }
  }

  /** A sum of squares vanishes exactly when every summand is zero. */
  lemma {:induction false} SumSquaresZeroIff(s: seq<real>, i: nat)
    requires i <= |s|
    ensures SumSquaresUpTo(s, i) == 0.0 <==> forall k :: 0 <= k < i ==> s[k] == 0.0
  {
    if i > 0 {
      SumSquaresZeroIff(s, i - 1);
    }
  }

  /** A partial sum of squares never exceeds a longer one, and equals it exactly
      when the entries in between are all zero. */
  lemma {:induction false} SumSquaresPrefix(s: seq<real>, k: nat, i: nat)
    requires k <= i <= |s|
    ensures SumSquaresUpTo(s, k) <= SumSquaresUpTo(s, i)
    ensures SumSquaresUpTo(s, k) == SumSquaresUpTo(s, i) <==> forall q :: k <= q < i ==> s[q] == 0.0
  {
    if k < i {
      SumSquaresPrefix(s, k, i - 1);
    }
  }

  /** Max-normalisation `[e / max(d) for e in d]` (rsm.py:93). An empty list
      gives an empty list (max() is never called); a zero maximum raises
      ZeroDivisionError. */
  function Normalize(d: seq<real>): (r: Result<seq<real>>)
    ensures r.Err? <==> |d| >= 1 && MaxOf(d) == 0.0
    ensures r.Err? ==> r.error == DivisionByZero
    ensures r.Ok? ==> |r.value| == |d| && forall k :: 0 <= k < |d| ==> Times(r.value[k], MaxOf(d)) == d[k]
    ensures r.Ok? && (forall k :: 0 <= k < |d| ==> d[k] >= 0.0) ==>
      (forall k :: 0 <= k < |d| ==> 0.0 <= r.value[k] <= 1.0) &&
      (|d| >= 1 ==> exists k :: 0 <= k < |d| && r.value[k] == 1.0)
  {
    if |d| == 0 then Ok([])
    else
      var top := MaxOf(d);
      if top == 0.0 then Err(DivisionByZero)
      else
        var q := seq(|d|, k requires 0 <= k < |d| => d[k] / top);
        NormalizeBounds(d, top, q);
        Ok(q)
  }

  /** A list of non-negative values has maximum 0 exactly when every value is 0. */
  lemma MaxZeroIff(d: seq<real>)
    requires |d| >= 1 && forall k :: 0 <= k < |d| ==> d[k] >= 0.0
    ensures MaxOf(d) == 0.0 <==> forall k :: 0 <= k < |d| ==> d[k] == 0.0
  {
    var top := MaxOf(d);
    var w :| 0 <= w < |d| && top == d[w];
  }

  /** Dividing by the maximum of non-negative values lands in [0,1] and maps the maximum to 1. */
  lemma NormalizeBounds(d: seq<real>, top: real, q: seq<real>)
    requires |d| >= 1 && top == MaxOf(d) && top != 0.0
    requires |q| == |d| && forall k :: 0 <= k < |d| ==> q[k] == d[k] / top
    ensures forall k :: 0 <= k < |d| ==> Times(q[k], top) == d[k]
    ensures (forall k :: 0 <= k < |d| ==> d[k] >= 0.0) ==>
      (forall k :: 0 <= k < |d| ==> 0.0 <= q[k] <= 1.0) && (exists k :: 0 <= k < |d| && q[k] == 1.0)
  {
    forall k | 0 <= k < |d| ensures Times(q[k], top) == d[k] {
      DivTimes(d[k], top);
    }
    if forall k :: 0 <= k < |d| ==> d[k] >= 0.0 {
      var w :| 0 <= w < |d| && top == d[w];
      assert top > 0.0;
      forall k | 0 <= k < |d| ensures 0.0 <= q[k] <= 1.0 {
        DivUnit(d[k], top);
      }
      DivSelf(top);
      assert q[w] == 1.0;
    }
  }

  lemma DivTimes(x: real, y: real)
    requires y != 0.0
    ensures (x / y) * y == x
  {
  }

  lemma DivSelf(y: real)
    requires y != 0.0
    ensures y / y == 1.0
  {
  }

  lemma DivUnit(x: real, y: real)
    requires 0.0 <= x <= y && y > 0.0
    ensures 0.0 <= x / y <= 1.0
  {
  }
}
