/**
 * Real-number stand-ins for the C# double arithmetic of the pipeline: finite sums in loop order,
 * pointwise vector operations, a value that may have become infinite or NaN, truncated remainder,
 * banker's rounding, and the transcendental functions the code calls (passed in as parameters).
 */
module Numerics {

  /** Math.Tanh: any function with values strictly inside (-1, 1). */
  type TanhFn = f: real -> real | forall x :: -1.0 < f(x) < 1.0 witness (x: real) => 0.0

  /** Math.Sqrt: any function with nonnegative values (Math.Sqrt never returns a negative number). */
  type SqrtFn = f: real -> real | forall x :: 0.0 <= f(x) witness (x: real) => 0.0

  /** Math.Log on positive arguments: any function (no property of it is needed). */
  type LnFn = real -> real

  // ---------------------------------------------------------------------------------------------
  // Sums, accumulated front to back as the C# loops do

  function Sum(s: seq<real>): real
  {
    if |s| == 0 then 0.0 else Sum(s[..|s| - 1]) + s[|s| - 1]
  }

  lemma SumSnoc(s: seq<real>, x: real)
    ensures Sum(s + [x]) == Sum(s) + x
  {
    assert (s + [x])[..|s|] == s;
  }

  /** One more element: the prefix of length k + 1 adds s[k]. */
  lemma SumPrefixStep(s: seq<real>, k: nat)
    requires k < |s|
    ensures Sum(s[..k + 1]) == Sum(s[..k]) + s[k]
  {
    assert s[..k + 1][..k] == s[..k];
  }

  lemma {:induction false} SumConcat(a: seq<real>, b: seq<real>)
    ensures Sum(a + b) == Sum(a) + Sum(b)
    decreases |b|
  {
    if |b| == 0 {
      assert a + b == a;
    } else {
      var b' := b[..|b| - 1];
      var x := b[|b| - 1];
      assert a + b == (a + b') + [x];
      assert b == b' + [x];
      SumSnoc(a + b', x);
      SumSnoc(b', x);
      SumConcat(a, b');
    }
  }

  function Add(a: seq<real>, b: seq<real>): seq<real>
    requires |a| == |b|
  {
    seq(|a|, i requires 0 <= i < |a| => a[i] + b[i])
  }

  function Scale(c: real, a: seq<real>): seq<real>
  {
    seq(|a|, i requires 0 <= i < |a| => c * a[i])
  }

  function Mul(a: seq<real>, b: seq<real>): seq<real>
    requires |a| == |b|
  {
    seq(|a|, i requires 0 <= i < |a| => a[i] * b[i])
  }

  function Zeros(n: nat): seq<real>
  {
    seq(n, i => 0.0)
  }

  /** The inner product, accumulated in index order as `y += a[j] * b[j]`. */
  function Dot(a: seq<real>, b: seq<real>): real
    requires |a| == |b|
  {
    Sum(Mul(a, b))
  }

  lemma {:induction false} SumAdd(a: seq<real>, b: seq<real>)
    requires |a| == |b|
    ensures Sum(Add(a, b)) == Sum(a) + Sum(b)
    decreases |a|
  {
    if |a| > 0 {
      var n := |a| - 1;
      assert Add(a, b)[..n] == Add(a[..n], b[..n]);
      SumAdd(a[..n], b[..n]);
    }
  }

  lemma {:induction false} SumScale(c: real, a: seq<real>)
    ensures Sum(Scale(c, a)) == c * Sum(a)
    decreases |a|
  {
    if |a| > 0 {
      var n := |a| - 1;
      forall i | 0 <= i < n ensures Scale(c, a)[..n][i] == Scale(c, a[..n])[i] {
      }
      assert Scale(c, a)[..n] == Scale(c, a[..n]);
      SumScale(c, a[..n]);
    }
  }

  lemma {:induction false} SumNonnegative(a: seq<real>)
    requires forall i :: 0 <= i < |a| ==> 0.0 <= a[i]
    ensures 0.0 <= Sum(a)
    decreases |a|
  {
    if |a| > 0 {
      SumNonnegative(a[..|a| - 1]);
    }
  }

  lemma {:induction false} SumOfZeros(a: seq<real>)
    requires forall i :: 0 <= i < |a| ==> a[i] == 0.0
    ensures Sum(a) == 0.0
    decreases |a|
  {
    if |a| > 0 {
      SumOfZeros(a[..|a| - 1]);
    }
  }

  /** Reordering the terms does not change a sum. */
  lemma {:induction false} SumPermutation(a: seq<real>, b: seq<real>)
    requires multiset(a) == multiset(b)
    ensures Sum(a) == Sum(b)
    decreases |a|
  {
    if |a| == 0 {
      assert |b| == |multiset(b)| == 0;
    } else {
      var n := |a| - 1;
      var x := a[n];
      assert a == a[..n] + [x];
      assert x in multiset(b);
      var j :| 0 <= j < |b| && b[j] == x;
      var rest := b[..j] + b[j + 1..];
      assert b == b[..j] + [x] + b[j + 1..];
      calc {
        multiset(b);
        multiset(b[..j] + [x] + b[j + 1..]);
        multiset(b[..j]) + multiset{x} + multiset(b[j + 1..]);
        multiset(rest) + multiset{x};
      }
      assert multiset(a) == multiset(a[..n]) + multiset{x};
      forall y ensures multiset(a[..n])[y] == multiset(rest)[y] {
        assert (multiset(a[..n]) + multiset{x})[y] == (multiset(rest) + multiset{x})[y];
      }
      assert multiset(a[..n]) == multiset(rest);
      SumPermutation(a[..n], rest);
      SumConcat(b[..j] + [x], b[j + 1..]);
      SumSnoc(b[..j], x);
      SumConcat(b[..j], b[j + 1..]);
    }
  }

  lemma DotSelf(a: seq<real>)
    ensures 0.0 <= Dot(a, a)
  {
    forall i | 0 <= i < |a| ensures 0.0 <= Mul(a, a)[i] {
      assert Mul(a, a)[i] == a[i] * a[i];
    }
    SumNonnegative(Mul(a, a));
  }

  lemma DotPrefixStep(a: seq<real>, b: seq<real>, k: nat)
    requires |a| == |b| && k < |a|
    ensures Dot(a[..k + 1], b[..k + 1]) == Dot(a[..k], b[..k]) + a[k] * b[k]
  {
    var whole := Mul(a[..k + 1], b[..k + 1]);
    var split := Mul(a[..k], b[..k]) + [a[k] * b[k]];
    forall i | 0 <= i < k + 1 ensures whole[i] == split[i] {
    }
    assert whole == split;
    SumSnoc(Mul(a[..k], b[..k]), a[k] * b[k]);
  }

  // ---------------------------------------------------------------------------------------------
  // Double sums over a rectangular table

  ghost predicate Rectangular(t: seq<seq<real>>, width: nat)
  {
    forall i :: 0 <= i < |t| ==> |t[i]| == width
  }

  function RowSums(t: seq<seq<real>>): seq<real>
  {
    seq(|t|, i requires 0 <= i < |t| => Sum(t[i]))
  }

  function Column(t: seq<seq<real>>, j: nat): seq<real>
  {
    seq(|t|, i requires 0 <= i < |t| => if j < |t[i]| then t[i][j] else 0.0)
  }

  function ColumnSums(t: seq<seq<real>>, width: nat): seq<real>
  {
    seq(width, j requires 0 <= j < width => Sum(Column(t, j)))
  }

  /** Summing a table row by row or column by column gives the same total. */
  lemma {:induction false} SumSwap(t: seq<seq<real>>, width: nat)
    requires Rectangular(t, width)
    ensures Sum(RowSums(t)) == Sum(ColumnSums(t, width))
    decreases |t|
  {
    if |t| == 0 {
      SumOfZeros(ColumnSums(t, width));
    } else {
      var n := |t| - 1;
      var t' := t[..n];
      SumSwap(t', width);
      assert RowSums(t) == RowSums(t') + [Sum(t[n])];
      SumSnoc(RowSums(t'), Sum(t[n]));
      forall j | 0 <= j < width
        ensures ColumnSums(t, width)[j] == Add(ColumnSums(t', width), t[n])[j]
      {
        assert Column(t, j) == Column(t', j) + [t[n][j]];
        SumSnoc(Column(t', j), t[n][j]);
      }
      assert ColumnSums(t, width) == Add(ColumnSums(t', width), t[n]);
      SumAdd(ColumnSums(t', width), t[n]);
    }
  }

  // ---------------------------------------------------------------------------------------------
  // Squared deviations, the body of every variance the pipeline computes

  /** (w[k] - m)^2 for every k. */
  function SquaredDeviations(w: seq<real>, m: real): (s: seq<real>)
    ensures |s| == |w|
  {
    seq(|w|, k requires 0 <= k < |w| => (w[k] - m) * (w[k] - m))
  }

  /** Entry k of the squared deviations, for a difference computed elsewhere. */
  lemma DeviationAt(w: seq<real>, m: real, k: nat, diff: real)
    requires k < |w| && diff == w[k] - m
    ensures SquaredDeviations(w, m)[k] == diff * diff
  {
  }

  lemma SquareNonnegative(d: real)
    ensures 0.0 <= d * d
  {
  }

  /** A sum of n copies of a. */
  lemma {:induction false} SumConstant(w: seq<real>, a: real)
    requires forall k :: 0 <= k < |w| ==> w[k] == a
    ensures Sum(w) == |w| as real * a
    decreases |w|
  {
    if |w| > 0 {
      SumConstant(w[..|w| - 1], a);
    }
  }

  // ---------------------------------------------------------------------------------------------
  // IEEE doubles that may have left the reals

  /**
   * A double that is either a finite real or has become infinite or NaN. The model does not
   * distinguish +Infinity, -Infinity and NaN: each only propagates.
   */
  datatype Double = Finite(value: real) | NonFinite {
    /** `x += r` */
    function Plus(r: real): Double
    {
      if Finite? then Finite(value + r) else NonFinite
    }
    /** `x /= d`: dividing by zero leaves the reals (+-Infinity or NaN) */
    function Over(d: real): Double
    {
      if Finite? && d != 0.0 then Finite(value / d) else NonFinite
    }
    /** `Math.Log(x)`: only a positive finite argument has a finite logarithm */
    function Log(ln: LnFn): Double
    {
      if Finite? && 0.0 < value then Finite(ln(value)) else NonFinite
    }
  }

  // ---------------------------------------------------------------------------------------------
  // Integer-valued helpers for C# semantics

  /** Truncation toward zero, as a C# cast from floating point to int. */
  function Truncate(r: real): (n: int)
    ensures 0.0 <= r ==> 0 <= n && n as real <= r < n as real + 1.0
    ensures r < 0.0 ==> n <= 0 && n as real - 1.0 < r <= n as real
  {
    if 0.0 <= r then r.Floor else -((-r).Floor)
  }

  /** The C# floating-point remainder `x % 360` (truncated quotient, sign of the dividend). */
  function Mod360(x: real): (r: real)
    ensures -360.0 < r < 360.0
    ensures 0.0 <= x ==> 0.0 <= r
    ensures x <= 0.0 ==> r <= 0.0
    ensures x == r + (Truncate(x / 360.0) as real) * 360.0
  {
    x - (Truncate(x / 360.0) as real) * 360.0
  }

  /** Math.Round(double): round to nearest, ties to even. */
  function RoundHalfEven(r: real): (n: int)
    ensures r - 0.5 <= n as real <= r + 0.5
    ensures n as real == r - 0.5 || n as real == r + 0.5 ==> n % 2 == 0
  {
    var f := r.Floor;
    var frac := r - f as real;
    if frac < 0.5 then f
    else if 0.5 < frac then f + 1
    else if f % 2 == 0 then f
    else f + 1
  }

  function Min(a: real, b: real): real { if a <= b then a else b }

  function Max(a: real, b: real): real { if a >= b then a else b }

  function Abs(a: real): real { if a < 0.0 then -a else a }

  /** A product of two nonnegative reals is nonnegative. */
  lemma NonnegativeProduct(a: real, b: real)
    requires 0.0 <= a && 0.0 <= b
    ensures 0.0 <= a * b
  {
  }
}
