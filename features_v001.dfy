/**
 * The first feature extraction (Features of ESN_v_001): only the variance, and a `tvar` that divides
 * both the mean and the sum of squared deviations by n - 1, where n = hi - lo is the window length.
 */
module FeaturesV001 {
  import opened Numerics
  import opened Grids
  import Features

  /** `mean /= N` with N = hi - lo - 1: a one-row window divides by zero (the mean is then unused, see Feature). */
  function Mean(w: seq<real>, divisor: int): real
  {
    if divisor == 0 then 0.0 else Sum(w) / divisor as real
  }

  /**
   * One slot after `tvar`, with divisor = hi - lo - 1. When the divisor is 0 the C# mean is not
   * finite, and so is every deviation; the final division by 0 leaves the slot non-finite in any case.
   */
  function Feature(slot: Double, w: seq<real>, divisor: int): Double
  {
    slot.Plus(Sum(SquaredDeviations(w, Mean(w, divisor)))).Over(divisor as real)
  }

  /** The vector after the channel loop of `tvar` has run over channels 0 .. n - 1. */
  function Slots(rows: seq<seq<real>>, lo: int, hi: int, F: int, f: int, x: seq<Double>, n: nat): (y: seq<Double>)
    requires Features.InRange(rows, lo, hi, n) && Features.SlotsFit(x, F, f, n)
    ensures |y| == |x|
  {
    if n == 0 then x
    else
      var y := Slots(rows, lo, hi, F, f, x, n - 1);
      var s := f + (n - 1) * F;
      y[s := Feature(y[s], Features.Window(rows, lo, hi, n - 1), hi - lo - 1)]
  }

  /** One more channel: slot f + c * F takes the `tvar` of channel c, computed from what it held. */
  lemma SlotsNext(rows: seq<seq<real>>, lo: int, hi: int, F: int, f: int, x: seq<Double>, n: nat, c: nat)
    requires Features.InRange(rows, lo, hi, n) && Features.SlotsFit(x, F, f, n) && c < n
    ensures Features.InRange(rows, lo, hi, c) && Features.SlotsFit(x, F, f, c)
    ensures Features.InRange(rows, lo, hi, c + 1) && Features.SlotsFit(x, F, f, c + 1)
    ensures 0 <= f + c * F < |x|
    ensures Slots(rows, lo, hi, F, f, x, c + 1)
         == Slots(rows, lo, hi, F, f, x, c)[f + c * F :=
              Feature(Slots(rows, lo, hi, F, f, x, c)[f + c * F], Features.Window(rows, lo, hi, c), hi - lo - 1)]
  {
    assert c + 1 - 1 == c;
  }

  /** Only the slots f + c * F are written. */
  lemma {:induction false} SlotsUnchanged(rows: seq<seq<real>>, lo: int, hi: int, F: int, f: int,
                                          x: seq<Double>, n: nat, j: int)
    requires Features.InRange(rows, lo, hi, n) && Features.SlotsFit(x, F, f, n)
    requires 0 <= j < |x| && forall c :: 0 <= c < n ==> j != f + c * F
    ensures Slots(rows, lo, hi, F, f, x, n)[j] == x[j]
  {
    if n > 0 {
      SlotsUnchanged(rows, lo, hi, F, f, x, n - 1, j);
    }
  }

  /** With one slot per channel (F = 1, f = 0), entry c is the feature of channel c. */
  lemma {:induction false} SlotsPerChannel(rows: seq<seq<real>>, lo: int, hi: int, x: seq<Double>, n: nat, c: nat)
    requires Features.InRange(rows, lo, hi, n) && Features.SlotsFit(x, 1, 0, n) && c < n
    ensures Slots(rows, lo, hi, 1, 0, x, n)[c] == Feature(x[c], Features.Window(rows, lo, hi, c), hi - lo - 1)
  {
    if c < n - 1 {
      SlotsPerChannel(rows, lo, hi, x, n - 1, c);
    } else {
      assert forall c' :: 0 <= c' < n - 1 ==> c != 0 + c' * 1;
      assert 0 <= 0 + c * 1 < |x|;
      SlotsUnchanged(rows, lo, hi, 1, 0, x, n - 1, c);
    }
  }

  /**
   * Dividing the mean by n - 1 makes this no sample variance: a window of two rows equal to 1 has
   * variance 0, but `tvar` 2.
   */
  lemma NotSampleVariance(ln: LnFn, a: real)
    requires a == 1.0
    ensures Feature(Finite(0.0), [a, a], 1) == Finite(2.0)
    ensures Features.Feature(Features.Variance, ln, Finite(0.0), [a, a], 2) == Finite(0.0)
  {
    TVarOfEqualPair(a);
    VarianceOfEqualPair(ln, a);
  }

  /** Two equal rows a give `tvar` 2 a^2. */
  lemma TVarOfEqualPair(a: real)
    ensures Feature(Finite(0.0), [a, a], 1) == Finite(2.0 * a * a)
  {
    var w := [a, a];
    SumOfTwo(a, a);
    assert Mean(w, 1) == 2.0 * a;
    var devs := SquaredDeviations(w, 2.0 * a);
    var d := -a;
    DeviationAt(w, 2.0 * a, 0, d);
    DeviationAt(w, 2.0 * a, 1, d);
    assert devs == [d * d, d * d];
    SumOfTwo(d * d, d * d);
    TwiceNegatedSquare(a, d);
  }

  lemma TwiceNegatedSquare(a: real, d: real)
    requires d == -a
    ensures d * d + d * d == 2.0 * a * a
  {
  }

  /** Two equal rows have variance 0. */
  lemma VarianceOfEqualPair(ln: LnFn, a: real)
    ensures Features.Feature(Features.Variance, ln, Finite(0.0), [a, a], 2) == Finite(0.0)
  {
    var w := [a, a];
    SumOfTwo(a, a);
    assert Features.Mean(w) == a;
    var zeros := SquaredDeviations(w, a);
    DeviationAt(w, a, 0, 0.0);
    DeviationAt(w, a, 1, 0.0);
    assert zeros == [0.0, 0.0];
    SumOfTwo(0.0, 0.0);
  }

  lemma SumOfTwo(a: real, b: real)
    ensures Sum([a, b]) == a + b
  {
    SumSnoc([], a);
    SumSnoc([a], b);
    assert [a] == [] + [a] && [a, b] == [a] + [b];
  }

  /** A one-row window divides by zero: the feature is not a finite number. */
  lemma OneRowWindow(slot: Double, w: seq<real>)
    requires |w| == 1
    ensures Feature(slot, w, |w| - 1) == NonFinite
  {
  }

  /** The feature vector of one window: fresh zero slots, F = 1, f = 0. */
  function WindowFeatures(rows: seq<seq<real>>, C: nat, lo: int, hi: int): (x: seq<Double>)
    requires Features.InRange(rows, lo, hi, C)
    ensures |x| == C
  {
    Slots(rows, lo, hi, 1, 0, seq(C, c => Finite(0.0)), C)
  }

  /** Entry c of a window's feature vector is the `tvar` of channel c over that window. */
  lemma WindowFeaturesEntry(rows: seq<seq<real>>, C: nat, lo: int, hi: int, c: nat)
    requires Features.InRange(rows, lo, hi, C) && c < C
    ensures WindowFeatures(rows, C, lo, hi)[c]
         == Feature(Finite(0.0), Features.Window(rows, lo, hi, c), hi - lo - 1)
  {
    SlotsPerChannel(rows, lo, hi, seq(C, c => Finite(0.0)), C, c);
  }

  // ---------------------------------------------------------------------------------------------
  // The C# methods

  /** `tvar(raw, lo, hi, F, f, x)` */
  method TVar(raw: array2<real>, lo: int, hi: int, F: int, f: int, x: array<Double>)
    requires Features.InRange(Rows(raw), lo, hi, raw.Length1) && Features.SlotsFit(x[..], F, f, raw.Length1)
    modifies x
    ensures x[..] == Slots(Rows(raw), lo, hi, F, f, old(x[..]), raw.Length1)
  {
    ghost var rows, x0 := Rows(raw), x[..];
    var c := 0;
    while c < raw.Length1
      invariant 0 <= c <= raw.Length1
      invariant x[..] == Slots(rows, lo, hi, F, f, x0, c)
      invariant Rows(raw) == rows
    {
      SlotsNext(rows, lo, hi, F, f, x0, raw.Length1, c);
      ghost var before := x[..];
      var s := f + c * F;
      Channel(raw, lo, hi, c, s, x);
      assert x[..] == before[s := Feature(before[s], Features.Window(rows, lo, hi, c), hi - lo - 1)];
      c := c + 1;
    }
  }

  /** One pass of the channel loop of `tvar`. */
  method Channel(raw: array2<real>, lo: int, hi: int, c: nat, s: int, x: array<Double>)
    requires c < raw.Length1 && Features.InRange(Rows(raw), lo, hi, c + 1) && 0 <= s < x.Length
    modifies x
    ensures x[..] == old(x[..])[s := Feature(old(x[s]), Features.Window(Rows(raw), lo, hi, c), hi - lo - 1)]
  {
    var N := hi - lo - 1;
    var mean := Features.WindowSum(raw, lo, hi, c);
    if N != 0 {
      mean := mean / N as real;
    }
    Features.AddSquaredDeviations(raw, lo, hi, c, mean, s, x);
    x[s] := x[s].Over(N as real);
  }

  /**
   * `extractFeatures(raw_data, W, O)`: one variance vector per window, ceil(N / W) of them.
   * A window step W <= 0 never ends the loop on nonempty data and is excluded.
   */
  method ExtractWindowed(raw: array2<real>, W: int, O: int) returns (X: seq<seq<Double>>)
    requires 0 < W || raw.Length0 == 0
    ensures 0 < W ==> |X| == Features.CeilDiv(raw.Length0, W)
    ensures raw.Length0 == 0 ==> X == []
    ensures forall k :: 0 <= k < |X| ==>
              var lo := Features.WindowStart(k, W, O);
              var hi := Features.WindowEnd(k, W, O, raw.Length0);
              Features.InRange(Rows(raw), lo, hi, raw.Length1)
              && X[k] == WindowFeatures(Rows(raw), raw.Length1, lo, hi)
  {
    var N := raw.Length0;
    var C := raw.Length1;
    ghost var rows := Rows(raw);
    X := [];
    var i := 0;
    while i < N
      invariant 0 < W || N == 0
      invariant N == 0 ==> X == []
      invariant i == |X| * W
      invariant 0 < W && 0 < |X| ==> (|X| - 1) * W < N
      invariant forall k :: 0 <= k < |X| ==>
                  var lo := Features.WindowStart(k, W, O);
                  var hi := Features.WindowEnd(k, W, O, N);
                  Features.InRange(rows, lo, hi, C) && X[k] == WindowFeatures(rows, C, lo, hi)
      invariant Rows(raw) == rows
      decreases N - i
    {
      var lo := Features.Max(0, i - O);
      var hi := Features.Min(N, i + W + O);
      assert lo == Features.WindowStart(|X|, W, O) && hi == Features.WindowEnd(|X|, W, O, N);
      var x := NewWindowVector(raw, lo, hi);
      Features.WindowStep(|X|, W, i, N);
      X := X + [x];
      i := i + W;
    }
    if 0 < W {
      Features.CeilDivIsFirstCover(N, W, |X|);
    }
  }

  /** The loop body of `extractFeatures`: `tvar` into a fresh zero vector. */
  method NewWindowVector(raw: array2<real>, lo: int, hi: int) returns (x: seq<Double>)
    requires 0 <= lo && hi <= raw.Length0
    ensures Features.InRange(Rows(raw), lo, hi, raw.Length1)
    ensures x == WindowFeatures(Rows(raw), raw.Length1, lo, hi)
  {
    var a := new Double[raw.Length1](c => Finite(0.0));
    assert a[..] == seq(raw.Length1, c => Finite(0.0));
    TVar(raw, lo, hi, 1, 0, a);
    x := a[..];
  }
}
