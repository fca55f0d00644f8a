/**
 * EMG features (class Features): per-channel variance and log-variance of a window of rows, written
 * into slots f, f + F, ..., f + (C - 1) * F of a caller's vector, and the windowed extraction that
 * slides a window of W rows, widened by O rows on either side, over the raw data.
 */
module Features {
  import opened Numerics
  import opened Grids

  datatype Kind = Variance | LogVariance

  /** Channel c of rows [lo, hi), or nothing when the range is empty. */
  function Window(rows: seq<seq<real>>, lo: int, hi: int, c: nat): (w: seq<real>)
    requires InRange(rows, lo, hi, c + 1)
    ensures |w| == if lo < hi then hi - lo else 0
  {
    if lo < hi then seq(hi - lo, k requires 0 <= k < hi - lo => rows[lo + k][c]) else []
  }

  /** Rows [lo, hi) exist and have `cols` columns, unless the range is empty or there are no columns. */
  ghost predicate InRange(rows: seq<seq<real>>, lo: int, hi: int, cols: nat)
  {
    0 < cols && lo < hi ==> 0 <= lo && hi <= |rows| && forall i :: lo <= i < hi ==> cols <= |rows[i]|
  }

  /** `mean /= N`: an empty window leaves the mean unused. */
  function Mean(w: seq<real>): real
  {
    if |w| == 0 then 0.0 else Sum(w) / |w| as real
  }

  /**
   * One slot after `tvar` or `tlogvar` with n = hi - lo: the squared deviations are added to what
   * the slot held, the total is divided by n - 1, and `tlogvar` takes the logarithm.
   */
  function Feature(kind: Kind, ln: LnFn, slot: Double, w: seq<real>, n: int): Double
  {
    var v := slot.Plus(Sum(SquaredDeviations(w, Mean(w)))).Over((n - 1) as real);
    if kind == Variance then v else v.Log(ln)
  }

  ghost predicate SlotsFit(x: seq<Double>, F: int, f: int, channels: nat)
  {
    forall c :: 0 <= c < channels ==> 0 <= f + c * F < |x|
  }

  /** The vector after the channel loop has run over channels 0 .. n - 1. */
  function Slots(kind: Kind, ln: LnFn, rows: seq<seq<real>>, lo: int, hi: int, F: int, f: int,
                 x: seq<Double>, n: nat): (y: seq<Double>)
    requires InRange(rows, lo, hi, n) && SlotsFit(x, F, f, n)
    ensures |y| == |x|
  {
    if n == 0 then x
    else
      var y := Slots(kind, ln, rows, lo, hi, F, f, x, n - 1);
      var s := f + (n - 1) * F;
      y[s := Feature(kind, ln, y[s], Window(rows, lo, hi, n - 1), hi - lo)]
  }

  /** Only the slots f + c * F are written. */
  lemma {:induction false} SlotsUnchanged(kind: Kind, ln: LnFn, rows: seq<seq<real>>, lo: int, hi: int,
                                          F: int, f: int, x: seq<Double>, n: nat, j: int)
    requires InRange(rows, lo, hi, n) && SlotsFit(x, F, f, n)
    requires 0 <= j < |x| && forall c :: 0 <= c < n ==> j != f + c * F
    ensures Slots(kind, ln, rows, lo, hi, F, f, x, n)[j] == x[j]
  {
    if n > 0 {
      SlotsUnchanged(kind, ln, rows, lo, hi, F, f, x, n - 1, j);
    }
  }

  /** With distinct slots (F > 0), slot f + c * F holds the feature of channel c computed from its old value. */
  lemma {:induction false} SlotsDistinct(kind: Kind, ln: LnFn, rows: seq<seq<real>>, lo: int, hi: int,
                                         F: int, f: int, x: seq<Double>, n: nat, c: nat)
    requires InRange(rows, lo, hi, n) && SlotsFit(x, F, f, n)
    requires 0 < F && c < n
    ensures Slots(kind, ln, rows, lo, hi, F, f, x, n)[f + c * F]
         == Feature(kind, ln, x[f + c * F], Window(rows, lo, hi, c), hi - lo)
  {
    if c < n - 1 {
      assert (c + 1) * F == c * F + F;
      MulLe(c + 1, n - 1, F);
      SlotsDistinct(kind, ln, rows, lo, hi, F, f, x, n - 1, c);
    } else {
      forall c' | 0 <= c' < n - 1 ensures f + c * F != f + c' * F {
        assert (c' + 1) * F == c' * F + F;
        MulLe(c' + 1, c, F);
      }
      SlotsUnchanged(kind, ln, rows, lo, hi, F, f, x, n - 1, f + c * F);
    }
  }

  /** One more channel: slot f + c * F takes the feature of channel c, computed from what it held. */
  lemma SlotsNext(kind: Kind, ln: LnFn, rows: seq<seq<real>>, lo: int, hi: int, F: int, f: int,
                  x: seq<Double>, n: nat, c: nat)
    requires InRange(rows, lo, hi, n) && SlotsFit(x, F, f, n) && c < n
    ensures InRange(rows, lo, hi, c) && SlotsFit(x, F, f, c)
    ensures InRange(rows, lo, hi, c + 1) && SlotsFit(x, F, f, c + 1)
    ensures 0 <= f + c * F < |x|
    ensures Slots(kind, ln, rows, lo, hi, F, f, x, c + 1)
         == Slots(kind, ln, rows, lo, hi, F, f, x, c)[f + c * F :=
              Feature(kind, ln, Slots(kind, ln, rows, lo, hi, F, f, x, c)[f + c * F], Window(rows, lo, hi, c), hi - lo)]
  {
    assert c + 1 - 1 == c;
  }

  // ---------------------------------------------------------------------------------------------
  // What the features mean

  /**
   * `tvar` adds to the slot: the result is the unbiased sample variance exactly when the slot held 0.
   */
  lemma VarianceAddsToSlot(ln: LnFn, v: real, w: seq<real>)
    requires 2 <= |w|
    ensures Feature(Variance, ln, Finite(v), w, |w|)
         == Finite(v / (|w| - 1) as real + Sum(SquaredDeviations(w, Mean(w))) / (|w| - 1) as real)
    ensures (Feature(Variance, ln, Finite(v), w, |w|)
             == Finite(Sum(SquaredDeviations(w, Mean(w))) / (|w| - 1) as real)) <==> v == 0.0
  {
    var sd := Sum(SquaredDeviations(w, Mean(w)));
    var d := (|w| - 1) as real;
    assert (v + sd) / d == v / d + sd / d;
  }

  /** A window in which the channel is constant has log-variance ln 0: not a finite number. */
  lemma ConstantWindowLogVariance(ln: LnFn, w: seq<real>, a: real)
    requires 2 <= |w| && forall k :: 0 <= k < |w| ==> w[k] == a
    ensures Feature(LogVariance, ln, Finite(0.0), w, |w|) == NonFinite
  {
    SumConstant(w, a);
    assert Mean(w) == a;
    SumOfZeros(SquaredDeviations(w, a));
  }

  /** A window of one row divides by zero: the feature is not a finite number. */
  lemma OneRowWindow(kind: Kind, ln: LnFn, slot: Double, w: seq<real>)
    requires |w| == 1
    ensures Feature(kind, ln, slot, w, |w|) == NonFinite
  {
  }

  // ---------------------------------------------------------------------------------------------
  // Windows

  function Max(a: int, b: int): int { if a >= b then a else b }

  function Min(a: int, b: int): int { if a <= b then a else b }

  /** The first row of window k: the window starts at k * W, widened by O rows before. */
  function WindowStart(k: nat, W: int, O: int): int
  {
    Max(0, k * W - O)
  }

  /** One past the last row of window k: W rows from k * W, widened by O rows after. */
  function WindowEnd(k: nat, W: int, O: int, N: int): int
  {
    Min(N, k * W + W + O)
  }

  function CeilDiv(N: nat, W: nat): nat
    requires 0 < W
  {
    (N + W - 1) / W
  }

  /** The count in the comment, N / W + 1, is right exactly when W does not divide N. */
  lemma CountAgainstComment(N: nat, W: nat)
    requires 0 < W
    ensures CeilDiv(N, W) == N / W + 1 <==> N % W != 0
  {
    var q := N / W;
    var r := N % W;
    assert N == q * W + r;
    if r == 0 {
      assert N + W - 1 == q * W + (W - 1);
      DivisionOf(N + W - 1, W, q, W - 1);
    } else {
      assert N + W - 1 == (q + 1) * W + (r - 1);
      DivisionOf(N + W - 1, W, q + 1, r - 1);
    }
  }

  lemma {:induction false} MulLe(a: int, b: int, W: nat)
    requires a <= b
    ensures a * W <= b * W
    decreases b - a
  {
    if a < b {
      MulLe(a, b - 1, W);
      assert (b - 1) * W == b * W - W;
    }
  }

  /** Integer division has one answer: a == q * W + r with 0 <= r < W fixes a / W. */
  lemma DivisionOf(a: nat, W: nat, q: nat, r: nat)
    requires 0 < W && r < W && a == q * W + r
    ensures a / W == q
  {
    var q' := a / W;
    var r' := a % W;
    assert a == q' * W + r';
    if q' < q {
      assert (q' + 1) * W == q' * W + W;
      MulLe(q' + 1, q, W);
    } else if q < q' {
      assert (q + 1) * W == q * W + W;
      MulLe(q + 1, q', W);
    }
  }

  /** One step of the window loop: the start moves on by W, and the window just taken began before N. */
  lemma WindowStep(k: nat, W: int, i: int, N: int)
    requires 0 < W && i == k * W && i < N
    ensures i + W == (k + 1) * W
    ensures ((k + 1) - 1) * W < N
  {
  }

  /** The smallest k with k * W >= N is CeilDiv(N, W). */
  lemma CeilDivIsFirstCover(N: nat, W: nat, k: nat)
    requires 0 < W && N <= k * W && (k == 0 || (k - 1) * W < N)
    ensures k == CeilDiv(N, W)
  {
    if k == 0 {
      DivisionOf(N + W - 1, W, 0, W - 1);
    } else {
      var r := N + W - 1 - (k * W);
      assert (k - 1) * W == k * W - W;
      DivisionOf(N + W - 1, W, k, r);
    }
  }

  /** The feature vector of one window: fresh zero slots, F = 1, f = 0. */
  function WindowFeatures(kind: Kind, ln: LnFn, rows: seq<seq<real>>, C: nat, lo: int, hi: int): (x: seq<Double>)
    requires InRange(rows, lo, hi, C)
    ensures |x| == C
  {
    Slots(kind, ln, rows, lo, hi, 1, 0, seq(C, c => Finite(0.0)), C)
  }

  /** Entry c of a window's feature vector is the feature of channel c over that window. */
  lemma WindowFeaturesEntry(kind: Kind, ln: LnFn, rows: seq<seq<real>>, C: nat, lo: int, hi: int, c: nat)
    requires InRange(rows, lo, hi, C) && c < C
    ensures WindowFeatures(kind, ln, rows, C, lo, hi)[c]
         == Feature(kind, ln, Finite(0.0), Window(rows, lo, hi, c), hi - lo)
  {
    SlotsDistinct(kind, ln, rows, lo, hi, 1, 0, seq(C, c => Finite(0.0)), C, c);
  }

  // ---------------------------------------------------------------------------------------------
  // The C# methods

  /** The channel loop shared by `tvar` and `tlogvar`. */
  method Accumulate(kind: Kind, ln: LnFn, raw: array2<real>, lo: int, hi: int, F: int, f: int, x: array<Double>)
    requires InRange(Rows(raw), lo, hi, raw.Length1) && SlotsFit(x[..], F, f, raw.Length1)
    modifies x
    ensures x[..] == Slots(kind, ln, Rows(raw), lo, hi, F, f, old(x[..]), raw.Length1)
  {
    ghost var rows, x0 := Rows(raw), x[..];
    var c := 0;
    while c < raw.Length1
      invariant 0 <= c <= raw.Length1
      invariant x[..] == Slots(kind, ln, rows, lo, hi, F, f, x0, c)
      invariant Rows(raw) == rows
    {
      SlotsNext(kind, ln, rows, lo, hi, F, f, x0, raw.Length1, c);
      ghost var before := x[..];
      var s := f + c * F;
      Channel(kind, ln, raw, lo, hi, c, s, x);
      assert x[..] == before[s := Feature(kind, ln, before[s], Window(rows, lo, hi, c), hi - lo)];
      c := c + 1;
    }
  }

  /** One pass of the channel loop: the mean of channel c, then its squared deviations into slot s. */
  method Channel(kind: Kind, ln: LnFn, raw: array2<real>, lo: int, hi: int, c: nat, s: int, x: array<Double>)
    requires c < raw.Length1 && InRange(Rows(raw), lo, hi, c + 1) && 0 <= s < x.Length
    modifies x
    ensures x[..] == old(x[..])[s := Feature(kind, ln, old(x[s]), Window(Rows(raw), lo, hi, c), hi - lo)]
  {
    var mean := WindowSum(raw, lo, hi, c);
    if hi - lo != 0 {
      mean := mean / (hi - lo) as real;
    }
    AddSquaredDeviations(raw, lo, hi, c, mean, s, x);
    x[s] := x[s].Over((hi - lo - 1) as real);
    if kind == LogVariance {
      x[s] := x[s].Log(ln);
    }
  }

  /** The second loop over rows [lo, hi) of channel c: `x[s] += d * d`. */
  method AddSquaredDeviations(raw: array2<real>, lo: int, hi: int, c: nat, mean: real, s: int, x: array<Double>)
    requires c < raw.Length1 && InRange(Rows(raw), lo, hi, c + 1) && 0 <= s < x.Length
    modifies x
    ensures x[..] == old(x[..])[s := old(x[s]).Plus(Sum(SquaredDeviations(Window(Rows(raw), lo, hi, c), mean)))]
  {
    ghost var before := x[..];
    ghost var w := Window(Rows(raw), lo, hi, c);
    ghost var devs := SquaredDeviations(w, mean);
    assert before[s].Plus(Sum(devs[..0])) == before[s];
    var i := lo;
    while i < hi
      invariant lo <= i <= lo + |w|
      invariant x[..] == before[s := before[s].Plus(Sum(devs[..i - lo]))]
    {
      assert w[i - lo] == raw[i, c];
      SumPrefixStep(devs, i - lo);
      var d := raw[i, c] - mean;
      DeviationAt(w, mean, i - lo, d);
      x[s] := x[s].Plus(d * d);
      i := i + 1;
    }
    assert devs[..|devs|] == devs;
  }

  /** The first loop over rows [lo, hi) of channel c: `mean += raw[i, c]`. */
  method WindowSum(raw: array2<real>, lo: int, hi: int, c: nat) returns (sum: real)
    requires c < raw.Length1 && InRange(Rows(raw), lo, hi, c + 1)
    ensures sum == Sum(Window(Rows(raw), lo, hi, c))
  {
    ghost var w := Window(Rows(raw), lo, hi, c);
    sum := 0.0;
    var i := lo;
    while i < hi
      invariant lo <= i <= lo + |w|
      invariant sum == Sum(w[..i - lo])
    {
      assert w[i - lo] == raw[i, c];
      SumPrefixStep(w, i - lo);
      sum := sum + raw[i, c];
      i := i + 1;
    }
    assert w[..|w|] == w;
  }

  /** `tvar(raw, lo, hi, F, f, x)` */
  method TVar(raw: array2<real>, lo: int, hi: int, F: int, f: int, x: array<Double>)
    requires InRange(Rows(raw), lo, hi, raw.Length1) && SlotsFit(x[..], F, f, raw.Length1)
    modifies x
    ensures x[..] == Slots(Variance, (r: real) => r, Rows(raw), lo, hi, F, f, old(x[..]), raw.Length1)
  {
    Accumulate(Variance, (r: real) => r, raw, lo, hi, F, f, x);
  }

  /** `tlogvar(raw, lo, hi, F, f, x)`, with Math.Log as `ln` */
  method TLogVar(ln: LnFn, raw: array2<real>, lo: int, hi: int, F: int, f: int, x: array<Double>)
    requires InRange(Rows(raw), lo, hi, raw.Length1) && SlotsFit(x[..], F, f, raw.Length1)
    modifies x
    ensures x[..] == Slots(LogVariance, ln, Rows(raw), lo, hi, F, f, old(x[..]), raw.Length1)
  {
    Accumulate(LogVariance, ln, raw, lo, hi, F, f, x);
  }

  /**
   * `extractFeatures(raw_data, W, O)`: one log-variance vector per window, ceil(N / W) of them.
   * A window step W <= 0 never ends the loop on nonempty data and is excluded.
   */
  method ExtractWindowed(ln: LnFn, raw: array2<real>, W: int, O: int) returns (X: seq<seq<Double>>)
    requires 0 < W || raw.Length0 == 0
    ensures 0 < W ==> |X| == CeilDiv(raw.Length0, W)
    ensures raw.Length0 == 0 ==> X == []
    ensures forall k :: 0 <= k < |X| ==>
              var lo := WindowStart(k, W, O);
              var hi := WindowEnd(k, W, O, raw.Length0);
              InRange(Rows(raw), lo, hi, raw.Length1)
              && X[k] == WindowFeatures(LogVariance, ln, Rows(raw), raw.Length1, lo, hi)
  {
    var N := raw.Length0;
    var C := raw.Length1;
    ghost var rows := Rows(raw);
    X := [];
    var i := 0;
    while i < N
      invariant 0 < W || N == 0
      invariant N == 0 ==> X == []
      invariant i == |X| * W
      invariant 0 < W && 0 < |X| ==> (|X| - 1) * W < N
      invariant forall k :: 0 <= k < |X| ==>
                  var lo := WindowStart(k, W, O);
                  var hi := WindowEnd(k, W, O, N);
                  InRange(rows, lo, hi, C) && X[k] == WindowFeatures(LogVariance, ln, rows, C, lo, hi)
      invariant Rows(raw) == rows
      decreases N - i
    {
      var lo := Max(0, i - O);
      var hi := Min(N, i + W + O);
      assert lo == WindowStart(|X|, W, O) && hi == WindowEnd(|X|, W, O, N);
      var x := NewWindowVector(ln, raw, lo, hi);
      WindowStep(|X|, W, i, N);
      X := X + [x];
      i := i + W;
    }
    if 0 < W {
      CeilDivIsFirstCover(N, W, |X|);
    }
  }

  /** The loop body of the windowed `extractFeatures`: `tlogvar` into a fresh zero vector. */
  method NewWindowVector(ln: LnFn, raw: array2<real>, lo: int, hi: int) returns (x: seq<Double>)
    requires 0 <= lo && hi <= raw.Length0
    ensures InRange(Rows(raw), lo, hi, raw.Length1)
    ensures x == WindowFeatures(LogVariance, ln, Rows(raw), raw.Length1, lo, hi)
  {
    var a := new Double[raw.Length1](c => Finite(0.0));
    assert a[..] == seq(raw.Length1, c => Finite(0.0));
    Accumulate(LogVariance, ln, raw, lo, hi, 1, 0, a);
    x := a[..];
  }

  /** `extractFeatures(raw_data)`: the log-variance of every channel over all rows. */
  method ExtractWhole(ln: LnFn, raw: array2<real>) returns (x: array<Double>)
    ensures fresh(x) && x.Length == raw.Length1
    ensures InRange(Rows(raw), 0, raw.Length0, raw.Length1)
    ensures x[..] == WindowFeatures(LogVariance, ln, Rows(raw), raw.Length1, 0, raw.Length0)
  {
    x := new Double[raw.Length1](c => Finite(0.0));
    assert x[..] == seq(raw.Length1, c => Finite(0.0));
    Accumulate(LogVariance, ln, raw, 0, raw.Length0, 1, 0, x);
  }
}
