/**
 * The Echo State Network of BeansAndBox (SignalProcessing/ESN.cs): a reservoir of tanh neurons fed
 * by normalized features, whose state is a leaky interpolation between the old state and the new
 * activation, read out through dense output weights and denormalized into joint velocities.
 *
 * The normalization, deadband and classification rules defined here are shared by the two older
 * variants (modules EsnV001 and EsnV003).
 */
module Esn {
  import opened Wrappers
  import opened Numerics
  import opened DenseMatrix
  import WeightMatrix

  // ---------------------------------------------------------------------------------------------
  // Normalization of inputs and outputs

  /** One input: 2 (v - offset - lo) / (hi - lo) - 1 maps [offset + lo, offset + hi] onto [-1, 1]. */
  function Normalize(v: real, offset: real, lo: real, hi: real): (r: real)
    requires lo != hi
    ensures v == offset + lo ==> r == -1.0
    ensures v == offset + hi ==> r == 1.0
  {
    WidthOverWidth(hi - lo);
    2.0 * (v - offset - lo) / (hi - lo) - 1.0
  }

  /** A nonzero width divided by itself. */
  lemma WidthOverWidth(d: real)
    requires d != 0.0
    ensures 2.0 * d / d == 2.0
  {
    var q := 2.0 * d / d;
    assert q * d == 2.0 * d;
    assert (q - 2.0) * d == 0.0;
  }

  /** One output: 0.5 (hi - lo) (z + 1) + lo + offset maps [-1, 1] onto [offset + lo, offset + hi]. */
  function Denormalize(z: real, offset: real, lo: real, hi: real): (r: real)
    ensures z == -1.0 ==> r == offset + lo
    ensures z == 1.0 ==> r == offset + hi
    ensures lo == hi ==> r == lo + offset
  {
    0.5 * (hi - lo) * (z + 1.0) + lo + offset
  }

  /** Denormalizing undoes normalizing, whenever the range has a width. */
  lemma DenormalizeInvertsNormalize(v: real, offset: real, lo: real, hi: real)
    requires lo != hi
    ensures Denormalize(Normalize(v, offset, lo, hi), offset, lo, hi) == v
  {
    var d := hi - lo;
    var q := 2.0 * (v - offset - lo) / d;
    assert q * d == 2.0 * (v - offset - lo);
    assert Normalize(v, offset, lo, hi) + 1.0 == q;
    calc {
      Denormalize(Normalize(v, offset, lo, hi), offset, lo, hi);
      0.5 * d * q + lo + offset;
      0.5 * (q * d) + lo + offset;
    }
  }

  /** Normalizing undoes denormalizing, whenever the range has a width. */
  lemma NormalizeInvertsDenormalize(z: real, offset: real, lo: real, hi: real)
    requires lo != hi
    ensures Normalize(Denormalize(z, offset, lo, hi), offset, lo, hi) == z
  {
    var d := hi - lo;
    assert 2.0 * (Denormalize(z, offset, lo, hi) - offset - lo) == (z + 1.0) * d;
    Cancel(z + 1.0, d);
  }

  lemma Cancel(p: real, d: real)
    requires d != 0.0
    ensures (p * d) / d == p
  {
  }

  /** An input inside its range [offset + lo, offset + hi] is normalized into [-1, 1]. */
  lemma NormalizeInUnitRange(v: real, offset: real, lo: real, hi: real)
    requires lo < hi && offset + lo <= v <= offset + hi
    ensures -1.0 <= Normalize(v, offset, lo, hi) <= 1.0
  {
    var d := hi - lo;
    var t := v - offset - lo;
    UnitQuotient(t, d);
    assert 2.0 * t / d == 2.0 * (t / d);
  }

  lemma UnitQuotient(t: real, d: real)
    requires 0.0 < d && 0.0 <= t <= d
    ensures 0.0 <= t / d <= 1.0
  {
    var q := t / d;
    assert q * d == t;
    assert (q - 1.0) * d <= 0.0;
  }

  /** A normalization range: two rows (lower, upper), one column per dimension, lower <= upper. */
  ghost predicate RangeOk(range: Mat, n: int)
  {
    && range.Rows() == 2 && range.cols == n
    && forall i :: 0 <= i < n ==> range.cells[0][i] <= range.cells[1][i]
  }

  /** No dimension of the range has zero width (the C# division would leave the reals). */
  ghost predicate OpenRanges(range: Mat)
    requires range.Rows() == 2
  {
    forall i :: 0 <= i < range.cols ==> range.cells[0][i] != range.cells[1][i]
  }

  /** The whole input vector after the normalization loop of `Update`. */
  function NormalizedInput(input: seq<real>, offset: seq<real>, range: Mat): (u: seq<real>)
    requires |offset| == |input| == range.cols && range.Rows() == 2 && OpenRanges(range)
    ensures |u| == |input|
    ensures forall i :: 0 <= i < |u| ==> Denormalize(u[i], offset[i], range.cells[0][i], range.cells[1][i]) == input[i]
  {
    var u := seq(|input|, i requires 0 <= i < |input| =>
      Normalize(input[i], offset[i], range.cells[0][i], range.cells[1][i]));
    NormalizedInputInverts(input, offset, range, u);
    u
  }

  lemma NormalizedInputInverts(input: seq<real>, offset: seq<real>, range: Mat, u: seq<real>)
    requires |offset| == |input| == |u| == range.cols && range.Rows() == 2 && OpenRanges(range)
    requires forall i :: 0 <= i < |u| ==> u[i] == Normalize(input[i], offset[i], range.cells[0][i], range.cells[1][i])
    ensures forall i :: 0 <= i < |u| ==> Denormalize(u[i], offset[i], range.cells[0][i], range.cells[1][i]) == input[i]
  {
    forall i | 0 <= i < |u| {
      DenormalizeInvertsNormalize(input[i], offset[i], range.cells[0][i], range.cells[1][i]);
    }
  }

  /**
   * The whole output vector after the denormalization loop of `GetOutput`; where a range has a
   * width, normalizing the output gives back the network's raw output.
   */
  function DenormalizedOutput(z: seq<real>, offset: seq<real>, range: Mat): (y: seq<real>)
    requires |offset| == |z| == range.cols && range.Rows() == 2
    ensures |y| == |z|
    ensures forall i :: 0 <= i < |y| && range.cells[0][i] != range.cells[1][i] ==>
              Normalize(y[i], offset[i], range.cells[0][i], range.cells[1][i]) == z[i]
    ensures forall i :: 0 <= i < |y| && range.cells[0][i] == range.cells[1][i] ==> y[i] == range.cells[0][i] + offset[i]
  {
    var y := seq(|z|, i requires 0 <= i < |z| =>
      Denormalize(z[i], offset[i], range.cells[0][i], range.cells[1][i]));
    DenormalizedOutputInverts(z, offset, range, y);
    y
  }

  lemma DenormalizedOutputInverts(z: seq<real>, offset: seq<real>, range: Mat, y: seq<real>)
    requires |offset| == |z| == |y| == range.cols && range.Rows() == 2
    requires forall i :: 0 <= i < |y| ==> y[i] == Denormalize(z[i], offset[i], range.cells[0][i], range.cells[1][i])
    ensures forall i :: 0 <= i < |y| && range.cells[0][i] != range.cells[1][i] ==>
              Normalize(y[i], offset[i], range.cells[0][i], range.cells[1][i]) == z[i]
  {
    forall i | 0 <= i < |y| && range.cells[0][i] != range.cells[1][i] {
      NormalizeInvertsDenormalize(z[i], offset[i], range.cells[0][i], range.cells[1][i]);
    }
  }

  /** The normalization loop of `Update`, overwriting the caller's input. */
  method NormalizeInPlace(input: array<real>, offset: seq<real>, range: Mat)
    requires |offset| == input.Length == range.cols && range.Rows() == 2 && OpenRanges(range)
    modifies input
    ensures input[..] == NormalizedInput(old(input[..]), offset, range)
  {
    ghost var raw := input[..];
    var i := 0;
    while i < input.Length
      invariant 0 <= i <= input.Length
      invariant forall j :: 0 <= j < input.Length ==>
                  input[j] == if j < i then NormalizedInput(raw, offset, range)[j] else raw[j]
    {
      input[i] := 2.0 * (input[i] - offset[i] - range.cells[0][i]) / (range.cells[1][i] - range.cells[0][i]) - 1.0;
      i := i + 1;
    }
  }

  /**
   * The order check of the range setters: the first dimension whose lower bound exceeds its upper
   * bound is reported.
   */
  method CheckOrder(range: Mat) returns (o: Outcome)
    requires range.Rows() == 2
    ensures o.Pass? <==> RangeOk(range, range.cols)
    ensures o.Fail? ==> && o.error.RangeOrder? && 0 <= o.error.dimension < range.cols
                        && range.cells[0][o.error.dimension] > range.cells[1][o.error.dimension]
                        && forall i :: 0 <= i < o.error.dimension ==> range.cells[0][i] <= range.cells[1][i]
  {
    var i := 0;
    while i < range.cols
      invariant 0 <= i <= range.cols
      invariant forall j :: 0 <= j < i ==> range.cells[0][j] <= range.cells[1][j]
    {
      if range.cells[0][i] > range.cells[1][i] {
        return Fail(RangeOrder(i));
      }
      i := i + 1;
    }
    return Pass;
  }

  /** The range setters: the column count is checked first, then the row count, then the order. */
  method CheckRange(range: Mat, n: int) returns (o: Outcome)
    ensures o.Pass? <==> RangeOk(range, n)
    ensures o.Fail? && o.error == DimensionMismatch <==> range.cols != n || range.Rows() != 2
    ensures o.Fail? ==> o.error == DimensionMismatch || o.error.RangeOrder?
    ensures o.Fail? && o.error.RangeOrder? ==> && 0 <= o.error.dimension < n
                                               && range.cells[0][o.error.dimension] > range.cells[1][o.error.dimension]
  {
    if range.cols != n || range.Rows() != 2 {
      return Fail(DimensionMismatch);
    }
    o := CheckOrder(range);
  }

  // ---------------------------------------------------------------------------------------------
  // Output rules

  /**
   * One entry of `GetNormalizedOutput`: the deadband [-0.2, 0.2] is decided on the value clipped
   * to [-1, 1], but the result is computed from the unclipped value.
   */
  function Deadband(y: real): (r: real)
    ensures r == 0.0 <==> -0.2 <= y <= 0.2
    ensures 0.0 < r <==> 0.2 < y
    ensures r < 0.0 <==> y < -0.2
    ensures -1.0 <= y <= 1.0 ==> -1.6 <= r <= 1.6
    ensures 0.2 < y ==> r == 2.0 * (y - 0.2)
    ensures y < -0.2 ==> r == 2.0 * (y + 0.2)
  {
    var x := Min(Max(y, -1.0), 1.0);
    if x < -0.2 then 2.0 * (y + 0.2)
    else if x > 0.2 then 2.0 * (y - 0.2)
    else 0.0
  }

  /**
   * The documented bound [-1, 1] holds exactly for outputs within [-0.7, 0.7]; an output of 1
   * already gives 1.6.
   */
  lemma DeadbandBound(y: real)
    ensures -1.0 <= Deadband(y) <= 1.0 <==> -0.7 <= y <= 0.7
    ensures Deadband(1.0) == 1.6
  {
  }

  /**
   * The result is computed from the unclipped output: beyond the clipping bounds it keeps growing,
   * so an output of 2 gives 3.6 rather than the 1.6 of the clipped value 1.
   */
  lemma DeadbandUnclipped()
    ensures Deadband(2.0) == 3.6 && Deadband(-2.0) == -3.6
    ensures Deadband(2.0) != Deadband(1.0)
  {
  }

  /** One entry of `GetOutputClassification`: -1 below -0.5, 1 from 0.5 on, 0 in between. */
  function Classify(y: real): (r: real)
    ensures r == -1.0 || r == 0.0 || r == 1.0
    ensures r == -1.0 <==> y < -0.5
    ensures r == 1.0 <==> 0.5 <= y
  {
    if y < -0.5 then -1.0
    else if y < 0.5 then 0.0
    else 1.0
  }

  /** The classification is monotone: a larger output never gets a smaller class. */
  lemma ClassifyMonotone(y: real, y': real)
    requires y <= y'
    ensures Classify(y) <= Classify(y')
  {
  }

  /** The classification is the deadband's sign only for outputs outside [-0.5, 0.5). */
  lemma ClassifyAgreesWithDeadband(y: real)
    requires y < -0.5 || 0.5 <= y
    ensures (Classify(y) < 0.0 <==> Deadband(y) < 0.0) && (Classify(y) > 0.0 <==> Deadband(y) > 0.0)
  {
  }

  // ---------------------------------------------------------------------------------------------
  // The reservoir update

  /** x' = dt h + (1 - dt) x */
  function Leak(dt: real, h: real, x: real): (r: real)
    ensures dt == 0.0 ==> r == x
    ensures dt == 1.0 ==> r == h
    ensures h == x ==> r == x
  {
    dt * h + (1.0 - dt) * x
  }

  /** Interpolating between values in [-1, 1] stays in [-1, 1]. */
  lemma LeakBounded(dt: real, h: real, x: real)
    requires 0.0 <= dt <= 1.0 && -1.0 <= h <= 1.0 && -1.0 <= x <= 1.0
    ensures -1.0 <= Leak(dt, h, x) <= 1.0
  {
    LeakBetween(dt, h, x);
  }

  /** For dt in [0, 1] the leaked value lies between the old value x and the activation h. */
  lemma LeakBetween(dt: real, h: real, x: real)
    requires 0.0 <= dt <= 1.0
    ensures x <= h ==> x <= Leak(dt, h, x) <= h
    ensures h <= x ==> h <= Leak(dt, h, x) <= x
  {
    var d := h - x;
    assert Leak(dt, h, x) == x + dt * d;
    if x <= h {
      NonnegativeProduct(dt, d);
      NonnegativeProduct(1.0 - dt, d);
      assert dt * d + (1.0 - dt) * d == d;
    } else {
      NonnegativeProduct(dt, -d);
      NonnegativeProduct(1.0 - dt, -d);
      assert dt * -d + (1.0 - dt) * -d == -d;
    }
  }

  /** Both matrices and the state fit: W_in is M x K, W is M x M and the state has M entries. */
  ghost predicate Fits(wIn: Mat, w: WeightMatrix.Csr, x: seq<real>, u: seq<real>)
  {
    && w.Valid() && w.Reads(x) && wIn.cols == |u| && wIn.Rows() == w.N == |x|
  }

  /** The pre-activations W_in u + W x of one `Update`: the recurrent term uses the old state. */
  function Drive(wIn: Mat, w: WeightMatrix.Csr, x: seq<real>, u: seq<real>): (a: seq<real>)
    requires Fits(wIn, w, x, u)
    ensures |a| == |x|
  {
    Add(Product(wIn, u), w.Product(x))
  }

  /** Every neuron moves from x_i towards tanh(a_i) by the fraction dt. */
  function Blend(tanh: TanhFn, dt: real, a: seq<real>, x: seq<real>): (x': seq<real>)
    requires |a| == |x|
    ensures |x'| == |x|
  {
    seq(|x|, i requires 0 <= i < |x| => Leak(dt, tanh(a[i]), x[i]))
  }

  /** The state after one `Update` on the normalized input u. */
  function NextState(tanh: TanhFn, dt: real, wIn: Mat, w: WeightMatrix.Csr, x: seq<real>, u: seq<real>): (x': seq<real>)
    requires Fits(wIn, w, x, u)
    ensures |x'| == |x|
  {
    Blend(tanh, dt, Drive(wIn, w, x, u), x)
  }

  /** The neuron loop of `Update`: a_i = inputState_i + newState_i, then the leaky tanh step. */
  method Interpolate(tanh: TanhFn, dt: real, inputState: seq<real>, newState: seq<real>, x: array<real>)
    requires |inputState| == |newState| == x.Length
    modifies x
    ensures x[..] == Blend(tanh, dt, Add(inputState, newState), old(x[..]))
  {
    ghost var x0 := x[..];
    ghost var goal := Blend(tanh, dt, Add(inputState, newState), x0);
    var i := 0;
    while i < x.Length
      invariant 0 <= i <= x.Length
      invariant x[i..] == x0[i..]
      invariant x[..i] == goal[..i]
    {
      var h := tanh(inputState[i] + newState[i]);
      assert goal[i] == Leak(dt, h, x[i]);
      x[i] := Leak(dt, h, x[i]);
      assert x[..i + 1] == goal[..i + 1];
      i := i + 1;
    }
    assert x[..] == x[..i];
  }

  /** dt = 0 leaves the state unchanged. */
  lemma NextStateFrozen(tanh: TanhFn, wIn: Mat, w: WeightMatrix.Csr, x: seq<real>, u: seq<real>)
    requires Fits(wIn, w, x, u)
    ensures NextState(tanh, 0.0, wIn, w, x, u) == x
  {
  }

  /** dt = 1 forgets the old state except through the recurrent weights: x' = tanh(W_in u + W x). */
  lemma NextStateUnleaked(tanh: TanhFn, wIn: Mat, w: WeightMatrix.Csr, x: seq<real>, u: seq<real>, i: nat)
    requires Fits(wIn, w, x, u) && i < |x|
    ensures NextState(tanh, 1.0, wIn, w, x, u)[i] == tanh(Product(wIn, u)[i] + w.Product(x)[i])
  {
  }

  /** A state in [-1, 1]^M stays there, for every dt in [0, 1]. */
  lemma NextStateBounded(tanh: TanhFn, dt: real, wIn: Mat, w: WeightMatrix.Csr, x: seq<real>, u: seq<real>)
    requires Fits(wIn, w, x, u) && 0.0 <= dt <= 1.0
    requires forall i :: 0 <= i < |x| ==> -1.0 <= x[i] <= 1.0
    ensures forall i :: 0 <= i < |x| ==> -1.0 <= NextState(tanh, dt, wIn, w, x, u)[i] <= 1.0
  {
    var a := Drive(wIn, w, x, u);
    forall i | 0 <= i < |x| ensures -1.0 <= Blend(tanh, dt, a, x)[i] <= 1.0 {
      LeakBounded(dt, tanh(a[i]), x[i]);
    }
  }

  /** From the resting state the recurrent term vanishes: x'_i = dt tanh((W_in u)_i). */
  lemma NextStateFromRest(tanh: TanhFn, dt: real, wIn: Mat, w: WeightMatrix.Csr, u: seq<real>, i: nat)
    requires 0 <= w.N && Fits(wIn, w, Zeros(w.N), u) && i < w.N
    ensures NextState(tanh, dt, wIn, w, Zeros(w.N), u)[i] == dt * tanh(Product(wIn, u)[i])
  {
    w.ProductOfZero(w.N);
    assert Drive(wIn, w, Zeros(w.N), u)[i] == Product(wIn, u)[i];
  }

  /**
   * Folding a transfer matrix T into the input weights (W_in T) gives the same update as feeding
   * the transformed features T u to the original network.
   */
  lemma TransferFolding(tanh: TanhFn, dt: real, wIn: Mat, T: Mat, w: WeightMatrix.Csr, x: seq<real>, u: seq<real>)
    requires wIn.cols == T.Rows() && T.cols == |u| && Fits(wIn, w, x, Product(T, u))
    ensures Fits(Compose(wIn, T), w, x, u)
    ensures NextState(tanh, dt, Compose(wIn, T), w, x, u) == NextState(tanh, dt, wIn, w, x, Product(T, u))
  {
    MultiplyAssociative(wIn, T, u);
  }

  // ---------------------------------------------------------------------------------------------
  // The network

  /** The parsed contents of the reservoir file: "wInp", "wRes" (triplets and size), "dt", "inpOffset", "inpRange". */
  datatype ReservoirJson = ReservoirJson(wInp: seq<seq<real>>, wRes: seq<WeightMatrix.Triplet>, rows: int, cols: int,
                                         dt: real, inpOffset: seq<real>, inpRange: seq<seq<real>>)

  /** The parsed contents of the output file: "wOut", "outOffset", "outRange". */
  datatype OutputJson = OutputJson(wOut: seq<seq<real>>, outOffset: seq<real>, outRange: seq<seq<real>>)

  /** What the loader accepts once the input weights (with any transfer matrix folded in) are read. */
  ghost predicate Loadable(wIn: Mat, res: ReservoirJson, out: OutputJson)
  {
    && (forall k :: 0 <= k < |res.wRes| ==> res.wRes[k].i <= res.rows && res.wRes[k].j <= res.cols)
    && DenseMatrix.FromJson(out.wOut).Ok?
    && wIn.Rows() == res.rows == res.cols == DenseMatrix.FromJson(out.wOut).value.cols
    && 0.0 <= res.dt <= 1.0
    && |res.inpOffset| == wIn.cols
    && DenseMatrix.FromJson(res.inpRange).Ok? && RangeOk(DenseMatrix.FromJson(res.inpRange).value, wIn.cols)
    && |out.outOffset| == DenseMatrix.FromJson(out.wOut).value.Rows()
    && DenseMatrix.FromJson(out.outRange).Ok?
    && RangeOk(DenseMatrix.FromJson(out.outRange).value, DenseMatrix.FromJson(out.wOut).value.Rows())
  }

  class EchoStateNetwork {
    /** input weights, M x K */
    const wIn: Mat
    /** reservoir weights, M x M */
    const w: WeightMatrix.Csr
    /** output weights, N x M */
    const wOut: Mat
    var dt: real
    /** the normalization parameters; the constructor leaves them null */
    var inpOffset: Option<seq<real>>
    var inpRange: Option<Mat>
    var outOffset: Option<seq<real>>
    var outRange: Option<Mat>
    var state: array<real>

    function NumInputs(): nat { wIn.cols }

    function NumNeurons(): int { w.NumColumns() }

    function NumOutputs(): nat { wOut.Rows() }

    /** The shapes the constructor checks and the setters keep. */
    ghost predicate Valid()
      reads this
    {
      && w.Valid() && wIn.Rows() == w.M && w.M == w.N && w.N == wOut.cols
      && state.Length == w.N
      && 0.0 <= dt <= 1.0
      && (inpOffset.Some? ==> |inpOffset.value| == NumInputs())
      && (inpRange.Some? ==> RangeOk(inpRange.value, NumInputs()))
      && (outOffset.Some? ==> |outOffset.value| == NumOutputs())
      && (outRange.Some? ==> RangeOk(outRange.value, NumOutputs()))
    }

    /** Every neuron's activation lies in [-1, 1]. */
    ghost predicate Bounded()
      reads this, state
    {
      forall i :: 0 <= i < state.Length ==> -1.0 <= state[i] <= 1.0
    }

    /** The constructor once its three dimension checks have passed. */
    constructor (wIn: Mat, w: WeightMatrix.Csr, wOut: Mat)
      requires w.Valid() && wIn.Rows() == w.M && w.M == w.N && w.N == wOut.cols
      ensures Valid() && Bounded() && fresh(state)
      ensures this.wIn == wIn && this.w == w && this.wOut == wOut
      ensures state[..] == Zeros(w.N) && dt == 1.0
      ensures inpOffset == None && inpRange == None && outOffset == None && outRange == None
    {
      this.wIn := wIn;
      this.w := w;
      this.wOut := wOut;
      state := new real[w.N](i => 0.0);
      dt := 1.0;
      inpOffset := None;
      inpRange := None;
      outOffset := None;
      outRange := None;
    }

    /**
     * `EchoStateNetwork(W_in, W, W_out)`: throws unless W_in has as many rows as W, W is square and
     * W_out has as many columns as W.
     */
    static method Create(wIn: Mat, w: WeightMatrix.Csr, wOut: Mat) returns (r: Result<EchoStateNetwork>)
      requires w.Valid()
      ensures r.Err? <==> wIn.Rows() != w.NumRows() || w.NumRows() != w.NumColumns() || w.NumColumns() != wOut.cols
      ensures r.Err? ==> r.error == DimensionMismatch
      ensures r.Ok? ==> && fresh(r.value) && fresh(r.value.state) && r.value.Valid() && r.value.Bounded()
                        && r.value.wIn == wIn && r.value.w == w && r.value.wOut == wOut
                        && r.value.state[..] == Zeros(w.N) && r.value.dt == 1.0
                        && r.value.inpOffset == None && r.value.inpRange == None
                        && r.value.outOffset == None && r.value.outRange == None
    {
      if wIn.Rows() != w.NumRows() || w.NumRows() != w.NumColumns() || w.NumColumns() != wOut.cols {
        return Err(DimensionMismatch);
      }
      var net := new EchoStateNetwork(wIn, w, wOut);
      return Ok(net);
    }

    /** The `dt` setter: throws outside [0, 1] and then keeps the old value. */
    method SetDt(value: real) returns (o: Outcome)
      requires Valid()
      modifies this
      ensures Valid() && state == old(state)
      ensures o.Fail? <==> value < 0.0 || value > 1.0
      ensures o.Fail? ==> o.error == DtOutOfRange
      ensures dt == if o.Pass? then value else old(dt)
      ensures inpOffset == old(inpOffset) && inpRange == old(inpRange)
      ensures outOffset == old(outOffset) && outRange == old(outRange)
    {
      if value < 0.0 || value > 1.0 {
        return Fail(DtOutOfRange);
      }
      dt := value;
      return Pass;
    }

    /** The `inpOffset` setter: one offset per input. */
    method SetInpOffset(value: seq<real>) returns (o: Outcome)
      requires Valid()
      modifies this
      ensures Valid() && state == old(state)
      ensures o.Fail? <==> |value| != NumInputs()
      ensures o.Fail? ==> o.error == DimensionMismatch
      ensures inpOffset == if o.Pass? then Some(value) else old(inpOffset)
      ensures dt == old(dt) && inpRange == old(inpRange)
      ensures outOffset == old(outOffset) && outRange == old(outRange)
    {
      if |value| != NumInputs() {
        return Fail(DimensionMismatch);
      }
      inpOffset := Some(value);
      return Pass;
    }

    /** The `inpRange` setter: a 2 x K matrix of ordered bounds; equal bounds are accepted. */
    method SetInpRange(value: Mat) returns (o: Outcome)
      requires Valid()
      modifies this
      ensures Valid() && state == old(state)
      ensures o.Pass? <==> RangeOk(value, NumInputs())
      ensures o.Fail? ==> o.error == DimensionMismatch || o.error.RangeOrder?
      ensures inpRange == if o.Pass? then Some(value) else old(inpRange)
      ensures dt == old(dt) && inpOffset == old(inpOffset)
      ensures outOffset == old(outOffset) && outRange == old(outRange)
    {
      o := CheckRange(value, NumInputs());
      if o.Pass? {
        inpRange := Some(value);
      }
    }

    /** The `outOffset` setter: one offset per output. */
    method SetOutOffset(value: seq<real>) returns (o: Outcome)
      requires Valid()
      modifies this
      ensures Valid() && state == old(state)
      ensures o.Fail? <==> |value| != NumOutputs()
      ensures o.Fail? ==> o.error == DimensionMismatch
      ensures outOffset == if o.Pass? then Some(value) else old(outOffset)
      ensures dt == old(dt) && inpOffset == old(inpOffset)
      ensures inpRange == old(inpRange) && outRange == old(outRange)
    {
      if |value| != NumOutputs() {
        return Fail(DimensionMismatch);
      }
      outOffset := Some(value);
      return Pass;
    }

    /** The `outRange` setter: a 2 x N matrix of ordered bounds. */
    method SetOutRange(value: Mat) returns (o: Outcome)
      requires Valid()
      modifies this
      ensures Valid() && state == old(state)
      ensures o.Pass? <==> RangeOk(value, NumOutputs())
      ensures o.Fail? ==> o.error == DimensionMismatch || o.error.RangeOrder?
      ensures outRange == if o.Pass? then Some(value) else old(outRange)
      ensures dt == old(dt) && inpOffset == old(inpOffset)
      ensures inpRange == old(inpRange) && outOffset == old(outOffset)
    {
      o := CheckRange(value, NumOutputs());
      if o.Pass? {
        outRange := Some(value);
      }
    }

    /**
     * `Update(input)`: throws unless the input has K entries; otherwise normalizes the caller's
     * input in place and moves the state to dt tanh(W_in u + W x) + (1 - dt) x.
     * The normalization parameters must have been set (they are dereferenced), and a stored column
     * of W must index the state.
     */
    method Update(tanh: TanhFn, input: array<real>) returns (o: Outcome)
      requires Valid() && inpOffset.Some? && inpRange.Some? && OpenRanges(inpRange.value)
      requires w.Reads(state[..]) && input != state
      modifies input, state
      ensures Valid()
      ensures o.Fail? <==> input.Length != NumInputs()
      ensures o.Fail? ==> o.error == DimensionMismatch && unchanged(input) && unchanged(state)
      ensures o.Pass? ==> && input[..] == NormalizedInput(old(input[..]), inpOffset.value, inpRange.value)
                          && state[..] == NextState(tanh, dt, wIn, w, old(state[..]), input[..])
      ensures old(Bounded()) ==> Bounded()
    {
      if input.Length != wIn.cols {
        return Fail(DimensionMismatch);
      }
      NormalizeInPlace(input, inpOffset.value, inpRange.value);
      ghost var x := state[..];
      ghost var u := input[..];
      var applied := w.Apply(state[..]);
      var newState := applied.value;
      var inputState := MultiplyVector(wIn, input[..]).value;
      assert Add(inputState, newState) == Drive(wIn, w, x, u);
      Interpolate(tanh, dt, inputState, newState, state);
      if old(Bounded()) {
        NextStateBounded(tanh, dt, wIn, w, x, u);
      }
      return Pass;
    }

    /** `GetOutput()`: W_out x, denormalized into the output ranges; the state is only read. */
    function GetOutput(): (y: seq<real>)
      reads this, state
      requires Valid() && outOffset.Some? && outRange.Some?
      ensures |y| == NumOutputs()
      ensures forall i :: 0 <= i < |y| && outRange.value.cells[0][i] != outRange.value.cells[1][i] ==>
                Normalize(y[i], outOffset.value[i], outRange.value.cells[0][i], outRange.value.cells[1][i])
                == Product(wOut, state[..])[i]
      ensures forall i :: 0 <= i < |y| && outRange.value.cells[0][i] == outRange.value.cells[1][i] ==>
                y[i] == outRange.value.cells[0][i] + outOffset.value[i]
    {
      DenormalizedOutput(Product(wOut, state[..]), outOffset.value, outRange.value)
    }

    /** `GetNormalizedOutput()`: the deadband rule applied to every output. */
    function GetNormalizedOutput(): (y: seq<real>)
      reads this, state
      requires Valid() && outOffset.Some? && outRange.Some?
      ensures |y| == NumOutputs()
      ensures forall i :: 0 <= i < |y| ==> (y[i] == 0.0 <==> -0.2 <= GetOutput()[i] <= 0.2)
      ensures forall i :: 0 <= i < |y| ==> (0.0 < y[i] <==> 0.2 < GetOutput()[i])
      ensures forall i :: 0 <= i < |y| ==> (y[i] < 0.0 <==> GetOutput()[i] < -0.2)
      ensures forall i :: 0 <= i < |y| ==> y[i] == Deadband(GetOutput()[i])
    {
      var out := GetOutput();
      seq(|out|, i requires 0 <= i < |out| => Deadband(out[i]))
    }

    /** `GetOutputClassification()`: every output rounded into {-1, 0, 1}. */
    function GetOutputClassification(): (y: seq<real>)
      reads this, state
      requires Valid() && outOffset.Some? && outRange.Some?
      ensures |y| == NumOutputs()
      ensures forall i :: 0 <= i < |y| ==> y[i] == -1.0 || y[i] == 0.0 || y[i] == 1.0
      ensures forall i :: 0 <= i < |y| ==> (y[i] == -1.0 <==> GetOutput()[i] < -0.5)
      ensures forall i :: 0 <= i < |y| ==> (y[i] == 1.0 <==> 0.5 <= GetOutput()[i])
    {
      var out := GetOutput();
      seq(|out|, i requires 0 <= i < |out| => Classify(out[i]))
    }

    /**
     * `FromJSON(jReservoir, jOut)` once the input weights are read: the reservoir matrix, the
     * output weights, the constructor, then the five setters in source order.
     */
    static method Assemble(wIn: Mat, res: ReservoirJson, out: OutputJson) returns (r: Result<EchoStateNetwork>)
      requires -1 <= res.rows
      ensures r.Ok? <==> Loadable(wIn, res, out)
      ensures r.Ok? ==> && fresh(r.value) && fresh(r.value.state) && r.value.Valid() && r.value.Bounded()
                        && r.value.wIn == wIn && r.value.wOut == DenseMatrix.FromJson(out.wOut).value
                        && r.value.dt == res.dt && r.value.state[..] == Zeros(wIn.Rows())
                        && WeightMatrix.LoadedFrom(r.value.w, res.wRes, res.rows, res.cols)
                        && r.value.inpOffset == Some(res.inpOffset)
                        && r.value.inpRange == Some(DenseMatrix.FromJson(res.inpRange).value)
                        && r.value.outOffset == Some(out.outOffset)
                        && r.value.outRange == Some(DenseMatrix.FromJson(out.outRange).value)
    {
      var wr, sorted := WeightMatrix.FromJson(res.wRes, res.rows, res.cols);
      if wr.Err? {
        return Err(wr.error);
      }
      var wOutR := DenseMatrix.FromJson(out.wOut);
      if wOutR.Err? {
        return Err(wOutR.error);
      }
      var created := Create(wIn, wr.value, wOutR.value);
      if created.Err? {
        return Err(created.error);
      }
      var net := created.value;
      var o := net.SetDt(res.dt);
      if o.Fail? {
        return Err(o.error);
      }
      o := net.SetInpOffset(res.inpOffset);
      if o.Fail? {
        return Err(o.error);
      }
      var inpRangeR := DenseMatrix.FromJson(res.inpRange);
      if inpRangeR.Err? {
        return Err(inpRangeR.error);
      }
      o := net.SetInpRange(inpRangeR.value);
      if o.Fail? {
        return Err(o.error);
      }
      o := net.SetOutOffset(out.outOffset);
      if o.Fail? {
        return Err(o.error);
      }
      var outRangeR := DenseMatrix.FromJson(out.outRange);
      if outRangeR.Err? {
        return Err(outRangeR.error);
      }
      o := net.SetOutRange(outRangeR.value);
      if o.Fail? {
        return Err(o.error);
      }
      return Ok(net);
    }

    /** `FromJSON(jReservoir, jOut)` */
    static method FromJson(res: ReservoirJson, out: OutputJson) returns (r: Result<EchoStateNetwork>)
      requires -1 <= res.rows
      ensures r.Ok? <==> DenseMatrix.FromJson(res.wInp).Ok? && Loadable(DenseMatrix.FromJson(res.wInp).value, res, out)
      ensures r.Ok? ==> && fresh(r.value) && fresh(r.value.state) && r.value.Valid() && r.value.Bounded()
                        && r.value.wIn == DenseMatrix.FromJson(res.wInp).value && r.value.dt == res.dt
                        && r.value.wOut == DenseMatrix.FromJson(out.wOut).value
                        && WeightMatrix.LoadedFrom(r.value.w, res.wRes, res.rows, res.cols)
                        && r.value.state[..] == Zeros(DenseMatrix.FromJson(res.wInp).value.Rows())
                        && r.value.inpOffset == Some(res.inpOffset)
                        && r.value.inpRange == Some(DenseMatrix.FromJson(res.inpRange).value)
                        && r.value.outOffset == Some(out.outOffset)
                        && r.value.outRange == Some(DenseMatrix.FromJson(out.outRange).value)
    {
      var wInR := DenseMatrix.FromJson(res.wInp);
      if wInR.Err? {
        return Err(wInR.error);
      }
      r := Assemble(wInR.value, res, out);
    }

    /**
     * `FromJSON(jReservoir, jT, jOut)`: the transfer matrix is folded into the input weights,
     * W_in := W_in T, which throws unless W_in has as many columns as T has rows. The network
     * then takes T's column count of inputs (see TransferFolding).
     */
    static method FromJsonWithTransfer(res: ReservoirJson, transfer: seq<seq<real>>, out: OutputJson)
      returns (r: Result<EchoStateNetwork>)
      requires -1 <= res.rows
      ensures r.Ok? <==> && DenseMatrix.FromJson(res.wInp).Ok? && DenseMatrix.FromJson(transfer).Ok?
                         && DenseMatrix.FromJson(res.wInp).value.cols == DenseMatrix.FromJson(transfer).value.Rows()
                         && Loadable(Compose(DenseMatrix.FromJson(res.wInp).value, DenseMatrix.FromJson(transfer).value), res, out)
      ensures r.Ok? ==> && fresh(r.value) && fresh(r.value.state) && r.value.Valid() && r.value.Bounded()
                        && r.value.wIn == Compose(DenseMatrix.FromJson(res.wInp).value, DenseMatrix.FromJson(transfer).value)
                        && r.value.NumInputs() == DenseMatrix.FromJson(transfer).value.cols
                        && r.value.wOut == DenseMatrix.FromJson(out.wOut).value && r.value.dt == res.dt
                        && WeightMatrix.LoadedFrom(r.value.w, res.wRes, res.rows, res.cols)
                        && r.value.state[..] == Zeros(DenseMatrix.FromJson(res.wInp).value.Rows())
                        && r.value.inpOffset == Some(res.inpOffset)
                        && r.value.inpRange == Some(DenseMatrix.FromJson(res.inpRange).value)
                        && r.value.outOffset == Some(out.outOffset)
                        && r.value.outRange == Some(DenseMatrix.FromJson(out.outRange).value)
    {
      var wInR := DenseMatrix.FromJson(res.wInp);
      if wInR.Err? {
        return Err(wInR.error);
      }
      var tR := DenseMatrix.FromJson(transfer);
      if tR.Err? {
        return Err(tR.error);
      }
      var folded := MultiplyMatrix(wInR.value, tR.value);
      if folded.Err? {
        return Err(folded.error);
      }
      r := Assemble(folded.value, res, out);
    }
  }
}
