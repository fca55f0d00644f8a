/**
 * The third Echo State Network (EchoStateNetwork of ESN_v_003): the reservoir update of the
 * BeansAndBox network, a raw output W_out x, and a loader that refuses any output normalization
 * other than offset 0 and range [-1, 1] (up to 1e-5 and 1e-3).
 */
module EsnV003 {
  import opened Wrappers
  import opened Numerics
  import opened DenseMatrix
  import WeightMatrix
  import Esn

  /** The offsets the loader accepts: every one within 1e-5 of 0. */
  ghost predicate NeutralOffset(outOffset: seq<real>)
  {
    forall i :: 0 <= i < |outOffset| ==> Abs(outOffset[i]) <= 0.00001
  }

  /**
   * The ranges the loader accepts: every column within 1e-3 of [-1, 1]. A matrix with columns
   * but without a second row has no upper bounds and is never accepted.
   */
  ghost predicate NeutralRange(outRange: Mat)
  {
    forall i :: 0 <= i < outRange.cols ==>
      2 <= outRange.Rows() && Abs(outRange.cells[0][i] + 1.0) <= 0.001 && Abs(outRange.cells[1][i] - 1.0) <= 0.001
  }

  /**
   * The ranges the loader's check can run on: it reads the upper bound of a column only after the
   * column's lower bound passed, so a one-row matrix is checked when its first lower bound fails.
   */
  ghost predicate RangeCheckable(outRange: Mat)
  {
    outRange.Rows() < 2 && 0 < outRange.cols ==> outRange.Rows() == 1 && 0.001 < Abs(outRange.cells[0][0] + 1.0)
  }

  /** The first checking loop of `FromJSON`. */
  method CheckOffset(outOffset: seq<real>) returns (o: Outcome)
    ensures o.Pass? <==> NeutralOffset(outOffset)
    ensures o.Fail? ==> o.error == UnsupportedOutputNormalization
  {
    var i := 0;
    while i < |outOffset|
      invariant 0 <= i <= |outOffset|
      invariant forall j :: 0 <= j < i ==> Abs(outOffset[j]) <= 0.00001
    {
      if Abs(outOffset[i]) > 0.00001 {
        return Fail(UnsupportedOutputNormalization);
      }
      i := i + 1;
    }
    return Pass;
  }

  /** The second checking loop of `FromJSON`, column by column, lower bound before upper bound. */
  method CheckRangeNeutral(outRange: Mat) returns (o: Outcome)
    requires RangeCheckable(outRange)
    ensures o.Pass? <==> NeutralRange(outRange)
    ensures o.Fail? ==> o.error == UnsupportedOutputNormalization
  {
    var i := 0;
    while i < outRange.cols
      invariant 0 <= i <= outRange.cols
      invariant 0 < i ==> 2 <= outRange.Rows()
      invariant forall j :: 0 <= j < i ==> Abs(outRange.cells[0][j] + 1.0) <= 0.001 && Abs(outRange.cells[1][j] - 1.0) <= 0.001
    {
      if Abs(outRange.cells[0][i] + 1.0) > 0.001 {
        return Fail(UnsupportedOutputNormalization);
      }
      if Abs(outRange.cells[1][i] - 1.0) > 0.001 {
        return Fail(UnsupportedOutputNormalization);
      }
      i := i + 1;
    }
    return Pass;
  }

  /** With offset 0 and range [-1, 1] the denormalization of the newer network is the identity. */
  lemma NeutralIsIdentity(z: real)
    ensures Esn.Denormalize(z, 0.0, -1.0, 1.0) == z
  {
  }

  /**
   * Within the accepted tolerances, denormalizing an output in [-1, 1] moves it by at most
   * 0.00301: dropping the denormalization changes the output by no more than that.
   */
  lemma NeutralIsNearIdentity(z: real, offset: real, lo: real, hi: real)
    requires -1.0 <= z <= 1.0 && Abs(offset) <= 0.00001 && Abs(lo + 1.0) <= 0.001 && Abs(hi - 1.0) <= 0.001
    ensures Abs(Esn.Denormalize(z, offset, lo, hi) - z) <= 0.00301
  {
    var e0 := lo + 1.0;
    var e1 := hi - 1.0;
    var half := 0.5 * (e1 - e0);
    var t := z + 1.0;
    assert Esn.Denormalize(z, offset, lo, hi) - z == half * t + e0 + offset;
    HalfWidthTerm(half, t);
  }

  /** A half width of at most 1e-3 times a shifted output in [0, 2] is at most 2e-3. */
  lemma HalfWidthTerm(half: real, t: real)
    requires -0.001 <= half <= 0.001 && 0.0 <= t <= 2.0
    ensures -0.002 <= half * t <= 0.002
  {
    NonnegativeProduct(0.001 - half, t);
    NonnegativeProduct(0.001 + half, t);
  }

  /** What `FromJSON(jReservoir, jW_out)` accepts once the input weights are read. */
  ghost predicate Loadable(wIn: Mat, res: Esn.ReservoirJson, outOffset: seq<real>, outRange: seq<seq<real>>,
                           wOut: seq<seq<real>>)
  {
    && (forall k :: 0 <= k < |res.wRes| ==> res.wRes[k].i <= res.rows && res.wRes[k].j <= res.cols)
    && DenseMatrix.FromJson(wOut).Ok?
    && wIn.Rows() == res.rows == res.cols == DenseMatrix.FromJson(wOut).value.cols
    && 0.0 <= res.dt <= 1.0
    && |res.inpOffset| == wIn.cols
    && DenseMatrix.FromJson(res.inpRange).Ok? && Esn.RangeOk(DenseMatrix.FromJson(res.inpRange).value, wIn.cols)
    && NeutralOffset(outOffset)
    && DenseMatrix.FromJson(outRange).Ok?
    && NeutralRange(DenseMatrix.FromJson(outRange).value)
  }

  class EchoStateNetwork {
    const wIn: Mat
    const w: WeightMatrix.Csr
    const wOut: Mat
    var dt: real
    var inpOffset: Option<seq<real>>
    var inpRange: Option<Mat>
    var state: array<real>

    function NumInputs(): nat { wIn.cols }

    function NumNeurons(): int { w.NumColumns() }

    function NumOutputs(): nat { wOut.Rows() }

    ghost predicate Valid()
      reads this
    {
      && w.Valid() && wIn.Rows() == w.M && w.M == w.N && w.N == wOut.cols
      && state.Length == w.N
      && 0.0 <= dt <= 1.0
      && (inpOffset.Some? ==> |inpOffset.value| == NumInputs())
      && (inpRange.Some? ==> Esn.RangeOk(inpRange.value, NumInputs()))
    }

    /** Every neuron's activation lies in [-1, 1]. */
    ghost predicate Bounded()
      reads this, state
    {
      forall i :: 0 <= i < state.Length ==> -1.0 <= state[i] <= 1.0
    }

    /** The constructor once its three dimension checks have passed. */
    constructor (wIn: Mat, w: WeightMatrix.Csr, wOut: Mat)
      requires w.Valid() && wIn.Rows() == w.M && w.M == w.N && w.N == wOut.cols
      ensures Valid() && Bounded() && fresh(state)
      ensures this.wIn == wIn && this.w == w && this.wOut == wOut
      ensures state[..] == Zeros(w.N) && dt == 1.0
      ensures inpOffset == None && inpRange == None
    {
      this.wIn := wIn;
      this.w := w;
      this.wOut := wOut;
      state := new real[w.N](i => 0.0);
      dt := 1.0;
      inpOffset := None;
      inpRange := None;
    }

    /** `EchoStateNetwork(W_in, W, W_out)` with its three dimension checks. */
    static method Create(wIn: Mat, w: WeightMatrix.Csr, wOut: Mat) returns (r: Result<EchoStateNetwork>)
      requires w.Valid()
      ensures r.Err? <==> wIn.Rows() != w.NumRows() || w.NumRows() != w.NumColumns() || w.NumColumns() != wOut.cols
      ensures r.Err? ==> r.error == DimensionMismatch
      ensures r.Ok? ==> && fresh(r.value) && fresh(r.value.state) && r.value.Valid() && r.value.Bounded()
                        && r.value.wIn == wIn && r.value.w == w && r.value.wOut == wOut
                        && r.value.state[..] == Zeros(w.N) && r.value.dt == 1.0
                        && r.value.inpOffset == None && r.value.inpRange == None
    {
      if wIn.Rows() != w.NumRows() || w.NumRows() != w.NumColumns() || w.NumColumns() != wOut.cols {
        return Err(DimensionMismatch);
      }
      var net := new EchoStateNetwork(wIn, w, wOut);
      return Ok(net);
    }

    /** The `dt` setter: throws outside [0, 1] and then keeps the old value. */
    method SetDt(value: real) returns (o: Outcome)
      requires Valid()
      modifies this
      ensures Valid() && state == old(state)
      ensures o.Fail? <==> value < 0.0 || value > 1.0
      ensures o.Fail? ==> o.error == DtOutOfRange
      ensures dt == if o.Pass? then value else old(dt)
      ensures inpOffset == old(inpOffset) && inpRange == old(inpRange)
    {
      if value < 0.0 || value > 1.0 {
        return Fail(DtOutOfRange);
      }
      dt := value;
      return Pass;
    }

    /** The `inpOffset` setter: one offset per input. */
    method SetInpOffset(value: seq<real>) returns (o: Outcome)
      requires Valid()
      modifies this
      ensures Valid() && state == old(state)
      ensures o.Fail? <==> |value| != NumInputs()
      ensures o.Fail? ==> o.error == DimensionMismatch
      ensures inpOffset == if o.Pass? then Some(value) else old(inpOffset)
      ensures dt == old(dt) && inpRange == old(inpRange)
    {
      if |value| != NumInputs() {
        return Fail(DimensionMismatch);
      }
      inpOffset := Some(value);
      return Pass;
    }

    /** The `inpRange` setter: a 2 x K matrix of ordered bounds. */
    method SetInpRange(value: Mat) returns (o: Outcome)
      requires Valid()
      modifies this
      ensures Valid() && state == old(state)
      ensures o.Pass? <==> Esn.RangeOk(value, NumInputs())
      ensures o.Fail? ==> o.error == DimensionMismatch || o.error.RangeOrder?
      ensures inpRange == if o.Pass? then Some(value) else old(inpRange)
      ensures dt == old(dt) && inpOffset == old(inpOffset)
    {
      o := Esn.CheckRange(value, NumInputs());
      if o.Pass? {
        inpRange := Some(value);
      }
    }

    /**
     * `Update(input)`: the update of the BeansAndBox network, x' = dt tanh(W_in u + W x) + (1 - dt) x
     * on the normalized input u.
     */
    method Update(tanh: TanhFn, input: array<real>) returns (o: Outcome)
      requires Valid() && inpOffset.Some? && inpRange.Some? && Esn.OpenRanges(inpRange.value)
      requires w.Reads(state[..]) && input != state
      modifies input, state
      ensures Valid()
      ensures o.Fail? <==> input.Length != NumInputs()
      ensures o.Fail? ==> o.error == DimensionMismatch && unchanged(input) && unchanged(state)
      ensures o.Pass? ==> && input[..] == Esn.NormalizedInput(old(input[..]), inpOffset.value, inpRange.value)
                          && Esn.Fits(wIn, w, old(state[..]), input[..])
                          && state[..] == Esn.NextState(tanh, dt, wIn, w, old(state[..]), input[..])
      ensures old(Bounded()) ==> Bounded()
    {
      if input.Length != wIn.cols {
        return Fail(DimensionMismatch);
      }
      Esn.NormalizeInPlace(input, inpOffset.value, inpRange.value);
      ghost var x := state[..];
      ghost var u := input[..];
      var applied := w.Apply(state[..]);
      var newState := applied.value;
      var inputState := MultiplyVector(wIn, input[..]).value;
      assert Add(inputState, newState) == Esn.Drive(wIn, w, x, u);
      Esn.Interpolate(tanh, dt, inputState, newState, state);
      if old(Bounded()) {
        Esn.NextStateBounded(tanh, dt, wIn, w, x, u);
      }
      return Pass;
    }

    /** `GetOutput()`: the raw product W_out x. */
    function GetOutput(): (y: seq<real>)
      reads this, state
      requires Valid()
      ensures |y| == NumOutputs()
      ensures MultiplyVector(wOut, state[..]) == Ok(y)
    {
      MultiplyVector(wOut, state[..]).value
    }

    /** `GetOutputClassification()`: every output rounded into {-1, 0, 1}. */
    function GetOutputClassification(): (y: seq<real>)
      reads this, state
      requires Valid()
      ensures |y| == NumOutputs()
      ensures forall i :: 0 <= i < |y| ==> y[i] == -1.0 || y[i] == 0.0 || y[i] == 1.0
      ensures forall i :: 0 <= i < |y| ==> (y[i] == -1.0 <==> GetOutput()[i] < -0.5)
      ensures forall i :: 0 <= i < |y| ==> (y[i] == 1.0 <==> 0.5 <= GetOutput()[i])
    {
      var out := GetOutput();
      seq(|out|, i requires 0 <= i < |out| => Esn.Classify(out[i]))
    }

    /**
     * `FromJSON(jReservoir, jW_out)`: the newer loader without output normalization setters; the
     * reservoir's "outOffset" and "outRange" are read and checked but not kept. A one-row
     * "outRange" whose first lower bound is within tolerance indexes a missing second row and is
     * excluded.
     */
    static method FromJson(res: Esn.ReservoirJson, outOffset: seq<real>, outRange: seq<seq<real>>, wOut: seq<seq<real>>)
      returns (r: Result<EchoStateNetwork>)
      requires -1 <= res.rows
      requires |outRange| == 1 && 0 < |outRange[0]| ==> 0.001 < Abs(outRange[0][0] + 1.0)
      ensures r.Ok? <==> && DenseMatrix.FromJson(res.wInp).Ok?
                         && Loadable(DenseMatrix.FromJson(res.wInp).value, res, outOffset, outRange, wOut)
      ensures r.Err? && r.error == UnsupportedOutputNormalization ==>
                !NeutralOffset(outOffset) || (DenseMatrix.FromJson(outRange).Ok? && !NeutralRange(DenseMatrix.FromJson(outRange).value))
      ensures r.Ok? ==> && fresh(r.value) && fresh(r.value.state) && r.value.Valid() && r.value.Bounded()
                        && r.value.wIn == DenseMatrix.FromJson(res.wInp).value
                        && r.value.wOut == DenseMatrix.FromJson(wOut).value
                        && WeightMatrix.LoadedFrom(r.value.w, res.wRes, res.rows, res.cols)
                        && r.value.state[..] == Zeros(DenseMatrix.FromJson(res.wInp).value.Rows())
                        && r.value.dt == res.dt && r.value.inpOffset == Some(res.inpOffset)
                        && r.value.inpRange == Some(DenseMatrix.FromJson(res.inpRange).value)
    {
      var wInR := DenseMatrix.FromJson(res.wInp);
      if wInR.Err? {
        return Err(wInR.error);
      }
      var wr, sorted := WeightMatrix.FromJson(res.wRes, res.rows, res.cols);
      if wr.Err? {
        return Err(wr.error);
      }
      var wOutR := DenseMatrix.FromJson(wOut);
      if wOutR.Err? {
        return Err(wOutR.error);
      }
      var created := Create(wInR.value, wr.value, wOutR.value);
      if created.Err? {
        return Err(created.error);
      }
      var net := created.value;
      var o := net.SetDt(res.dt);
      if o.Fail? {
        return Err(o.error);
      }
      o := net.SetInpOffset(res.inpOffset);
      if o.Fail? {
        return Err(o.error);
      }
      var inpRangeR := DenseMatrix.FromJson(res.inpRange);
      if inpRangeR.Err? {
        return Err(inpRangeR.error);
      }
      o := net.SetInpRange(inpRangeR.value);
      if o.Fail? {
        return Err(o.error);
      }
      o := CheckOffset(outOffset);
      if o.Fail? {
        return Err(o.error);
      }
      var outRangeR := DenseMatrix.FromJson(outRange);
      if outRangeR.Err? {
        return Err(outRangeR.error);
      }
      o := CheckRangeNeutral(outRangeR.value);
      if o.Fail? {
        return Err(o.error);
      }
      return Ok(net);
    }
  }
}
