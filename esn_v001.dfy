/**
 * The first Echo State Network (EchoStateNetwork of ESN_v_001): the leak acts on the
 * pre-activation `a`, the state is tanh(a), the output is the raw product W_out x, and the
 * private `matrixMult` performs no dimension check.
 */
module EsnV001 {
  import opened Wrappers
  import opened Numerics
  import opened DenseMatrix
  import WeightMatrix
  import Esn

  /**
   * `matrixMult(W, x)`: no check; row i sums W[i,j] x[j] over the entries of x only. A vector
   * longer than a row indexes past it and is excluded.
   */
  function MatrixMult(W: Mat, x: seq<real>): (y: seq<real>)
    requires |x| <= W.cols
    ensures |y| == W.Rows()
    ensures |x| == W.cols ==> y == Product(W, x)
  {
    var y := seq(W.Rows(), i requires 0 <= i < W.Rows() => Dot(W.cells[i][..|x|], x));
    assert |x| == W.cols ==> forall i :: 0 <= i < W.Rows() ==> W.cells[i][..|x|] == W.cells[i];
    y
  }

  /** A vector shorter than the rows is treated as if padded with zeros to the full width. */
  lemma MatrixMultPads(W: Mat, x: seq<real>)
    requires |x| <= W.cols
    ensures MatrixMult(W, x) == Product(W, x + Zeros(W.cols - |x|))
  {
    var padded := x + Zeros(W.cols - |x|);
    forall i | 0 <= i < W.Rows() ensures MatrixMult(W, x)[i] == Product(W, padded)[i] {
      var row := W.cells[i];
      var head := Mul(row[..|x|], x);
      var tail := Mul(row[|x|..], Zeros(W.cols - |x|));
      assert |row| == W.cols;
      forall k | 0 <= k < |row| ensures Mul(row, padded)[k] == (head + tail)[k] {
        if k < |x| {
          assert padded[k] == x[k] && row[..|x|][k] == row[k];
        } else {
          assert padded[k] == 0.0 && row[|x|..][k - |x|] == row[k];
        }
      }
      assert Mul(row, padded) == head + tail;
      SumConcat(head, tail);
      SumOfZeros(tail);
    }
  }

  /** The pre-activations after one `Update`: a' = dt (W_in u + W x) + (1 - dt) a. */
  function Preactivation(dt: real, drive: seq<real>, a: seq<real>): (a': seq<real>)
    requires |drive| == |a|
    ensures |a'| == |a|
  {
    seq(|a|, i requires 0 <= i < |a| => Esn.Leak(dt, drive[i], a[i]))
  }

  /** The state is tanh of the pre-activations, entry by entry. */
  function Activate(tanh: real -> real, a: seq<real>): (x: seq<real>)
    ensures |x| == |a|
  {
    seq(|a|, i requires 0 <= i < |a| => tanh(a[i]))
  }

  /** Whatever the pre-activations, the state lies strictly inside (-1, 1). */
  lemma ActivateBounded(tanh: TanhFn, a: seq<real>)
    ensures forall i :: 0 <= i < |a| ==> -1.0 < Activate(tanh, a)[i] < 1.0
  {
  }

  /** dt = 0 keeps the pre-activations; dt = 1 replaces them by the drive. */
  lemma PreactivationExtremes(drive: seq<real>, a: seq<real>)
    requires |drive| == |a|
    ensures Preactivation(0.0, drive, a) == a
    ensures Preactivation(1.0, drive, a) == drive
  {
  }

  /** A stand-in for tanh with the values -0.5, 0 and 0.5. */
  function Step(r: real): real
  {
    if r < 0.0 then -0.5 else if 0.0 < r then 0.5 else 0.0
  }

  /**
   * The leak acts on the pre-activation, not on the state as the comment's formula
   * x' = tanh(dt (W_in u + W x) + (1 - dt) x) has it: with dt = 0.5, drive -0.7 and a neuron whose
   * pre-activation is 1 (so its state is Step(1) = 0.5), the code moves the neuron to Step(0.15)
   * and the comment's formula to Step(-0.1).
   */
  lemma LeakOnPreactivation()
    ensures Step(1.0) == 0.5
    ensures Preactivation(0.5, [-0.7], [1.0]) == [0.15] && Step(0.15) == 0.5
    ensures Preactivation(0.5, [-0.7], [Step(1.0)]) == [-0.1] && Step(-0.1) == -0.5
  {
    assert Preactivation(0.5, [-0.7], [1.0])[0] == 0.15;
    assert Preactivation(0.5, [-0.7], [0.5])[0] == -0.1;
  }

  /** The neuron loop of `Update`: first a_i, then state_i = tanh(a_i). */
  method Integrate(tanh: real -> real, dt: real, inputState: seq<real>, newState: seq<real>, a: array<real>, x: array<real>)
    requires |inputState| == |newState| == a.Length == x.Length && a != x
    modifies a, x
    ensures a[..] == Preactivation(dt, Add(inputState, newState), old(a[..]))
    ensures x[..] == Activate(tanh, a[..])
  {
    ghost var a0 := a[..];
    ghost var goal := Preactivation(dt, Add(inputState, newState), a0);
    var i := 0;
    while i < a.Length
      invariant 0 <= i <= a.Length
      invariant forall j :: 0 <= j < a.Length ==> a[j] == if j < i then goal[j] else a0[j]
      invariant forall j :: 0 <= j < i ==> x[j] == tanh(goal[j])
    {
      a[i] := Esn.Leak(dt, inputState[i] + newState[i], a[i]);
      x[i] := tanh(a[i]);
      i := i + 1;
    }
    assert a[..] == goal;
    forall j | 0 <= j < x.Length ensures x[j] == Activate(tanh, goal)[j] {
    }
  }

  /** What `FromJSON(jReservoir, jW_out)` accepts once the input weights are read. */
  ghost predicate Loadable(wIn: Mat, res: Esn.ReservoirJson, wOut: seq<seq<real>>)
  {
    && (forall k :: 0 <= k < |res.wRes| ==> res.wRes[k].i <= res.rows && res.wRes[k].j <= res.cols)
    && DenseMatrix.FromJson(wOut).Ok?
    && wIn.Rows() == res.rows == res.cols == DenseMatrix.FromJson(wOut).value.cols
    && 0.0 <= res.dt <= 1.0
    && |res.inpOffset| == wIn.cols
    && DenseMatrix.FromJson(res.inpRange).Ok? && Esn.RangeOk(DenseMatrix.FromJson(res.inpRange).value, wIn.cols)
  }

  class EchoStateNetwork {
    const wIn: Mat
    const w: WeightMatrix.Csr
    const wOut: Mat
    var dt: real
    var inpOffset: Option<seq<real>>
    var inpRange: Option<Mat>
    /** the state after tanh */
    var state: array<real>
    /** the state before tanh */
    var a: array<real>

    function NumInputs(): nat { wIn.cols }

    function NumNeurons(): int { w.NumColumns() }

    function NumOutputs(): nat { wOut.Rows() }

    ghost predicate Valid()
      reads this
    {
      && w.Valid() && wIn.Rows() == w.M && w.M == w.N && w.N == wOut.cols
      && state.Length == w.N && a.Length == w.N && state != a
      && 0.0 <= dt <= 1.0
      && (inpOffset.Some? ==> |inpOffset.value| == NumInputs())
      && (inpRange.Some? ==> Esn.RangeOk(inpRange.value, NumInputs()))
    }

    /** The constructor once its three dimension checks have passed: state and a start at zero. */
    constructor (wIn: Mat, w: WeightMatrix.Csr, wOut: Mat)
      requires w.Valid() && wIn.Rows() == w.M && w.M == w.N && w.N == wOut.cols
      ensures Valid() && fresh(state) && fresh(a)
      ensures this.wIn == wIn && this.w == w && this.wOut == wOut
      ensures state[..] == Zeros(w.N) && a[..] == Zeros(w.N) && dt == 1.0
      ensures inpOffset == None && inpRange == None
    {
      this.wIn := wIn;
      this.w := w;
      this.wOut := wOut;
      state := new real[w.N](i => 0.0);
      a := new real[w.N](i => 0.0);
      dt := 1.0;
      inpOffset := None;
      inpRange := None;
    }

    /** `EchoStateNetwork(W_in, W, W_out)` with its three dimension checks. */
    static method Create(wIn: Mat, w: WeightMatrix.Csr, wOut: Mat) returns (r: Result<EchoStateNetwork>)
      requires w.Valid()
      ensures r.Err? <==> wIn.Rows() != w.NumRows() || w.NumRows() != w.NumColumns() || w.NumColumns() != wOut.cols
      ensures r.Err? ==> r.error == DimensionMismatch
      ensures r.Ok? ==> && fresh(r.value) && fresh(r.value.state) && fresh(r.value.a) && r.value.Valid()
                        && r.value.wIn == wIn && r.value.w == w && r.value.wOut == wOut
                        && r.value.state[..] == Zeros(w.N) && r.value.a[..] == Zeros(w.N) && r.value.dt == 1.0
                        && r.value.inpOffset == None && r.value.inpRange == None
    {
      if wIn.Rows() != w.NumRows() || w.NumRows() != w.NumColumns() || w.NumColumns() != wOut.cols {
        return Err(DimensionMismatch);
      }
      var net := new EchoStateNetwork(wIn, w, wOut);
      return Ok(net);
    }

    /** The `dt` setter: throws outside [0, 1] and then keeps the old value. */
    method SetDt(value: real) returns (o: Outcome)
      requires Valid()
      modifies this
      ensures Valid() && state == old(state) && a == old(a)
      ensures o.Fail? <==> value < 0.0 || value > 1.0
      ensures o.Fail? ==> o.error == DtOutOfRange
      ensures dt == if o.Pass? then value else old(dt)
      ensures inpOffset == old(inpOffset) && inpRange == old(inpRange)
    {
      if value < 0.0 || value > 1.0 {
        return Fail(DtOutOfRange);
      }
      dt := value;
      return Pass;
    }

    /** The `inpOffset` setter: one offset per input. */
    method SetInpOffset(value: seq<real>) returns (o: Outcome)
      requires Valid()
      modifies this
      ensures Valid() && state == old(state) && a == old(a)
      ensures o.Fail? <==> |value| != NumInputs()
      ensures o.Fail? ==> o.error == DimensionMismatch
      ensures inpOffset == if o.Pass? then Some(value) else old(inpOffset)
      ensures dt == old(dt) && inpRange == old(inpRange)
    {
      if |value| != NumInputs() {
        return Fail(DimensionMismatch);
      }
      inpOffset := Some(value);
      return Pass;
    }

    /** The `inpRange` setter: a 2 x K matrix of ordered bounds. */
    method SetInpRange(value: Mat) returns (o: Outcome)
      requires Valid()
      modifies this
      ensures Valid() && state == old(state) && a == old(a)
      ensures o.Pass? <==> Esn.RangeOk(value, NumInputs())
      ensures o.Fail? ==> o.error == DimensionMismatch || o.error.RangeOrder?
      ensures inpRange == if o.Pass? then Some(value) else old(inpRange)
      ensures dt == old(dt) && inpOffset == old(inpOffset)
    {
      o := Esn.CheckRange(value, NumInputs());
      if o.Pass? {
        inpRange := Some(value);
      }
    }

    /**
     * `Update(input)`: throws unless the input has K entries; otherwise normalizes the caller's
     * input in place, then a' = dt (W_in u + W x) + (1 - dt) a and x' = tanh(a').
     */
    method Update(tanh: TanhFn, input: array<real>) returns (o: Outcome)
      requires Valid() && inpOffset.Some? && inpRange.Some? && Esn.OpenRanges(inpRange.value)
      requires w.Reads(state[..]) && input != state && input != a
      modifies input, state, a
      ensures Valid()
      ensures o.Fail? <==> input.Length != NumInputs()
      ensures o.Fail? ==> o.error == DimensionMismatch && unchanged(input) && unchanged(state) && unchanged(a)
      ensures o.Pass? ==> && input[..] == Esn.NormalizedInput(old(input[..]), inpOffset.value, inpRange.value)
                          && Esn.Fits(wIn, w, old(state[..]), input[..])
                          && a[..] == Preactivation(dt, Esn.Drive(wIn, w, old(state[..]), input[..]), old(a[..]))
                          && state[..] == Activate(tanh, a[..])
      ensures o.Pass? ==> forall i :: 0 <= i < state.Length ==> -1.0 < state[i] < 1.0
    {
      if input.Length != wIn.cols {
        return Fail(DimensionMismatch);
      }
      Esn.NormalizeInPlace(input, inpOffset.value, inpRange.value);
      ghost var x := state[..];
      ghost var u := input[..];
      var applied := w.Apply(state[..]);
      var newState := applied.value;
      var inputState := MatrixMult(wIn, input[..]);
      assert Add(inputState, newState) == Esn.Drive(wIn, w, x, u);
      Integrate(tanh, dt, inputState, newState, a, state);
      ActivateBounded(tanh, a[..]);
      return Pass;
    }

    /** `GetOutput()`: the raw product W_out x, without denormalization. */
    function GetOutput(): (y: seq<real>)
      reads this, state
      requires Valid()
      ensures |y| == NumOutputs() && y == Product(wOut, state[..])
    {
      MatrixMult(wOut, state[..])
    }

    /** `GetOutputClassification()`: every output rounded into {-1, 0, 1}. */
    function GetOutputClassification(): (y: seq<real>)
      reads this, state
      requires Valid()
      ensures |y| == NumOutputs()
      ensures forall i :: 0 <= i < |y| ==> y[i] == -1.0 || y[i] == 0.0 || y[i] == 1.0
      ensures forall i :: 0 <= i < |y| ==> (y[i] == -1.0 <==> GetOutput()[i] < -0.5)
      ensures forall i :: 0 <= i < |y| ==> (y[i] == 1.0 <==> 0.5 <= GetOutput()[i])
    {
      var out := GetOutput();
      seq(|out|, i requires 0 <= i < |out| => Esn.Classify(out[i]))
    }

    /**
     * `FromJSON(jReservoir, jW_out)`: input weights, reservoir matrix, output weights, the
     * constructor, then the dt, inpOffset and inpRange setters.
     */
    static method FromJson(res: Esn.ReservoirJson, wOut: seq<seq<real>>) returns (r: Result<EchoStateNetwork>)
      requires -1 <= res.rows
      ensures r.Ok? <==> DenseMatrix.FromJson(res.wInp).Ok? && Loadable(DenseMatrix.FromJson(res.wInp).value, res, wOut)
      ensures r.Ok? ==> && fresh(r.value) && fresh(r.value.state) && fresh(r.value.a) && r.value.Valid()
                        && r.value.wIn == DenseMatrix.FromJson(res.wInp).value
                        && r.value.wOut == DenseMatrix.FromJson(wOut).value
                        && WeightMatrix.LoadedFrom(r.value.w, res.wRes, res.rows, res.cols)
                        && r.value.state[..] == Zeros(DenseMatrix.FromJson(res.wInp).value.Rows())
                        && r.value.a[..] == Zeros(DenseMatrix.FromJson(res.wInp).value.Rows())
                        && r.value.dt == res.dt && r.value.inpOffset == Some(res.inpOffset)
                        && r.value.inpRange == Some(DenseMatrix.FromJson(res.inpRange).value)
    {
      var wInR := DenseMatrix.FromJson(res.wInp);
      if wInR.Err? {
        return Err(wInR.error);
      }
      var wr, sorted := WeightMatrix.FromJson(res.wRes, res.rows, res.cols);
      if wr.Err? {
        return Err(wr.error);
      }
      var wOutR := DenseMatrix.FromJson(wOut);
      if wOutR.Err? {
        return Err(wOutR.error);
      }
      var created := Create(wInR.value, wr.value, wOutR.value);
      if created.Err? {
        return Err(created.error);
      }
      var net := created.value;
      var o := net.SetDt(res.dt);
      if o.Fail? {
        return Err(o.error);
      }
      o := net.SetInpOffset(res.inpOffset);
      if o.Fail? {
        return Err(o.error);
      }
      var inpRangeR := DenseMatrix.FromJson(res.inpRange);
      if inpRangeR.Err? {
        return Err(inpRangeR.error);
      }
      o := net.SetInpRange(inpRangeR.value);
      if o.Fail? {
        return Err(o.error);
      }
      return Ok(net);
    }
  }
}
