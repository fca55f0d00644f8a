/**
 * The prosthesis controller driven by the BeansAndBox Echo State Network (EchoStateController):
 * loading the network from a configuration directory, and the step run for every EMG frame that
 * completes a window, which feeds the window's features to the network and takes the two
 * deadbanded outputs as the opening and rotation velocities.
 */
module EchoStateController {
  import opened Wrappers
  import opened Numerics
  import opened Paths
  import DenseMatrix
  import WeightMatrix
  import Esn

  const ReservoirFile: string := "current_reservoir.json"
  const OutputFile: string := "current_output_weights.json"

  /** The network of a controller that has loaded a configuration. */
  ghost predicate Ready(esn: Esn.EchoStateNetwork)
    reads esn, esn.state
  {
    && esn.Valid()
    && esn.inpOffset.Some? && esn.inpRange.Some? && Esn.OpenRanges(esn.inpRange.value)
    && esn.outOffset.Some? && esn.outRange.Some?
    && 2 <= esn.NumOutputs()
    && esn.w.Reads(esn.state[..])
  }

  class Controller {
    var esn: Esn.EchoStateNetwork?
    var openVelo: real
    var rotationVelo: real

    /** A controller before `SetConfiguration`: no network, both velocities 0. */
    constructor ()
      ensures esn == null && openVelo == 0.0 && rotationVelo == 0.0
    {
      esn := null;
      openVelo := 0.0;
      rotationVelo := 0.0;
    }

    /**
     * `SetConfiguration(configPath)`: both files must exist (the output file is reported when
     * both are missing); a network that fails to load leaves the old one in place. Every exception
     * of the loader is caught, including the one for a reservoir row count below -1, whose
     * `row_ptr` would have a negative length; that one is thrown once the input weights are read.
     */
    method SetConfiguration(configPath: string, reservoirExists: bool, outputExists: bool,
                            res: Esn.ReservoirJson, out: Esn.OutputJson) returns (o: Outcome)
      modifies this
      ensures openVelo == old(openVelo) && rotationVelo == old(rotationVelo)
      ensures !outputExists ==> o == Fail(MissingResource(Combine(configPath, OutputFile)))
      ensures outputExists && !reservoirExists ==> o == Fail(MissingResource(Combine(configPath, ReservoirFile)))
      ensures reservoirExists && outputExists ==>
                (o.Pass? <==> DenseMatrix.FromJson(res.wInp).Ok? && Esn.Loadable(DenseMatrix.FromJson(res.wInp).value, res, out))
      ensures reservoirExists && outputExists && res.rows < -1 && DenseMatrix.FromJson(res.wInp).Ok? ==>
                o == Fail(NegativeLength(res.rows + 1))
      ensures o.Fail? ==> esn == old(esn)
      ensures o.Pass? ==> && esn != null && fresh(esn) && fresh(esn.state) && esn.Valid() && esn.Bounded()
                          && esn.wIn == DenseMatrix.FromJson(res.wInp).value && esn.dt == res.dt
                          && esn.wOut == DenseMatrix.FromJson(out.wOut).value
                          && WeightMatrix.LoadedFrom(esn.w, res.wRes, res.rows, res.cols)
                          && esn.state[..] == Zeros(DenseMatrix.FromJson(res.wInp).value.Rows())
                          && esn.inpOffset == Some(res.inpOffset)
                          && esn.inpRange == Some(DenseMatrix.FromJson(res.inpRange).value)
                          && esn.outOffset == Some(out.outOffset)
                          && esn.outRange == Some(DenseMatrix.FromJson(out.outRange).value)
    {
      var resDir := Combine(configPath, ReservoirFile);
      var outDir := Combine(configPath, OutputFile);
      if !reservoirExists || !outputExists {
        return Fail(MissingResource(if !outputExists then outDir else resDir));
      }
      if res.rows < -1 {
        var wInR := DenseMatrix.FromJson(res.wInp);
        return Fail(if wInR.Err? then wInR.error else NegativeLength(res.rows + 1));
      }
      var loaded := Esn.EchoStateNetwork.FromJson(res, out);
      if loaded.Err? {
        return Fail(loaded.error);
      }
      esn := loaded.value;
      return Pass;
    }

    /**
     * The step of `emg_changed`: `stored` is what `buffer.store` returned for the frame and
     * `features` the feature vector of the retrieved, filtered window. On a completed window the
     * network is updated and the velocities become its first two normalized outputs; a feature
     * vector of the wrong length throws and changes nothing.
     */
    method Decode(tanh: TanhFn, stored: bool, features: array<real>) returns (o: Outcome)
      requires esn != null && Ready(esn) && features != esn.state
      modifies this, esn.state, features
      ensures esn == old(esn) && Ready(esn)
      ensures !stored ==> o == Pass
      ensures o.Fail? <==> stored && features.Length != esn.NumInputs()
      ensures !stored || o.Fail? ==> && openVelo == old(openVelo) && rotationVelo == old(rotationVelo)
                                     && unchanged(esn.state) && unchanged(features)
      ensures stored && o.Pass? ==>
                && esn.state[..] == Esn.NextState(tanh, esn.dt, esn.wIn, esn.w, old(esn.state[..]),
                                                  Esn.NormalizedInput(old(features[..]), esn.inpOffset.value, esn.inpRange.value))
                && openVelo == esn.GetNormalizedOutput()[0]
                && rotationVelo == esn.GetNormalizedOutput()[1]
      ensures old(esn.Bounded()) ==> esn.Bounded()
    {
      if !stored {
        return Pass;
      }
      o := esn.Update(tanh, features);
      if o.Pass? {
        TakeOutput();
      }
    }

    /** The two velocities become the network's first two normalized outputs. */
    method TakeOutput()
      requires esn != null && esn.Valid() && esn.outOffset.Some? && esn.outRange.Some? && 2 <= esn.NumOutputs()
      modifies this
      ensures esn == old(esn)
      ensures openVelo == esn.GetNormalizedOutput()[0] && rotationVelo == esn.GetNormalizedOutput()[1]
    {
      var output := esn.GetNormalizedOutput();
      openVelo := output[0];
      rotationVelo := output[1];
    }
  }
}
