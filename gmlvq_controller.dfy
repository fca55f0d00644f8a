/**
 * The prosthesis controller driven by two GMLVQ models (GMLVQController): one model decides the
 * opening direction, the other the rotation direction. Every completed window's features are
 * optionally mapped by a transfer matrix, classified by both models, and the two labels are
 * smoothed exponentially into the opening and rotation velocities; a rotation the second model is
 * unsure of is suppressed while the hand opens or closes.
 */
module GmlvqController {
  import opened Wrappers
  import opened Numerics
  import opened Paths
  import opened DenseMatrix
  import Gmlvq

  const ModelFile: string := "gmlvq_model.json"
  const TransformFile: string := "transfer_mapping.json"

  /** The smoothing weight `dt` (0.45) of the newest label. */
  const Dt: real := 0.45

  /** One smoothing step: the label, scaled to 0.8, weighted by dt against the old velocity. */
  function Smooth(direction: int, velocity: real): (r: real)
    ensures velocity < 0.8 * direction as real ==> velocity < r <= 0.8 * direction as real
    ensures 0.8 * direction as real < velocity ==> 0.8 * direction as real <= r < velocity
  {
    Dt * (direction as real) * 0.8 + (1.0 - Dt) * velocity
  }

  /** Velocities within [-0.8, 0.8] stay there under labels in {-1, 0, 1}. */
  lemma SmoothBounded(direction: int, velocity: real)
    requires -1 <= direction <= 1 && -0.8 <= velocity <= 0.8
    ensures -0.8 <= Smooth(direction, velocity) <= 0.8
  {
  }

  /** A label held constant drives the velocity towards 0.8 times the label: that value is the fixed point. */
  lemma SmoothFixedPoint(direction: int, velocity: real)
    ensures Smooth(direction, velocity) == velocity <==> velocity == 0.8 * direction as real
  {
    var v := 0.8 * direction as real;
    assert Smooth(direction, velocity) - velocity == Dt * (v - velocity);
  }

  /** The step moves the velocity strictly closer to the fixed point, by the factor 1 - dt. */
  lemma SmoothContracts(direction: int, velocity: real)
    ensures Smooth(direction, velocity) - 0.8 * direction as real == (1.0 - Dt) * (velocity - 0.8 * direction as real)
  {
  }

  /**
   * The gating rule: while the opening label is not 0, a rotation label with confidence below
   * 0.5 becomes 0. A non-finite confidence (NaN for a model with nonnegative distances) never
   * compares below 0.5 and so keeps the label.
   */
  function Gate(openLabel: int, rotationLabel: int, rotationConfidence: Double): (g: int)
    ensures g == rotationLabel || g == 0
    ensures g != rotationLabel <==> rotationLabel != 0 && openLabel != 0 && rotationConfidence.Finite? && rotationConfidence.value < 0.5
  {
    if openLabel != 0 && rotationConfidence.Finite? && rotationConfidence.value < 0.5 then 0 else rotationLabel
  }

  /** The features after the optional transfer matrix; a matrix of the wrong width throws. */
  function Transformed(trafo: Option<Mat>, features: seq<real>): (r: Result<seq<real>>)
    ensures trafo.None? ==> r == Ok(features)
    ensures trafo.Some? ==> r == MultiplyVector(trafo.value, features)
  {
    if trafo.None? then Ok(features) else MultiplyVector(trafo.value, features)
  }

  /** Model m of the controller can classify the features: m x m metric, K > 0, enough features. */
  ghost predicate Usable(model: Gmlvq.Model, features: seq<real>)
  {
    model.Valid() && model.M() <= |features| && 0 < model.K()
  }

  /** Every prototype label is a direction in {-1, 0, 1}. */
  ghost predicate DirectionLabels(model: Gmlvq.Model)
  {
    forall k :: 0 <= k < |model.labels| ==> -1 <= model.labels[k] <= 1
  }

  class Controller {
    var models: seq<Gmlvq.Model>
    var trafoMatrix: Option<Mat>
    var openVelo: real
    var rotationVelo: real

    /** A controller before `SetConfiguration`: no models, no transfer matrix, both velocities 0. */
    constructor ()
      ensures models == [] && trafoMatrix == None && openVelo == 0.0 && rotationVelo == 0.0
    {
      models := [];
      trafoMatrix := None;
      openVelo := 0.0;
      rotationVelo := 0.0;
    }

    /** Both velocities lie in [-0.8, 0.8]. */
    ghost predicate Bounded()
      reads this
    {
      -0.8 <= openVelo <= 0.8 && -0.8 <= rotationVelo <= 0.8
    }

    /**
     * `SetConfiguration(configPath)`: the transfer matrix is replaced first (by the file's matrix,
     * or by none when the file is absent; a malformed one throws out of the method). Then the
     * model file must exist and hold exactly two models; the models are replaced before their
     * count is checked.
     */
    method SetConfiguration(configPath: string, transformExists: bool, transform: seq<seq<real>>,
                            modelExists: bool, modelJson: seq<seq<Gmlvq.ModelJson>>) returns (o: Outcome)
      modifies this
      ensures openVelo == old(openVelo) && rotationVelo == old(rotationVelo)
      ensures transformExists && FromJson(transform).Err? ==>
                o == Fail(FromJson(transform).error) && trafoMatrix == old(trafoMatrix) && models == old(models)
      ensures !(transformExists && FromJson(transform).Err?) ==>
                trafoMatrix == (if transformExists then Some(FromJson(transform).value) else None)
      ensures !(transformExists && FromJson(transform).Err?) && !modelExists ==>
                o == Fail(MissingResource(Combine(configPath, ModelFile))) && models == old(models)
      ensures o.Pass? <==> && (transformExists ==> FromJson(transform).Ok?) && modelExists
                           && Gmlvq.MultiLoaded(modelJson) && |modelJson| == 2
      ensures o.Pass? ==> |models| == 2 && forall m :: 0 <= m < 2 ==> Gmlvq.Element(modelJson[m]) == Ok(models[m])
      ensures (transformExists ==> FromJson(transform).Ok?) && modelExists && Gmlvq.MultiLoaded(modelJson) && |modelJson| != 2 ==>
                o == Fail(WrongModelCount(|modelJson|)) && |models| == |modelJson|
    {
      if transformExists {
        var t := FromJson(transform);
        if t.Err? {
          return Fail(t.error);
        }
        trafoMatrix := Some(t.value);
      } else {
        trafoMatrix := None;
      }
      if !modelExists {
        return Fail(MissingResource(Combine(configPath, ModelFile)));
      }
      var loaded := Gmlvq.MultiFromJson(modelJson);
      if loaded.Err? {
        return Fail(loaded.error);
      }
      models := loaded.value;
      if |models| != 2 {
        return Fail(WrongModelCount(|models|));
      }
      return Pass;
    }

    /**
     * The step of `emg_changed`: `stored` is what `buffer.store` returned for the frame and
     * `features` the feature vector of the retrieved, filtered window.
     */
    method Decode(stored: bool, features: seq<real>) returns (o: Outcome)
      requires 2 <= |models|
      requires Transformed(trafoMatrix, features).Ok? ==>
                 Usable(models[0], Transformed(trafoMatrix, features).value) && Usable(models[1], Transformed(trafoMatrix, features).value)
      modifies this
      ensures models == old(models) && trafoMatrix == old(trafoMatrix)
      ensures o.Fail? <==> stored && Transformed(trafoMatrix, features).Err?
      ensures o.Fail? ==> o.error == DimensionMismatch
      ensures !stored || o.Fail? ==> openVelo == old(openVelo) && rotationVelo == old(rotationVelo)
      ensures stored && o.Pass? ==>
                var x := Transformed(trafoMatrix, features).value;
                var dOpen := Gmlvq.Distances(models[0], x);
                var dRotation := Gmlvq.Distances(models[1], x);
                var openLabel := models[0].labels[Gmlvq.ArgMin(dOpen)];
                var rotationLabel := models[1].labels[Gmlvq.ArgMin(dRotation)];
                var rotationConfidence := Gmlvq.ConfidenceOf(Gmlvq.Scan(dRotation).dMinus, dRotation[Gmlvq.ArgMin(dRotation)]);
                && openVelo == Smooth(openLabel, old(openVelo))
                && rotationVelo == Smooth(Gate(openLabel, rotationLabel, rotationConfidence), old(rotationVelo))
      ensures old(Bounded()) && DirectionLabels(models[0]) && DirectionLabels(models[1]) ==> Bounded()
    {
      if !stored {
        return Pass;
      }
      var x := Transformed(trafoMatrix, features);
      if x.Err? {
        return Fail(x.error);
      }
      var openLabel, openConfidence := Gmlvq.Confidence(models[0], x.value);
      var rotationLabel, rotationConfidence := Gmlvq.Confidence(models[1], x.value);
      if DirectionLabels(models[0]) && DirectionLabels(models[1]) && Bounded() {
        SmoothBounded(openLabel, openVelo);
        SmoothBounded(Gate(openLabel, rotationLabel, rotationConfidence), rotationVelo);
      }
      openVelo := Smooth(openLabel, openVelo);
      rotationLabel := Gate(openLabel, rotationLabel, rotationConfidence);
      rotationVelo := Smooth(rotationLabel, rotationVelo);
      return Pass;
    }
  }
}
