/**
 * The GMLVQ loader of ESN_v_003. Its model, constructor, distances and `Classify` are the ones of
 * the BeansAndBox classifier (module Gmlvq); only `FromJSON` differs: Lambda is read as given and
 * the labels come as a flat integer vector.
 */
module GmlvqV003 {
  import opened Wrappers
  import opened Numerics
  import opened DenseMatrix
  import Gmlvq

  /** The "gmlvq" object of this version: prototypes "w", labels "c_w" and the metric "lambda". */
  datatype ModelJson = ModelJson(w: seq<seq<real>>, cw: seq<int>, lambda: seq<seq<real>>)

  /** `FromJSON(jGMLVQ)`: prototypes, labels, Lambda, then the constructor. */
  function FromJsonModel(j: ModelJson): (r: Result<Gmlvq.Model>)
    ensures r.Ok? <==> FromJson(j.w).Ok? && FromJson(j.lambda).Ok?
                       && Gmlvq.Create(FromJson(j.w).value, j.cw, FromJson(j.lambda).value).Ok?
    ensures r.Ok? ==> && r.value.Valid()
                      && r.value.prototypes.cells == j.w && r.value.labels == j.cw
                      && r.value.lambda.cells == j.lambda
  {
    var w := FromJson(j.w);
    if w.Err? then Err(w.error)
    else
      var lambda := FromJson(j.lambda);
      if lambda.Err? then Err(lambda.error)
      else Gmlvq.Create(w.value, j.cw, lambda.value)
  }

  /**
   * Storing Omega Omega' under "lambda" (and the labels flat) gives the model the BeansAndBox
   * loader builds from Omega.
   */
  lemma AgreesWithOmegaLoader(j: ModelJson, jb: Gmlvq.ModelJson)
    requires j.w == jb.w && j.cw == Gmlvq.Labels(jb.cw)
    requires FromJson(jb.omega).Ok? && j.lambda == Gmlvq.Gram(FromJson(jb.omega).value).cells
    ensures FromJsonModel(j) == Gmlvq.Load(jb)
  {
    var g := Gmlvq.Gram(FromJson(jb.omega).value);
    assert Rectangular(j.lambda, FirstRowLength(j.lambda)) by {
      if |j.lambda| > 0 {
        assert |j.lambda[0]| == g.cols;
      }
    }
    assert FromJson(j.lambda).value == g by {
      if |j.lambda| > 0 {
        assert FirstRowLength(j.lambda) == g.cols;
      }
    }
  }

  /** A metric read as given need not be positive semidefinite: distances can then be negative. */
  lemma NegativeDistance()
    ensures FromJsonModel(ModelJson([[0.0]], [1], [[-1.0]])).Ok?
    ensures Gmlvq.Distance(FromJsonModel(ModelJson([[0.0]], [1], [[-1.0]])).value, [1.0], 0) == -1.0
  {
    var m := FromJsonModel(ModelJson([[0.0]], [1], [[-1.0]])).value;
    var v := Gmlvq.Difference([1.0], [0.0]);
    assert v == [1.0];
    assert Product(m.lambda, v) == [-1.0] by {
      assert Dot(m.lambda.cells[0], v) == -1.0 by {
        assert Mul([-1.0], [1.0]) == [-1.0];
      }
    }
    assert Mul(v, [-1.0]) == [-1.0];
  }
}
