/**
 * The GMLVQ classifier of BeansAndBox (GMLVQModel): K prototypes in m dimensions, one label per
 * prototype and a learned m x m metric Lambda. A point is given the label of its nearest prototype
 * under the distance (x - w_k)' Lambda (x - w_k); the label 1..9 encodes two degrees of freedom.
 */
module Gmlvq {
  import opened Wrappers
  import opened Numerics
  import opened DenseMatrix

  /** A model: the prototypes (K x m), their labels and the metric Lambda (m x m). */
  datatype Model = Model(prototypes: Mat, labels: seq<int>, lambda: Mat) {
    /** The number of prototypes. */
    function K(): nat { prototypes.Rows() }

    /** The number of data dimensions. */
    function M(): nat { prototypes.cols }

    /** What the constructor checks: one label per prototype and an m x m metric. */
    ghost predicate Valid()
    {
      |labels| == K() && lambda.Rows() == M() && lambda.cols == M()
    }
  }

  /** `GMLVQModel(Prototypes, Prototype_Labels, Lambda)`: the label count is checked before Lambda's shape. */
  function Create(prototypes: Mat, labels: seq<int>, lambda: Mat): (r: Result<Model>)
    ensures r.Ok? <==> |labels| == prototypes.Rows() && lambda.Rows() == prototypes.cols && lambda.cols == prototypes.cols
    ensures r.Err? ==> r.error == DimensionMismatch
    ensures r.Ok? ==> r.value.Valid() && r.value == Model(prototypes, labels, lambda)
  {
    if prototypes.Rows() != |labels| then Err(DimensionMismatch)
    else if prototypes.cols != lambda.Rows() || prototypes.cols != lambda.cols then Err(DimensionMismatch)
    else Ok(Model(prototypes, labels, lambda))
  }

  // ---------------------------------------------------------------------------------------------
  // Distances

  /** The first m entries of x minus the prototype w. */
  function Difference(x: seq<real>, w: seq<real>): (v: seq<real>)
    requires |w| <= |x|
    ensures |v| == |w|
  {
    seq(|w|, i requires 0 <= i < |w| => x[i] - w[i])
  }

  /** The quadratic form v' L v. */
  function QuadraticForm(L: Mat, v: seq<real>): real
    requires L.Rows() == |v| && L.cols == |v|
  {
    Dot(v, Product(L, v))
  }

  /** The squared distance of x to prototype k under the model's metric. */
  function Distance(model: Model, x: seq<real>, k: nat): (r: real)
    requires model.Valid() && model.M() <= |x| && k < model.K()
    ensures r == QuadraticForm(model.lambda, Difference(x[..model.M()], model.prototypes.cells[k]))
  {
    assert Difference(x, model.prototypes.cells[k]) == Difference(x[..model.M()], model.prototypes.cells[k]);
    QuadraticForm(model.lambda, Difference(x, model.prototypes.cells[k]))
  }

  /** The distances of x to all K prototypes, in prototype order. */
  function Distances(model: Model, x: seq<real>): (d: seq<real>)
    requires model.Valid() && model.M() <= |x|
    ensures |d| == model.K()
  {
    seq(model.K(), k requires 0 <= k < model.K() => Distance(model, x, k))
  }

  /** A point at a prototype is at distance 0 from it, whatever the metric. */
  lemma DistanceAtPrototype(model: Model, x: seq<real>, k: nat)
    requires model.Valid() && model.M() <= |x| && k < model.K()
    requires x[..model.M()] == model.prototypes.cells[k]
    ensures Distance(model, x, k) == 0.0
  {
    var v := Difference(x, model.prototypes.cells[k]);
    forall i | 0 <= i < |v| ensures v[i] == 0.0 {
      assert x[..model.M()][i] == x[i];
    }
    var p := Product(model.lambda, v);
    forall i | 0 <= i < |v| ensures Mul(v, p)[i] == 0.0 {
    }
    SumOfZeros(Mul(v, p));
  }

  /** `Lambda = Omega * Omega'`: the metric `FromJSON` builds. */
  function Gram(omega: Mat): (lambda: Mat)
    ensures lambda.Rows() == omega.Rows() && lambda.cols == omega.Rows()
  {
    Compose(omega, Transpose(omega))
  }

  /** Under a metric of the form Omega Omega', every distance is nonnegative. */
  lemma GramDistanceNonnegative(model: Model, omega: Mat, x: seq<real>, k: nat)
    requires model.Valid() && model.M() <= |x| && k < model.K()
    requires model.lambda == Gram(omega)
    ensures 0.0 <= Distance(model, x, k)
  {
    GramNonnegative(omega, Difference(x, model.prototypes.cells[k]));
  }

  /** The inner loop of `DistanceToPrototypes`: the running sum over row i of L times v. */
  method RowTimes(L: Mat, i: nat, v: seq<real>) returns (t: real)
    requires i < L.Rows() && L.cols == |v|
    ensures t == Dot(L.cells[i], v)
  {
    t := 0.0;
    var j := 0;
    while j < |v|
      invariant 0 <= j <= |v|
      invariant t == Dot(L.cells[i][..j], v[..j])
    {
      DotPrefixStep(L.cells[i], v, j);
      t := t + L.cells[i][j] * v[j];
      j := j + 1;
    }
    assert L.cells[i][..j] == L.cells[i] && v[..j] == v;
  }

  /** The middle loop of `DistanceToPrototypes`: the sum over i of v[i] times row i of L v. */
  method QuadraticFormLoop(L: Mat, v: seq<real>) returns (q: real)
    requires L.Rows() == |v| && L.cols == |v|
    ensures q == QuadraticForm(L, v)
  {
    ghost var p := Product(L, v);
    q := 0.0;
    var i := 0;
    while i < |v|
      invariant 0 <= i <= |v|
      invariant q == Dot(v[..i], p[..i])
    {
      var t := RowTimes(L, i, v);
      DotPrefixStep(v, p, i);
      q := q + v[i] * t;
      i := i + 1;
    }
    assert v[..i] == v && p[..i] == p;
  }

  /** The first loop of `DistanceToPrototypes`: x - w[k, :]. */
  method DifferenceLoop(x: seq<real>, w: seq<real>) returns (diff: array<real>)
    requires |w| <= |x|
    ensures fresh(diff) && diff[..] == Difference(x, w)
  {
    diff := new real[|w|];
    var i := 0;
    while i < |w|
      invariant 0 <= i <= |w|
      invariant forall j :: 0 <= j < i ==> diff[j] == x[j] - w[j]
    {
      diff[i] := x[i] - w[i];
      i := i + 1;
    }
  }

  /** `DistanceToPrototypes(x)`: one distance per prototype; x needs at least m entries. */
  method DistanceToPrototypes(model: Model, x: seq<real>) returns (d: array<real>)
    requires model.Valid() && model.M() <= |x|
    ensures fresh(d) && d[..] == Distances(model, x)
  {
    d := new real[model.K()](k => 0.0);
    var k := 0;
    while k < model.K()
      invariant 0 <= k <= model.K()
      invariant forall j :: 0 <= j < k ==> d[j] == Distance(model, x, j)
    {
      var diff := DifferenceLoop(x, model.prototypes.cells[k]);
      d[k] := QuadraticFormLoop(model.lambda, diff[..]);
      k := k + 1;
    }
  }

  // ---------------------------------------------------------------------------------------------
  // Nearest prototype

  /** Index k is the first minimum of d: no entry is smaller, every earlier entry is larger. */
  ghost predicate IsFirstMin(d: seq<real>, k: int)
  {
    && 0 <= k < |d|
    && (forall j :: 0 <= j < |d| ==> d[k] <= d[j])
    && (forall j :: 0 <= j < k ==> d[k] < d[j])
  }

  /** The scan of `Classify`: move to a later index only on a strictly smaller entry. */
  function ArgMin(d: seq<real>): (k: nat)
    requires |d| > 0
    ensures IsFirstMin(d, k)
  {
    if |d| == 1 then 0
    else
      var k := ArgMin(d[..|d| - 1]);
      if d[|d| - 1] < d[k] then |d| - 1 else k
  }

  /** There is only one first minimum. */
  lemma FirstMinUnique(d: seq<real>, k: int, l: int)
    requires IsFirstMin(d, k) && IsFirstMin(d, l)
    ensures k == l
  {
    assert d[k] <= d[l] && d[l] <= d[k];
  }

  /** `Classify(x)`: the label of the first prototype at the smallest distance; K must be positive. */
  method Classify(model: Model, x: seq<real>) returns (y: int)
    requires model.Valid() && model.M() <= |x| && 0 < model.K()
    ensures y == model.labels[ArgMin(Distances(model, x))]
  {
    var d := DistanceToPrototypes(model, x);
    var minK := 0;
    var k := 1;
    while k < d.Length
      invariant 1 <= k <= d.Length
      invariant IsFirstMin(d[..k], minK)
    {
      if d[k] < d[minK] {
        minK := k;
      }
      k := k + 1;
    }
    assert d[..k] == d[..];
    FirstMinUnique(d[..], minK, ArgMin(d[..]));
    y := model.labels[minK];
  }

  /** The label `Classify` returns belongs to a prototype no farther from x than any other. */
  lemma ClassifyIsNearest(model: Model, x: seq<real>)
    requires model.Valid() && model.M() <= |x| && 0 < model.K()
    ensures var k := ArgMin(Distances(model, x));
            forall j :: 0 <= j < model.K() ==> Distance(model, x, k) <= Distance(model, x, j)
  {
    var d := Distances(model, x);
    var k := ArgMin(d);
    forall j | 0 <= j < model.K() ensures Distance(model, x, k) <= Distance(model, x, j) {
      assert d[k] <= d[j];
    }
  }

  // ---------------------------------------------------------------------------------------------
  // Confidence

  /** The locals of the `Confidence` scan: the running minimum and `d_minus` (None for +infinity). */
  datatype ScanState = ScanState(minK: nat, dMinus: Option<real>)

  /** The `Confidence` loop over d: d_minus takes every entry that does not improve the running minimum. */
  function Scan(d: seq<real>): (s: ScanState)
    requires |d| > 0
    ensures s.minK == ArgMin(d)
  {
    if |d| == 1 then ScanState(0, None)
    else
      var s := Scan(d[..|d| - 1]);
      var x := d[|d| - 1];
      if x < d[s.minK] then ScanState(|d| - 1, s.dMinus)
      else if s.dMinus.None? || x < s.dMinus.value then ScanState(s.minK, Some(x))
      else s
  }

  /** Entry k (k >= 1) does not improve the minimum of the entries before it. */
  ghost predicate Displaced(d: seq<real>, k: nat)
    requires k < |d|
  {
    1 <= k && d[ArgMin(d[..k])] <= d[k]
  }

  /**
   * d_minus is the smallest entry at an index k >= 1 that did not improve the running minimum,
   * and +infinity when there is none; entry 0 and displaced minima never count.
   */
  lemma ScanMinus(d: seq<real>)
    requires |d| > 0
    ensures Scan(d).dMinus.None? <==> forall k :: 0 <= k < |d| ==> !Displaced(d, k)
    ensures Scan(d).dMinus.Some? ==>
              (exists k :: 0 <= k < |d| && Displaced(d, k) && d[k] == Scan(d).dMinus.value)
              && forall k :: 0 <= k < |d| && Displaced(d, k) ==> Scan(d).dMinus.value <= d[k]
  {
    ScanMinusNone(d);
    ScanMinusAttained(d);
    ScanMinusLeast(d);
  }

  lemma {:induction false} ScanMinusNone(d: seq<real>)
    requires |d| > 0
    ensures Scan(d).dMinus.None? <==> forall k :: 0 <= k < |d| ==> !Displaced(d, k)
    decreases |d|
  {
    if |d| > 1 {
      var n := |d| - 1;
      ScanMinusNone(d[..n]);
      DisplacedPrefix(d, n);
      ScanLast(d);
    }
  }

  lemma {:induction false} ScanMinusAttained(d: seq<real>)
    requires |d| > 0
    ensures Scan(d).dMinus.Some? ==> exists k :: 0 <= k < |d| && Displaced(d, k) && d[k] == Scan(d).dMinus.value
    decreases |d|
  {
    if |d| > 1 {
      var n := |d| - 1;
      var p := d[..n];
      ScanMinusAttained(p);
      DisplacedPrefix(d, n);
      ScanLast(d);
      var s := Scan(p);
      if Scan(d).dMinus.Some? && Scan(d).dMinus == s.dMinus {
        var k :| 0 <= k < n && Displaced(p, k) && p[k] == s.dMinus.value;
        assert Displaced(d, k) && d[k] == Scan(d).dMinus.value;
      }
    }
  }

  lemma {:induction false} ScanMinusLeast(d: seq<real>)
    requires |d| > 0
    ensures Scan(d).dMinus.Some? ==> forall k :: 0 <= k < |d| && Displaced(d, k) ==> Scan(d).dMinus.value <= d[k]
    decreases |d|
  {
    if |d| > 1 {
      var n := |d| - 1;
      var p := d[..n];
      ScanMinusNone(p);
      ScanMinusLeast(p);
      DisplacedPrefix(d, n);
      ScanLast(d);
    }
  }

  /** The last entry of d is displaced exactly when it does not improve the minimum before it, and then it may become d_minus. */
  lemma ScanLast(d: seq<real>)
    requires |d| > 1
    ensures var n := |d| - 1;
            var s := Scan(d[..n]);
            && (Displaced(d, n) <==> d[s.minK] <= d[n])
            && Scan(d).dMinus
               == if !Displaced(d, n) then s.dMinus
                  else if s.dMinus.None? || d[n] < s.dMinus.value then Some(d[n])
                  else s.dMinus
  {
  }

  /** Whether entry k < n is displaced depends only on the entries before n. */
  lemma DisplacedPrefix(d: seq<real>, n: nat)
    requires n <= |d|
    ensures forall k :: 0 <= k < n ==> (Displaced(d, k) <==> Displaced(d[..n], k))
  {
    forall k | 0 <= k < n ensures Displaced(d, k) <==> Displaced(d[..n], k) {
      assert d[..k] == d[..n][..k];
    }
  }

  /** When prototype 0 is a nearest one, d_minus is the true second-smallest distance. */
  lemma ScanFromFirstNearest(d: seq<real>)
    requires |d| >= 2 && IsFirstMin(d, 0)
    ensures Scan(d).minK == 0 && Scan(d).dMinus.Some?
    ensures exists k :: 1 <= k < |d| && d[k] == Scan(d).dMinus.value
    ensures forall k :: 1 <= k < |d| ==> Scan(d).dMinus.value <= d[k]
  {
    forall k | 1 <= k < |d| ensures Displaced(d, k) {
      assert IsFirstMin(d[..k], 0);
      FirstMinUnique(d[..k], 0, ArgMin(d[..k]));
    }
    assert Displaced(d, 1);
    ScanMinus(d);
  }

  /** Otherwise d_minus can miss the second-smallest distance, or stay +infinity with K = 2. */
  lemma ScanMissesDisplacedMinimum()
    ensures Scan([2.0, 1.0, 3.0]) == ScanState(1, Some(3.0))
    ensures Scan([2.0, 1.0]) == ScanState(1, None)
  {
    assert [2.0, 1.0, 3.0][..2] == [2.0, 1.0];
    assert [2.0, 1.0][..1] == [2.0];
  }

  /** `(d_minus - d[min_k]) / (d_minus + d[min_k])`: not finite for d_minus = +infinity or a zero denominator. */
  function ConfidenceOf(dMinus: Option<real>, dMin: real): (r: Double)
    ensures r.Finite? ==> dMinus.Some? && r.value * (dMinus.value + dMin) == dMinus.value - dMin
    ensures dMinus == Some(dMin) && dMin != 0.0 ==> r == Finite(0.0)
    ensures dMinus.Some? && dMinus.value != 0.0 && dMin == 0.0 ==> r == Finite(1.0)
  {
    if dMinus.None? || dMinus.value + dMin == 0.0 then NonFinite
    else
      var q := (dMinus.value - dMin) / (dMinus.value + dMin);
      RatioEnds(dMin, dMinus.value);
      Finite(q)
  }

  /** With nonnegative distances a finite confidence lies in [0, 1]; it is finite whenever d_minus is finite and positive. */
  lemma ConfidenceInUnitRange(d: seq<real>)
    requires |d| > 0 && forall k :: 0 <= k < |d| ==> 0.0 <= d[k]
    ensures Scan(d).dMinus.Some? && 0.0 < Scan(d).dMinus.value ==> ConfidenceOf(Scan(d).dMinus, d[Scan(d).minK]).Finite?
    ensures ConfidenceOf(Scan(d).dMinus, d[Scan(d).minK]).Finite? ==>
              0.0 <= ConfidenceOf(Scan(d).dMinus, d[Scan(d).minK]).value <= 1.0
  {
    var s := Scan(d);
    if s.dMinus.Some? {
      MinusAboveMin(d);
    }
    ConfidenceOfBounds(s.dMinus, d[s.minK]);
  }

  /** The margin is 0 for equal distances and 1 for a minimum of 0. */
  lemma RatioEnds(a: real, b: real)
    requires a + b != 0.0
    ensures a == b ==> (b - a) / (b + a) == 0.0
    ensures a == 0.0 ==> (b - a) / (b + a) == 1.0
  {
    var q := (b - a) / (b + a);
    assert q * (b + a) == b - a;
    if a == 0.0 {
      assert (q - 1.0) * b == 0.0;
    }
  }

  /** The margin of a nonnegative minimum and a d_minus above it. */
  lemma ConfidenceOfBounds(dMinus: Option<real>, dMin: real)
    requires 0.0 <= dMin && (dMinus.Some? ==> dMin <= dMinus.value)
    ensures dMinus.Some? && 0.0 < dMinus.value ==> ConfidenceOf(dMinus, dMin).Finite?
    ensures ConfidenceOf(dMinus, dMin).Finite? ==> 0.0 <= ConfidenceOf(dMinus, dMin).value <= 1.0
  {
    if dMinus.Some? && dMinus.value + dMin != 0.0 {
      UnitRatio(dMin, dMinus.value);
    }
  }

  /** d_minus is never below the smallest distance. */
  lemma MinusAboveMin(d: seq<real>)
    requires |d| > 0 && Scan(d).dMinus.Some?
    ensures d[Scan(d).minK] <= Scan(d).dMinus.value
  {
    ScanMinus(d);
    var k :| 0 <= k < |d| && Displaced(d, k) && d[k] == Scan(d).dMinus.value;
    assert IsFirstMin(d, Scan(d).minK);
  }

  /** For 0 <= a <= b and b > 0, (b - a) / (b + a) lies in [0, 1]. */
  lemma UnitRatio(a: real, b: real)
    requires 0.0 <= a <= b && a + b != 0.0
    ensures 0.0 <= (b - a) / (b + a) <= 1.0
  {
    var q := (b - a) / (b + a);
    assert q * (b + a) == b - a;
  }

  /** `Confidence(x, out label, out confidence)`: the label of `Classify` with its margin; K must be positive. */
  method Confidence(model: Model, x: seq<real>) returns (y: int, confidence: Double)
    requires model.Valid() && model.M() <= |x| && 0 < model.K()
    ensures y == model.labels[ArgMin(Distances(model, x))]
    ensures var d := Distances(model, x);
            confidence == ConfidenceOf(Scan(d).dMinus, d[ArgMin(d)])
  {
    var d := DistanceToPrototypes(model, x);
    var minK, dMinus := ScanLoop(d[..]);
    if dMinus.None? || dMinus.value + d[minK] == 0.0 {
      confidence := NonFinite;
    } else {
      confidence := Finite((dMinus.value - d[minK]) / (dMinus.value + d[minK]));
    }
    y := model.labels[minK];
  }

  /** The loop of `Confidence` over the distances. */
  method ScanLoop(d: seq<real>) returns (minK: nat, dMinus: Option<real>)
    requires |d| > 0
    ensures Scan(d) == ScanState(minK, dMinus)
  {
    minK := 0;
    dMinus := None;
    var k := 1;
    while k < |d|
      invariant 1 <= k <= |d|
      invariant Scan(d[..k]) == ScanState(minK, dMinus)
    {
      assert d[..k + 1][..k] == d[..k];
      if d[k] < d[minK] {
        minK := k;
      } else if dMinus.None? || d[k] < dMinus.value {
        dMinus := Some(d[k]);
      }
      k := k + 1;
    }
    assert d[..k] == d;
  }

  // ---------------------------------------------------------------------------------------------
  // Output

  /** The `switch` of `GetOutput`: labels 1..9 stand for the nine pairs in {-1, 0, 1}^2. */
  function Pose(y: int): (r: Result<seq<real>>)
    ensures r.Err? <==> y < 1 || 9 < y
    ensures r.Err? ==> r.error == LabelOutOfRange(y)
  {
    match y
    case 1 => Ok([-1.0, -1.0])
    case 2 => Ok([-1.0, 0.0])
    case 3 => Ok([-1.0, 1.0])
    case 4 => Ok([0.0, -1.0])
    case 5 => Ok([0.0, 0.0])
    case 6 => Ok([0.0, 1.0])
    case 7 => Ok([1.0, -1.0])
    case 8 => Ok([1.0, 0.0])
    case 9 => Ok([1.0, 1.0])
    case _ => Err(LabelOutOfRange(y))
  }

  /** The table is the digit split of y - 1 in base 3, shifted by -1. */
  lemma PoseDigits(y: int)
    requires 1 <= y <= 9
    ensures Pose(y) == Ok([((y - 1) / 3 - 1) as real, ((y - 1) % 3 - 1) as real])
  {
  }

  /** Every pair in {-1, 0, 1}^2 comes from exactly one label, y = 3 v0 + v1 + 5. */
  lemma PoseBijective(y: int, v: seq<real>)
    ensures Pose(y) == Ok(v) <==> |v| == 2 && v[0] in {-1.0, 0.0, 1.0} && v[1] in {-1.0, 0.0, 1.0}
                                  && y as real == 3.0 * v[0] + v[1] + 5.0
  {
    if |v| == 2 && v[0] in {-1.0, 0.0, 1.0} && v[1] in {-1.0, 0.0, 1.0} && y as real == 3.0 * v[0] + v[1] + 5.0 {
      assert v == [v[0], v[1]];
      assert 1 <= y <= 9;
    }
  }

  /** `GetOutput(x)`: the pose of the label `Classify` gives; any other label throws. */
  method GetOutput(model: Model, x: seq<real>) returns (r: Result<seq<real>>)
    requires model.Valid() && model.M() <= |x| && 0 < model.K()
    ensures r == Pose(model.labels[ArgMin(Distances(model, x))])
    ensures r.Ok? ==> |r.value| == 2 && forall i :: 0 <= i < 2 ==> r.value[i] in {-1.0, 0.0, 1.0}
  {
    var y := Classify(model, x);
    r := Pose(y);
    if r.Ok? {
      PoseBijective(y, r.value);
    }
  }

  // ---------------------------------------------------------------------------------------------
  // Loading

  /** The "gmlvq" object: prototypes "w", labels "c_w" as a column vector, and "omega". */
  datatype ModelJson = ModelJson(w: seq<seq<real>>, cw: seq<seq<int>>, omega: seq<seq<real>>)

  /** `((JSONArray) jproto_labels[k])[0].AsInt`: the first entry, 0 for an empty row. */
  function LabelOf(row: seq<int>): int
  {
    if |row| == 0 then 0 else row[0]
  }

  /** The labels `FromJSON` reads, one per row of the column vector. */
  function Labels(cw: seq<seq<int>>): (labels: seq<int>)
    ensures |labels| == |cw|
  {
    seq(|cw|, k requires 0 <= k < |cw| => LabelOf(cw[k]))
  }

  /** What `FromJSON(jGMLVQ)` yields: prototypes, labels, then Lambda = Omega Omega', then the constructor. */
  function Load(j: ModelJson): (r: Result<Model>)
    ensures r.Ok? ==> r.value.Valid() && exists omega: Mat :: r.value.lambda == Gram(omega)
  {
    var w := FromJson(j.w);
    if w.Err? then Err(w.error)
    else
      var omega := FromJson(j.omega);
      if omega.Err? then Err(omega.error)
      else Create(w.value, Labels(j.cw), Gram(omega.value))
  }

  /** Every distance of a loaded model is nonnegative. */
  lemma LoadedDistanceNonnegative(j: ModelJson, x: seq<real>, k: nat)
    requires Load(j).Ok? && Load(j).value.M() <= |x| && k < Load(j).value.K()
    ensures 0.0 <= Distance(Load(j).value, x, k)
  {
    var omega :| Load(j).value.lambda == Gram(omega);
    GramDistanceNonnegative(Load(j).value, omega, x, k);
  }

  /** The label loop of `FromJSON`. */
  method ReadLabels(cw: seq<seq<int>>) returns (labels: array<int>)
    ensures fresh(labels) && labels[..] == Labels(cw)
  {
    labels := new int[|cw|];
    var k := 0;
    while k < labels.Length
      invariant 0 <= k <= labels.Length
      invariant forall j :: 0 <= j < k ==> labels[j] == LabelOf(cw[j])
    {
      labels[k] := if |cw[k]| == 0 then 0 else cw[k][0];
      k := k + 1;
    }
  }

  /** The innermost loop of the Lambda computation: row i of Omega times row j of Omega. */
  method RowDot(omega: Mat, i: nat, j: nat) returns (s: real)
    requires i < omega.Rows() && j < omega.Rows()
    ensures s == Dot(omega.cells[i], omega.cells[j])
  {
    s := 0.0;
    var k := 0;
    while k < omega.cols
      invariant 0 <= k <= omega.cols
      invariant s == Dot(omega.cells[i][..k], omega.cells[j][..k])
    {
      DotPrefixStep(omega.cells[i], omega.cells[j], k);
      s := s + omega.cells[i][k] * omega.cells[j][k];
      k := k + 1;
    }
    assert omega.cells[i][..k] == omega.cells[i] && omega.cells[j][..k] == omega.cells[j];
  }

  /** The row loop of the Lambda computation: entries (i, j) and (j, i) for j = i, ..., n - 1. */
  method FillGramRow(omega: Mat, L: array2<real>, i: nat)
    requires L.Length0 == L.Length1 == omega.Rows() && i < omega.Rows()
    modifies L
    ensures forall p, q :: 0 <= p < L.Length0 && 0 <= q < L.Length1 ==>
              L[p, q] == if (p == i && i <= q) || (q == i && i <= p) then Dot(omega.cells[p], omega.cells[q]) else old(L[p, q])
  {
    var n := omega.Rows();
    var j := i;
    while j < n
      invariant i <= j <= n
      invariant forall p, q :: 0 <= p < n && 0 <= q < n ==>
                  L[p, q] == if (p == i && i <= q < j) || (q == i && i <= p < j) then Dot(omega.cells[p], omega.cells[q]) else old(L[p, q])
    {
      var s := RowDot(omega, i, j);
      L[i, j] := s;
      DotCommutes(omega.cells[i], omega.cells[j]);
      L[j, i] := L[i, j];
      j := j + 1;
    }
  }

  /** The Lambda loops of `FromJSON`: the upper triangle of Omega Omega', mirrored. */
  method GramLoop(omega: Mat) returns (lambda: Mat)
    ensures lambda == Gram(omega)
  {
    var n := omega.Rows();
    var L := new real[n, n]((p, q) => 0.0);
    var i := 0;
    while i < n
      invariant 0 <= i <= n
      invariant forall p, q :: 0 <= p < n && 0 <= q < n && (p < i || q < i) ==> L[p, q] == Dot(omega.cells[p], omega.cells[q])
    {
      FillGramRow(omega, L, i);
      i := i + 1;
    }
    lambda := Matrix(seq(n, p requires 0 <= p < n reads L => seq(n, q requires 0 <= q < n reads L => L[p, q])), n);
    forall p | 0 <= p < n ensures lambda.cells[p] == Gram(omega).cells[p] {
      forall q | 0 <= q < n ensures lambda.cells[p][q] == Gram(omega).cells[p][q] {
        GramSymmetric(omega, p, q);
      }
    }
  }

  /** `FromJSON(jGMLVQ)`. */
  method FromJsonModel(j: ModelJson) returns (r: Result<Model>)
    ensures r == Load(j)
  {
    var w := FromJson(j.w);
    if w.Err? {
      return Err(w.error);
    }
    var labels := ReadLabels(j.cw);
    var omega := FromJson(j.omega);
    if omega.Err? {
      return Err(omega.error);
    }
    var lambda := GramLoop(omega.value);
    return Create(w.value, labels[..], lambda);
  }

  /** The model of one element of the "gmlvq" array: its first entry, which must be an object. */
  function Element(e: seq<ModelJson>): (r: Result<Model>)
    ensures e == [] ==> r == Err(MalformedJson)
    ensures e != [] ==> r == Load(e[0])
  {
    if |e| == 0 then Err(MalformedJson) else Load(e[0])
  }

  /** Every element of the "gmlvq" array yields a model. */
  ghost predicate MultiLoaded(js: seq<seq<ModelJson>>)
  {
    forall m :: 0 <= m < |js| ==> Element(js[m]).Ok?
  }

  /** `MultiFromJSON(jGMLVQ)`: one model per array element, in order; the first failure throws. */
  method MultiFromJson(js: seq<seq<ModelJson>>) returns (r: Result<seq<Model>>)
    ensures r.Ok? <==> MultiLoaded(js)
    ensures r.Ok? ==> |r.value| == |js| && forall m :: 0 <= m < |js| ==> Element(js[m]) == Ok(r.value[m])
    ensures r.Err? ==> exists m :: 0 <= m < |js| && Element(js[m]) == Err(r.error)
                                   && forall p :: 0 <= p < m ==> Element(js[p]).Ok?
  {
    var models: seq<Model> := [];
    var m := 0;
    while m < |js|
      invariant 0 <= m <= |js| && |models| == m
      invariant forall p :: 0 <= p < m ==> Element(js[p]) == Ok(models[p])
    {
      if |js[m]| == 0 {
        return Err(MalformedJson);
      }
      var model := FromJsonModel(js[m][0]);
      if model.Err? {
        return Err(model.error);
      }
      models := models + [model.value];
      m := m + 1;
    }
    return Ok(models);
  }
}
