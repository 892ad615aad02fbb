/**
 * What `updatePlot` computes before it hands anything to the charting
 * library, and the y-axis bounds set once by the load callback: the fit grid,
 * the two model curves, one residual segment per data point and the mean
 * absolute error of each model. Arithmetic is over `real`, not IEEE doubles.
 */
module Plot {
  import opened Loader

  /** A JavaScript number as far as these computations need one: a real, the
      `NaN` of `0 / 0`, or the infinities `Math.min()` and `Math.max()` return
      for no arguments. */
  datatype Number = Finite(value: real) | NaN | PlusInfinity | MinusInfinity

  /** JavaScript's `n + delta` for a finite `delta`. */
  function Add(n: Number, delta: real): Number
  {
    match n
    case Finite(v) => Finite(v + delta)
    case _ => n
  }

  /** The five coefficients `updatePlot` reads from the number inputs. */
  datatype Params = Params(b0Linear: real, b1Linear: real,
                           b0Quadratic: real, b1Quadratic: real, b2Quadratic: real)

  /** The two models drawn side by side. */
  datatype Model = Linear(b0: real, b1: real) | Quadratic(b0: real, b1: real, b2: real)

  function LinearModel(p: Params): Model
  {
    Linear(p.b0Linear, p.b1Linear)
  }

  function QuadraticModel(p: Params): Model
  {
    Quadratic(p.b0Quadratic, p.b1Quadratic, p.b2Quadratic)
  }

  /** The model's prediction at `x`: `B0 + B1 * x`, or
      `B0 + B1 * x + B2 * Math.pow(x, 2)`. */
  function Predict(m: Model, x: real): real
  {
    match m
    case Linear(b0, b1) => b0 + b1 * x
    case Quadratic(b0, b1, b2) => b0 + b1 * x + b2 * (x * x)
  }

  function Abs(r: real): real
  {
    if r < 0.0 then -r else r
  }

  /** Along points spaced `h` apart a linear prediction moves by `b1 * h` at
      every step, and a quadratic one has the constant second difference
      `2 * b2 * h * h`. */
  lemma PredictDifferences(m: Model, x: real, h: real)
    ensures m.Linear? ==> Predict(m, x + h) - Predict(m, x) == m.b1 * h
    ensures m.Quadratic? ==>
      Predict(m, x + 2.0 * h) - 2.0 * Predict(m, x + h) + Predict(m, x) == 2.0 * m.b2 * h * h
  {
  }

  /** Number of points and spacing of the fit grid. */
  const FitPoints: nat := 100
  const FitStep: real := 20.0

  /** `Array.from({ length: 100 }, (_, i) => i * 20)`: 100 evenly spaced x
      values from 0 to 1980. */
  function FitGrid(): (xs: seq<real>)
    ensures |xs| == 100
    ensures xs[0] == 0.0 && xs[99] == 1980.0
    ensures forall i :: 0 <= i < 99 ==> xs[i + 1] == xs[i] + 20.0
  {
    seq(FitPoints, i => FitStep * i as real)
  }

  /** `xs.map(x => prediction)`: the model's curve over the points `xs`. */
  function Curve(m: Model, xs: seq<real>): seq<real>
  {
    seq(|xs|, i requires 0 <= i < |xs| => Predict(m, xs[i]))
  }

  /** Over the fit grid the linear curve takes the value `B0 + B1 * (20 * i)` at
      point `i` and rises by `20 * B1` at every step; the quadratic curve takes
      `B0 + B1 * (20 * i) + B2 * (20 * i)^2` and has the constant second
      difference `800 * B2`. */
  lemma FitCurveDifferences(m: Model)
    ensures |Curve(m, FitGrid())| == 100
    ensures m.Linear? ==> forall i :: 0 <= i < 100 ==>
      Curve(m, FitGrid())[i] == m.b0 + m.b1 * (20.0 * i as real)
    ensures m.Quadratic? ==> forall i :: 0 <= i < 100 ==>
      Curve(m, FitGrid())[i] ==
        m.b0 + m.b1 * (20.0 * i as real) + m.b2 * ((20.0 * i as real) * (20.0 * i as real))
    ensures m.Linear? ==> forall i :: 0 <= i < 99 ==>
      Curve(m, FitGrid())[i + 1] - Curve(m, FitGrid())[i] == 20.0 * m.b1
    ensures m.Quadratic? ==> forall i :: 0 <= i < 98 ==>
      Curve(m, FitGrid())[i + 2] - 2.0 * Curve(m, FitGrid())[i + 1] + Curve(m, FitGrid())[i]
        == 800.0 * m.b2
  {
    var xs := FitGrid();
    var c := Curve(m, xs);
    forall i | 0 <= i < 99
      ensures m.Linear? ==> c[i + 1] - c[i] == 20.0 * m.b1
    {
      PredictDifferences(m, xs[i], 20.0);
    }
    forall i | 0 <= i < 98
      ensures m.Quadratic? ==> c[i + 2] - 2.0 * c[i + 1] + c[i] == 800.0 * m.b2
    {
      PredictDifferences(m, xs[i], 20.0);
      assert xs[i + 2] == xs[i] + 2.0 * 20.0;
    }
  }

  /** A residual segment `{ x0, y0, x1, y1 }` as the shape objects hold it. */
  datatype Segment = Segment(x0: real, y0: real, x1: real, y1: real)

  /** Its drawn length: how far the observed value is from the prediction. */
  function Length(s: Segment): real
  {
    Abs(s.y1 - s.y0)
  }

  /** `data.x.map((xVal, i) => ...)`: for each data point the vertical segment
      from the observed `y` to the model's prediction at the same `x`. */
  function ResidualSegments(m: Model, d: Dataset): seq<Segment>
    requires |d.x| == |d.y|
  {
    seq(|d.x|, i requires 0 <= i < |d.x| => Segment(d.x[i], d.y[i], d.x[i], Predict(m, d.x[i])))
  }

  /** The `reduce` of the MAE line over the first `n` points: the running sum
      of `|y[i] - prediction(x[i])|`, starting from 0. */
  function AbsErrorSum(m: Model, d: Dataset, n: nat): real
    requires n <= |d.x| == |d.y|
  {
    if n == 0 then 0.0
    else AbsErrorSum(m, d, n - 1) + Abs(d.y[n - 1] - Predict(m, d.x[n - 1]))
  }

  /** The summed lengths of the first `n` segments. */
  function LengthSum(segs: seq<Segment>, n: nat): real
    requires n <= |segs|
  {
    if n == 0 then 0.0 else LengthSum(segs, n - 1) + Length(segs[n - 1])
  }

  /** The mean absolute error: the sum divided by `data.x.length`, which is
      `0 / 0`, that is `NaN`, for an empty dataset. */
  function Mae(m: Model, d: Dataset): Number
    requires |d.x| == |d.y|
  {
    if |d.x| == 0 then NaN
    else Finite(AbsErrorSum(m, d, |d.x|) / |d.x| as real)
  }

  /** Every data point lies on the model's curve. */
  ghost predicate Interpolates(m: Model, d: Dataset)
    requires |d.x| == |d.y|
  {
    forall i :: 0 <= i < |d.x| ==> d.y[i] == Predict(m, d.x[i])
  }

  /** The running sum is never negative, and it is zero exactly when the
      first `n` points lie on the curve. */
  lemma {:induction false} AbsErrorSumZeroIff(m: Model, d: Dataset, n: nat)
    requires n <= |d.x| == |d.y|
    ensures AbsErrorSum(m, d, n) >= 0.0
    ensures AbsErrorSum(m, d, n) == 0.0 <==>
              forall i :: 0 <= i < n ==> d.y[i] == Predict(m, d.x[i])
    decreases n
  {
    if n > 0 {
      AbsErrorSumZeroIff(m, d, n - 1);
      if AbsErrorSum(m, d, n) == 0.0 {
        assert Abs(d.y[n - 1] - Predict(m, d.x[n - 1])) == 0.0;
      }
    }
  }

  /** The MAE of a non-empty dataset is a non-negative number, zero exactly
      when every point lies on the curve; that of an empty dataset is `NaN`. */
  lemma MaeZeroIff(m: Model, d: Dataset)
    requires |d.x| == |d.y|
    ensures |d.x| == 0 ==> Mae(m, d) == NaN
    ensures |d.x| > 0 ==> Mae(m, d).Finite? && Mae(m, d).value >= 0.0
    ensures |d.x| > 0 ==> (Mae(m, d).value == 0.0 <==> Interpolates(m, d))
  {
    AbsErrorSumZeroIff(m, d, |d.x|);
  }

  /** The segments drawn for a model have as total length the sum the MAE
      divides. */
  lemma {:induction false} SegmentsMeasureErrors(m: Model, d: Dataset, n: nat)
    requires n <= |d.x| == |d.y|
    ensures LengthSum(ResidualSegments(m, d), n) == AbsErrorSum(m, d, n)
    decreases n
  {
    if n > 0 {
      SegmentsMeasureErrors(m, d, n - 1);
      var s := ResidualSegments(m, d)[n - 1];
      assert Abs(s.y1 - s.y0) == Abs(d.y[n - 1] - Predict(m, d.x[n - 1]));
    }
  }

  /** The MAE shown is the mean length of the residual segments drawn. */
  lemma MaeIsMeanSegmentLength(m: Model, d: Dataset)
    requires |d.x| == |d.y| && |d.x| > 0
    ensures Mae(m, d) ==
      Finite(LengthSum(ResidualSegments(m, d), |d.x|) / |ResidualSegments(m, d)| as real)
  {
    SegmentsMeasureErrors(m, d, |d.x|);
  }

  /** The worked example: the points (0, 10) and (20, 30) lie on the line
      with intercept 10 and slope 1, so its MAE is 0. */
  lemma MaeExample()
    ensures Mae(Linear(10.0, 1.0), Dataset([0.0, 20.0], [10.0, 30.0])) == Finite(0.0)
  {
    var d := Dataset([0.0, 20.0], [10.0, 30.0]);
    assert AbsErrorSum(Linear(10.0, 1.0), d, 1) == 0.0;
  }

  /** What one chart shows of one model: its curve over the fit grid, its
      residual segments and its MAE. */
  datatype ModelView = ModelView(curve: seq<real>, segments: seq<Segment>, mae: Number)

  /** Everything `updatePlot` pushes: the raw points and fit grid shared by
      both charts, the per-model views, and the fixed y-axis range. */
  datatype View = View(points: Dataset, fitX: seq<real>,
                       linear: ModelView, quadratic: ModelView,
                       yMin: Number, yMax: Number)

  function ModelViewOf(m: Model, d: Dataset): ModelView
    requires |d.x| == |d.y|
  {
    ModelView(Curve(m, FitGrid()), ResidualSegments(m, d), Mae(m, d))
  }

  /** The derived view for a dataset, the parameters and the axis bounds. */
  function ViewOf(d: Dataset, p: Params, yMin: Number, yMax: Number): View
    requires |d.x| == |d.y|
  {
    View(d, FitGrid(), ModelViewOf(LinearModel(p), d), ModelViewOf(QuadraticModel(p), d),
         yMin, yMax)
  }

  /** Each chart has 100 curve points and one segment per data point; each
      segment is vertical and runs from the observed value to the prediction. */
  lemma ViewShape(d: Dataset, p: Params, yMin: Number, yMax: Number)
    requires |d.x| == |d.y|
    ensures var v := ViewOf(d, p, yMin, yMax);
      |v.linear.curve| == |v.quadratic.curve| == |v.fitX| == 100 &&
      |v.linear.segments| == |v.quadratic.segments| == |d.x|
    ensures var v := ViewOf(d, p, yMin, yMax);
      forall i :: 0 <= i < |d.x| ==>
        v.linear.segments[i] == Segment(d.x[i], d.y[i], d.x[i], p.b0Linear + p.b1Linear * d.x[i]) &&
        v.quadratic.segments[i] ==
          Segment(d.x[i], d.y[i], d.x[i],
                  p.b0Quadratic + p.b1Quadratic * d.x[i] + p.b2Quadratic * (d.x[i] * d.x[i]))
  {
    var v := ViewOf(d, p, yMin, yMax);
    forall i | 0 <= i < |d.x|
      ensures v.linear.segments[i] == Segment(d.x[i], d.y[i], d.x[i], Predict(LinearModel(p), d.x[i]))
      ensures v.quadratic.segments[i] ==
                Segment(d.x[i], d.y[i], d.x[i], Predict(QuadraticModel(p), d.x[i]))
    {
    }
  }

  /** The linear chart depends on the linear coefficients only, and the
      quadratic chart on the quadratic ones only. */
  lemma ModelsAreIsolated(d: Dataset, p: Params, q: Params, yMin: Number, yMax: Number)
    requires |d.x| == |d.y|
    ensures LinearModel(p) == LinearModel(q) ==>
              ViewOf(d, p, yMin, yMax).linear == ViewOf(d, q, yMin, yMax).linear
    ensures QuadraticModel(p) == QuadraticModel(q) ==>
              ViewOf(d, p, yMin, yMax).quadratic == ViewOf(d, q, yMin, yMax).quadratic
  {
  }

  /** The least of a non-empty list of values. */
  function MinReal(ys: seq<real>): (r: real)
    requires |ys| > 0
    ensures r in ys
    ensures forall i :: 0 <= i < |ys| ==> r <= ys[i]
  {
    if |ys| == 1 then ys[0]
    else
      var rest := MinReal(ys[1..]);
      if ys[0] <= rest then ys[0] else rest
  }

  /** The greatest of a non-empty list of values. */
  function MaxReal(ys: seq<real>): (r: real)
    requires |ys| > 0
    ensures r in ys
    ensures forall i :: 0 <= i < |ys| ==> ys[i] <= r
  {
    if |ys| == 1 then ys[0]
    else
      var rest := MaxReal(ys[1..]);
      if ys[0] >= rest then ys[0] else rest
  }

  /** `Math.min(...ys)`: `Infinity` when `ys` is empty. */
  function MathMin(ys: seq<real>): Number
  {
    if |ys| == 0 then PlusInfinity else Finite(MinReal(ys))
  }

  /** `Math.max(...ys)`: `-Infinity` when `ys` is empty. */
  function MathMax(ys: seq<real>): Number
  {
    if |ys| == 0 then MinusInfinity else Finite(MaxReal(ys))
  }

  /** `Math.min(...ys) - 10` */
  function AxisMin(ys: seq<real>): Number
  {
    Add(MathMin(ys), -10.0)
  }

  /** `Math.max(...ys) + 10` */
  function AxisMax(ys: seq<real>): Number
  {
    Add(MathMax(ys), 10.0)
  }

  /** For a non-empty list the axis range is finite, holds every value with
      a margin of at least 10 on each side, meets a value at exactly 10 on each
      side, and is not empty; for an empty list it is (Infinity, -Infinity). */
  lemma AxisBoundsEnclose(ys: seq<real>)
    ensures |ys| == 0 ==> AxisMin(ys) == PlusInfinity && AxisMax(ys) == MinusInfinity
    ensures |ys| > 0 ==> AxisMin(ys).Finite? && AxisMax(ys).Finite?
    ensures |ys| > 0 ==> forall i :: 0 <= i < |ys| ==>
              AxisMin(ys).value + 10.0 <= ys[i] <= AxisMax(ys).value - 10.0
    ensures |ys| > 0 ==> AxisMin(ys).value + 10.0 in ys && AxisMax(ys).value - 10.0 in ys
    ensures |ys| > 0 ==> AxisMin(ys).value < AxisMax(ys).value
  {
  }
}
