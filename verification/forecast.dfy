/** The SpO2 trend forecaster: an ordinary least-squares line through the last `window_size`
    SpO2 samples (x = 0, 1, ..., n-1), extrapolated over the next `hours` indices. The fit is
    computed in closed form over exact reals. */
module Forecast {
  import opened Records
  import opened Config

  // ---- Python slicing ----

  /** Python's `s[start:]` for any integer start: the suffix of `s` that starts at `start`, a
      negative start counting from the end, clamped to the bounds of `s`. */
  function SliceFrom<T>(s: seq<T>, start: int): (r: seq<T>)
    ensures start >= 0 ==> |r| == if start <= |s| then |s| - start else 0
    ensures start < 0 ==> |r| == if -start <= |s| then -start else |s|
    ensures forall i :: 0 <= i < |r| ==> r[i] == s[|s| - |r| + i]
  {
    if start >= 0 then s[if start <= |s| then start else |s|..]
    else s[if |s| + start >= 0 then |s| + start else 0..]
  }

  /** The samples the forecaster fits: `spo2[-window_size:]`. */
  function Window(spo2: seq<int>, windowSize: int): seq<int>
  {
    SliceFrom(spo2, -windowSize)
  }

  /** Once enough samples exist, the window is exactly the last `windowSize` of them, in order;
      a window size of zero selects the whole history, as `s[-0:]` does. */
  lemma WindowIsLastSamples(spo2: seq<int>, windowSize: int)
    requires windowSize >= 0 && |spo2| >= windowSize
    ensures |Window(spo2, windowSize)| == if windowSize == 0 then |spo2| else windowSize
    ensures windowSize > 0 ==> Window(spo2, windowSize) == spo2[|spo2| - windowSize..]
    ensures windowSize > 0 ==> forall i :: 0 <= i < windowSize ==>
              Window(spo2, windowSize)[i] == spo2[|spo2| - windowSize + i]
    ensures windowSize == 0 ==> Window(spo2, windowSize) == spo2
  {
  }

  // ---- least-squares sums over x = 0 .. n-1 ----

  function SumX(n: nat): real
  {
    if n == 0 then 0.0 else SumX(n - 1) + (n - 1) as real
  }

  function SumXX(n: nat): real
  {
    if n == 0 then 0.0 else SumXX(n - 1) + (n - 1) as real * (n - 1) as real
  }

  function SumY(w: seq<int>): real
  {
    if w == [] then 0.0 else SumY(w[..|w| - 1]) + w[|w| - 1] as real
  }

  function SumXY(w: seq<int>): real
  {
    if w == [] then 0.0 else SumXY(w[..|w| - 1]) + (|w| - 1) as real * w[|w| - 1] as real
  }

  /** n times the spread of the indices, n * sum(x^2) - (sum x)^2, from the count and the sums. */
  function Spread(n: real, sx: real, sxx: real): real
  {
    n * sxx - sx * sx
  }

  function Sxx(n: nat): real
  {
    Spread(n as real, SumX(n), SumXX(n))
  }

  function Quot(x: real, d: real): real
    requires d != 0.0
  {
    x / d
  }

  /** The least-squares slope. With a single sample the indices do not vary and the fit has
      slope zero, as the minimum-norm solution of the library's solver gives. */
  function Slope(w: seq<int>): real
  {
    if Sxx(|w|) == 0.0 then 0.0
    else Quot(|w| as real * SumXY(w) - SumX(|w|) * SumY(w), Sxx(|w|))
  }

  function Intercept(w: seq<int>): real
    requires |w| > 0
  {
    Quot(SumY(w) - Slope(w) * SumX(|w|), |w| as real)
  }

  /** The value of the line with intercept a and slope b at x. */
  function Line(a: real, b: real, x: real): real
  {
    a + b * x
  }

  /** The fitted line's value at index k. */
  function Predicted(w: seq<int>, k: int): real
    requires |w| > 0
  {
    Line(Intercept(w), Slope(w), k as real)
  }

  // ---- the decision ----

  /** Whether some prediction at index from, from+1, ..., from+count-1 is below `low`. */
  function AnyBelow(w: seq<int>, from: int, count: int, low: int): bool
    requires |w| > 0
    decreases count
  {
    count > 0 && (Predicted(w, from) < low as real || AnyBelow(w, from + 1, count - 1, low))
  }

  lemma {:induction false} AnyBelowExists(w: seq<int>, from: int, count: int, low: int)
    requires |w| > 0
    ensures AnyBelow(w, from, count, low) <==> exists k :: from <= k < from + count && Predicted(w, k) < low as real
    decreases count
  {
    if count > 0 {
      AnyBelowExists(w, from + 1, count - 1, low);
      if !AnyBelow(w, from, count, low) {
        forall k | from <= k < from + count ensures Predicted(w, k) >= low as real {
          if k > from {
            assert from + 1 <= k < from + 1 + (count - 1);
          }
        }
      }
    }
  }

  datatype Forecast =
    | InsufficientData
    | LibraryError
    | Deterioration(hours: int, spo2Low: int)
    | NoDeterioration
  {
    /** The text the forecaster returns; when the regression library raises there is none. */
    function Message(): string
      requires !LibraryError?
    {
      match this
      case InsufficientData => "Données insuffisantes pour la prédiction"
      case Deterioration(h, low) =>
        "Détérioration prévue dans les " + IntToDecimal(h) + " heures. SpO2 pourrait descendre sous "
        + IntToDecimal(low) + "%"
      case NoDeterioration => "Aucune détérioration significative prévue"
    }
  }

  /** The forecast over an SpO2 history: too few samples give InsufficientData; the regression
      library raises on an empty window (only possible with a window size of zero or less),
      which it rejects when fitting, and on an empty horizon (hours <= 0), which it rejects when
      predicting; otherwise deterioration is reported iff a prediction at one of the next
      `hours` indices after the window is below the SpO2 threshold. */
  function PredictDeterioration(spo2: seq<int>, config: Settings, hours: int): (r: Forecast)
    ensures r.InsufficientData? <==> |spo2| < config.windowSize
    ensures r.LibraryError? <==> |spo2| >= config.windowSize && (Window(spo2, config.windowSize) == [] || hours <= 0)
    ensures r.Deterioration? <==>
              var w := Window(spo2, config.windowSize);
              |spo2| >= config.windowSize && |w| > 0
              && exists k :: |w| <= k < |w| + hours && Predicted(w, k) < config.thresholds.spo2Low as real
    ensures r.Deterioration? ==> r == Deterioration(hours, config.thresholds.spo2Low)
  {
    if |spo2| < config.windowSize then InsufficientData
    else
      var w := Window(spo2, config.windowSize);
      if |w| == 0 || hours <= 0 then LibraryError
      else
        AnyBelowExists(w, |w|, hours, config.thresholds.spo2Low);
        if AnyBelow(w, |w|, hours, config.thresholds.spo2Low) then Deterioration(hours, config.thresholds.spo2Low)
        else NoDeterioration
  }

  // ---- properties of the fit ----

  lemma {:induction false} SumXClosed(n: nat)
    ensures SumX(n) == n as real * (n as real - 1.0) / 2.0
  {
    if n > 0 { SumXClosed(n - 1); }
  }

  lemma {:induction false} SumXXClosed(n: nat)
    ensures SumXX(n) == (n as real - 1.0) * n as real * (2.0 * n as real - 1.0) / 6.0
  {
    if n > 0 {
      SumXXClosed(n - 1);
      var m := (n - 1) as real;
      assert SumXX(n) == (m - 1.0) * m * (2.0 * m - 1.0) / 6.0 + m * m;
    }
  }

  /** With two samples or more the indices spread, so the slope is the usual quotient. */
  lemma SxxPositive(n: nat)
    requires n >= 2
    ensures Sxx(n) > 0.0
  {
    SumXClosed(n);
    SumXXClosed(n);
    SpreadClosed(n as real, SumX(n), SumXX(n));
  }

  lemma SpreadClosed(r: real, sx: real, sxx: real)
    requires r >= 2.0
    requires sx == r * (r - 1.0) / 2.0 && sxx == (r - 1.0) * r * (2.0 * r - 1.0) / 6.0
    ensures Spread(r, sx, sxx) > 0.0
  {
    assert Spread(r, sx, sxx) == r * r * (r - 1.0) * (r + 1.0) / 12.0;
    assert r * r > 0.0;
    assert (r - 1.0) * (r + 1.0) > 0.0;
  }

  /** The normal equations of least squares for the line a + b*x, given the number of
      samples and the sums of x, x^2, y and x*y: n*a + b*sum(x) == sum(y) and
      a*sum(x) + b*sum(x^2) == sum(x*y). */
  predicate Normal(n: real, sx: real, sxx: real, sy: real, sxy: real, a: real, b: real)
  {
    n * a + b * sx == sy && a * sx + b * sxx == sxy
  }

  /** The same system with the intercept taken from the first equation and eliminated from
      the second. */
  predicate Reduced(n: real, sx: real, sxx: real, sy: real, sxy: real, a: real, b: real)
  {
    a * n == sy - b * sx && b * Spread(n, sx, sxx) == n * sxy - sx * sy
  }

  lemma ReducedIsNormal(n: real, sx: real, sxx: real, sy: real, sxy: real, a: real, b: real)
    requires n > 0.0
    ensures Reduced(n, sx, sxx, sy, sxy, a, b) <==> Normal(n, sx, sxx, sy, sxy, a, b)
  {
    assert n * (a * sx + b * sxx - sxy) == (a * n - sy + b * sx) * sx + (b * Spread(n, sx, sxx) - (n * sxy - sx * sy));
  }

  /** With a positive spread the normal equations have exactly one solution. */
  lemma NormalUnique(n: real, sx: real, sxx: real, sy: real, sxy: real, a: real, b: real, a': real, b': real)
    requires n > 0.0 && Spread(n, sx, sxx) > 0.0
    requires Normal(n, sx, sxx, sy, sxy, a, b) && Normal(n, sx, sxx, sy, sxy, a', b')
    ensures a == a' && b == b'
  {
    var da, db := a - a', b - b';
    assert n * da + db * sx == 0.0;
    assert da * sx + db * sxx == 0.0;
    assert db * Spread(n, sx, sxx) == n * (da * sx + db * sxx) - sx * (n * da + db * sx);
    assert db == 0.0;
    assert n * da == 0.0;
  }

  /** A window's sums satisfy the normal equations of the line (a, b). */
  predicate SolvesNormalEquations(w: seq<int>, a: real, b: real)
  {
    Normal(|w| as real, SumX(|w|), SumXX(|w|), SumY(w), SumXY(w), a, b)
  }

  /** With one sample every index-weighted sum vanishes. */
  lemma SingleSampleSums(w: seq<int>)
    requires |w| == 1
    ensures SumX(1) == 0.0 && SumXX(1) == 0.0 && SumXY(w) == 0.0 && Sxx(1) == 0.0
  {
    assert w[..0] == [];
  }

  lemma FitIsReduced(w: seq<int>)
    requires |w| > 0
    ensures Reduced(|w| as real, SumX(|w|), SumXX(|w|), SumY(w), SumXY(w), Intercept(w), Slope(w))
  {
    if |w| == 1 {
      SingleFitIsReduced(w);
    } else {
      SpreadFitIsReduced(w);
    }
  }

  lemma SingleFitIsReduced(w: seq<int>)
    requires |w| == 1
    ensures Reduced(|w| as real, SumX(|w|), SumXX(|w|), SumY(w), SumXY(w), Intercept(w), Slope(w))
  {
    SingleSampleSums(w);
    FlatQuotientsReduced(|w| as real, SumX(|w|), SumXX(|w|), SumY(w), SumXY(w), Intercept(w), Slope(w),
      SumY(w) - Slope(w) * SumX(|w|));
  }

  lemma SpreadFitIsReduced(w: seq<int>)
    requires |w| >= 2
    ensures Reduced(|w| as real, SumX(|w|), SumXX(|w|), SumY(w), SumXY(w), Intercept(w), Slope(w))
  {
    SxxPositive(|w|);
    QuotientsReduced(|w| as real, SumX(|w|), SumXX(|w|), SumY(w), SumXY(w), Intercept(w), Slope(w),
      SumY(w) - Slope(w) * SumX(|w|), |w| as real * SumXY(w) - SumX(|w|) * SumY(w));
  }

  /** With no spread (a single sample) the slope is zero and the intercept the mean. */
  lemma FlatQuotientsReduced(n: real, sx: real, sxx: real, sy: real, sxy: real, a: real, b: real, x: real)
    requires n > 0.0 && a == Quot(x, n) && x == sy - b * sx
    requires Spread(n, sx, sxx) == 0.0 && b == 0.0 && sx == 0.0 && sxy == 0.0
    ensures Reduced(n, sx, sxx, sy, sxy, a, b)
  {
  }

  /** With a spread, the closed-form quotients solve the reduced system. */
  lemma QuotientsReduced(n: real, sx: real, sxx: real, sy: real, sxy: real, a: real, b: real, x: real, y: real)
    requires n > 0.0 && a == Quot(x, n) && x == sy - b * sx
    requires Spread(n, sx, sxx) != 0.0 && b == Quot(y, Spread(n, sx, sxx)) && y == n * sxy - sx * sy
    ensures Reduced(n, sx, sxx, sy, sxy, a, b)
  {
  }

  /** The fitted line solves the normal equations of least squares over the window. */
  lemma NormalEquations(w: seq<int>)
    requires |w| > 0
    ensures SolvesNormalEquations(w, Intercept(w), Slope(w))
  {
    FitIsReduced(w);
    ReducedIsNormal(|w| as real, SumX(|w|), SumXX(|w|), SumY(w), SumXY(w), Intercept(w), Slope(w));
  }

  /** Once there are two samples the fit is the only line that solves the normal equations. */
  lemma NormalEquationsUnique(w: seq<int>, a: real, b: real)
    requires |w| >= 2
    requires SolvesNormalEquations(w, a, b)
    ensures a == Intercept(w) && b == Slope(w)
  {
    NormalEquations(w);
    SxxPositive(|w|);
    NormalUnique(|w| as real, SumX(|w|), SumXX(|w|), SumY(w), SumXY(w), a, b, Intercept(w), Slope(w));
  }

  /** A window lying exactly on a line is fitted by that line. */
  lemma LinearWindowIsExact(w: seq<int>, a: real, b: real)
    requires |w| >= 2
    requires forall i :: 0 <= i < |w| ==> w[i] as real == Line(a, b, i as real)
    ensures Intercept(w) == a && Slope(w) == b
    ensures forall k :: Predicted(w, k) == Line(a, b, k as real)
  {
    LinearSums(w, a, b);
    NormalEquationsUnique(w, a, b);
  }

  /** The sums of a window lying on a line satisfy that line's normal equations. */
  lemma {:induction false} LinearSums(w: seq<int>, a: real, b: real)
    requires forall i :: 0 <= i < |w| ==> w[i] as real == Line(a, b, i as real)
    ensures SolvesNormalEquations(w, a, b)
  {
    if w != [] {
      var p := w[..|w| - 1];
      LinearSums(p, a, b);
      SumsStep(w);
      NormalStep(|p| as real, w[|w| - 1] as real, SumX(|p|), SumXX(|p|), SumY(p), SumXY(p),
        |w| as real, SumX(|w|), SumXX(|w|), SumY(w), SumXY(w), a, b);
    }
  }

  /** Extending the samples by one point keeps the sums in step. */
  predicate Extends(m: real, y: real, sx: real, sxx: real, sy: real, sxy: real,
                    n': real, sx': real, sxx': real, sy': real, sxy': real)
  {
    n' == m + 1.0 && sx' == sx + m && sxx' == sxx + m * m && sy' == sy + y && sxy' == sxy + m * y
  }

  /** The sums over a window are those over its prefix plus the last sample's terms. */
  lemma SumsStep(w: seq<int>)
    requires w != []
    ensures var p := w[..|w| - 1];
      Extends(|p| as real, w[|w| - 1] as real, SumX(|p|), SumXX(|p|), SumY(p), SumXY(p),
        |w| as real, SumX(|w|), SumXX(|w|), SumY(w), SumXY(w))
  {
  }

  /** One step of LinearSums, on plain reals: adding a point on the line keeps the normal
      equations satisfied. */
  lemma NormalStep(m: real, y: real, sx: real, sxx: real, sy: real, sxy: real,
                   n': real, sx': real, sxx': real, sy': real, sxy': real, a: real, b: real)
    requires y == Line(a, b, m)
    requires Normal(m, sx, sxx, sy, sxy, a, b)
    requires Extends(m, y, sx, sxx, sy, sxy, n', sx', sxx', sy', sxy')
    ensures Normal(n', sx', sxx', sy', sxy', a, b)
  {
    assert m * y == a * m + b * (m * m);
  }

  /** A flat window is fitted by a flat line at its value, whatever its length. */
  lemma ConstantWindowIsFlat(w: seq<int>, c: int)
    requires |w| > 0
    requires forall i :: 0 <= i < |w| ==> w[i] == c
    ensures Slope(w) == 0.0 && Intercept(w) == c as real
    ensures forall k :: Predicted(w, k) == c as real
  {
    if |w| == 1 {
      FitIsReduced(w);
      SingleSampleSums(w);
      assert SumY(w) == c as real by { assert w[..0] == []; }
      ReducedSingle(|w| as real, SumX(|w|), SumXX(|w|), SumY(w), SumXY(w), Intercept(w), Slope(w));
    } else {
      LinearWindowIsExact(w, c as real, 0.0);
    }
    forall k: int ensures Predicted(w, k) == c as real {
      LineFlat(Intercept(w), Slope(w), k as real);
    }
  }

  /** A single sample: the intercept is the sample itself. */
  lemma ReducedSingle(n: real, sx: real, sxx: real, sy: real, sxy: real, a: real, b: real)
    requires n == 1.0 && sx == 0.0 && Reduced(n, sx, sxx, sy, sxy, a, b)
    ensures a == sy
  {
  }

  lemma LineFlat(a: real, b: real, x: real)
    requires b == 0.0
    ensures Line(a, b, x) == a
  {
  }

  /** A flat window forecasts deterioration only if its value is already below the threshold
      (and the horizon is not empty). */
  lemma ConstantWindowForecast(spo2: seq<int>, config: Settings, hours: int, c: int)
    requires config.windowSize >= 1 && |spo2| >= config.windowSize
    requires forall i :: |spo2| - config.windowSize <= i < |spo2| ==> spo2[i] == c
    ensures PredictDeterioration(spo2, config, hours).Deterioration? <==> hours > 0 && c < config.thresholds.spo2Low
  {
    var w := Window(spo2, config.windowSize);
    WindowIsLastSamples(spo2, config.windowSize);
    ConstantWindowIsFlat(w, c);
    if hours > 0 && c < config.thresholds.spo2Low {
      assert |w| <= |w| < |w| + hours && Predicted(w, |w|) < config.thresholds.spo2Low as real;
    }
  }

  /** The fitted line is monotone, so some prediction in the horizon is below the threshold iff
      the first or the last one is. */
  lemma EndpointsDecide(w: seq<int>, from: int, count: int, low: int)
    requires |w| > 0
    ensures AnyBelow(w, from, count, low) <==>
              count > 0 && (Predicted(w, from) < low as real || Predicted(w, from + count - 1) < low as real)
  {
    AnyBelowExists(w, from, count, low);
    if count > 0 && AnyBelow(w, from, count, low) {
      var k :| from <= k < from + count && Predicted(w, k) < low as real;
      LineBetween(Intercept(w), Slope(w), from, k, from + count - 1);
    }
    if count > 0 && Predicted(w, from + count - 1) < low as real {
      assert from <= from + count - 1 < from + count;
    }
  }

  /** A line's value between two indices is at least its value at one of them. */
  lemma LineBetween(a: real, b: real, lo: int, k: int, hi: int)
    requires lo <= k <= hi
    ensures Line(a, b, k as real) >= Line(a, b, lo as real) || Line(a, b, k as real) >= Line(a, b, hi as real)
  {
    if b >= 0.0 {
      assert b * (k - lo) as real >= 0.0;
      assert b * k as real - b * lo as real == b * (k - lo) as real;
    } else {
      assert b * (hi - k) as real <= 0.0;
      assert b * hi as real - b * k as real == b * (hi - k) as real;
    }
  }

  /** The forecast is determined by the window alone: samples older than the window never
      change it. */
  lemma OnlyWindowMatters(older: seq<int>, spo2: seq<int>, config: Settings, hours: int)
    requires config.windowSize >= 1 && |spo2| >= config.windowSize
    ensures PredictDeterioration(older + spo2, config, hours) == PredictDeterioration(spo2, config, hours)
  {
    assert Window(older + spo2, config.windowSize) == Window(spo2, config.windowSize);
  }

  /** A worked case: when the last five samples fall by 2 from 98 to 90, the fit extrapolates
      to 88 one step ahead, so deterioration below 92 is forecast within 3 hours. */
  lemma FallingWindowExample(spo2: seq<int>, config: Settings)
    requires config.windowSize == 5 && config.thresholds.spo2Low == 92
    requires |spo2| >= 5 && forall i :: 0 <= i < 5 ==> spo2[|spo2| - 5 + i] == 98 - 2 * i
    ensures PredictDeterioration(spo2, config, 3) == Deterioration(3, 92)
  {
    var w := Window(spo2, 5);
    WindowIsLastSamples(spo2, 5);
    forall i | 0 <= i < |w| ensures w[i] as real == Line(98.0, -2.0, i as real) {
      assert w[i] == spo2[|spo2| - 5 + i] == 98 - 2 * i;
    }
    LinearWindowIsExact(w, 98.0, -2.0);
    assert Predicted(w, 5) < 92.0;
    assert |w| <= 5 < |w| + 3;
  }

  /** A worked case: a window flat at 98 forecasts no deterioration below 92. */
  lemma FlatWindowExample(config: Settings)
    requires config.windowSize == 5 && config.thresholds.spo2Low == 92
    ensures PredictDeterioration([98, 98, 98, 98, 98], config, 3) == NoDeterioration
  {
    ConstantWindowForecast([98, 98, 98, 98, 98], config, 3, 98);
  }
}
