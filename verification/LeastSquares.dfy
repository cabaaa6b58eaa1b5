/** The straight line through a window of samples: best fit, exactness and slope, over the reals. */
module LeastSquares {
  import opened Reals
  import opened Wrappers

  datatype Sample = Sample(remote: real, local: real)

  datatype Line = Line(rate: real, intercept: real)

  function Square(x: real): real {
    Times(x, x)
  }

  lemma SquareNonNegative(x: real)
    ensures Square(x) >= 0.0
  {
  }

  function SumRemote(s: seq<Sample>): real {
    if s == [] then 0.0 else SumRemote(s[..|s| - 1]) + s[|s| - 1].remote
  }

  function SumLocal(s: seq<Sample>): real {
    if s == [] then 0.0 else SumLocal(s[..|s| - 1]) + s[|s| - 1].local
  }

  /** The sum of the products of the deviations from a point. */
  function Covariance(s: seq<Sample>, mr: real, ml: real): real {
    if s == [] then 0.0
    else
      var p := s[|s| - 1];
      Covariance(s[..|s| - 1], mr, ml) + Times(p.remote - mr, p.local - ml)
  }

  function Variance(s: seq<Sample>, mr: real): real {
    if s == [] then 0.0
    else
      var p := s[|s| - 1];
      Variance(s[..|s| - 1], mr) + Square(p.remote - mr)
  }

  function MeanRemote(s: seq<Sample>): real
    requires s != []
  {
    SumRemote(s) / |s| as real
  }

  function MeanLocal(s: seq<Sample>): real
    requires s != []
  {
    SumLocal(s) / |s| as real
  }

  /** The line the estimator settles on, if the samples determine one. */
  function Fit(s: seq<Sample>): Option<Line> {
    if |s| < 2 then None
    else
      var variance := Variance(s, MeanRemote(s));
      if variance <= 0.0 then None
      else
        var rate := Covariance(s, MeanRemote(s), MeanLocal(s)) / variance;
        Some(Line(rate, MeanLocal(s) - rate * MeanRemote(s)))
  }

  // ---------------------------------------------------------------- existence

  lemma {:induction false} VarianceSign(s: seq<Sample>, mr: real)
    ensures Variance(s, mr) >= 0.0
    ensures Variance(s, mr) == 0.0 <==> forall i :: 0 <= i < |s| ==> s[i].remote == mr
  {
    if s != [] {
      hide Square;
      var front, p := s[..|s| - 1], s[|s| - 1];
      VarianceSign(front, mr);
      SquareSign(p.remote - mr);
    }
  }

  lemma SquareSign(x: real)
    ensures Square(x) >= 0.0 && (Square(x) == 0.0 <==> x == 0.0)
  {
    if x != 0.0 {
      var y := 1.0 / x;
      assert Times(x, y) == 1.0;
      Cancelled(x, y);
    }
  }

  lemma Cancelled(x: real, y: real)
    ensures Times(Square(x), Square(y)) == Square(Times(x, y))
  {
  }

  lemma {:induction false} SumOfSame(s: seq<Sample>, r: real)
    requires forall i :: 0 <= i < |s| ==> s[i].remote == r
    ensures SumRemote(s) == Times(|s| as real, r)
  {
    if s != [] {
      SumOfSame(s[..|s| - 1], r);
      assert |s| as real == (|s| - 1) as real + 1.0;
    }
  }

  lemma MeanOfSame(s: seq<Sample>)
    requires s != [] && forall i :: 0 <= i < |s| ==> s[i].remote == s[0].remote
    ensures MeanRemote(s) == s[0].remote
  {
    SumOfSame(s, s[0].remote);
  }

  /** The window determines a line exactly when two of its samples differ in remote time. */
  lemma FitExists(s: seq<Sample>)
    ensures Fit(s).Some? <==> exists i, j :: 0 <= i < j < |s| && s[i].remote != s[j].remote
  {
    hide Variance, MeanRemote, Covariance, MeanLocal;
    if |s| >= 2 {
      VarianceSign(s, MeanRemote(s));
      if i, j :| 0 <= i < j < |s| && s[i].remote != s[j].remote {
        assert s[i].remote != MeanRemote(s) || s[j].remote != MeanRemote(s);
      } else {
        assert forall i :: 0 < i < |s| ==> s[0].remote == s[i].remote;
        MeanOfSame(s);
      }
    }
  }

  // ---------------------------------------------------------------- best fit

  function Residual(p: Sample, line: Line): real {
    p.local - Times(line.rate, p.remote) - line.intercept
  }

  /** The sum of squared residuals. */
  function Misfit(s: seq<Sample>, line: Line): real {
    if s == [] then 0.0 else Misfit(s[..|s| - 1], line) + Square(Residual(s[|s| - 1], line))
  }

  function SumResiduals(s: seq<Sample>, line: Line): real {
    if s == [] then 0.0 else SumResiduals(s[..|s| - 1], line) + Residual(s[|s| - 1], line)
  }

  function SumMoments(s: seq<Sample>, line: Line): real {
    if s == [] then 0.0
    else SumMoments(s[..|s| - 1], line) + Times(Residual(s[|s| - 1], line), s[|s| - 1].remote)
  }

  /** The height at `p` of the line that is the difference of two others. */
  function Height(p: Sample, rate: real, intercept: real): real {
    Times(rate, p.remote) + intercept
  }

  /** How far apart two lines are over the samples, squared and summed. */
  function Apart(s: seq<Sample>, rate: real, intercept: real): real {
    if s == [] then 0.0
    else Apart(s[..|s| - 1], rate, intercept) + Square(Height(s[|s| - 1], rate, intercept))
  }

  lemma ResidualOfShifted(p: Sample, line: Line, rate: real, intercept: real)
    ensures Residual(p, Line(line.rate + rate, line.intercept + intercept))
         == Residual(p, line) - Height(p, rate, intercept)
  {
  }

  lemma ShiftedStep(rate: real, intercept: real, p: Sample, e: real,
                    misfit: real, moments: real, residuals: real, apart: real)
    ensures var t := Height(p, rate, intercept);
      misfit - 2.0 * (Times(rate, moments) + Times(intercept, residuals)) + apart + Square(e - t)
        == (misfit + Square(e)) - 2.0 * (Times(rate, moments + Times(e, p.remote)) + Times(intercept, residuals + e))
           + (apart + Square(t))
  {
  }

  lemma {:induction false} MisfitOfShifted(s: seq<Sample>, line: Line, rate: real, intercept: real)
    ensures Misfit(s, Line(line.rate + rate, line.intercept + intercept))
         == Misfit(s, line) - 2.0 * (Times(rate, SumMoments(s, line)) + Times(intercept, SumResiduals(s, line)))
            + Apart(s, rate, intercept)
  {
    if s != [] {
      hide Residual, Height, Times, Square;
      var front, p := s[..|s| - 1], s[|s| - 1];
      MisfitOfShifted(front, line, rate, intercept);
      ResidualOfShifted(p, line, rate, intercept);
      ShiftedStep(rate, intercept, p, Residual(p, line),
                  Misfit(front, line), SumMoments(front, line), SumResiduals(front, line),
                  Apart(front, rate, intercept));
    }
  }

  lemma {:induction false} ApartNonNegative(s: seq<Sample>, rate: real, intercept: real)
    ensures Apart(s, rate, intercept) >= 0.0
  {
    hide Square, Height;
    if s != [] {
      ApartNonNegative(s[..|s| - 1], rate, intercept);
      SquareNonNegative(Height(s[|s| - 1], rate, intercept));
    }
  }

  lemma ResidualsStep(sumRemote: real, n: real, p: Sample, line: Line)
    ensures Residual(p, line) - Times(line.rate, sumRemote) - Times(n, line.intercept)
         == p.local - Times(line.rate, sumRemote + p.remote) - Times(n + 1.0, line.intercept)
  {
  }

  lemma {:induction false} ResidualsSum(s: seq<Sample>, line: Line)
    ensures SumResiduals(s, line) == SumLocal(s) - Times(line.rate, SumRemote(s)) - Times(|s| as real, line.intercept)
  {
    if s != [] {
      hide Residual, Times;
      var front, p := s[..|s| - 1], s[|s| - 1];
      ResidualsSum(front, line);
      ResidualsStep(SumRemote(front), |front| as real, p, line);
      assert |s| as real == |front| as real + 1.0;
    }
  }

  /** How far the line misses the point of the means. */
  function Miss(line: Line, mr: real, ml: real): real {
    ml - Times(line.rate, mr) - line.intercept
  }

  lemma MomentsStep(covariance: real, variance: real, sumRemote: real, n: real, residuals: real, p: Sample, line: Line,
                    mr: real, ml: real)
    ensures var c := Miss(line, mr, ml);
      covariance - Times(line.rate, variance) + Times(c, sumRemote - Times(n, mr)) + Times(mr, residuals)
          + Times(Residual(p, line), p.remote)
        == (covariance + Times(p.remote - mr, p.local - ml)) - Times(line.rate, variance + Square(p.remote - mr))
           + Times(c, (sumRemote + p.remote) - Times(n + 1.0, mr)) + Times(mr, residuals + Residual(p, line))
  {
  }

  /** The moments, in terms of covariance and variance about any point. */
  lemma {:induction false} MomentsSum(s: seq<Sample>, line: Line, mr: real, ml: real)
    ensures SumMoments(s, line) == Covariance(s, mr, ml) - Times(line.rate, Variance(s, mr))
      + Times(Miss(line, mr, ml), SumRemote(s) - Times(|s| as real, mr)) + Times(mr, SumResiduals(s, line))
  {
    if s != [] {
      hide Residual, Times, Square, Miss;
      var front, p := s[..|s| - 1], s[|s| - 1];
      MomentsSum(front, line, mr, ml);
      MomentsStep(Covariance(front, mr, ml), Variance(front, mr), SumRemote(front), |front| as real,
                  SumResiduals(front, line), p, line, mr, ml);
      assert |s| as real == |front| as real + 1.0;
    }
  }

  lemma MeansBalance(s: seq<Sample>)
    requires s != []
    ensures Times(|s| as real, MeanRemote(s)) == SumRemote(s)
    ensures Times(|s| as real, MeanLocal(s)) == SumLocal(s)
  {
  }

  lemma FitLine(s: seq<Sample>)
    requires Fit(s).Some?
    ensures s != [] && Variance(s, MeanRemote(s)) > 0.0
    ensures Times(Fit(s).value.rate, Variance(s, MeanRemote(s))) == Covariance(s, MeanRemote(s), MeanLocal(s))
    ensures Miss(Fit(s).value, MeanRemote(s), MeanLocal(s)) == 0.0
  {
    hide Variance, Covariance, MeanRemote, MeanLocal;
  }

  lemma Balance(n: real, mr: real, ml: real, line: Line)
    requires Miss(line, mr, ml) == 0.0
    ensures Times(n, ml) - Times(line.rate, Times(n, mr)) - Times(n, line.intercept) == 0.0
  {
  }

  /** The residuals of the fitted line balance out, and so do their moments. */
  lemma NormalEquations(s: seq<Sample>)
    requires Fit(s).Some?
    ensures SumResiduals(s, Fit(s).value) == 0.0
    ensures SumMoments(s, Fit(s).value) == 0.0
  {
    hide Fit, MeanRemote, MeanLocal, Variance, Covariance, SumResiduals, SumMoments, SumRemote, SumLocal, Miss;
    FitLine(s);
    var line, mr, ml := Fit(s).value, MeanRemote(s), MeanLocal(s);
    MeansBalance(s);
    ResidualsSum(s, line);
    Balance(|s| as real, mr, ml, line);
    MomentsSum(s, line, mr, ml);
  }

  /** Least squares: no line has a smaller sum of squared residuals than the fitted one. */
  lemma FitIsBest(s: seq<Sample>, line: Line)
    requires Fit(s).Some?
    ensures Misfit(s, Fit(s).value) <= Misfit(s, line)
  {
    hide Fit, Misfit, Apart, SumMoments, SumResiduals;
    var best := Fit(s).value;
    var rate, intercept := line.rate - best.rate, line.intercept - best.intercept;
    NormalEquations(s);
    MisfitOfShifted(s, best, rate, intercept);
    ApartNonNegative(s, rate, intercept);
    assert Line(best.rate + rate, best.intercept + intercept) == line;
  }

  // ---------------------------------------------------------------- exactness

  ghost predicate OnLine(s: seq<Sample>, line: Line) {
    forall i :: 0 <= i < |s| ==> Residual(s[i], line) == 0.0
  }

  lemma {:induction false} NoResiduals(s: seq<Sample>, line: Line)
    requires OnLine(s, line)
    ensures SumResiduals(s, line) == 0.0 && SumMoments(s, line) == 0.0 && Misfit(s, line) == 0.0
  {
    if s != [] {
      NoResiduals(s[..|s| - 1], line);
    }
  }

  lemma MeansOnLine(s: seq<Sample>, line: Line)
    requires s != [] && SumResiduals(s, line) == 0.0
    ensures Miss(line, MeanRemote(s), MeanLocal(s)) == 0.0
  {
    hide SumResiduals, SumRemote, SumLocal, MeanRemote, MeanLocal;
    ResidualsSum(s, line);
    MeansBalance(s);
    DivideOut(|s| as real, MeanRemote(s), MeanLocal(s), line);
  }

  lemma DivideOut(n: real, mr: real, ml: real, line: Line)
    requires n > 0.0 && Times(n, ml) - Times(line.rate, Times(n, mr)) - Times(n, line.intercept) == 0.0
    ensures Miss(line, mr, ml) == 0.0
  {
    assert Times(n, Miss(line, mr, ml)) == 0.0;
  }

  /** Samples that lie on one line are fitted by that very line. */
  lemma FitIsExact(s: seq<Sample>, line: Line)
    requires Fit(s).Some? && OnLine(s, line)
    ensures Fit(s).value == line
  {
    hide Fit, MeanRemote, MeanLocal, Variance, Covariance, SumResiduals, SumMoments, SumRemote, SumLocal;
    hide OnLine, Misfit;
    FitLine(s);
    var mr, ml := MeanRemote(s), MeanLocal(s);
    NoResiduals(s, line);
    MeansOnLine(s, line);
    MeansBalance(s);
    MomentsSum(s, line, mr, ml);
    SameLine(Fit(s).value, line, Variance(s, mr), mr, ml);
  }

  lemma SameLine(line: Line, line': Line, variance: real, mr: real, ml: real)
    requires variance > 0.0 && Times(line.rate, variance) == Times(line'.rate, variance)
    requires Miss(line, mr, ml) == 0.0 && Miss(line', mr, ml) == 0.0
    ensures line == line'
  {
    assert Times(line.rate - line'.rate, variance) == 0.0;
    assert line.rate == line'.rate;
  }

  // ---------------------------------------------------------------- slope

  /** Both clocks run forwards through the window. */
  ghost predicate Sorted(s: seq<Sample>) {
    forall i, j :: 0 <= i < j < |s| ==> s[i].remote <= s[j].remote && s[i].local <= s[j].local
  }

  function SumProducts(s: seq<Sample>): real {
    if s == [] then 0.0 else SumProducts(s[..|s| - 1]) + Times(s[|s| - 1].remote, s[|s| - 1].local)
  }

  lemma CovarianceStep(products: real, sumRemote: real, sumLocal: real, n: real, p: Sample, mr: real, ml: real)
    ensures products - Times(ml, sumRemote) - Times(mr, sumLocal) + Times(n, Times(mr, ml))
              + Times(p.remote - mr, p.local - ml)
         == products + Times(p.remote, p.local) - Times(ml, sumRemote + p.remote) - Times(mr, sumLocal + p.local)
              + Times(n + 1.0, Times(mr, ml))
  {
  }

  lemma {:induction false} CovarianceExpands(s: seq<Sample>, mr: real, ml: real)
    ensures Covariance(s, mr, ml)
         == SumProducts(s) - Times(ml, SumRemote(s)) - Times(mr, SumLocal(s)) + Times(|s| as real, Times(mr, ml))
  {
    if s != [] {
      hide Times;
      var front, p := s[..|s| - 1], s[|s| - 1];
      CovarianceExpands(front, mr, ml);
      CovarianceStep(SumProducts(front), SumRemote(front), SumLocal(front), |front| as real, p, mr, ml);
      assert |s| as real == |front| as real + 1.0;
    }
  }

  /** Seen from a point no sample is beyond, the deviations agree in sign. */
  lemma {:induction false} DominatedCovariance(s: seq<Sample>, p: Sample)
    requires forall i :: 0 <= i < |s| ==> s[i].remote <= p.remote && s[i].local <= p.local
    ensures Covariance(s, p.remote, p.local) >= 0.0
  {
    if s != [] {
      DominatedCovariance(s[..|s| - 1], p);
      SameSigns(s[|s| - 1].remote - p.remote, s[|s| - 1].local - p.local);
      hide Times;
    }
  }

  lemma SameSigns(x: real, y: real)
    requires x <= 0.0 && y <= 0.0
    ensures Times(x, y) >= 0.0
  {
  }

  /** The count times the covariance about the means. */
  function Spread(s: seq<Sample>): real {
    Times(|s| as real, SumProducts(s)) - Times(SumRemote(s), SumLocal(s))
  }

  lemma SpreadStep(n: real, products: real, sumRemote: real, sumLocal: real, p: Sample)
    ensures Times(n + 1.0, products + Times(p.remote, p.local)) - Times(sumRemote + p.remote, sumLocal + p.local)
         == Times(n, products) - Times(sumRemote, sumLocal)
            + (products - Times(p.local, sumRemote) - Times(p.remote, sumLocal) + Times(n, Times(p.remote, p.local)))
  {
  }

  /** Chebyshev's sum inequality for the window. */
  lemma {:induction false} SpreadNonNegative(s: seq<Sample>)
    requires Sorted(s)
    ensures Spread(s) >= 0.0
  {
    if s != [] {
      hide Times, Covariance;
      var front, p := s[..|s| - 1], s[|s| - 1];
      SpreadNonNegative(front);
      DominatedCovariance(front, p);
      CovarianceExpands(front, p.remote, p.local);
      SpreadStep(|front| as real, SumProducts(front), SumRemote(front), SumLocal(front), p);
      assert |s| as real == |front| as real + 1.0;
    } else {
      assert Times(0.0, 0.0) == 0.0;
    }
  }

  lemma SpreadIsCovariance(n: real, products: real, mr: real, ml: real, covariance: real)
    requires n > 0.0
    requires covariance == products - Times(ml, Times(n, mr)) - Times(mr, Times(n, ml)) + Times(n, Times(mr, ml))
    requires Times(n, products) - Times(Times(n, mr), Times(n, ml)) >= 0.0
    ensures covariance >= 0.0
  {
    assert Times(n, covariance) == Times(n, products) - Times(Times(n, mr), Times(n, ml));
    SignOfFactor(n, covariance);
  }

  lemma SignOfFactor(n: real, x: real)
    requires n > 0.0 && Times(n, x) >= 0.0
    ensures x >= 0.0
  {
  }

  lemma CovarianceNonNegative(s: seq<Sample>)
    requires s != [] && Sorted(s)
    ensures Covariance(s, MeanRemote(s), MeanLocal(s)) >= 0.0
  {
    hide Times, Covariance, MeanRemote, MeanLocal, SumRemote, SumLocal, SumProducts;
    var mr, ml := MeanRemote(s), MeanLocal(s);
    MeansBalance(s);
    SpreadNonNegative(s);
    CovarianceExpands(s, mr, ml);
    SpreadIsCovariance(|s| as real, SumProducts(s), mr, ml, Covariance(s, mr, ml));
  }

  /** A fitted clock never runs backwards. */
  lemma RateNonNegative(s: seq<Sample>)
    requires Fit(s).Some? && Sorted(s)
    ensures Fit(s).value.rate >= 0.0
  {
    hide Covariance, Variance, MeanRemote, MeanLocal;
    CovarianceNonNegative(s);
  }
}
