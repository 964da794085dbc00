/** make_qkx3_quants (convert_escha_to_gguf.py:64-130) for one row, over exact reals:
    a search for a scale, an offset that is never positive, and levels.

    Every candidate of the search solves the weighted least-squares problem for its levels, over all
    scales and all offsets that are not positive. The search keeps the best fit seen, by squared or by absolute
    error, so that error only falls, and stays within that of rounding to an even grid. */
module QkxQuants {
  import opened WeightedFit

  // What the search keeps for a row; the caller gets -min.
  datatype Fit = Fit(scale: real, min: real, levels: seq<int>)

  predicate Fits(f: Fit, x: seq<real>, nmax: int) {
    && |f.levels| == |x| && f.min <= 0.0
    && forall i :: 0 <= i < |x| ==> 0 <= f.levels[i] <= nmax
  }

  function FitError(w: seq<real>, x: seq<real>, f: Fit): real
    requires |w| == |x| == |f.levels|
  {
    Error(w, x, Reals(f.levels), f.scale, f.min)
  }

  // The weighted absolute deviation.
  function Deviation(w: seq<real>, x: seq<real>, l: seq<real>, s: real, m: real): real
    requires |w| == |x| == |l|
  {
    if w == [] then 0.0
    else
      var n := |w| - 1;
      Deviation(w[..n], x[..n], l[..n], s, m) + w[n] * Abs(s * l[n] + m - x[n])
  }

  // What fits are compared by: the absolute deviation or the squared error.
  function Loss(mad: bool, w: seq<real>, x: seq<real>, l: seq<real>, s: real, m: real): real
    requires |w| == |x| == |l|
  {
    if mad then Deviation(w, x, l, s, m) else Error(w, x, l, s, m)
  }

  function FitLoss(mad: bool, w: seq<real>, x: seq<real>, f: Fit): real
    requires |w| == |x| == |f.levels|
  {
    Loss(mad, w, x, Reals(f.levels), f.scale, f.min)
  }

  function LevelAt(x: real, min: real, iscale: real, nmax: int): (r: int)
    requires nmax >= 1
    ensures 0 <= r <= nmax
  {
    Clip(NearestInt(Times(iscale, x - min)), 0, nmax)
  }

  function LevelsAt(x: seq<real>, min: real, iscale: real, nmax: int): (r: seq<int>)
    requires nmax >= 1
    ensures |r| == |x| && forall i :: 0 <= i < |x| ==> 0 <= r[i] <= nmax
  {
    seq(|x|, i requires 0 <= i < |x| => LevelAt(x[i], min, iscale, nmax))
  }

  // ---------- The least-squares candidate ----------

  // The determinant and the numerators of the normal equations
  //   ll * s + lo * m == xl,  lo * s + oo * m == xo.
  function Determinant(ll: real, lo: real, oo: real): real {
    oo * ll - lo * lo
  }

  // A candidate for given levels: nothing when the levels do not determine a line, the solution of the
  // normal equations when its offset is not positive, and the best scale with offset zero otherwise.
  datatype Candidate = NoCandidate | Line(scale: real, min: real)

  function Solve(ll: real, lo: real, oo: real, xl: real, xo: real): Candidate {
    var det := Determinant(ll, lo, oo);
    if det <= 0.0 then NoCandidate
    else
      var s, m := (oo * xl - xo * lo) / det, (ll * xo - lo * xl) / det;
      if m > 0.0 then Line(if ll != 0.0 then xl / ll else s, 0.0) else Line(s, m)
  }

  // The error, completed to squares around the solution `m0` of the normal equations.
  lemma Completed(ll: real, lo: real, oo: real, xl: real, xo: real, xx: real, det: real, m0: real, s: real, m: real,
                  t: real)
    requires det == Determinant(ll, lo, oo) && det * m0 == ll * xo - lo * xl && t == ll * s + lo * m - xl
    ensures ll * Quadratic(ll, lo, oo, xl, xo, xx, s, m)
         == t * t + det * (m - m0) * (m - m0) + (ll * xx - xl * xl - det * m0 * m0)
  {
    hide Quadratic, Determinant;
    var p, q := ll * s, lo * m;
    var ox := ll * (m * xo);
    var mm := ll * (m * m * oo);
    ScaledQuadratic(ll, lo, oo, xl, xo, xx, s, m, p, q);
    SquareOfThree(p, q, xl);
    OffsetSquare(det, m, m0);
    DeterminantSquare(ll, lo, oo, det, m, q);
    OffsetProduct(ll, lo, xl, xo, det, m, m0, q);
  }

  lemma ScaledQuadratic(ll: real, lo: real, oo: real, xl: real, xo: real, xx: real, s: real, m: real, p: real, q: real)
    requires p == ll * s && q == lo * m
    ensures ll * Quadratic(ll, lo, oo, xl, xo, xx, s, m)
         == p * p + 2.0 * (p * q) + ll * (m * m * oo) - 2.0 * (p * xl) - 2.0 * (ll * (m * xo)) + ll * xx
  {
    var a, b, c, d, e := s * s * ll, s * m * lo, m * m * oo, s * xl, m * xo;
    assert ll * a == p * p && ll * b == p * q && ll * d == p * xl;
    SixTerms(ll, a, b, c, d, e, xx);
  }

  lemma SixTerms(f: real, a: real, b: real, c: real, d: real, e: real, g: real)
    ensures f * (a + 2.0 * b + c - 2.0 * d - 2.0 * e + g)
         == f * a + 2.0 * (f * b) + f * c - 2.0 * (f * d) - 2.0 * (f * e) + f * g
  {
  }

  lemma SquareOfThree(p: real, q: real, r: real)
    ensures (p + q - r) * (p + q - r) == p * p + 2.0 * (p * q) + q * q - 2.0 * (p * r) - 2.0 * (q * r) + r * r
  {
  }

  lemma OffsetSquare(det: real, m: real, m0: real)
    ensures det * (m - m0) * (m - m0) == det * m * m - 2.0 * (m * (det * m0)) + det * m0 * m0
  {
  }

  lemma DeterminantSquare(ll: real, lo: real, oo: real, det: real, m: real, q: real)
    requires det == Determinant(ll, lo, oo) && q == lo * m
    ensures det * m * m == ll * (m * m * oo) - q * q
  {
    assert (oo * ll) * m * m == ll * (m * m * oo);
    assert (lo * lo) * m * m == q * q;
  }

  lemma OffsetProduct(ll: real, lo: real, xl: real, xo: real, det: real, m: real, m0: real, q: real)
    requires det * m0 == ll * xo - lo * xl && q == lo * m
    ensures m * (det * m0) == ll * (m * xo) - q * xl
  {
    assert m * (ll * xo) == ll * (m * xo) && m * (lo * xl) == q * xl;
  }

  // The solution of the normal equations is least over all scales and offsets.
  lemma NormalSolution(ll: real, lo: real, oo: real, xl: real, xo: real, xx: real, s0: real, m0: real, s: real, m: real)
    requires ll > 0.0 && Determinant(ll, lo, oo) > 0.0
    requires s0 == (oo * xl - xo * lo) / Determinant(ll, lo, oo) && m0 == (ll * xo - lo * xl) / Determinant(ll, lo, oo)
    ensures Quadratic(ll, lo, oo, xl, xo, xx, s0, m0) <= Quadratic(ll, lo, oo, xl, xo, xx, s, m)
  {
    hide Quadratic;
    var det := Determinant(ll, lo, oo);
    var t, t0 := ll * s + lo * m - xl, ll * s0 + lo * m0 - xl;
    FirstNormalEquation(ll, lo, oo, xl, xo, det, s0, m0);
    Completed(ll, lo, oo, xl, xo, xx, det, m0, s, m, t);
    Completed(ll, lo, oo, xl, xo, xx, det, m0, s0, m0, t0);
    hide Determinant;
    SquareTerm(det, m - m0);
    SquareTerm(1.0, t);
    assert t0 * t0 == 0.0 && det * (m0 - m0) * (m0 - m0) == 0.0;
    Cancel(ll, Quadratic(ll, lo, oo, xl, xo, xx, s0, m0), Quadratic(ll, lo, oo, xl, xo, xx, s, m));
  }

  lemma Cancel(f: real, a: real, b: real)
    requires f > 0.0 && f * a <= f * b
    ensures a <= b
  {
    assert f * (b - a) >= 0.0;
  }

  lemma FirstNormalEquation(ll: real, lo: real, oo: real, xl: real, xo: real, det: real, s0: real, m0: real)
    requires det == Determinant(ll, lo, oo) && det > 0.0
    requires s0 == (oo * xl - xo * lo) / det && m0 == (ll * xo - lo * xl) / det
    ensures det * m0 == ll * xo - lo * xl && ll * s0 + lo * m0 == xl
  {
    var a, b := oo * xl - xo * lo, ll * xo - lo * xl;
    assert det * s0 == a && det * m0 == b;
    NormalNumerators(ll, lo, oo, xl, xo, det, a, b);
    assert det * (ll * s0 + lo * m0) == ll * a + lo * b by {
      assert det * (ll * s0) == ll * (det * s0) && det * (lo * m0) == lo * (det * m0);
    }
    SameMultiple(det, ll * s0 + lo * m0, xl);
  }

  lemma NormalNumerators(ll: real, lo: real, oo: real, xl: real, xo: real, det: real, a: real, b: real)
    requires det == Determinant(ll, lo, oo) && a == oo * xl - xo * lo && b == ll * xo - lo * xl
    ensures ll * a + lo * b == det * xl
  {
    assert ll * (oo * xl) == (oo * ll) * xl && lo * (lo * xl) == (lo * lo) * xl && ll * (xo * lo) == lo * (ll * xo);
  }

  lemma SameMultiple(f: real, a: real, b: real)
    requires f > 0.0 && f * a == f * b
    ensures a == b
  {
    assert f * (a - b) == 0.0;
  }

  // When that offset is positive, the best scale with offset zero is least over the offsets that are not.
  lemma ClampedSolution(ll: real, lo: real, oo: real, xl: real, xo: real, xx: real, s0: real, m0: real, s: real,
                        m: real)
    requires ll > 0.0 && Determinant(ll, lo, oo) > 0.0 && s0 == xl / ll
    requires m0 == (ll * xo - lo * xl) / Determinant(ll, lo, oo) && m <= 0.0 < m0
    ensures Quadratic(ll, lo, oo, xl, xo, xx, s0, 0.0) <= Quadratic(ll, lo, oo, xl, xo, xx, s, m)
  {
    hide Quadratic;
    var det := Determinant(ll, lo, oo);
    var t, t0 := ll * s + lo * m - xl, ll * s0 + lo * 0.0 - xl;
    assert det * m0 == ll * xo - lo * xl;
    assert ll * s0 == xl;
    Completed(ll, lo, oo, xl, xo, xx, det, m0, s, m, t);
    Completed(ll, lo, oo, xl, xo, xx, det, m0, s0, 0.0, t0);
    hide Determinant;
    SquareTerm(1.0, t);
    assert t0 * t0 == 0.0;
    FurtherOff(det, m, m0);
    Cancel(ll, Quadratic(ll, lo, oo, xl, xo, xx, s0, 0.0), Quadratic(ll, lo, oo, xl, xo, xx, s, m));
  }

  lemma FurtherOff(det: real, m: real, m0: real)
    requires det > 0.0 && m <= 0.0 < m0
    ensures det * (0.0 - m0) * (0.0 - m0) <= det * (m - m0) * (m - m0)
  {
    assert m * m >= 0.0 && m * m0 <= 0.0;
    assert (m - m0) * (m - m0) == m * m - 2.0 * (m * m0) + m0 * m0;
    assert (0.0 - m0) * (0.0 - m0) == m0 * m0;
    assert det * ((m - m0) * (m - m0) - m0 * m0) >= 0.0;
  }

  lemma SquareSumPositive(ll: real, lo: real, oo: real)
    requires ll >= 0.0 && Determinant(ll, lo, oo) > 0.0
    ensures ll > 0.0
  {
    assert lo * lo >= 0.0;
    assert ll == 0.0 ==> oo * ll == 0.0;
  }

  lemma SolveOptimal(ll: real, lo: real, oo: real, xl: real, xo: real, xx: real, c: Candidate, s: real, m: real)
    requires ll >= 0.0 && c == Solve(ll, lo, oo, xl, xo) && c.Line?
    requires m <= 0.0 || c.min < 0.0
    ensures c.min <= 0.0 && Quadratic(ll, lo, oo, xl, xo, xx, c.scale, c.min) <= Quadratic(ll, lo, oo, xl, xo, xx, s, m)
  {
    hide Quadratic, Determinant;
    SquareSumPositive(ll, lo, oo);
    var det := Determinant(ll, lo, oo);
    var s0, m0 := (oo * xl - xo * lo) / det, (ll * xo - lo * xl) / det;
    if m0 > 0.0 {
      assert c == Line(xl / ll, 0.0);
      ClampedSolution(ll, lo, oo, xl, xo, xx, c.scale, m0, s, m);
    } else {
      assert c == Line(s0, m0);
      NormalSolution(ll, lo, oo, xl, xo, xx, s0, m0, s, m);
    }
  }

  function SolveRow(w: seq<real>, x: seq<real>, l: seq<real>): Candidate
    requires |w| == |x| == |l|
  {
    var o := Ones(|w|);
    Solve(Dot(w, l, l), Dot(w, l, o), Dot(w, o, o), Dot(w, x, l), Dot(w, x, o))
  }

  // A candidate is the weighted least-squares optimum for its levels: over all scales and offsets when
  // its offset is negative, over the offsets that are not positive when it is zero.
  lemma CandidateOptimal(w: seq<real>, x: seq<real>, l: seq<real>, s: real, m: real)
    requires |w| == |x| == |l| && NonNegative(w) && SolveRow(w, x, l).Line?
    requires m <= 0.0 || SolveRow(w, x, l).min < 0.0
    ensures var c := SolveRow(w, x, l); c.min <= 0.0 && Error(w, x, l, c.scale, c.min) <= Error(w, x, l, s, m)
  {
    hide Quadratic, Determinant, Dot, Error, Solve;
    var o, c := Ones(|w|), SolveRow(w, x, l);
    var ll, lo, oo, xl, xo, xx := Dot(w, l, l), Dot(w, l, o), Dot(w, o, o), Dot(w, x, l), Dot(w, x, o), Dot(w, x, x);
    ErrorQuadratic(w, x, l, o, s, m);
    ErrorQuadratic(w, x, l, o, c.scale, c.min);
    SquaresNonNegative(w, l);
    SolveOptimal(ll, lo, oo, xl, xo, xx, c, s, m);
  }

  // ---------- Scales are not negative ----------

  // Values and levels in the same order.
  ghost predicate SameOrder(x: seq<real>, l: seq<real>)
    requires |x| == |l|
  {
    forall i, j :: 0 <= i < |x| && 0 <= j < |x| && x[i] <= x[j] ==> l[i] <= l[j]
  }

  // The sum over the row of w * (a - x) * (b - l), by its sums.
  function CrossSum(oo: real, xl: real, lo: real, xo: real, a: real, b: real): real {
    oo * (a * b) + xl - a * lo - b * xo
  }

  // The weighted covariance of values and levels, by their sums.
  function Covariance(oo: real, xl: real, lo: real, xo: real): real {
    oo * xl - xo * lo
  }

  lemma EmptySums(w: seq<real>, x: seq<real>, l: seq<real>, o: seq<real>, a: real, b: real)
    requires |w| == |x| == |l| == |o| == 0
    ensures CrossSum(Dot(w, o, o), Dot(w, x, l), Dot(w, l, o), Dot(w, x, o), a, b) == 0.0
    ensures Covariance(Dot(w, o, o), Dot(w, x, l), Dot(w, l, o), Dot(w, x, o)) == 0.0
  {
  }

  lemma WeightsPrefix(w: seq<real>)
    requires w != [] && NonNegative(w)
    ensures NonNegative(w[..|w| - 1]) && w[|w| - 1] >= 0.0
  {
  }

  lemma OrderedPrefix(x: seq<real>, l: seq<real>)
    requires |x| == |l| && x != [] && SameOrder(x, l)
    ensures var n := |x| - 1;
            && SameOrder(x[..n], l[..n])
            && forall i :: 0 <= i < n ==>
                (x[..n][i] <= x[n] && l[..n][i] <= l[n]) || (x[n] <= x[..n][i] && l[n] <= l[..n][i])
  {
  }

  lemma {:induction false} CrossTerms(w: seq<real>, x: seq<real>, l: seq<real>, o: seq<real>, a: real, b: real)
    requires |w| == |x| == |l| && o == Ones(|w|) && NonNegative(w)
    requires forall i :: 0 <= i < |x| ==> (x[i] <= a && l[i] <= b) || (a <= x[i] && b <= l[i])
    ensures CrossSum(Dot(w, o, o), Dot(w, x, l), Dot(w, l, o), Dot(w, x, o), a, b) >= 0.0
    decreases |w|
  {
    hide Dot, CrossSum;
    if w == [] {
      EmptySums(w, x, l, o, a, b);
    } else {
      var n := |w| - 1;
      assert o[..n] == Ones(n);
      CrossTerms(w[..n], x[..n], l[..n], o[..n], a, b);
      WeightSnoc(w, o);
      DotSnoc(w, x, l);
      DotOnesSnoc(w, l, o);
      DotOnesSnoc(w, x, o);
      CrossStep(Dot(w[..n], o[..n], o[..n]), Dot(w[..n], x[..n], l[..n]), Dot(w[..n], l[..n], o[..n]),
                Dot(w[..n], x[..n], o[..n]),
                Dot(w, o, o), Dot(w, x, l), Dot(w, l, o), Dot(w, x, o), w[n], x[n], l[n], a, b);
    }
  }

  lemma CrossStep(oo: real, xl: real, lo: real, xo: real, oo': real, xl': real, lo': real, xo': real,
                  w: real, x: real, l: real, a: real, b: real)
    requires w >= 0.0 && ((x <= a && l <= b) || (a <= x && b <= l))
    requires oo' == oo + w && xl' == xl + w * x * l && lo' == lo + w * l && xo' == xo + w * x
    ensures CrossSum(oo', xl', lo', xo', a, b) >= CrossSum(oo, xl, lo, xo, a, b)
  {
    var d := (a - x) * (b - l);
    assert d >= 0.0;
    assert w * d >= 0.0;
    assert w * d == w * (a * b) - a * (w * l) - b * (w * x) + w * x * l by {
      assert d == a * b - a * l - b * x + x * l;
      assert w * (a * l) == a * (w * l) && w * (b * x) == b * (w * x) && w * (x * l) == w * x * l;
    }
    assert oo' * (a * b) == oo * (a * b) + w * (a * b);
    assert a * lo' == a * lo + a * (w * l) && b * xo' == b * xo + b * (w * x);
  }

  // Chebyshev's sum inequality: in the same order, values and levels do not vary against each other.
  lemma {:induction false} CovarianceNonNegative(w: seq<real>, x: seq<real>, l: seq<real>, o: seq<real>)
    requires |w| == |x| == |l| && o == Ones(|w|) && NonNegative(w) && SameOrder(x, l)
    ensures Covariance(Dot(w, o, o), Dot(w, x, l), Dot(w, l, o), Dot(w, x, o)) >= 0.0
    decreases |w|
  {
    hide Dot, Covariance, CrossSum, SameOrder, NonNegative;
    if w == [] {
      EmptySums(w, x, l, o, 0.0, 0.0);
    } else {
      var n := |w| - 1;
      assert o[..n] == Ones(n);
      OrderedPrefix(x, l);
      WeightsPrefix(w);
      CovarianceNonNegative(w[..n], x[..n], l[..n], o[..n]);
      CrossTerms(w[..n], x[..n], l[..n], o[..n], x[n], l[n]);
      WeightSnoc(w, o);
      DotSnoc(w, x, l);
      DotOnesSnoc(w, l, o);
      DotOnesSnoc(w, x, o);
      CovarianceStep(Dot(w[..n], o[..n], o[..n]), Dot(w[..n], x[..n], l[..n]), Dot(w[..n], l[..n], o[..n]),
                     Dot(w[..n], x[..n], o[..n]),
                     Dot(w, o, o), Dot(w, x, l), Dot(w, l, o), Dot(w, x, o), w[n], x[n], l[n]);
    }
  }

  lemma CovarianceStep(oo: real, xl: real, lo: real, xo: real, oo': real, xl': real, lo': real, xo': real, w: real,
                       x: real, l: real)
    requires w >= 0.0 && CrossSum(oo, xl, lo, xo, x, l) >= 0.0
    requires oo' == oo + w && xl' == xl + w * x * l && lo' == lo + w * l && xo' == xo + w * x
    ensures Covariance(oo', xl', lo', xo') >= Covariance(oo, xl, lo, xo)
  {
    var p, q, r := w * x * l, w * l, w * x;
    assert w * (oo * (x * l) + xl - x * lo - l * xo) >= 0.0;
    assert w * (oo * (x * l)) == oo * p && w * (x * lo) == r * lo && w * (l * xo) == q * xo;
    assert w * p == r * q;
    assert oo' * xl' == oo * xl + oo * p + w * xl + w * p;
    assert xo' * lo' == xo * lo + xo * q + r * lo + r * q;
  }

  lemma SolveScale(ll: real, lo: real, oo: real, xl: real, xo: real)
    requires ll >= 0.0 && lo >= 0.0 && oo >= 0.0 && Covariance(oo, xl, lo, xo) >= 0.0
    ensures var c := Solve(ll, lo, oo, xl, xo); c.Line? ==> c.scale >= 0.0
  {
    var det, a, b := Determinant(ll, lo, oo), oo * xl - xo * lo, ll * xo - lo * xl;
    if det > 0.0 {
      assert a / det >= 0.0;
      SquareSumPositive(ll, lo, oo);
      if b / det > 0.0 {
        assert b > 0.0;
        MixedSum(ll, lo, oo, xl, xo, det);
        assert xl / ll >= 0.0;
      }
    }
  }

  lemma MixedSum(ll: real, lo: real, oo: real, xl: real, xo: real, det: real)
    requires ll > 0.0 && lo >= 0.0 && oo >= 0.0 && oo * xl - xo * lo >= 0.0
    requires det == Determinant(ll, lo, oo) && det > 0.0 && ll * xo - lo * xl > 0.0
    ensures xl >= 0.0
  {
    // ll * (oo * xl - xo * lo) + lo * (ll * xo - lo * xl) == det * xl
    NormalNumerators(ll, lo, oo, xl, xo, det, oo * xl - xo * lo, ll * xo - lo * xl);
    assert ll * (oo * xl - xo * lo) >= 0.0 && lo * (ll * xo - lo * xl) >= 0.0;
    assert det * xl >= 0.0;
  }

  lemma LevelsInOrder(x: seq<real>, min: real, iscale: real, nmax: int)
    requires nmax >= 1 && iscale >= 0.0
    ensures SameOrder(x, Reals(LevelsAt(x, min, iscale, nmax)))
  {
    forall i, j | 0 <= i < |x| && 0 <= j < |x| && x[i] <= x[j]
      ensures LevelAt(x[i], min, iscale, nmax) <= LevelAt(x[j], min, iscale, nmax)
    {
      LevelMonotone(x[i], x[j], min, iscale, nmax);
    }
  }

  lemma LevelMonotone(a: real, b: real, min: real, iscale: real, nmax: int)
    requires nmax >= 1 && iscale >= 0.0 && a <= b
    ensures LevelAt(a, min, iscale, nmax) <= LevelAt(b, min, iscale, nmax)
  {
    hide NearestInt, Times;
    ScaledOrder(iscale, a - min, b - min);
    NearestMonotone(Times(iscale, a - min), Times(iscale, b - min));
  }

  // The scale of a candidate for levels in the order of the values is not negative.
  lemma CandidateScale(w: seq<real>, x: seq<real>, min: real, iscale: real, nmax: int)
    requires |w| == |x| && NonNegative(w) && nmax >= 1 && iscale >= 0.0
    ensures var c := SolveRow(w, x, Reals(LevelsAt(x, min, iscale, nmax))); c.Line? ==> c.scale >= 0.0
  {
    hide Dot, SameOrder, Covariance, Solve, NonNegative;
    var l, o := Reals(LevelsAt(x, min, iscale, nmax)), Ones(|w|);
    LevelsInOrder(x, min, iscale, nmax);
    CovarianceNonNegative(w, x, l, o);
    SquaresNonNegative(w, l);
    SquaresNonNegative(w, o);
    LevelSumNonNegative(w, l, o);
    SolveScale(Dot(w, l, l), Dot(w, l, o), Dot(w, o, o), Dot(w, x, l), Dot(w, x, o));
  }

  lemma {:induction false} LevelSumNonNegative(w: seq<real>, l: seq<real>, o: seq<real>)
    requires |w| == |l| && o == Ones(|w|) && NonNegative(w) && NonNegative(l)
    ensures Dot(w, l, o) >= 0.0
    decreases |w|
  {
    if w != [] {
      var n := |w| - 1;
      assert o[..n] == Ones(n);
      LevelSumNonNegative(w[..n], l[..n], o[..n]);
      DotOnesSnoc(w, l, o);
      assert w[n] * l[n] >= 0.0;
    }
  }

  // ---------- The search ----------

  function Lowest(x: seq<real>): (r: real)
    requires x != []
    ensures r <= 0.0 && forall i :: 0 <= i < |x| ==> r <= x[i]
  {
    if MinOf(x) < 0.0 then MinOf(x) else 0.0
  }

  function Span(x: seq<real>): (r: real)
    requires x != []
    ensures r >= 0.0
  {
    MaxOf(x) - Lowest(x)
  }

  // Rounding to nmax even steps from the lowest value to the highest.
  function Start(x: seq<real>, nmax: int): (f: Fit)
    requires x != [] && nmax >= 1
    ensures Fits(f, x, nmax)
  {
    var span := Span(x);
    if span > 0.0 then Fit(span / nmax as real, Lowest(x), LevelsAt(x, Lowest(x), nmax as real / span, nmax))
    else Fit(0.0, Lowest(x), LevelsAt(x, Lowest(x), 0.0, nmax))
  }

  // The inverse scales that the search tries.
  function TrialScale(span: real, nmax: int, rmin: real, rdelta: real, istep: nat): real
    requires span > 0.0
  {
    Numerator(nmax, rmin, rdelta, istep) / span
  }

  function Numerator(nmax: int, rmin: real, rdelta: real, istep: nat): real {
    rmin + rdelta * istep as real + nmax as real
  }

  function Try(w: seq<real>, x: seq<real>, nmax: int, iscale: real, mad: bool, f: Fit): (r: Fit)
    requires |w| == |x| && nmax >= 1 && Fits(f, x, nmax)
    ensures |r.levels| == |x|
  {
    var levels := LevelsAt(x, f.min, iscale, nmax);
    match SolveRow(w, x, Reals(levels))
    case NoCandidate => f
    case Line(s, m) => if Loss(mad, w, x, Reals(levels), s, m) < FitLoss(mad, w, x, f) then Fit(s, m, levels) else f
  }

  lemma TryFits(w: seq<real>, x: seq<real>, nmax: int, iscale: real, mad: bool, f: Fit)
    requires |w| == |x| && nmax >= 1 && Fits(f, x, nmax)
    ensures Fits(Try(w, x, nmax, iscale, mad, f), x, nmax)
  {
    hide Dot, Error, Deviation, Reals;
  }

  // The fit after the first `n` trials.
  function Search(w: seq<real>, x: seq<real>, nmax: int, rmin: real, rdelta: real, mad: bool, n: nat): (f: Fit)
    requires |w| == |x| > 0 && nmax >= 1
    ensures Fits(f, x, nmax)
  {
    if n == 0 || Span(x) <= 0.0 then Start(x, nmax)
    else
      var f := Search(w, x, nmax, rmin, rdelta, mad, n - 1);
      var iscale := TrialScale(Span(x), nmax, rmin, rdelta, n - 1);
      TryFits(w, x, nmax, iscale, mad, f);
      Try(w, x, nmax, iscale, mad, f)
  }

  // ---------- The search, written out ----------

  predicate RoundedBy(x: seq<real>, min: real, iscale: real, nmax: int, l: seq<int>)
    requires |l| == |x| && nmax >= 1
  {
    forall i :: 0 <= i < |x| ==> l[i] == Clip(NearestInt(iscale * (x[i] - min)), 0, nmax)
  }

  // The levels of the inverse scale `numerator / span`: rounded and clipped.
  ghost predicate TrialLevels(x: seq<real>, min: real, numerator: real, span: real, nmax: int, l: seq<int>) {
    |l| == |x| && nmax >= 1 && exists iscale: real :: iscale * span == numerator && RoundedBy(x, min, iscale, nmax, l)
  }

  predicate NormalEquations(ll: real, lo: real, oo: real, xl: real, xo: real, s: real, m: real) {
    ll * s + lo * m == xl && lo * s + oo * m == xo
  }

  // The levels determine a line, and it solves the normal equations, or has offset zero where that solution has a
  // positive offset.
  ghost predicate LineOf(w: seq<real>, x: seq<real>, l: seq<real>, s: real, m: real)
    requires |w| == |x| == |l|
  {
    var o := Ones(|w|);
    var ll, lo, oo, xl, xo := Dot(w, l, l), Dot(w, l, o), Dot(w, o, o), Dot(w, x, l), Dot(w, x, o);
    && oo * ll > lo * lo
    && exists s0, m0 :: NormalEquations(ll, lo, oo, xl, xo, s0, m0)
         && if m0 > 0.0 then m == 0.0 && ll * s == xl else s == s0 && m == m0
  }

  predicate NoLine(w: seq<real>, l: seq<real>)
    requires |w| == |l|
  {
    var o := Ones(|w|);
    Dot(w, o, o) * Dot(w, l, l) <= Dot(w, l, o) * Dot(w, l, o)
  }

  // Trial `j`: the levels for its inverse scale and the offset so far; their line replaces the fit when it is better.
  ghost predicate TrialStep(w: seq<real>, x: seq<real>, nmax: int, rmin: real, rdelta: real, mad: bool, j: nat, f: Fit,
                            g: Fit)
    requires |w| == |x| > 0 && |f.levels| == |x|
  {
    var span := MaxOf(x) - (if MinOf(x) < 0.0 then MinOf(x) else 0.0);
    var numerator := rmin + rdelta * j as real + nmax as real;
    if span <= 0.0 then g == f
    else
      && (forall l :: |l| == |x| && TrialLevels(x, f.min, numerator, span, nmax, l) && NoLine(w, Reals(l)) ==> g == f)
      && (forall l, s, m ::
            (|l| == |x| && TrialLevels(x, f.min, numerator, span, nmax, l) && LineOf(w, x, Reals(l), s, m)) ==>
            g == if Loss(mad, w, x, Reals(l), s, m) < FitLoss(mad, w, x, f) then Fit(s, m, l) else f)
  }

  // Where the search begins: `nmax` even steps from the lowest value, or zero, to the highest.
  ghost predicate EvenStart(x: seq<real>, nmax: int, f: Fit)
    requires x != []
  {
    var lo := if MinOf(x) < 0.0 then MinOf(x) else 0.0;
    var span := MaxOf(x) - lo;
    && f.min == lo && |f.levels| == |x|
    && if span > 0.0 then f.scale * nmax as real == span && TrialLevels(x, lo, nmax as real, span, nmax, f.levels)
       else f.scale == 0.0 && forall i :: 0 <= i < |x| ==> f.levels[i] == 0
  }

  ghost predicate SearchRun(w: seq<real>, x: seq<real>, nmax: int, rmin: real, rdelta: real, mad: bool, fits: seq<Fit>)
    requires |w| == |x| > 0
  {
    && fits != [] && (forall j :: 0 <= j < |fits| ==> |fits[j].levels| == |x|)
    && EvenStart(x, nmax, fits[0])
    && forall j: nat :: j < |fits| - 1 ==> TrialStep(w, x, nmax, rmin, rdelta, mad, j, fits[j], fits[j + 1])
  }

  // No line of any trial is better than the last fit.
  ghost predicate BeatsTrials(w: seq<real>, x: seq<real>, nmax: int, rmin: real, rdelta: real, mad: bool,
                              fits: seq<Fit>)
    requires |w| == |x| > 0 && fits != [] && forall j :: 0 <= j < |fits| ==> |fits[j].levels| == |x|
  {
    var span := MaxOf(x) - (if MinOf(x) < 0.0 then MinOf(x) else 0.0);
    var found := fits[|fits| - 1];
    span > 0.0 ==> forall j: nat, l, s, m ::
      (j < |fits| - 1 && |l| == |x|
       && TrialLevels(x, fits[j].min, rmin + rdelta * j as real + nmax as real, span, nmax, l)
       && LineOf(w, x, Reals(l), s, m))
      ==> FitLoss(mad, w, x, found) <= Loss(mad, w, x, Reals(l), s, m)
  }

  lemma TrialIs(x: seq<real>, min: real, numerator: real, span: real, nmax: int, l: seq<int>)
    requires span > 0.0 && TrialLevels(x, min, numerator, span, nmax, l)
    ensures l == LevelsAt(x, min, numerator / span, nmax)
  {
    hide NearestInt;
    var iscale :| iscale * span == numerator && RoundedBy(x, min, iscale, nmax, l);
    Quotient(numerator, span, iscale);
    forall i | 0 <= i < |x|
      ensures l[i] == LevelAt(x[i], min, iscale, nmax)
    {
      assert Times(iscale, x[i] - min) == iscale * (x[i] - min);
    }
  }

  // Every trial has levels.
  lemma TrialExists(x: seq<real>, min: real, numerator: real, span: real, nmax: int)
    requires span > 0.0 && nmax >= 1
    ensures TrialLevels(x, min, numerator, span, nmax, LevelsAt(x, min, numerator / span, nmax))
  {
    hide NearestInt;
    var iscale := numerator / span;
    var l := LevelsAt(x, min, iscale, nmax);
    forall i | 0 <= i < |x|
      ensures l[i] == Clip(NearestInt(iscale * (x[i] - min)), 0, nmax)
    {
      assert Times(iscale, x[i] - min) == iscale * (x[i] - min);
    }
    assert RoundedBy(x, min, iscale, nmax, l);
  }

  lemma NormalIs(ll: real, lo: real, oo: real, xl: real, xo: real, det: real, s: real, m: real)
    requires NormalEquations(ll, lo, oo, xl, xo, s, m) && det == Determinant(ll, lo, oo)
    ensures det * s == oo * xl - xo * lo && det * m == ll * xo - lo * xl
  {
    var p, q, r, t := ll * s, lo * m, lo * s, oo * m;
    assert oo * xl == oo * p + oo * q && xo * lo == r * lo + t * lo;
    assert ll * xo == ll * r + ll * t && lo * xl == lo * p + lo * q;
    assert oo * p == (oo * ll) * s && oo * q == t * lo && r * lo == (lo * lo) * s;
    assert ll * t == (oo * ll) * m && ll * r == lo * p && lo * q == (lo * lo) * m;
  }

  lemma LineSolves(ll: real, lo: real, oo: real, xl: real, xo: real, s0: real, m0: real, s: real, m: real)
    requires ll != 0.0 && Determinant(ll, lo, oo) > 0.0 && NormalEquations(ll, lo, oo, xl, xo, s0, m0)
    requires if m0 > 0.0 then m == 0.0 && ll * s == xl else s == s0 && m == m0
    ensures Solve(ll, lo, oo, xl, xo) == Line(s, m)
  {
    var det, a, b := Determinant(ll, lo, oo), oo * xl - xo * lo, ll * xo - lo * xl;
    NormalIs(ll, lo, oo, xl, xo, det, s0, m0);
    hide Determinant, NormalEquations;
    Quotient(a, det, s0);
    Quotient(b, det, m0);
    if m0 > 0.0 {
      QuotientIs(xl, ll, s);
    }
    SolveIs(ll, lo, oo, xl, xo, det, a, b);
  }

  lemma QuotientIs(a: real, b: real, q: real)
    requires b != 0.0 && b * q == a
    ensures a / b == q
  {
  }

  lemma SolveIs(ll: real, lo: real, oo: real, xl: real, xo: real, det: real, a: real, b: real)
    requires ll != 0.0 && det == Determinant(ll, lo, oo) && det > 0.0
    requires a == oo * xl - xo * lo && b == ll * xo - lo * xl
    ensures Solve(ll, lo, oo, xl, xo) == if b / det > 0.0 then Line(xl / ll, 0.0) else Line(a / det, b / det)
  {
  }

  lemma NonZeroSquares(ll: real, lo: real, oo: real)
    requires oo * ll > lo * lo
    ensures ll != 0.0 && Determinant(ll, lo, oo) > 0.0
  {
    assert lo * lo >= 0.0;
    assert ll == 0.0 ==> oo * ll == 0.0;
  }

  lemma LineIs(w: seq<real>, x: seq<real>, l: seq<real>, s: real, m: real)
    requires |w| == |x| == |l| && LineOf(w, x, l, s, m)
    ensures SolveRow(w, x, l) == Line(s, m)
  {
    hide Dot, Solve, NormalEquations;
    var o := Ones(|w|);
    var ll, lo, oo, xl, xo := Dot(w, l, l), Dot(w, l, o), Dot(w, o, o), Dot(w, x, l), Dot(w, x, o);
    var s0, m0 :| NormalEquations(ll, lo, oo, xl, xo, s0, m0)
                  && if m0 > 0.0 then m == 0.0 && ll * s == xl else s == s0 && m == m0;
    NonZeroSquares(ll, lo, oo);
    LineSolves(ll, lo, oo, xl, xo, s0, m0, s, m);
  }

  method MakeQkx3Quants(x: seq<real>, w: seq<real>, nmax: int, rmin: real, rdelta: real, nstep: nat,
                        useMad: bool)
    returns (scale: real, min: real, levels: seq<int>)
    requires |w| == |x| > 0 && nmax >= 1
    ensures Fit(scale, -min, levels) == Search(w, x, nmax, rmin, rdelta, useMad, nstep + 1)
    ensures exists fits :: |fits| == nstep + 2 && fits[nstep + 1] == Fit(scale, -min, levels)
              && SearchRun(w, x, nmax, rmin, rdelta, useMad, fits)
              && BeatsTrials(w, x, nmax, rmin, rdelta, useMad, fits)
  {
    hide Error, Deviation, Dot, LevelsAt, SolveRow, Search;
    var xmin := if MinOf(x) < 0.0 then MinOf(x) else 0.0;
    var xmax := MaxOf(x);
    var span := xmax - xmin;
    var valid := span > 0.0;
    var iscale := if valid then nmax as real / span else 0.0;
    scale := if valid then 1.0 / iscale else 0.0;
    levels := LevelsAt(x, xmin, iscale, nmax);
    StartIs(x, nmax, scale, xmin, levels);
    SearchStarts(w, x, nmax, rmin, rdelta, useMad);
    var bestMad := Loss(useMad, w, x, Reals(levels), scale, xmin);
    for istep := 0 to nstep + 1
      invariant Fit(scale, xmin, levels) == Search(w, x, nmax, rmin, rdelta, useMad, istep)
      invariant bestMad == Loss(useMad, w, x, Reals(levels), scale, xmin)
    {
      SearchStep(w, x, nmax, rmin, rdelta, useMad, istep);
      if valid {
        var trialLevels, c := Trial(w, x, nmax, xmin, span, rmin, rdelta, istep);
        if c.Line? {
          var mad := Loss(useMad, w, x, Reals(trialLevels), c.scale, c.min);
          if mad < bestMad {
            levels, bestMad, scale, xmin := trialLevels, mad, c.scale, c.min;
          }
        }
      }
    }
    min := -xmin;
    SearchIsRun(w, x, nmax, rmin, rdelta, useMad, nstep + 1);
    hide SearchRun, BeatsTrials;
    assert Searched(w, x, nmax, rmin, rdelta, useMad, nstep + 1)[nstep + 1] == Fit(scale, -min, levels);
  }

  // The levels of one trial and the candidate for them.
  method Trial(w: seq<real>, x: seq<real>, nmax: int, xmin: real, span: real, rmin: real, rdelta: real, istep: nat)
    returns (trialLevels: seq<int>, c: Candidate)
    requires |w| == |x| && nmax >= 1 && span > 0.0
    ensures trialLevels == LevelsAt(x, xmin, TrialScale(span, nmax, rmin, rdelta, istep), nmax)
    ensures c == SolveRow(w, x, Reals(trialLevels))
  {
    hide Dot, LevelsAt;
    var numerator := rmin + rdelta * istep as real + nmax as real;
    var trialIscale := numerator / span;
    trialLevels := LevelsAt(x, xmin, trialIscale, nmax);
    var lf, o := Reals(trialLevels), Ones(|w|);
    c := Solved(Dot(w, lf, lf), Dot(w, lf, o), Dot(w, o, o), Dot(w, x, lf), Dot(w, x, o));
  }

  method Solved(sumL2: real, sumL: real, sumW: real, sumXl: real, sumX: real) returns (c: Candidate)
    ensures c == Solve(sumL2, sumL, sumW, sumXl, sumX)
  {
    var determinant := sumW * sumL2 - sumL * sumL;
    if determinant <= 0.0 {
      return NoCandidate;
    }
    var trialScale := (sumW * sumXl - sumX * sumL) / determinant;
    var trialMin := (sumL2 * sumX - sumL * sumXl) / determinant;
    if trialMin > 0.0 {
      if sumL2 != 0.0 {
        trialScale := sumXl / sumL2;
      }
      trialMin := 0.0;
    }
    c := Line(trialScale, trialMin);
  }

  lemma StartIs(x: seq<real>, nmax: int, scale: real, min: real, levels: seq<int>)
    requires x != [] && nmax >= 1 && min == Lowest(x)
    requires var iscale := if Span(x) > 0.0 then nmax as real / Span(x) else 0.0;
             && scale == (if Span(x) > 0.0 then 1.0 / iscale else 0.0)
             && levels == LevelsAt(x, min, iscale, nmax)
    ensures Fit(scale, min, levels) == Start(x, nmax)
  {
    hide LevelsAt;
    if Span(x) > 0.0 {
      InverseOfInverse(nmax as real, Span(x));
    }
  }

  lemma InverseOfInverse(n: real, span: real)
    requires n > 0.0 && span > 0.0
    ensures n / span > 0.0 && 1.0 / (n / span) == span / n
  {
    var i, r := n / span, span / n;
    Reciprocals(n, span, i, r);
    Quotient(1.0, i, r);
  }

  lemma Reciprocals(n: real, span: real, i: real, r: real)
    requires n > 0.0 && span > 0.0 && i == n / span && r == span / n
    ensures i > 0.0 && r > 0.0 && r * i == 1.0 && i * span == n && r * n == span
  {
    assert i * span == n && r * n == span;
    assert i > 0.0 && r > 0.0;
    Regroup(r, i, span);
    SameMultiple(span, r * i, 1.0);
  }

  lemma Regroup(a: real, b: real, c: real)
    ensures a * (b * c) == c * (a * b)
  {
  }

  lemma SearchStarts(w: seq<real>, x: seq<real>, nmax: int, rmin: real, rdelta: real, mad: bool)
    requires |w| == |x| > 0 && nmax >= 1
    ensures Search(w, x, nmax, rmin, rdelta, mad, 0) == Start(x, nmax)
  {
  }

  lemma SearchStep(w: seq<real>, x: seq<real>, nmax: int, rmin: real, rdelta: real, mad: bool, n: nat)
    requires |w| == |x| > 0 && nmax >= 1
    ensures Search(w, x, nmax, rmin, rdelta, mad, n + 1) ==
              if Span(x) <= 0.0 then Search(w, x, nmax, rmin, rdelta, mad, n)
              else Try(w, x, nmax, TrialScale(Span(x), nmax, rmin, rdelta, n), mad,
                       Search(w, x, nmax, rmin, rdelta, mad, n))
  {
    hide Try, Start;
  }

  // ---------- What the search achieves ----------

  // What fits are compared by only falls.
  lemma {:induction false} SearchImproves(w: seq<real>, x: seq<real>, nmax: int, rmin: real, rdelta: real, mad: bool,
                                          j: nat, n: nat)
    requires |w| == |x| > 0 && nmax >= 1 && j <= n
    ensures FitLoss(mad, w, x, Search(w, x, nmax, rmin, rdelta, mad, n))
            <= FitLoss(mad, w, x, Search(w, x, nmax, rmin, rdelta, mad, j))
    decreases n
  {
    hide Search, Error, Deviation, Dot, SolveRow, LevelsAt;
    if j < n {
      SearchImproves(w, x, nmax, rmin, rdelta, mad, j, n - 1);
      SearchStep(w, x, nmax, rmin, rdelta, mad, n - 1);
    }
  }

  lemma StartEven(x: seq<real>, nmax: int)
    requires x != [] && nmax >= 1
    ensures EvenStart(x, nmax, Start(x, nmax))
  {
    hide LevelsAt, TrialLevels;
    if Span(x) > 0.0 {
      TrialExists(x, Lowest(x), nmax as real, Span(x), nmax);
      assert Span(x) / nmax as real * nmax as real == Span(x);
    } else {
      FlatLevels(x, Lowest(x), nmax);
    }
  }

  lemma FlatLevels(x: seq<real>, min: real, nmax: int)
    requires nmax >= 1
    ensures forall i :: 0 <= i < |x| ==> LevelsAt(x, min, 0.0, nmax)[i] == 0
  {
  }

  lemma SearchTrial(w: seq<real>, x: seq<real>, nmax: int, rmin: real, rdelta: real, mad: bool, j: nat)
    requires |w| == |x| > 0 && nmax >= 1
    ensures TrialStep(w, x, nmax, rmin, rdelta, mad, j, Search(w, x, nmax, rmin, rdelta, mad, j),
                      Search(w, x, nmax, rmin, rdelta, mad, j + 1))
  {
    hide Search, Error, Deviation, Dot, SolveRow, LevelsAt, TrialLevels, LineOf, NoLine;
    var f, g := Search(w, x, nmax, rmin, rdelta, mad, j), Search(w, x, nmax, rmin, rdelta, mad, j + 1);
    SearchStep(w, x, nmax, rmin, rdelta, mad, j);
    var span := Span(x);
    if span > 0.0 {
      forall l | |l| == |x| && TrialLevels(x, f.min, rmin + rdelta * j as real + nmax as real, span, nmax, l)
                 && NoLine(w, Reals(l))
        ensures g == f
      {
        TrialIs(x, f.min, rmin + rdelta * j as real + nmax as real, span, nmax, l);
        NoLineIs(w, x, Reals(l));
      }
      forall l, s, m | |l| == |x| && LineOf(w, x, Reals(l), s, m)
                       && TrialLevels(x, f.min, rmin + rdelta * j as real + nmax as real, span, nmax, l)
        ensures g == if Loss(mad, w, x, Reals(l), s, m) < FitLoss(mad, w, x, f) then Fit(s, m, l) else f
      {
        TrialIs(x, f.min, rmin + rdelta * j as real + nmax as real, span, nmax, l);
        LineIs(w, x, Reals(l), s, m);
      }
    }
  }

  lemma NoLineIs(w: seq<real>, x: seq<real>, l: seq<real>)
    requires |w| == |x| == |l|
    ensures NoLine(w, l) ==> SolveRow(w, x, l).NoCandidate?
  {
    hide Dot;
  }

  function Searched(w: seq<real>, x: seq<real>, nmax: int, rmin: real, rdelta: real, mad: bool, n: nat): (r: seq<Fit>)
    requires |w| == |x| > 0 && nmax >= 1
    ensures |r| == n + 1 && forall j :: 0 <= j <= n ==> r[j] == Search(w, x, nmax, rmin, rdelta, mad, j)
  {
    seq(n + 1, j requires 0 <= j <= n => Search(w, x, nmax, rmin, rdelta, mad, j))
  }

  lemma SearchIsRun(w: seq<real>, x: seq<real>, nmax: int, rmin: real, rdelta: real, mad: bool, n: nat)
    requires |w| == |x| > 0 && nmax >= 1
    ensures var fits := Searched(w, x, nmax, rmin, rdelta, mad, n);
            SearchRun(w, x, nmax, rmin, rdelta, mad, fits) && BeatsTrials(w, x, nmax, rmin, rdelta, mad, fits)
  {
    hide Search, TrialStep, EvenStart, TrialLevels, LineOf, Error, Deviation, Start;
    var fits := Searched(w, x, nmax, rmin, rdelta, mad, n);
    SearchStarts(w, x, nmax, rmin, rdelta, mad);
    StartEven(x, nmax);
    forall j: nat | j < n
      ensures TrialStep(w, x, nmax, rmin, rdelta, mad, j, fits[j], fits[j + 1])
    {
      SearchTrial(w, x, nmax, rmin, rdelta, mad, j);
    }
    var span := Span(x);
    if span > 0.0 {
      forall j: nat, l, s, m | j < n && |l| == |x| && LineOf(w, x, Reals(l), s, m)
        && TrialLevels(x, fits[j].min, rmin + rdelta * j as real + nmax as real, span, nmax, l)
        ensures FitLoss(mad, w, x, fits[n]) <= Loss(mad, w, x, Reals(l), s, m)
      {
        SearchCovers(w, x, nmax, rmin, rdelta, mad, j, n, l, s, m);
      }
    }
  }

  // The line of no trial is better than the result.
  lemma SearchCovers(w: seq<real>, x: seq<real>, nmax: int, rmin: real, rdelta: real, mad: bool, j: nat, n: nat,
                    l: seq<int>, s: real, m: real)
    requires |w| == |x| > 0 && nmax >= 1 && j < n && Span(x) > 0.0
    requires TrialLevels(x, Search(w, x, nmax, rmin, rdelta, mad, j).min, rmin + rdelta * j as real + nmax as real,
                         Span(x), nmax, l)
    requires LineOf(w, x, Reals(l), s, m)
    ensures FitLoss(mad, w, x, Search(w, x, nmax, rmin, rdelta, mad, n)) <= Loss(mad, w, x, Reals(l), s, m)
  {
    hide Search, Error, Deviation, SolveRow, LevelsAt, LineOf, Dot;
    TrialIs(x, Search(w, x, nmax, rmin, rdelta, mad, j).min, rmin + rdelta * j as real + nmax as real, Span(x), nmax,
            l);
    LineIs(w, x, Reals(l), s, m);
    hide TrialLevels;
    CandidateCovered(w, x, nmax, rmin, rdelta, mad, j, n);
  }

  // No candidate that was tried is better than the result.
  lemma CandidateCovered(w: seq<real>, x: seq<real>, nmax: int, rmin: real, rdelta: real, mad: bool, j: nat, n: nat)
    requires |w| == |x| > 0 && nmax >= 1 && j < n && Span(x) > 0.0
    ensures var f := Search(w, x, nmax, rmin, rdelta, mad, j);
            var tried := LevelsAt(x, f.min, TrialScale(Span(x), nmax, rmin, rdelta, j), nmax);
            var c, found := SolveRow(w, x, Reals(tried)), Search(w, x, nmax, rmin, rdelta, mad, n);
            c.Line? ==> FitLoss(mad, w, x, found) <= Loss(mad, w, x, Reals(tried), c.scale, c.min)
  {
    hide Search, Error, Deviation, Dot, SolveRow, LevelsAt;
    SearchImproves(w, x, nmax, rmin, rdelta, mad, j + 1, n);
    SearchStep(w, x, nmax, rmin, rdelta, mad, j);
  }

  // Whichever way fits are compared, the result is the start, or its squared error is least for its levels over all
  // scales and all offsets that are not positive.
  lemma {:induction false} SearchOptimal(w: seq<real>, x: seq<real>, nmax: int, rmin: real, rdelta: real, mad: bool,
                                         n: nat, s: real, m: real)
    requires |w| == |x| > 0 && nmax >= 1 && NonNegative(w) && m <= 0.0
    ensures var f := Search(w, x, nmax, rmin, rdelta, mad, n);
            f == Start(x, nmax) || FitError(w, x, f) <= Error(w, x, Reals(f.levels), s, m)
    decreases n
  {
    hide Search, Error, Deviation, Dot, SolveRow, LevelsAt, Start;
    if n == 0 {
      SearchStarts(w, x, nmax, rmin, rdelta, mad);
    } else {
      SearchOptimal(w, x, nmax, rmin, rdelta, mad, n - 1, s, m);
      SearchStep(w, x, nmax, rmin, rdelta, mad, n - 1);
      var f, f' := Search(w, x, nmax, rmin, rdelta, mad, n - 1), Search(w, x, nmax, rmin, rdelta, mad, n);
      if f' != f {
        CandidateOptimal(w, x, Reals(f'.levels), s, m);
      }
    }
  }

  // The scale is not negative as long as no inverse scale that is tried is.
  lemma {:induction false} SearchScale(w: seq<real>, x: seq<real>, nmax: int, rmin: real, rdelta: real, mad: bool,
                                       n: nat)
    requires |w| == |x| > 0 && nmax >= 1 && NonNegative(w)
    requires n > 0 ==> rmin + nmax as real >= 0.0 && rmin + rdelta * (n - 1) as real + nmax as real >= 0.0
    ensures Search(w, x, nmax, rmin, rdelta, mad, n).scale >= 0.0
    decreases n
  {
    hide Search, Error, Deviation, Dot, SolveRow, LevelsAt, NonNegative;
    if n == 0 {
      SearchStarts(w, x, nmax, rmin, rdelta, mad);
      StartScale(x, nmax);
    } else {
      Between(rmin + nmax as real, rdelta, n - 1);
      SearchScale(w, x, nmax, rmin, rdelta, mad, n - 1);
      SearchStep(w, x, nmax, rmin, rdelta, mad, n - 1);
      if Span(x) > 0.0 {
        assert Numerator(nmax, rmin, rdelta, n - 1) / Span(x) >= 0.0;
        CandidateScale(w, x, Search(w, x, nmax, rmin, rdelta, mad, n - 1).min,
                       TrialScale(Span(x), nmax, rmin, rdelta, n - 1), nmax);
      }
    }
  }

  // The numerators before the last one lie between the first and the last.
  lemma Between(first: real, rdelta: real, n: nat)
    requires first >= 0.0 && first + rdelta * n as real >= 0.0
    ensures n > 0 ==> first + rdelta * (n - 1) as real >= 0.0
  {
    if rdelta >= 0.0 {
      assert n > 0 ==> rdelta * (n - 1) as real >= 0.0;
    } else {
      assert rdelta * (n - 1) as real == rdelta * n as real - rdelta;
    }
  }

  lemma StartScale(x: seq<real>, nmax: int)
    requires x != [] && nmax >= 1
    ensures Start(x, nmax).scale >= 0.0
  {
    hide LevelsAt;
    if Span(x) > 0.0 {
      assert Span(x) / nmax as real >= 0.0;
    }
  }

  // A row without a span is reproduced exactly.
  lemma FlatRowExact(w: seq<real>, x: seq<real>, nmax: int, rmin: real, rdelta: real, mad: bool, n: nat, i: nat)
    requires |w| == |x| && i < |x| && nmax >= 1 && Span(x) == 0.0
    ensures Decoded(Search(w, x, nmax, rmin, rdelta, mad, n), i) == x[i]
  {
    FlatStart(x, nmax, i);
  }

  // Rounding to even steps leaves no value further off than half a step.
  lemma HalfStep(x: seq<real>, nmax: int, i: nat)
    requires i < |x| && nmax >= 1
    ensures var h := Span(x) / nmax as real / 2.0; -h <= Decoded(Start(x, nmax), i) - x[i] <= h
  {
    assert MaxOf(x) >= x[i] >= Lowest(x);
    if Span(x) > 0.0 {
      HalfStepSpread(x, nmax, i);
    } else {
      FlatStart(x, nmax, i);
    }
  }

  function Decoded(f: Fit, i: nat): real
    requires i < |f.levels|
  {
    Value(f.scale, f.levels[i] as real, f.min)
  }

  function Value(scale: real, l: real, min: real): real {
    scale * l + min
  }

  lemma FlatStart(x: seq<real>, nmax: int, i: nat)
    requires i < |x| && nmax >= 1 && Span(x) == 0.0
    ensures Decoded(Start(x, nmax), i) == x[i]
  {
    hide LevelAt;
    assert MaxOf(x) >= x[i] >= Lowest(x);
    assert Start(x, nmax).scale == 0.0;
  }

  lemma HalfStepSpread(x: seq<real>, nmax: int, i: nat)
    requires i < |x| && nmax >= 1 && Span(x) > 0.0
    ensures var h := Span(x) / nmax as real / 2.0; -h <= Decoded(Start(x, nmax), i) - x[i] <= h
  {
    hide LevelAt;
    var span, lo, iscale := Span(x), Lowest(x), nmax as real / Span(x);
    assert MaxOf(x) >= x[i] >= lo;
    var f := Start(x, nmax);
    assert f.levels[i] == LevelAt(x[i], lo, iscale, nmax);
    hide Start, Span, Lowest, Value;
    HalfStepAt(x[i], lo, span, nmax, iscale, f.scale);
  }

  lemma HalfStepAt(x: real, lo: real, span: real, nmax: int, iscale: real, scale: real)
    requires 0.0 <= x - lo <= span && span > 0.0 && nmax >= 1 && iscale == nmax as real / span
    requires scale == span / nmax as real
    ensures -scale / 2.0 <= Value(scale, LevelAt(x, lo, iscale, nmax) as real, lo) - x <= scale / 2.0
  {
    hide LevelAt;
    var r := iscale * (x - lo);
    Reciprocals(nmax as real, span, iscale, scale);
    StepsUp(x - lo, span, nmax as real, iscale, scale, r);
    LevelNear(x, lo, iscale, nmax, r);
    WithinHalf(scale, LevelAt(x, lo, iscale, nmax) as real, r, x - lo);
  }

  // The value in steps, from the lowest one.
  lemma StepsUp(d: real, span: real, n: real, iscale: real, scale: real, r: real)
    requires 0.0 <= d <= span && iscale > 0.0 && scale * iscale == 1.0 && iscale * span == n && r == iscale * d
    ensures 0.0 <= r <= n && scale * r == d
  {
    ScaledOrder(iscale, d, span);
    ScaledOrder(iscale, 0.0, d);
    Regroup(scale, iscale, d);
  }

  lemma LevelNear(x: real, lo: real, iscale: real, nmax: int, r: real)
    requires nmax >= 1 && r == iscale * (x - lo) && 0.0 <= r <= nmax as real
    ensures -0.5 <= LevelAt(x, lo, iscale, nmax) as real - r <= 0.5
  {
    NearestMonotone(r, nmax as real);
    WholeNearest(nmax);
  }

  lemma WithinHalf(scale: real, l: real, r: real, d: real)
    requires scale > 0.0 && -0.5 <= l - r <= 0.5 && scale * r == d
    ensures -scale / 2.0 <= scale * l - d <= scale / 2.0
  {
    HalfOf(scale, l - r, scale * l - d);
    HalfOf(scale, r - l, d - scale * l);
  }

  lemma HalfOf(f: real, e: real, p: real)
    requires f > 0.0 && e <= 0.5 && p == f * e
    ensures p <= f / 2.0
  {
    assert f * (0.5 - e) >= 0.0;
  }
}
