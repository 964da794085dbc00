/** Weighted sums over a row and the weighted squared error of a scale and an offset, over exact reals. */
module WeightedFit {

  // A largest magnitude below this counts as zero.
  const TINY := 0.000000000000001

  function Abs(r: real): real {
    if r < 0.0 then -r else r
  }

  function Min(a: int, b: int): int {
    if a <= b then a else b
  }

  // A product that the verifier treats as one term.
  function Times(a: real, b: real): real {
    a * b
  }

  lemma ScaledOrder(f: real, a: real, b: real)
    requires f >= 0.0 && a <= b
    ensures Times(f, a) <= Times(f, b)
  {
    assert f * (b - a) >= 0.0;
  }

  // Rounding to the nearest integer, ties to even.
  function NearestInt(r: real): (n: int)
    ensures n as real - 0.5 <= r <= n as real + 0.5
    ensures r >= 0.0 ==> n >= 0
    ensures r == 0.0 ==> n == 0
    ensures r == n as real - 0.5 || r == n as real + 0.5 ==> n % 2 == 0
  {
    var f := r.Floor;
    var d := r - f as real;
    if d < 0.5 then f else if d > 0.5 then f + 1 else if f % 2 == 0 then f else f + 1
  }

  lemma WholeNearest(n: int)
    ensures NearestInt(n as real) == n
  {
  }

  lemma NearestMonotone(a: real, b: real)
    requires a <= b
    ensures NearestInt(a) <= NearestInt(b)
  {
  }

  function Clip(n: int, lo: int, hi: int): (r: int)
    requires lo <= hi
    ensures lo <= r <= hi && (lo <= n <= hi ==> r == n)
  {
    if n < lo then lo else if n > hi then hi else n
  }

  function MaxOf(x: seq<real>): (m: real)
    requires x != []
    ensures m in x && forall i :: 0 <= i < |x| ==> x[i] <= m
  {
    if |x| == 1 then x[0]
    else
      var n := |x| - 1;
      var m := MaxOf(x[..n]);
      if x[n] > m then x[n] else m
  }

  function MinOf(x: seq<real>): (m: real)
    requires x != []
    ensures m in x && forall i :: 0 <= i < |x| ==> m <= x[i]
  {
    if |x| == 1 then x[0]
    else
      var n := |x| - 1;
      var m := MinOf(x[..n]);
      if x[n] < m then x[n] else m
  }

  // The sum of w * a * b.
  function Dot(w: seq<real>, a: seq<real>, b: seq<real>): real
    requires |w| == |a| == |b|
  {
    if w == [] then 0.0
    else
      var n := |w| - 1;
      Dot(w[..n], a[..n], b[..n]) + w[n] * a[n] * b[n]
  }

  function Ones(n: nat): (r: seq<real>)
    ensures |r| == n && forall i :: 0 <= i < n ==> r[i] == 1.0
  {
    seq(n, _ => 1.0)
  }

  function Reals(levels: seq<int>): (r: seq<real>)
    ensures |r| == |levels| && forall i :: 0 <= i < |levels| ==> r[i] == levels[i] as real
  {
    seq(|levels|, i requires 0 <= i < |levels| => levels[i] as real)
  }

  lemma {:induction false} DotUpdate(w: seq<real>, a: seq<real>, b: seq<real>, i: nat, v: real)
    requires |w| == |a| == |b| && i < |w|
    ensures Dot(w, a[i := v], b) == Dot(w, a, b) - w[i] * a[i] * b[i] + w[i] * v * b[i]
    decreases |w|
  {
    var n := |w| - 1;
    if i < n {
      DotUpdate(w[..n], a[..n], b[..n], i, v);
      assert a[i := v][..n] == a[..n][i := v];
    } else {
      assert a[i := v][..n] == a[..n];
    }
  }

  lemma {:induction false} DotSwap(w: seq<real>, a: seq<real>, b: seq<real>)
    requires |w| == |a| == |b|
    ensures Dot(w, a, b) == Dot(w, b, a)
    decreases |w|
  {
    if w != [] {
      var n := |w| - 1;
      DotSwap(w[..n], a[..n], b[..n]);
      assert w[n] * a[n] * b[n] == w[n] * b[n] * a[n];
    }
  }

  // The sum of squares after one coordinate changes.
  lemma SquareUpdate(w: seq<real>, a: seq<real>, i: nat, v: real)
    requires |w| == |a| && i < |w|
    ensures Dot(w, a[i := v], a[i := v]) == Dot(w, a, a) - w[i] * a[i] * a[i] + w[i] * v * v
  {
    hide Dot;
    var b := a[i := v];
    DotUpdate(w, a, b, i, v);
    DotSwap(w, a, b);
    DotUpdate(w, a, a, i, v);
    assert w[i] * a[i] * v == w[i] * v * a[i];
  }

  predicate NonNegative(a: seq<real>) {
    forall i :: 0 <= i < |a| ==> a[i] >= 0.0
  }

  lemma {:induction false} SquaresNonNegative(w: seq<real>, a: seq<real>)
    requires |w| == |a| && NonNegative(w)
    ensures Dot(w, a, a) >= 0.0
    decreases |w|
  {
    if w != [] {
      var n := |w| - 1;
      SquaresNonNegative(w[..n], a[..n]);
      SquareTerm(w[n], a[n]);
    }
  }

  lemma SquareTerm(w: real, a: real)
    requires w >= 0.0
    ensures w * a * a >= 0.0
  {
    assert a * a >= 0.0;
    assert w * a * a == w * (a * a);
  }

  // ---------- The error of a fit ----------

  // The weighted squared error of reproducing x by s * l + m.
  function Error(w: seq<real>, x: seq<real>, l: seq<real>, s: real, m: real): real
    requires |w| == |x| == |l|
  {
    if w == [] then 0.0
    else
      var n := |w| - 1;
      Error(w[..n], x[..n], l[..n], s, m) + w[n] * (s * l[n] + m - x[n]) * (s * l[n] + m - x[n])
  }

  // The error as a quadratic polynomial in s and m.
  function Quadratic(ll: real, lo: real, oo: real, xl: real, xo: real, xx: real, s: real, m: real): real {
    s * s * ll + 2.0 * (s * m * lo) + m * m * oo - 2.0 * (s * xl) - 2.0 * (m * xo) + xx
  }

  // What one element of the row adds to the error, in terms of what it adds to the six sums.
  lemma ExpandTerm(w: real, x: real, l: real, s: real, m: real, ll: real, lo: real, xl: real, xo: real, xx: real)
    requires ll == w * l * l && lo == w * l && xl == w * x * l && xo == w * x && xx == w * x * x
    ensures w * (s * l + m - x) * (s * l + m - x) == Quadratic(ll, lo, w, xl, xo, xx, s, m)
  {
    var p := s * l;
    assert (p + m - x) * (p + m - x) == p * p + 2.0 * (p * m) + m * m - 2.0 * (p * x) - 2.0 * (m * x) + x * x;
    assert w * (p + m - x) * (p + m - x) == w * ((p + m - x) * (p + m - x));
    assert w * (p * p + 2.0 * (p * m) + m * m - 2.0 * (p * x) - 2.0 * (m * x) + x * x)
        == w * (p * p) + 2.0 * (w * (p * m)) + w * (m * m) - 2.0 * (w * (p * x)) - 2.0 * (w * (m * x)) + w * (x * x);
    assert w * (p * p) == s * s * ll;
    assert w * (p * m) == s * m * lo;
    assert w * (p * x) == s * xl;
    assert w * (m * x) == m * xo;
  }

  lemma AddQuadratics(ll: real, lo: real, oo: real, xl: real, xo: real, xx: real,
                      dll: real, dlo: real, doo: real, dxl: real, dxo: real, dxx: real,
                      ll': real, lo': real, oo': real, xl': real, xo': real, xx': real, s: real, m: real)
    requires ll' == ll + dll && lo' == lo + dlo && oo' == oo + doo
    requires xl' == xl + dxl && xo' == xo + dxo && xx' == xx + dxx
    ensures Quadratic(ll', lo', oo', xl', xo', xx', s, m)
         == Quadratic(ll, lo, oo, xl, xo, xx, s, m) + Quadratic(dll, dlo, doo, dxl, dxo, dxx, s, m)
  {
    assert s * s * ll' == s * s * ll + s * s * dll;
    assert s * m * lo' == s * m * lo + s * m * dlo;
    assert m * m * oo' == m * m * oo + m * m * doo;
    assert s * xl' == s * xl + s * dxl;
    assert m * xo' == m * xo + m * dxo;
  }

  lemma DotSnoc(w: seq<real>, a: seq<real>, b: seq<real>)
    requires |w| == |a| == |b| && w != []
    ensures var n := |w| - 1; Dot(w, a, b) == Dot(w[..n], a[..n], b[..n]) + w[n] * a[n] * b[n]
  {
  }

  lemma DotOnesSnoc(w: seq<real>, a: seq<real>, o: seq<real>)
    requires |w| == |a| && o == Ones(|w|) && w != []
    ensures var n := |w| - 1; Dot(w, a, o) == Dot(w[..n], a[..n], o[..n]) + w[n] * a[n]
  {
  }

  lemma WeightSnoc(w: seq<real>, o: seq<real>)
    requires o == Ones(|w|) && w != []
    ensures var n := |w| - 1; Dot(w, o, o) == Dot(w[..n], o[..n], o[..n]) + w[n]
  {
  }

  lemma ErrorSnoc(w: seq<real>, x: seq<real>, l: seq<real>, s: real, m: real)
    requires |w| == |x| == |l| && w != []
    ensures var n := |w| - 1;
            Error(w, x, l, s, m)
                == Error(w[..n], x[..n], l[..n], s, m) + w[n] * (s * l[n] + m - x[n]) * (s * l[n] + m - x[n])
  {
  }

  lemma {:induction false} ErrorQuadratic(w: seq<real>, x: seq<real>, l: seq<real>, o: seq<real>, s: real, m: real)
    requires |w| == |x| == |l| && o == Ones(|w|)
    ensures Error(w, x, l, s, m) == SumsQuadratic(w, x, l, o, s, m)
    decreases |w|
  {
    hide SumsQuadratic, Error;
    if w == [] {
      NothingQuadratic(w, x, l, o, s, m);
    } else {
      var n := |w| - 1;
      assert o[..n] == Ones(n);
      ErrorQuadratic(w[..n], x[..n], l[..n], o[..n], s, m);
      ErrorSnoc(w, x, l, s, m);
      SumsSnoc(w, x, l, o, s, m);
    }
  }

  function SumsQuadratic(w: seq<real>, x: seq<real>, l: seq<real>, o: seq<real>, s: real, m: real): real
    requires |w| == |x| == |l| == |o|
  {
    Quadratic(Dot(w, l, l), Dot(w, l, o), Dot(w, o, o), Dot(w, x, l), Dot(w, x, o), Dot(w, x, x), s, m)
  }

  lemma NothingQuadratic(w: seq<real>, x: seq<real>, l: seq<real>, o: seq<real>, s: real, m: real)
    requires |w| == |x| == |l| == |o| == 0
    ensures SumsQuadratic(w, x, l, o, s, m) == 0.0 == Error(w, x, l, s, m)
  {
  }

  lemma SumsSnoc(w: seq<real>, x: seq<real>, l: seq<real>, o: seq<real>, s: real, m: real)
    requires |w| == |x| == |l| && o == Ones(|w|) && w != []
    ensures var n := |w| - 1;
            SumsQuadratic(w, x, l, o, s, m) == SumsQuadratic(w[..n], x[..n], l[..n], o[..n], s, m)
              + w[n] * (s * l[n] + m - x[n]) * (s * l[n] + m - x[n])
  {
    hide Quadratic, Dot;
    var n := |w| - 1;
    var w', x', l', o' := w[..n], x[..n], l[..n], o[..n];
    DotSnoc(w, l, l);
    DotOnesSnoc(w, l, o);
    WeightSnoc(w, o);
    DotSnoc(w, x, l);
    DotOnesSnoc(w, x, o);
    DotSnoc(w, x, x);
    var ll, lo, xl, xo, xx := w[n] * l[n] * l[n], w[n] * l[n], w[n] * x[n] * l[n], w[n] * x[n], w[n] * x[n] * x[n];
    ExpandTerm(w[n], x[n], l[n], s, m, ll, lo, xl, xo, xx);
    AddQuadratics(Dot(w', l', l'), Dot(w', l', o'), Dot(w', o', o'), Dot(w', x', l'), Dot(w', x', o'), Dot(w', x', x'),
                  ll, lo, w[n], xl, xo, xx,
                  Dot(w, l, l), Dot(w, l, o), Dot(w, o, o), Dot(w, x, l), Dot(w, x, o), Dot(w, x, x), s, m);
  }

  // ---------- Least squares with no offset ----------

  // What the best scale for the levels saves of the error of the zero fit.
  function Gain(lx: real, l2: real): real {
    if l2 > 0.0 then lx * lx / l2 else 0.0
  }

  function BestScale(lx: real, l2: real): real {
    if l2 > 0.0 then lx / l2 else 0.0
  }

  lemma Quotient(a: real, b: real, q: real)
    requires b > 0.0 && a == q * b
    ensures a / b == q
  {
  }

  // No scale does better for the levels, the offset being zero.
  ghost predicate BestFor(w: seq<real>, x: seq<real>, l: seq<real>, scale: real)
    requires |w| == |x| == |l|
  {
    forall s: real :: Error(w, x, l, scale, 0.0) <= Error(w, x, l, s, 0.0)
  }

  lemma CompleteSquare(s: real, lx: real, l2: real)
    requires l2 > 0.0
    ensures s * s * l2 - 2.0 * (s * lx) == l2 * (s - lx / l2) * (s - lx / l2) - lx * lx / l2
  {
    var q := lx / l2;
    assert q * l2 == lx;
    assert lx * lx / l2 == q * lx by { assert q * lx * l2 == lx * lx; }
    assert (s - q) * (s - q) == s * s - 2.0 * (s * q) + q * q;
    assert l2 * (s - q) * (s - q) == l2 * ((s - q) * (s - q));
    assert l2 * (s * s - 2.0 * (s * q) + q * q) == l2 * (s * s) - 2.0 * (l2 * (s * q)) + l2 * (q * q);
    assert l2 * (s * q) == s * (q * l2) && l2 * (q * q) == q * (q * l2);
  }

  lemma ZeroTerm(w: real, l: real)
    requires w >= 0.0 && w * l * l == 0.0
    ensures w == 0.0 || l == 0.0
  {
    assert w * l == 0.0 || l == 0.0;
  }

  // With nonnegative weights, a vanishing sum of squares takes the mixed sum with it.
  lemma {:induction false} NoSquaresNoProducts(w: seq<real>, x: seq<real>, l: seq<real>)
    requires |w| == |x| == |l| && NonNegative(w) && Dot(w, l, l) == 0.0
    ensures Dot(w, x, l) == 0.0
    decreases |w|
  {
    if w != [] {
      var n := |w| - 1;
      SquaresNonNegative(w[..n], l[..n]);
      SquareTerm(w[n], l[n]);
      NoSquaresNoProducts(w[..n], x[..n], l[..n]);
      ZeroTerm(w[n], l[n]);
    }
  }

  // The best scale is best: its error is the zero fit's less the gain, and no other scale does better.
  lemma BestScaleOptimal(w: seq<real>, x: seq<real>, l: seq<real>, s: real)
    requires |w| == |x| == |l| && NonNegative(w)
    ensures var lx, l2 := Dot(w, x, l), Dot(w, l, l);
            && Error(w, x, l, BestScale(lx, l2), 0.0) == Dot(w, x, x) - Gain(lx, l2)
            && Error(w, x, l, BestScale(lx, l2), 0.0) <= Error(w, x, l, s, 0.0)
  {
    hide Dot, Error;
    var lx, l2, o := Dot(w, x, l), Dot(w, l, l), Ones(|w|);
    var best := BestScale(lx, l2);
    ErrorQuadratic(w, x, l, o, s, 0.0);
    ErrorQuadratic(w, x, l, o, best, 0.0);
    SquaresNonNegative(w, l);
    if l2 > 0.0 {
      CompleteSquare(s, lx, l2);
      CompleteSquare(best, lx, l2);
      SquareTerm(l2, s - best);
    } else {
      NoSquaresNoProducts(w, x, l);
    }
  }
}
