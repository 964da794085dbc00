/** make_qp_quants (convert_escha_to_gguf.py:133-202) for one row of nonnegative values, over exact reals.

    A grid search chooses the first levels; then up to five sweeps move one level at a time.
    Every accepted move strictly raises the gain (the part of the row's weighted square that the
    best scale for the levels accounts for), so the error of the result is the least over the scales
    for its levels, and never above that of any grid point. */
module QpQuants {
  import opened WeightedFit

  // ---------- The grid ----------

  // The levels that `iscale` gives a row.
  function LevelsAt(x: seq<real>, iscale: real, nmax: nat): (r: seq<int>)
    ensures |r| == |x|
  {
    seq(|x|, i requires 0 <= i < |x| => LevelAt(x[i], iscale, nmax))
  }

  function LevelAt(x: real, iscale: real, nmax: nat): int {
    Min(nmax, RoundedAt(x, iscale))
  }

  function RoundedAt(x: real, iscale: real): int {
    NearestInt(iscale * x)
  }

  // Inverse scale number `t` of the grid; number 0 maps the largest value to the largest level.
  function GridScale(xmax: real, nmax: nat, t: int): (r: real)
    requires xmax > 0.0 && nmax >= 1 && t >= -4
    ensures r > 0.0
  {
    (0.1 * t as real + nmax as real) / xmax
  }

  function GridError(w: seq<real>, x: seq<real>, nmax: nat, iscale: real): real
    requires |w| == |x| && iscale != 0.0
  {
    Error(w, x, Reals(LevelsAt(x, iscale, nmax)), 1.0 / iscale, 0.0)
  }

  predicate InRange(levels: seq<int>, nmax: nat) {
    forall i :: 0 <= i < |levels| ==> 0 <= levels[i] <= nmax
  }

  lemma LevelsInRange(x: seq<real>, iscale: real, nmax: nat)
    requires NonNegative(x) && iscale >= 0.0
    ensures InRange(LevelsAt(x, iscale, nmax), nmax)
  {
    forall i | 0 <= i < |x|
      ensures 0 <= LevelAt(x[i], iscale, nmax) <= nmax
    {
      assert iscale * x[i] >= 0.0;
    }
  }

  // Number 0 of the grid needs no clipping.
  lemma UnclippedLevels(x: seq<real>, xmax: real, nmax: nat)
    requires NonNegative(x) && xmax > 0.0 && nmax >= 1 && forall i :: 0 <= i < |x| ==> x[i] <= xmax
    ensures Rounded(x, GridScale(xmax, nmax, 0)) == LevelsAt(x, GridScale(xmax, nmax, 0), nmax)
  {
    hide LevelAt, RoundedAt, GridScale;
    assert forall i :: 0 <= i < |x| ==> 0.0 <= x[i] <= xmax;
    var g := GridScale(xmax, nmax, 0);
    forall i | 0 <= i < |x|
      ensures RoundedAt(x[i], g) == LevelAt(x[i], g, nmax)
    {
      UnclippedLevel(x[i], xmax, nmax, g);
    }
    assert Rounded(x, g) == LevelsAt(x, g, nmax);
  }

  lemma UnclippedLevel(x: real, xmax: real, nmax: nat, g: real)
    requires 0.0 <= x <= xmax && xmax > 0.0 && nmax >= 1 && g == GridScale(xmax, nmax, 0)
    ensures RoundedAt(x, g) == LevelAt(x, g, nmax)
  {
    hide RoundedAt, LevelAt;
    Scaled(g, x, xmax, nmax as real);
    NotClipped(x, g, nmax);
  }

  lemma NotClipped(x: real, g: real, nmax: nat)
    requires g * x <= nmax as real
    ensures RoundedAt(x, g) == LevelAt(x, g, nmax)
  {
    NearestAtMost(g * x, nmax);
  }

  lemma Scaled(g: real, x: real, xmax: real, n: real)
    requires 0.0 <= x <= xmax && xmax > 0.0 && n >= 0.0 && g == n / xmax
    ensures g * x <= n
  {
    assert g * xmax == n && g >= 0.0;
    assert g * (xmax - x) >= 0.0;
  }

  function Rounded(x: seq<real>, iscale: real): seq<int> {
    seq(|x|, i requires 0 <= i < |x| => RoundedAt(x[i], iscale))
  }

  lemma NearestAtMost(r: real, n: int)
    requires r <= n as real
    ensures NearestInt(r) <= n
  {
  }

  // The number on the grid whose error is least; of several, number 0 or else the first one.
  ghost predicate LeastOnGrid(w: seq<real>, x: seq<real>, nmax: nat, xmax: real, t: int)
    requires |w| == |x| && xmax > 0.0 && nmax >= 1
  {
    && -4 <= t <= 4
    && (forall u :: -4 <= u <= 4 ==>
          GridError(w, x, nmax, GridScale(xmax, nmax, t)) <= GridError(w, x, nmax, GridScale(xmax, nmax, u)))
    && (forall u :: -4 <= u <= 4 && u != t ==>
          GridError(w, x, nmax, GridScale(xmax, nmax, t)) != GridError(w, x, nmax, GridScale(xmax, nmax, u))
          || t == 0 || (u != 0 && t < u))
  }

  method GridSearch(w: seq<real>, x: seq<real>, nmax: nat, xmax: real) returns (iscale: real)
    requires |w| == |x| && NonNegative(x) && nmax >= 1 && xmax > 0.0
    requires forall i :: 0 <= i < |x| ==> x[i] <= xmax
    ensures exists t :: LeastOnGrid(w, x, nmax, xmax, t) && iscale == GridScale(xmax, nmax, t)
  {
    hide Error, LevelsAt, Reals, NonNegative;
    iscale := nmax as real / xmax;
    assert iscale == GridScale(xmax, nmax, 0);
    UnclippedLevels(x, xmax, nmax);
    var levels := Rounded(x, iscale);
    var bestMse := Error(w, x, Reals(levels), 1.0 / iscale, 0.0);
    assert bestMse == GridError(w, x, nmax, iscale);
    hide GridError, GridScale;
    ghost var best := 0;
    for istep := -4 to 5
      invariant -4 <= best <= 4 && (best < istep || best == 0) && iscale == GridScale(xmax, nmax, best)
      invariant iscale > 0.0 && bestMse == GridError(w, x, nmax, iscale)
      invariant bestMse <= GridError(w, x, nmax, GridScale(xmax, nmax, 0))
      invariant best == 0 || bestMse < GridError(w, x, nmax, GridScale(xmax, nmax, 0))
      invariant forall t :: -4 <= t < istep ==>
                  bestMse <= GridError(w, x, nmax, GridScale(xmax, nmax, t))
      invariant best != 0 ==> forall t :: -4 <= t < best ==>
                  bestMse < GridError(w, x, nmax, GridScale(xmax, nmax, t))
    {
      if istep == 0 {
        continue;
      }
      var trialIscale := TrialScale(xmax, nmax, istep);
      var mse := TrialError(w, x, nmax, trialIscale);
      if mse < bestMse {
        bestMse, iscale, best := mse, trialIscale, istep;
      }
    }
    assert LeastOnGrid(w, x, nmax, xmax, best);
  }

  method TrialScale(xmax: real, nmax: nat, istep: int) returns (trialIscale: real)
    requires xmax > 0.0 && nmax >= 1 && istep >= -4
    ensures trialIscale == GridScale(xmax, nmax, istep) && trialIscale > 0.0
  {
    var numerator := 0.1 * istep as real + nmax as real;
    trialIscale := numerator / xmax;
  }

  method TrialError(w: seq<real>, x: seq<real>, nmax: nat, trialIscale: real) returns (mse: real)
    requires |w| == |x| && trialIscale > 0.0
    ensures mse == GridError(w, x, nmax, trialIscale)
  {
    var trialScale := 1.0 / trialIscale;
    var trialLevels := LevelsAt(x, trialIscale, nmax);
    mse := Error(w, x, Reals(trialLevels), trialScale, 0.0);
  }

  // ---------- Moving one level ----------

  function SumLx(w: seq<real>, x: seq<real>, levels: seq<int>): real
    requires |w| == |x| == |levels|
  {
    Dot(w, x, Reals(levels))
  }

  function SumL2(w: seq<real>, levels: seq<int>): real
    requires |w| == |levels|
  {
    Dot(w, Reals(levels), Reals(levels))
  }

  function LevelsGain(w: seq<real>, x: seq<real>, levels: seq<int>): real
    requires |w| == |x| == |levels|
  {
    Gain(SumLx(w, x, levels), SumL2(w, levels))
  }

  lemma SumsAfterMove(w: seq<real>, x: seq<real>, levels: seq<int>, i: nat, v: int)
    requires |w| == |x| == |levels| && i < |w|
    ensures var l, n := levels[i] as real, v as real;
            && SumLx(w, x, levels[i := v]) == SumLx(w, x, levels) - w[i] * x[i] * l + w[i] * x[i] * n
            && SumL2(w, levels[i := v]) == SumL2(w, levels) - w[i] * l * l + w[i] * n * n
  {
    hide Dot;
    var ls, n := Reals(levels), v as real;
    assert Reals(levels[i := v]) == ls[i := n];
    DotSwap(w, x, ls);
    DotSwap(w, x, ls[i := n]);
    DotUpdate(w, ls, x, i, n);
    SquareUpdate(w, ls, i, n);
    assert w[i] * ls[i] * x[i] == w[i] * x[i] * ls[i] && w[i] * n * x[i] == w[i] * x[i] * n;
  }

  // Where a sweep would put a level, given the sums over the other levels.
  function Target(x: real, slx: real, sl2: real, nmax: nat): int
    requires slx > 0.0
  {
    Min(nmax, NearestInt(x * sl2 / slx))
  }

  // Whether moving a level `l` with weight `w` and value `x` to its target raises the gain of the sums.
  predicate Improving(w: real, x: real, lx: real, l2: real, l: int, nmax: nat) {
    var slx, sl2 := lx - w * x * l as real, l2 - w * l as real * l as real;
    slx > 0.0 && sl2 > 0.0 && Target(x, slx, sl2, nmax) != l
        && Raises(w, x, slx, sl2, lx, l2, Target(x, slx, sl2, nmax) as real)
  }

  // The target of a level `l`, given the sums over all levels.
  function Goal(w: real, x: real, lx: real, l2: real, l: int, nmax: nat): int {
    var slx, sl2 := lx - w * x * l as real, l2 - w * l as real * l as real;
    if slx > 0.0 then Target(x, slx, sl2, nmax) else l
  }

  // Whether level `n` makes a larger quotient lx * lx / l2 than the present one.
  predicate Raises(w: real, x: real, slx: real, sl2: real, lx: real, l2: real, n: real) {
    var newSlx, newSl2 := slx + w * x * n, sl2 + w * n * n;
    newSlx * newSlx * l2 > lx * lx * newSl2
  }

  predicate Improves(w: seq<real>, x: seq<real>, nmax: nat, levels: seq<int>, i: nat)
    requires |w| == |x| == |levels| && i < |w|
  {
    Improving(w[i], x[i], SumLx(w, x, levels), SumL2(w, levels), levels[i], nmax)
  }

  function Moved(w: seq<real>, x: seq<real>, nmax: nat, levels: seq<int>, i: nat): (r: seq<int>)
    requires |w| == |x| == |levels| && i < |w|
    ensures |r| == |levels|
  {
    if Improves(w, x, nmax, levels, i)
    then levels[i := Goal(w[i], x[i], SumLx(w, x, levels), SumL2(w, levels), levels[i], nmax)]
    else levels
  }

  // The levels after one sweep from position `i` on.
  function Swept(w: seq<real>, x: seq<real>, nmax: nat, levels: seq<int>, i: nat): (r: seq<int>)
    requires |w| == |x| == |levels| && i <= |w|
    ensures |r| == |levels|
    decreases |w| - i
  {
    if i == |w| then levels else Swept(w, x, nmax, Moved(w, x, nmax, levels, i), i + 1)
  }

  // The levels after `rounds` sweeps, or fewer once a sweep changes nothing.
  function SweptRounds(w: seq<real>, x: seq<real>, nmax: nat, levels: seq<int>, rounds: nat): (r: seq<int>)
    requires |w| == |x| == |levels|
    ensures |r| == |levels|
    decreases rounds
  {
    if rounds == 0 then levels
    else
      var next := Swept(w, x, nmax, levels, 0);
      if next == levels then levels else SweptRounds(w, x, nmax, next, rounds - 1)
  }

  // Comparing gains without dividing.
  lemma GainCompared(lx: real, l2: real, lx': real, l2': real)
    requires l2 > 0.0 && l2' > 0.0
    ensures Gain(lx', l2') > Gain(lx, l2) <==> lx' * lx' * l2 > lx * lx * l2'
  {
    var g, g' := lx * lx / l2, lx' * lx' / l2';
    assert g * l2 == lx * lx && g' * l2' == lx' * lx';
    var c := l2 * l2';
    assert c > 0.0;
    assert lx' * lx' * l2 == g' * c by { assert g' * l2' * l2 == g' * (l2 * l2'); }
    assert lx * lx * l2' == g * c by { assert g * l2 * l2' == g * (l2 * l2'); }
    assert g' > g <==> g' * c > g * c;
  }

  // The unrounded target is the best real value for one level: no other reaches a higher gain.
  lemma TargetOptimal(w: real, x: real, slx: real, sl2: real, best: real, t: real, lx: real, l2: real, lx': real,
                      l2': real)
    requires w >= 0.0 && slx > 0.0 && sl2 > 0.0 && best == x * sl2 / slx
    requires lx == slx + w * x * t && l2 == sl2 + w * t * t
    requires lx' == slx + w * x * best && l2' == sl2 + w * best * best
    ensures Gain(lx, l2) <= Gain(lx', l2')
  {
    hide Gain;
    BestInRatio(x, slx, sl2, best, slx / sl2);
    BestInRatioOptimal(w, x, slx, sl2, slx / sl2, best, t, lx, l2, lx', l2');
  }

  lemma BestInRatio(x: real, slx: real, sl2: real, best: real, r: real)
    requires slx > 0.0 && sl2 > 0.0 && best == x * sl2 / slx && r == slx / sl2
    ensures r * best == x && r * sl2 == slx
  {
    assert best * slx == x * sl2 && r * sl2 == slx;
    assert (r * best) * sl2 == x * sl2;
  }

  lemma BestInRatioOptimal(w: real, x: real, slx: real, sl2: real, r: real, best: real, t: real,
                           lx: real, l2: real, lx': real, l2': real)
    requires w >= 0.0 && sl2 > 0.0 && x == r * best && slx == r * sl2
    requires lx == slx + w * x * t && l2 == sl2 + w * t * t && lx' == slx + w * x * best && l2' == sl2 + w * best * best
    ensures Gain(lx, l2) <= Gain(lx', l2')
  {
    hide Gain;
    SquareTerm(w, t);
    SquareTerm(w, best);
    var c := sl2 + w * best * t;
    InRatio(w, x, r, best, slx, sl2, best, lx', l2');
    InRatio(w, x, r, best, slx, sl2, t, lx, c);
    GainAtRatio(r, lx', l2');
    TwoTermCauchy(sl2, w, best, t, c, l2, l2');
    GainBelow(r, c, lx, l2, l2');
  }

  lemma InRatio(w: real, x: real, r: real, best: real, slx: real, sl2: real, t: real, lx: real, c: real)
    requires x == r * best && slx == r * sl2 && lx == slx + w * x * t && c == sl2 + w * best * t
    ensures lx == r * c
  {
    assert w * x * t == r * (w * best * t);
  }

  lemma GainAtRatio(r: real, lx: real, l2: real)
    requires l2 > 0.0 && lx == r * l2
    ensures Gain(lx, l2) == r * r * l2
  {
    assert lx * lx == (r * r * l2) * l2;
    Quotient(lx * lx, l2, r * r * l2);
  }

  lemma TwoTermCauchy(a: real, w: real, b: real, t: real, c: real, u: real, v: real)
    requires a > 0.0 && w >= 0.0 && c == a + w * b * t && u == a + w * t * t && v == a + w * b * b
    ensures c * c <= u * v
  {
    var bb, bt, tt := w * b * b, w * b * t, w * t * t;
    assert bt * bt == tt * bb;
    assert bb - 2.0 * bt + tt == w * (b - t) * (b - t);
    SquareTerm(w, b - t);
    assert a * (bb - 2.0 * bt + tt) >= 0.0;
    assert u * v - c * c == a * (bb - 2.0 * bt + tt) + (tt * bb - bt * bt);
  }

  lemma GainBelow(r: real, c: real, lx: real, l2: real, l2': real)
    requires l2 > 0.0 && l2' > 0.0 && lx == r * c && c * c <= l2 * l2'
    ensures Gain(lx, l2) <= r * r * l2'
  {
    assert lx * lx == (r * r) * (c * c);
    assert r * r >= 0.0;
    assert (r * r) * (c * c) <= (r * r) * (l2 * l2') == (r * r * l2') * l2;
    QuotientAtMost(lx * lx, l2, r * r * l2');
  }

  lemma QuotientAtMost(a: real, b: real, q: real)
    requires b > 0.0 && a <= q * b
    ensures a / b <= q
  {
    var d := a / b;
    assert d * b == a;
    assert (q - d) * b >= 0.0;
  }

  // An accepted move strictly raises the gain.
  lemma MoveGains(w: real, x: real, slx: real, sl2: real, lx: real, l2: real, l: real, lx': real, l2': real, n: real)
    requires w >= 0.0 && slx > 0.0 && sl2 > 0.0 && sl2 == l2 - w * l * l && Raises(w, x, slx, sl2, lx, l2, n)
    requires lx' == slx + w * x * n && l2' == sl2 + w * n * n
    ensures Gain(lx', l2') > Gain(lx, l2)
  {
    SquareTerm(w, l);
    SquareTerm(w, n);
    GainCompared(lx, l2, lx', l2');
  }

  lemma TargetInRange(x: real, slx: real, sl2: real, nmax: nat)
    requires x >= 0.0 && slx > 0.0 && sl2 > 0.0
    ensures 0 <= Target(x, slx, sl2, nmax) <= nmax
  {
    var p := x * sl2;
    assert p >= 0.0;
    assert p / slx >= 0.0;
  }

  // ---------- Sweeping ----------

  method Sweep(w: seq<real>, x: seq<real>, nmax: nat, levels: array<int>, sumLx0: real, sumL20: real)
    returns (sumLx: real, sumL2: real, changed: bool)
    requires |w| == |x| == levels.Length && NonNegative(w) && NonNegative(x)
    requires InRange(levels[..], nmax) && sumLx0 == SumLx(w, x, levels[..]) && sumL20 == SumL2(w, levels[..])
    modifies levels
    ensures InRange(levels[..], nmax) && sumLx == SumLx(w, x, levels[..]) && sumL2 == SumL2(w, levels[..])
    ensures levels[..] == Swept(w, x, nmax, old(levels[..]), 0)
    ensures changed <==> exists i :: 0 <= i < |w| && Improves(w, x, nmax, old(levels[..]), i)
    ensures changed ==> LevelsGain(w, x, levels[..]) > LevelsGain(w, x, old(levels[..]))
    ensures !changed ==> levels[..] == old(levels[..])
  {
    hide SumLx, SumL2, LevelsGain, Improves, InRange, NonNegative, Moved;
    sumLx, sumL2, changed := sumLx0, sumL20, false;
    ghost var start := levels[..];
    for i := 0 to |x|
      invariant InRange(levels[..], nmax) && sumLx == SumLx(w, x, levels[..]) && sumL2 == SumL2(w, levels[..])
      invariant changed ==> LevelsGain(w, x, levels[..]) > LevelsGain(w, x, start)
      invariant Swept(w, x, nmax, levels[..], i) == Swept(w, x, nmax, start, 0)
      invariant changed <==> exists k :: 0 <= k < i && Improves(w, x, nmax, start, k)
      invariant !changed ==> levels[..] == start
    {
      var better, newL;
      better, newL, sumLx, sumL2 := TryMove(w, x, nmax, levels[..], i, sumLx, sumL2);
      ghost var before := levels[..];
      if better {
        levels[i] := newL;
        assert levels[..] == before[i := newL];
        changed := true;
      }
    }
  }

  // One step of a sweep: whether level `i` moves, where to, and the sums afterwards.
  method TryMove(w: seq<real>, x: seq<real>, nmax: nat, levels: seq<int>, i: nat, sumLx0: real, sumL20: real)
    returns (better: bool, newL: int, sumLx: real, sumL2: real)
    requires |w| == |x| == |levels| && i < |w| && NonNegative(w) && NonNegative(x) && InRange(levels, nmax)
    requires sumLx0 == SumLx(w, x, levels) && sumL20 == SumL2(w, levels)
    ensures better == Improves(w, x, nmax, levels, i)
    ensures var after := if better then levels[i := newL] else levels;
            && after == Moved(w, x, nmax, levels, i)
            && InRange(after, nmax) && sumLx == SumLx(w, x, after) && sumL2 == SumL2(w, after)
            && (better ==> LevelsGain(w, x, after) > LevelsGain(w, x, levels))
  {
    hide SumLx, SumL2, Improving, Gain, Goal;
    better, newL, sumLx, sumL2 := MovedSums(w[i], x[i], sumLx0, sumL20, levels[i], nmax);
    if better {
      SumsAfterMove(w, x, levels, i, newL);
    }
  }

  lemma ImprovingIs(w: real, x: real, lx: real, l2: real, l: int, nmax: nat, slx: real, sl2: real)
    requires slx == lx - w * x * l as real && sl2 == l2 - w * l as real * l as real
    ensures slx > 0.0 ==> Goal(w, x, lx, l2, l, nmax) == Target(x, slx, sl2, nmax)
    ensures Improving(w, x, lx, l2, l, nmax)
            <==> (slx > 0.0 && sl2 > 0.0 && Target(x, slx, sl2, nmax) != l
                  && Raises(w, x, slx, sl2, lx, l2, Target(x, slx, sl2, nmax) as real))
  {
    hide Target, Raises;
  }

  method MovedSums(weight: real, x: real, lx: real, l2: real, l: int, nmax: nat)
    returns (better: bool, newL: int, sumLx: real, sumL2: real)
    requires weight >= 0.0 && x >= 0.0
    ensures better == Improving(weight, x, lx, l2, l, nmax)
    ensures !better ==> sumLx == lx && sumL2 == l2
    ensures better ==> newL == Goal(weight, x, lx, l2, l, nmax)
    ensures better ==> 0 <= newL <= nmax && Gain(sumLx, sumL2) > Gain(lx, l2)
    ensures better ==> sumLx == lx - weight * x * l as real + weight * x * newL as real
    ensures better ==> sumL2 == l2 - weight * l as real * l as real + weight * newL as real * newL as real
  {
    hide Gain, Target, Raises, Improving, Goal, NearestInt, Min;
    var slx := lx - weight * x * l as real;
    var sl2 := l2 - weight * l as real * l as real;
    ImprovingIs(weight, x, lx, l2, l, nmax, slx, sl2);
    better, newL, sumLx, sumL2 := false, 0, lx, l2;
    if slx > 0.0 && sl2 > 0.0 {
      newL := TargetOf(x, slx, sl2, nmax);
      better := newL != l && Raises(weight, x, slx, sl2, lx, l2, newL as real);
      if better {
        sumLx := slx + weight * x * newL as real;
        sumL2 := sl2 + weight * newL as real * newL as real;
        MoveGains(weight, x, slx, sl2, lx, l2, l as real, sumLx, sumL2, newL as real);
      }
    }
  }

  method TargetOf(x: real, slx: real, sl2: real, nmax: nat) returns (newL: int)
    requires x >= 0.0 && slx > 0.0 && sl2 > 0.0
    ensures newL == Target(x, slx, sl2, nmax) && 0 <= newL <= nmax
  {
    TargetInRange(x, slx, sl2, nmax);
    var ratio := x * sl2 / slx;
    newL := Min(nmax, NearestInt(ratio));
  }

  // ---------- The whole search ----------

  // Whether the levels are a fixed point: no level has a better target.
  ghost predicate Settled(w: seq<real>, x: seq<real>, nmax: nat, levels: seq<int>)
    requires |w| == |x| == |levels|
  {
    forall i :: 0 <= i < |w| ==> !Improves(w, x, nmax, levels, i)
  }

  // The best scale for levels of at least the same gain does no worse than any scale for the others.
  lemma NoWorse(w: seq<real>, x: seq<real>, levels: seq<int>, others: seq<int>, s: real)
    requires |w| == |x| == |levels| == |others| && NonNegative(w)
    requires LevelsGain(w, x, levels) >= LevelsGain(w, x, others)
    ensures Error(w, x, Reals(levels), BestScale(SumLx(w, x, levels), SumL2(w, levels)), 0.0)
         <= Error(w, x, Reals(others), s, 0.0)
  {
    hide Error, Dot, Gain, BestScale;
    BestScaleOptimal(w, x, Reals(levels), 0.0);
    BestScaleOptimal(w, x, Reals(others), s);
  }

  lemma {:induction false} ZeroSum(w: seq<real>, x: seq<real>, l: seq<real>)
    requires |w| == |x| == |l| && forall i :: 0 <= i < |l| ==> l[i] == 0.0
    ensures Dot(w, x, l) == 0.0
    decreases |w|
  {
    if w != [] {
      var n := |w| - 1;
      ZeroSum(w[..n], x[..n], l[..n]);
    }
  }

  lemma ZeroLevels(w: seq<real>, x: seq<real>, nmax: nat)
    requires |w| == |x|
    ensures var levels := LevelsAt(x, 0.0, nmax);
            (forall i :: 0 <= i < |x| ==> levels[i] == 0) && Settled(w, x, nmax, levels)
            && SumLx(w, x, levels) == 0.0 == SumL2(w, levels)
  {
    var levels := LevelsAt(x, 0.0, nmax);
    forall i | 0 <= i < |x|
      ensures levels[i] == 0
    {
      assert 0.0 * x[i] == 0.0;
    }
    ZeroSum(w, x, Reals(levels));
    ZeroSum(w, Reals(levels), Reals(levels));
  }

  lemma {:induction false} DotNonNegative(w: seq<real>, a: seq<real>, b: seq<real>)
    requires |w| == |a| == |b| && NonNegative(w) && NonNegative(a) && NonNegative(b)
    ensures Dot(w, a, b) >= 0.0
    decreases |w|
  {
    if w != [] {
      var n := |w| - 1;
      DotNonNegative(w[..n], a[..n], b[..n]);
      assert w[n] * a[n] >= 0.0;
    }
  }

  lemma BestScaleNonNegative(w: seq<real>, x: seq<real>, levels: seq<int>, nmax: nat)
    requires |w| == |x| == |levels| && NonNegative(w) && NonNegative(x) && InRange(levels, nmax)
    ensures BestScale(SumLx(w, x, levels), SumL2(w, levels)) >= 0.0
  {
    hide Dot;
    DotNonNegative(w, x, Reals(levels));
    var lx, l2 := SumLx(w, x, levels), SumL2(w, levels);
    if l2 > 0.0 {
      assert lx / l2 >= 0.0;
    }
  }

  // What the search makes of one row: levels in range, the best scale for them, no worse than any point
  // of the grid, and reached by five sweeps from a best one; a row that is zero for all practical
  // purposes gives zero levels.
  ghost predicate Quantised(x: seq<real>, w: seq<real>, nmax: nat, scale: real, levels: seq<int>) {
    && |w| == |x| == |levels| > 0 && nmax >= 1
    && InRange(levels, nmax) && scale >= 0.0 && BestFor(w, x, Reals(levels), scale)
    && (MaxOf(x) >= TINY ==>
          && (forall t :: -4 <= t <= 4 ==>
                Error(w, x, Reals(levels), scale, 0.0) <= GridError(w, x, nmax, GridScale(MaxOf(x), nmax, t)))
          && (exists t :: LeastOnGrid(w, x, nmax, MaxOf(x), t)
                && levels == SweptRounds(w, x, nmax, LevelsAt(x, GridScale(MaxOf(x), nmax, t), nmax), 5)))
    && (MaxOf(x) < TINY ==> scale == 0.0 && forall i :: 0 <= i < |x| ==> levels[i] == 0)
  }

  // ---------- The search, written out ----------

  // The levels that grid number `t` gives: `iscale` maps the largest value to `nmax` and `t` tenths.
  predicate GridLevels(x: seq<real>, xmax: real, nmax: nat, t: int, iscale: real, l: seq<int>) {
    && |l| == |x| && iscale > 0.0 && iscale * xmax == 0.1 * t as real + nmax as real
    && forall i :: 0 <= i < |x| ==> l[i] == Min(nmax, NearestInt(iscale * x[i]))
  }

  // The levels of the grid number with the least error; of several, number 0 or else the first one.
  ghost predicate BestStart(w: seq<real>, x: seq<real>, nmax: nat, l: seq<int>)
    requires |w| == |x| > 0
  {
    exists t: int, g :: -4 <= t <= 4 && GridLevels(x, MaxOf(x), nmax, t, g, l)
      && forall u: int, h, k :: -4 <= u <= 4 && GridLevels(x, MaxOf(x), nmax, u, h, k) ==>
           var e, f := Error(w, x, Reals(l), 1.0 / g, 0.0), Error(w, x, Reals(k), 1.0 / h, 0.0);
           e < f || (e == f && (t == 0 || (u != 0 && t <= u)))
  }

  predicate BestRatio(ratio: real, x: real, slx: real, sl2: real) {
    ratio * slx == x * sl2
  }

  // Level `i` has the better value `v`: the best one for the other levels, rounded and clipped, if it raises the gain.
  ghost predicate MovesTo(w: seq<real>, x: seq<real>, nmax: nat, l: seq<int>, i: nat, v: int)
    requires |w| == |x| == |l| && i < |w|
  {
    var others := Reals(l[i := 0]);
    var slx, sl2 := Dot(w, x, others), Dot(w, others, others);
    && slx > 0.0 && sl2 > 0.0 && v != l[i]
    && (exists ratio :: BestRatio(ratio, x[i], slx, sl2) && v == Min(nmax, NearestInt(ratio)))
    && LevelsGain(w, x, l[i := v]) > LevelsGain(w, x, l)
  }

  ghost predicate MoveStep(w: seq<real>, x: seq<real>, nmax: nat, l: seq<int>, l': seq<int>, i: nat)
    requires |w| == |x| == |l| && i < |w|
  {
    || (exists v :: MovesTo(w, x, nmax, l, i, v) && l' == l[i := v])
    || ((forall v :: !MovesTo(w, x, nmax, l, i, v)) && l' == l)
  }

  ghost predicate AllOf(rows: seq<seq<int>>, n: nat) {
    forall k :: 0 <= k < |rows| ==> |rows[k]| == n
  }

  // One sweep: every level in turn.
  ghost predicate OneSweep(w: seq<real>, x: seq<real>, nmax: nat, l: seq<int>, l': seq<int>)
    requires |w| == |x|
  {
    exists trace: seq<seq<int>> :: |trace| == |x| + 1 && AllOf(trace, |x|) && trace[0] == l && trace[|x|] == l'
      && forall i: nat :: i < |x| ==> MoveStep(w, x, nmax, trace[i], trace[i + 1], i)
  }

  ghost predicate FiveSweeps(w: seq<real>, x: seq<real>, nmax: nat, l: seq<int>, l': seq<int>)
    requires |w| == |x|
  {
    exists rounds: seq<seq<int>> :: |rounds| == 6 && AllOf(rounds, |x|) && rounds[0] == l && rounds[5] == l'
      && forall k: nat :: k < 5 ==> OneSweep(w, x, nmax, rounds[k], rounds[k + 1])
  }

  lemma GridLevelsAre(x: seq<real>, xmax: real, nmax: nat, t: int, iscale: real, l: seq<int>)
    requires xmax > 0.0 && nmax >= 1 && t >= -4
    ensures GridLevels(x, xmax, nmax, t, iscale, l) <==> iscale == GridScale(xmax, nmax, t)
                                                         && l == LevelsAt(x, iscale, nmax)
  {
    hide NearestInt, Min;
    var n := 0.1 * t as real + nmax as real;
    var g := GridScale(xmax, nmax, t);
    assert g * xmax == n && g > 0.0;
    if iscale * xmax == n {
      Quotient(n, xmax, iscale);
      assert iscale == g;
    }
    LevelsWritten(x, iscale, nmax, l);
    hide GridScale, LevelsAt;
    if iscale == g {
      assert iscale * xmax == n;
    }
  }

  lemma LevelsWritten(x: seq<real>, iscale: real, nmax: nat, l: seq<int>)
    ensures l == LevelsAt(x, iscale, nmax)
            <==> |l| == |x| && forall i :: 0 <= i < |x| ==> l[i] == Min(nmax, NearestInt(iscale * x[i]))
  {
    hide NearestInt, Min;
    if |l| == |x| && forall i :: 0 <= i < |x| ==> l[i] == Min(nmax, NearestInt(iscale * x[i])) {
      forall i | 0 <= i < |x|
        ensures l[i] == LevelsAt(x, iscale, nmax)[i]
      {
      }
    }
  }

  lemma BestStartIs(w: seq<real>, x: seq<real>, nmax: nat, t: int)
    requires |w| == |x| > 0 && MaxOf(x) > 0.0 && nmax >= 1 && LeastOnGrid(w, x, nmax, MaxOf(x), t)
    ensures BestStart(w, x, nmax, LevelsAt(x, GridScale(MaxOf(x), nmax, t), nmax))
  {
    hide Error, LevelsAt, GridLevels;
    var xmax := MaxOf(x);
    var g := GridScale(xmax, nmax, t);
    var l := LevelsAt(x, g, nmax);
    GridLevelsAre(x, xmax, nmax, t, g, l);
    forall u: int, h, k | -4 <= u <= 4 && GridLevels(x, xmax, nmax, u, h, k)
      ensures h == GridScale(xmax, nmax, u) && k == LevelsAt(x, h, nmax)
      ensures |k| == |x| && h > 0.0
      ensures Error(w, x, Reals(l), 1.0 / g, 0.0) == GridError(w, x, nmax, g)
      ensures Error(w, x, Reals(k), 1.0 / h, 0.0) == GridError(w, x, nmax, h)
    {
      GridLevelsAre(x, xmax, nmax, u, h, k);
    }
    hide GridScale, GridError;
  }

  lemma OthersSums(w: seq<real>, x: seq<real>, l: seq<int>, i: nat)
    requires |w| == |x| == |l| && i < |w|
    ensures var others, old_ := Reals(l[i := 0]), l[i] as real;
            && Dot(w, x, others) == SumLx(w, x, l) - w[i] * x[i] * old_
            && Dot(w, others, others) == SumL2(w, l) - w[i] * old_ * old_
  {
    hide Dot;
    SumsAfterMove(w, x, l, i, 0);
    assert w[i] * x[i] * 0.0 == 0.0 && w[i] * 0.0 * 0.0 == 0.0;
  }

  // The comparison without division is that of the gains.
  lemma RaisesGain(w: seq<real>, x: seq<real>, l: seq<int>, i: nat, v: int, slx: real, sl2: real)
    requires |w| == |x| == |l| && i < |w| && w[i] >= 0.0 && sl2 > 0.0
    requires slx == SumLx(w, x, l) - w[i] * x[i] * l[i] as real
    requires sl2 == SumL2(w, l) - w[i] * l[i] as real * l[i] as real
    ensures Raises(w[i], x[i], slx, sl2, SumLx(w, x, l), SumL2(w, l), v as real)
            <==> LevelsGain(w, x, l[i := v]) > LevelsGain(w, x, l)
  {
    hide Gain, SumLx, SumL2;
    SumsAfterMove(w, x, l, i, v);
    SquareTerm(w[i], l[i] as real);
    SquareTerm(w[i], v as real);
    GainCompared(SumLx(w, x, l), SumL2(w, l), SumLx(w, x, l[i := v]), SumL2(w, l[i := v]));
  }

  lemma TargetIs(x: real, slx: real, sl2: real, nmax: nat, v: int)
    requires slx > 0.0
    ensures v == Target(x, slx, sl2, nmax)
            <==> exists ratio :: BestRatio(ratio, x, slx, sl2) && v == Min(nmax, NearestInt(ratio))
  {
    hide NearestInt, Min;
    var q := x * sl2 / slx;
    assert BestRatio(q, x, slx, sl2);
    if exists ratio :: BestRatio(ratio, x, slx, sl2) && v == Min(nmax, NearestInt(ratio)) {
      var ratio :| BestRatio(ratio, x, slx, sl2) && v == Min(nmax, NearestInt(ratio));
      Quotient(x * sl2, slx, ratio);
    }
    assert v == Target(x, slx, sl2, nmax) ==> v == Min(nmax, NearestInt(q));
  }

  lemma MovedIsStep(w: seq<real>, x: seq<real>, nmax: nat, l: seq<int>, i: nat)
    requires |w| == |x| == |l| && i < |w| && NonNegative(w)
    ensures MoveStep(w, x, nmax, l, Moved(w, x, nmax, l, i), i)
  {
    hide SumLx, SumL2, LevelsGain, Dot, Target, Raises;
    var slx, sl2 := SumLx(w, x, l) - w[i] * x[i] * l[i] as real, SumL2(w, l) - w[i] * l[i] as real * l[i] as real;
    OthersSums(w, x, l, i);
    ImprovingIs(w[i], x[i], SumLx(w, x, l), SumL2(w, l), l[i], nmax, slx, sl2);
    hide Improving, Goal;
    forall v
      ensures MovesTo(w, x, nmax, l, i, v) <==> Improves(w, x, nmax, l, i) && v == Target(x[i], slx, sl2, nmax)
    {
      MovesToIs(w, x, nmax, l, i, v, slx, sl2);
    }
    hide MovesTo;
    if Improves(w, x, nmax, l, i) {
      var v := Target(x[i], slx, sl2, nmax);
      assert MovesTo(w, x, nmax, l, i, v) && Moved(w, x, nmax, l, i) == l[i := v];
    }
  }

  lemma MovesToIs(w: seq<real>, x: seq<real>, nmax: nat, l: seq<int>, i: nat, v: int, slx: real, sl2: real)
    requires |w| == |x| == |l| && i < |w| && w[i] >= 0.0
    requires slx == SumLx(w, x, l) - w[i] * x[i] * l[i] as real
    requires sl2 == SumL2(w, l) - w[i] * l[i] as real * l[i] as real
    requires var others := Reals(l[i := 0]); slx == Dot(w, x, others) && sl2 == Dot(w, others, others)
    ensures MovesTo(w, x, nmax, l, i, v) <==>
              (slx > 0.0 && sl2 > 0.0 && v == Target(x[i], slx, sl2, nmax) && v != l[i]
               && Raises(w[i], x[i], slx, sl2, SumLx(w, x, l), SumL2(w, l), v as real))
  {
    hide SumLx, SumL2, LevelsGain, Dot, Target, Raises, NearestInt, Min, BestRatio;
    if slx > 0.0 && sl2 > 0.0 {
      TargetIs(x[i], slx, sl2, nmax, v);
      RaisesGain(w, x, l, i, v, slx, sl2);
    }
  }

  // The levels after each step of a sweep from position `i` on.
  function Trace(w: seq<real>, x: seq<real>, nmax: nat, l: seq<int>, i: nat): (r: seq<seq<int>>)
    requires |w| == |x| == |l| && i <= |w|
    ensures |r| == |w| - i + 1
    decreases |w| - i
  {
    if i == |w| then [l] else [l] + Trace(w, x, nmax, Moved(w, x, nmax, l, i), i + 1)
  }

  lemma {:induction false} TraceSteps(w: seq<real>, x: seq<real>, nmax: nat, l: seq<int>, i: nat)
    requires |w| == |x| == |l| && i <= |w| && NonNegative(w)
    ensures var t := Trace(w, x, nmax, l, i);
            && AllOf(t, |x|) && t[0] == l && t[|w| - i] == Swept(w, x, nmax, l, i)
            && forall k: nat :: k < |w| - i ==> MoveStep(w, x, nmax, t[k], t[k + 1], i + k)
    decreases |w| - i
  {
    hide Moved, MoveStep;
    if i < |w| {
      var l' := Moved(w, x, nmax, l, i);
      var t, rest := Trace(w, x, nmax, l, i), Trace(w, x, nmax, l', i + 1);
      MovedIsStep(w, x, nmax, l, i);
      TraceSteps(w, x, nmax, l', i + 1);
      forall k: nat | k < |w| - i
        ensures MoveStep(w, x, nmax, t[k], t[k + 1], i + k)
      {
        assert k > 0 ==> t[k] == rest[k - 1] && t[k + 1] == rest[k];
        assert k > 0 ==> MoveStep(w, x, nmax, rest[k - 1], rest[k], (i + 1) + (k - 1));
      }
    }
  }

  lemma SweptIsSweep(w: seq<real>, x: seq<real>, nmax: nat, l: seq<int>)
    requires |w| == |x| == |l| && NonNegative(w)
    ensures OneSweep(w, x, nmax, l, Swept(w, x, nmax, l, 0))
  {
    hide MoveStep, Swept;
    TraceSteps(w, x, nmax, l, 0);
    var t := Trace(w, x, nmax, l, 0);
    forall i: nat | i < |x|
      ensures MoveStep(w, x, nmax, t[i], t[i + 1], i)
    {
      assert MoveStep(w, x, nmax, t[i], t[i + 1], 0 + i);
    }
  }

  // The levels after each of `n` sweeps.
  function Rounds(w: seq<real>, x: seq<real>, nmax: nat, l: seq<int>, n: nat): (r: seq<seq<int>>)
    requires |w| == |x| == |l|
    ensures |r| == n + 1
    decreases n
  {
    if n == 0 then [l] else [l] + Rounds(w, x, nmax, Swept(w, x, nmax, l, 0), n - 1)
  }

  lemma {:induction false} StaysSwept(w: seq<real>, x: seq<real>, nmax: nat, l: seq<int>, n: nat)
    requires |w| == |x| == |l| && Swept(w, x, nmax, l, 0) == l
    ensures Rounds(w, x, nmax, l, n)[n] == l
    decreases n
  {
    hide Swept;
    if n > 0 {
      StaysSwept(w, x, nmax, l, n - 1);
    }
  }

  lemma {:induction false} RoundsSwept(w: seq<real>, x: seq<real>, nmax: nat, l: seq<int>, n: nat)
    requires |w| == |x| == |l| && NonNegative(w)
    ensures var r := Rounds(w, x, nmax, l, n);
            && AllOf(r, |x|) && r[0] == l && r[n] == SweptRounds(w, x, nmax, l, n)
            && forall k: nat :: k < n ==> OneSweep(w, x, nmax, r[k], r[k + 1])
    decreases n
  {
    hide Swept, OneSweep;
    if n > 0 {
      var l' := Swept(w, x, nmax, l, 0);
      var r, rest := Rounds(w, x, nmax, l, n), Rounds(w, x, nmax, l', n - 1);
      SweptIsSweep(w, x, nmax, l);
      RoundsSwept(w, x, nmax, l', n - 1);
      if l' == l {
        StaysSwept(w, x, nmax, l, n - 1);
      }
      forall k: nat | k < n
        ensures OneSweep(w, x, nmax, r[k], r[k + 1])
      {
        assert k > 0 ==> r[k] == rest[k - 1] && r[k + 1] == rest[k];
      }
    }
  }

  lemma RoundsAreSweeps(w: seq<real>, x: seq<real>, nmax: nat, l: seq<int>)
    requires |w| == |x| == |l| && NonNegative(w)
    ensures FiveSweeps(w, x, nmax, l, SweptRounds(w, x, nmax, l, 5))
  {
    hide OneSweep, SweptRounds, Rounds;
    RoundsSwept(w, x, nmax, l, 5);
    var r := Rounds(w, x, nmax, l, 5);
    assert |r| == 6;
  }

  // Unless the row counts as zero, the levels are those of five sweeps from a best start.
  ghost predicate WrittenOut(x: seq<real>, w: seq<real>, nmax: nat, levels: seq<int>)
    requires |w| == |x| > 0
  {
    MaxOf(x) >= TINY ==> exists first :: BestStart(w, x, nmax, first) && FiveSweeps(w, x, nmax, first, levels)
  }

  lemma QuantisedWrittenOut(x: seq<real>, w: seq<real>, nmax: nat, scale: real, levels: seq<int>)
    requires Quantised(x, w, nmax, scale, levels) && NonNegative(w)
    ensures WrittenOut(x, w, nmax, levels)
  {
    hide Error, LevelsAt, GridScale, GridError, SweptRounds, BestStart, FiveSweeps, BestFor, InRange;
    if MaxOf(x) >= TINY {
      var t :| LeastOnGrid(w, x, nmax, MaxOf(x), t)
               && levels == SweptRounds(w, x, nmax, LevelsAt(x, GridScale(MaxOf(x), nmax, t), nmax), 5);
      BestStartIs(w, x, nmax, t);
      RoundsAreSweeps(w, x, nmax, LevelsAt(x, GridScale(MaxOf(x), nmax, t), nmax));
    }
  }

  method MakeQpQuants(x: seq<real>, w: seq<real>, nmax: nat) returns (scale: real, levels: seq<int>)
    requires |w| == |x| > 0 && NonNegative(w) && NonNegative(x) && nmax >= 1
    ensures Quantised(x, w, nmax, scale, levels) && WrittenOut(x, w, nmax, levels)
  {
    hide Error, Reals, NonNegative, InRange, GridError, GridScale, SumLx, SumL2, Dot, LevelsAt, LevelsGain, Settled,
        LevelAt, SweptRounds;
    var xmax := MaxOf(x);
    var iscale := 0.0;
    if xmax >= TINY {
      iscale := GridSearch(w, x, nmax, xmax);
    } else {
      ZeroLevels(w, x, nmax);
    }
    ghost var first := LevelsAt(x, iscale, nmax);
    LevelsInRange(x, iscale, nmax);
    var lv := new int[|x|](i requires 0 <= i < |x| => LevelAt(x[i], iscale, nmax));
    LevelsFilled(x, iscale, nmax, lv[..]);
    scale := Sweeps(w, x, nmax, lv);
    levels := lv[..];
    NothingBetter(w, x, levels, first);
    if xmax >= TINY {
      GridBound(w, x, nmax, iscale, levels, scale);
    }
    assert Quantised(x, w, nmax, scale, levels);
    hide Quantised, WrittenOut;
    QuantisedWrittenOut(x, w, nmax, scale, levels);
  }

  lemma NothingBetter(w: seq<real>, x: seq<real>, levels: seq<int>, first: seq<int>)
    requires |w| == |x| == |levels| == |first| && NonNegative(w)
    requires LevelsGain(w, x, levels) >= LevelsGain(w, x, first)
    ensures var scale := BestScale(SumLx(w, x, levels), SumL2(w, levels));
            forall s: real :: Error(w, x, Reals(levels), scale, 0.0) <= Error(w, x, Reals(levels), s, 0.0)
                           && Error(w, x, Reals(levels), scale, 0.0) <= Error(w, x, Reals(first), s, 0.0)
  {
    hide Error, LevelsGain, SumLx, SumL2, BestScale, Reals, NonNegative;
    forall s: real
      ensures var scale := BestScale(SumLx(w, x, levels), SumL2(w, levels));
              Error(w, x, Reals(levels), scale, 0.0) <= Error(w, x, Reals(levels), s, 0.0)
              && Error(w, x, Reals(levels), scale, 0.0) <= Error(w, x, Reals(first), s, 0.0)
    {
      NoWorse(w, x, levels, levels, s);
      NoWorse(w, x, levels, first, s);
    }
  }

  lemma GridBound(w: seq<real>, x: seq<real>, nmax: nat, iscale: real, levels: seq<int>, scale: real)
    requires |w| == |x| == |levels| && iscale != 0.0
    requires forall s: real ::
               Error(w, x, Reals(levels), scale, 0.0) <= Error(w, x, Reals(LevelsAt(x, iscale, nmax)), s, 0.0)
    ensures Error(w, x, Reals(levels), scale, 0.0) <= GridError(w, x, nmax, iscale)
  {
  }

  // Up to five sweeps over the levels of a row, and the best scale for the outcome.
  method Sweeps(w: seq<real>, x: seq<real>, nmax: nat, levels: array<int>) returns (scale: real)
    requires |w| == |x| == levels.Length && NonNegative(w) && NonNegative(x) && InRange(levels[..], nmax)
    modifies levels
    ensures InRange(levels[..], nmax) && LevelsGain(w, x, levels[..]) >= LevelsGain(w, x, old(levels[..]))
    ensures scale == BestScale(SumLx(w, x, levels[..]), SumL2(w, levels[..])) && scale >= 0.0
    ensures levels[..] == SweptRounds(w, x, nmax, old(levels[..]), 5)
    ensures levels[..] == old(levels[..]) <==> Settled(w, x, nmax, old(levels[..]))
  {
    hide SumLx, SumL2, LevelsGain, Improves, InRange, NonNegative, Swept;
    ghost var start := levels[..];
    var sumLx := SumLx(w, x, levels[..]);
    var sumL2 := SumL2(w, levels[..]);
    for round := 0 to 5
      invariant InRange(levels[..], nmax) && sumLx == SumLx(w, x, levels[..]) && sumL2 == SumL2(w, levels[..])
      invariant LevelsGain(w, x, levels[..]) >= LevelsGain(w, x, start)
      invariant SweptRounds(w, x, nmax, levels[..], 5 - round) == SweptRounds(w, x, nmax, start, 5)
      invariant Settled(w, x, nmax, start) ==> levels[..] == start
      invariant round > 0 && !Settled(w, x, nmax, start) ==> LevelsGain(w, x, levels[..]) > LevelsGain(w, x, start)
    {
      var changed;
      sumLx, sumL2, changed := Sweep(w, x, nmax, levels, sumLx, sumL2);
      if !changed {
        break;
      }
    }
    scale := if sumL2 > 0.0 then sumLx / sumL2 else 0.0;
    BestScaleNonNegative(w, x, levels[..], nmax);
  }

  lemma LevelsFilled(x: seq<real>, iscale: real, nmax: nat, levels: seq<int>)
    requires |levels| == |x| && forall i :: 0 <= i < |x| ==> levels[i] == LevelAt(x[i], iscale, nmax)
    ensures levels == LevelsAt(x, iscale, nmax)
  {
    hide LevelAt;
  }

  // ---------- Many rows at once ----------

  ghost predicate SameShape(xs: seq<seq<real>>, ws: seq<seq<real>>, rows: seq<seq<int>>, width: nat) {
    && |xs| == |ws| == |rows|
    && forall r :: 0 <= r < |xs| ==> |xs[r]| == |ws[r]| == |rows[r]| == width
  }

  // One column of a sweep over all rows, and whether any row moved.
  method SweepColumn(xs: seq<seq<real>>, ws: seq<seq<real>>, nmax: nat, rows: seq<seq<int>>, width: nat, i: nat)
    returns (next: seq<seq<int>>, changed: bool)
    requires SameShape(xs, ws, rows, width) && i < width
    ensures SameShape(xs, ws, next, width)
    ensures forall r :: 0 <= r < |rows| ==> next[r] == Moved(ws[r], xs[r], nmax, rows[r], i)
    ensures !changed ==> next == rows
  {
    hide Moved, Improves;
    next := seq(|rows|, r requires 0 <= r < |rows| => Moved(ws[r], xs[r], nmax, rows[r], i));
    changed := exists r :: 0 <= r < |rows| && next[r] != rows[r];
  }

  // Sweeping all rows together, until no row changes, gives each row what it would get on its own:
  // the result for a row does not depend on the rows that are processed with it.
  method SweepAllRows(xs: seq<seq<real>>, ws: seq<seq<real>>, nmax: nat, rows: seq<seq<int>>, width: nat)
    returns (levels: seq<seq<int>>)
    requires SameShape(xs, ws, rows, width)
    ensures SameShape(xs, ws, levels, width)
    ensures forall r :: 0 <= r < |rows| ==> levels[r] == SweptRounds(ws[r], xs[r], nmax, rows[r], 5)
  {
    hide Moved, Swept, SweptRounds;
    levels := rows;
    for round := 0 to 5
      invariant SameShape(xs, ws, levels, width)
      invariant forall r :: 0 <= r < |rows| ==>
                  SweptRounds(ws[r], xs[r], nmax, levels[r], 5 - round) == SweptRounds(ws[r], xs[r], nmax, rows[r], 5)
    {
      var next, changed := SweepRows(xs, ws, nmax, levels, width);
      forall r | 0 <= r < |rows|
        ensures SweptRounds(ws[r], xs[r], nmax, levels[r], 5 - round)
                == SweptRounds(ws[r], xs[r], nmax, next[r], 4 - round)
        ensures next[r] == levels[r] ==> SweptRounds(ws[r], xs[r], nmax, levels[r], 5 - round) == levels[r]
      {
        OneRound(ws[r], xs[r], nmax, levels[r], 5 - round);
      }
      levels := next;
      if !changed {
        return;
      }
    }
    forall r | 0 <= r < |rows|
      ensures levels[r] == SweptRounds(ws[r], xs[r], nmax, levels[r], 0)
    {
      NoRound(ws[r], xs[r], nmax, levels[r]);
    }
  }

  lemma NoRound(w: seq<real>, x: seq<real>, nmax: nat, levels: seq<int>)
    requires |w| == |x| == |levels|
    ensures SweptRounds(w, x, nmax, levels, 0) == levels
  {
  }

  lemma OneRound(w: seq<real>, x: seq<real>, nmax: nat, levels: seq<int>, rounds: nat)
    requires |w| == |x| == |levels| && rounds > 0
    ensures var next := Swept(w, x, nmax, levels, 0);
            && SweptRounds(w, x, nmax, levels, rounds) == SweptRounds(w, x, nmax, next, rounds - 1)
            && (next == levels ==> SweptRounds(w, x, nmax, levels, rounds) == levels)
  {
    hide Swept;
  }

  method SweepRows(xs: seq<seq<real>>, ws: seq<seq<real>>, nmax: nat, rows: seq<seq<int>>, width: nat)
    returns (next: seq<seq<int>>, changed: bool)
    requires SameShape(xs, ws, rows, width)
    ensures SameShape(xs, ws, next, width)
    ensures forall r :: 0 <= r < |rows| ==> next[r] == Swept(ws[r], xs[r], nmax, rows[r], 0)
    ensures !changed ==> next == rows
  {
    hide Moved;
    next, changed := rows, false;
    for i := 0 to width
      invariant SameShape(xs, ws, next, width) && (!changed ==> next == rows)
      invariant forall r :: 0 <= r < |rows| ==>
                Swept(ws[r], xs[r], nmax, next[r], i) == Swept(ws[r], xs[r], nmax, rows[r], 0)
    {
      var better;
      next, better := SweepColumn(xs, ws, nmax, next, width, i);
      changed := changed || better;
    }
  }
}
