/** make_qx_quants (convert_escha_to_gguf.py:205-250) for one row, over exact reals: signed levels whose
    weighted error, with the squares of the values as weights, is the least over the whole grid of
    inverse scales and over all scales. */
module QxQuants {
  import opened WeightedFit

  // The first position of a value of the largest magnitude.
  function ArgMaxAbs(x: seq<real>): (k: nat)
    requires x != []
    ensures k < |x| && forall i :: 0 <= i < |x| ==> Abs(x[i]) <= Abs(x[k])
    ensures forall i :: 0 <= i < k ==> Abs(x[i]) < Abs(x[k])
  {
    if |x| == 1 then 0
    else
      var n := |x| - 1;
      var k := ArgMaxAbs(x[..n]);
      if Abs(x[n]) > Abs(x[k]) then n else k
  }

  function Squares(x: seq<real>): (w: seq<real>)
    ensures |w| == |x| && NonNegative(w)
  {
    seq(|x|, i requires 0 <= i < |x| => x[i] * x[i])
  }

  function SignedAt(x: real, iscale: real, nmax: int): (r: int)
    requires nmax >= 1
    ensures -nmax <= r <= nmax - 1
  {
    Clip(NearestInt(iscale * x), -nmax, nmax - 1)
  }

  function SignedLevels(x: seq<real>, iscale: real, nmax: int): (r: seq<int>)
    requires nmax >= 1
    ensures |r| == |x|
  {
    seq(|x|, i requires 0 <= i < |x| => SignedAt(x[i], iscale, nmax))
  }

  // Inverse scale number `t`; number 0 maps the value of largest magnitude to -nmax.
  function GridScale(xmax: real, nmax: int, t: int): real
    requires xmax != 0.0
  {
    -(nmax as real + 0.1 * t as real) / xmax
  }

  function SumLx(x: seq<real>, signed: seq<int>): real
    requires |signed| == |x|
  {
    Dot(Squares(x), x, Reals(signed))
  }

  function SumL2(x: seq<real>, signed: seq<int>): real
    requires |signed| == |x|
  {
    Dot(Squares(x), Reals(signed), Reals(signed))
  }

  function SignedGain(x: seq<real>, signed: seq<int>): real
    requires |signed| == |x|
  {
    Gain(SumLx(x, signed), SumL2(x, signed))
  }

  predicate InRange(signed: seq<int>, nmax: int) {
    forall i :: 0 <= i < |signed| ==> -nmax <= signed[i] <= nmax - 1
  }

  // A trial beats a gain, compared without dividing.
  lemma GainAbove(lx: real, l2: real, best: real)
    requires l2 > 0.0
    ensures lx * lx > best * l2 <==> Gain(lx, l2) > best
  {
    var g := lx * lx / l2;
    assert g * l2 == lx * lx;
    assert g > best <==> g * l2 > best * l2;
  }

  lemma ScaleTimesSum(lx: real, l2: real)
    ensures BestScale(lx, l2) * lx == Gain(lx, l2)
  {
    if l2 > 0.0 {
      var q := lx / l2;
      assert q * l2 == lx;
      assert (q * lx) * l2 == lx * lx;
      Quotient(lx * lx, l2, q * lx);
    }
  }

  lemma GainNonNegative(lx: real, l2: real)
    ensures Gain(lx, l2) >= 0.0
  {
    if l2 > 0.0 {
      var s := lx * lx;
      assert s >= 0.0;
      assert s / l2 >= 0.0;
    }
  }

  // The best scale for levels of at least the same gain does no worse than any scale for the others.
  lemma NoWorse(x: seq<real>, signed: seq<int>, others: seq<int>, s: real)
    requires |x| == |signed| == |others| && SignedGain(x, signed) >= SignedGain(x, others)
    ensures Error(Squares(x), x, Reals(signed), BestScale(SumLx(x, signed), SumL2(x, signed)), 0.0)
         <= Error(Squares(x), x, Reals(others), s, 0.0)
  {
    hide Error, Dot, Gain, BestScale, Squares;
    BestScaleOptimal(Squares(x), x, Reals(signed), 0.0);
    BestScaleOptimal(Squares(x), x, Reals(others), s);
  }

  // No point of the grid, with any scale, has a smaller error.
  ghost predicate BeatsGrid(x: seq<real>, xmax: real, nmax: int, l: seq<real>, scale: real)
    requires |l| == |x| && xmax != 0.0 && nmax >= 1
  {
    forall t, s: real :: -9 <= t <= 9 ==>
      Error(Squares(x), x, l, scale, 0.0)
          <= Error(Squares(x), x, Reals(SignedLevels(x, GridScale(xmax, nmax, t), nmax)), s, 0.0)
  }

  method Trial(x: seq<real>, xmax: real, nmax: int, istep: int, best: real)
    returns (better: bool, signed: seq<int>, scale: real, gain: real)
    requires xmax != 0.0 && nmax >= 1 && best >= 0.0
    ensures signed == SignedLevels(x, GridScale(xmax, nmax, istep), nmax)
    ensures scale == BestScale(SumLx(x, signed), SumL2(x, signed)) && gain == SignedGain(x, signed)
    ensures better <==> SignedGain(x, signed) > best
  {
    hide Dot, SignedAt, Squares;
    var numerator := -(nmax as real + 0.1 * istep as real);
    var trialIscale := numerator / xmax;
    signed := SignedLevels(x, trialIscale, nmax);
    var lx, l2 := SumLx(x, signed), SumL2(x, signed);
    better := l2 > 0.0 && lx * lx > best * l2;
    scale := if l2 > 0.0 then lx / l2 else 0.0;
    gain := scale * lx;
    ScaleTimesSum(lx, l2);
    if l2 > 0.0 {
      GainAbove(lx, l2, best);
    }
  }

  // Levels in range; whatever the row, the scale is the best one for them; and unless the row is zero
  // for all practical purposes, they are those of a grid point, and no grid point does better with any
  // scale.
  ghost predicate Quantised(x: seq<real>, nmax: int, scale: real, levels: seq<int>) {
    && |levels| == |x| > 0 && nmax >= 1
    && (forall i :: 0 <= i < |x| ==> 0 <= levels[i] < 2 * nmax)
    && BestFor(Squares(x), x, Signed(levels, nmax), scale)
    && var xmax := x[ArgMaxAbs(x)];
       && (Abs(xmax) >= TINY ==>
             && BeatsGrid(x, xmax, nmax, Signed(levels, nmax), scale)
             && (exists t :: -9 <= t <= 9 &&
                  Signed(levels, nmax) == Reals(SignedLevels(x, GridScale(xmax, nmax, t), nmax))))
       && (Abs(xmax) < TINY ==> forall i :: 0 <= i < |x| ==> levels[i] == 0)
  }

  // ---------- The search, written out ----------

  // The levels that grid number `t` gives.
  predicate GridLevels(x: seq<real>, xmax: real, nmax: int, t: int, iscale: real, l: seq<int>) {
    && nmax >= 1 && |l| == |x| && iscale * xmax == -(nmax as real + 0.1 * t as real)
    && forall i :: 0 <= i < |x| ==> l[i] == Clip(NearestInt(iscale * x[i]), -nmax, nmax - 1)
  }

  // The first value of the largest magnitude.
  predicate IsLargest(x: seq<real>, k: nat) {
    && k < |x| && (forall i :: 0 <= i < |x| ==> Abs(x[i]) <= Abs(x[k]))
    && forall i :: 0 <= i < k ==> Abs(x[i]) < Abs(x[k])
  }

  // The levels are those of a grid number, and no grid number with any scale has a smaller error, the squares of the
  // values being the weights; of several with the same error, number 0 is kept, or else the first one.
  ghost predicate BestOfGrid(x: seq<real>, xmax: real, nmax: int, scale: real, levels: seq<int>)
    requires |levels| == |x|
  {
    var w := seq(|x|, i requires 0 <= i < |x| => x[i] * x[i]);
    exists t: int, g, l: seq<int> :: -9 <= t <= 9 && GridLevels(x, xmax, nmax, t, g, l)
      && (forall i :: 0 <= i < |x| ==> levels[i] == l[i] + nmax)
      && forall u: int, h, k: seq<int>, s :: -9 <= u <= 9 && GridLevels(x, xmax, nmax, u, h, k) ==>
           var e, f := Error(w, x, Reals(l), scale, 0.0), Error(w, x, Reals(k), s, 0.0);
           e < f || (e == f && (t == 0 || (u != 0 && t <= u)))
  }

  ghost predicate WrittenOut(x: seq<real>, nmax: int, scale: real, levels: seq<int>)
    requires |levels| == |x|
  {
    exists k: nat :: IsLargest(x, k)
      && if Abs(x[k]) >= TINY then BestOfGrid(x, x[k], nmax, scale, levels)
         else forall i :: 0 <= i < |x| ==> levels[i] == 0
  }

  lemma GridLevelsAre(x: seq<real>, xmax: real, nmax: int, t: int, iscale: real, l: seq<int>)
    requires xmax != 0.0 && nmax >= 1
    ensures GridLevels(x, xmax, nmax, t, GridScale(xmax, nmax, t), SignedLevels(x, GridScale(xmax, nmax, t), nmax))
    ensures GridLevels(x, xmax, nmax, t, iscale, l) ==> l == SignedLevels(x, GridScale(xmax, nmax, t), nmax)
  {
    hide NearestInt, Clip;
    OneScale(-(nmax as real + 0.1 * t as real), xmax, iscale);
    LevelsWritten(x, GridScale(xmax, nmax, t), nmax, SignedLevels(x, GridScale(xmax, nmax, t), nmax));
    hide SignedLevels;
    if GridLevels(x, xmax, nmax, t, iscale, l) {
      LevelsWritten(x, iscale, nmax, l);
    }
  }

  lemma OneScale(n: real, xmax: real, iscale: real)
    requires xmax != 0.0
    ensures n / xmax * xmax == n && (iscale * xmax == n ==> iscale == n / xmax)
  {
  }

  lemma LevelsWritten(x: seq<real>, iscale: real, nmax: int, l: seq<int>)
    requires nmax >= 1
    ensures l == SignedLevels(x, iscale, nmax)
            <==> |l| == |x| && forall i :: 0 <= i < |x| ==> l[i] == Clip(NearestInt(iscale * x[i]), -nmax, nmax - 1)
  {
    hide NearestInt, Clip;
    if |l| == |x| && forall i :: 0 <= i < |x| ==> l[i] == Clip(NearestInt(iscale * x[i]), -nmax, nmax - 1) {
      forall i | 0 <= i < |x|
        ensures l[i] == SignedLevels(x, iscale, nmax)[i]
      {
      }
    }
  }

  // A larger gain is a smaller error, whatever the scale of the other.
  lemma GainIsError(x: seq<real>, l: seq<int>, k: seq<int>, s: real)
    requires |x| == |l| == |k| && SignedGain(x, k) <= SignedGain(x, l)
    ensures var e := Error(Squares(x), x, Reals(l), BestScale(SumLx(x, l), SumL2(x, l)), 0.0);
            var f := Error(Squares(x), x, Reals(k), s, 0.0);
            e <= f && (SignedGain(x, k) < SignedGain(x, l) ==> e < f)
  {
    hide Error, Dot, Gain, BestScale, Squares;
    BestScaleOptimal(Squares(x), x, Reals(l), 0.0);
    BestScaleOptimal(Squares(x), x, Reals(k), s);
  }

  lemma BestWritten(x: seq<real>, xmax: real, nmax: int, signed: seq<int>, scale: real, levels: seq<int>)
    requires xmax != 0.0 && nmax >= 1 && |signed| == |x| == |levels| && BestUpTo(x, xmax, nmax, signed, 10)
    requires scale == BestScale(SumLx(x, signed), SumL2(x, signed))
    requires forall i :: 0 <= i < |x| ==> levels[i] == signed[i] + nmax
    ensures BestOfGrid(x, xmax, nmax, scale, levels)
  {
    var w := seq(|x|, i requires 0 <= i < |x| => x[i] * x[i]);
    assert w == Squares(x);
    hide Error, SignedGain, BestScale, SumLx, SumL2, SignedLevels, GridScale, GridLevels, Squares;
    var t :| -9 <= t <= 9 && signed == SignedLevels(x, GridScale(xmax, nmax, t), nmax)
             && FirstBest(x, xmax, nmax, signed, t, 10);
    GridLevelsAre(x, xmax, nmax, t, 0.0, []);
    forall u: int, h, k: seq<int>, s | -9 <= u <= 9 && GridLevels(x, xmax, nmax, u, h, k)
      ensures |k| == |x|
      ensures var e, f := Error(w, x, Reals(signed), scale, 0.0), Error(w, x, Reals(k), s, 0.0);
              e < f || (e == f && (t == 0 || (u != 0 && t <= u)))
    {
      GridLevelsAre(x, xmax, nmax, u, h, k);
      GainIsError(x, signed, k, s);
    }
  }

  lemma ArgMaxLargest(x: seq<real>)
    requires x != []
    ensures IsLargest(x, ArgMaxAbs(x))
  {
  }

  method MakeQxQuants(x: seq<real>, nmax: int) returns (scale: real, levels: seq<int>)
    requires x != [] && nmax >= 1
    ensures Quantised(x, nmax, scale, levels) && WrittenOut(x, nmax, scale, levels)
  {
    hide Dot, SignedAt, Squares, Gain, GridScale, Error, SignedLevels, ArgMaxAbs, BeatsGrid;
    var xmax := x[ArgMaxAbs(x)];
    var valid := Abs(xmax) >= TINY;
    var signed := seq(|x|, _ => -nmax);
    if valid {
      var iscale := -nmax as real / xmax;
      StartScale(xmax, nmax, iscale);
      signed := SignedLevels(x, iscale, nmax);
      SignedInRange(x, iscale, nmax);
    }
    scale := BestScale(SumLx(x, signed), SumL2(x, signed));
    var best := scale * SumLx(x, signed);
    ScaleTimesSum(SumLx(x, signed), SumL2(x, signed));
    GainNonNegative(SumLx(x, signed), SumL2(x, signed));
    if valid {
      signed, scale := Search(x, xmax, nmax, signed, scale, best);
    }
    AtLeastAsGood(x, signed, xmax, nmax, valid);
    levels := seq(|x|, i requires 0 <= i < |x| => signed[i] + nmax);
    assert Signed(levels, nmax) == Reals(signed);
    hide BestOfGrid, IsLargest, BestUpTo, Abs;
    ArgMaxLargest(x);
    if valid {
      BestWritten(x, xmax, nmax, signed, scale, levels);
    }
  }

  function Signed(levels: seq<int>, nmax: int): (r: seq<real>)
    ensures |r| == |levels|
  {
    seq(|levels|, i requires 0 <= i < |levels| => (levels[i] - nmax) as real)
  }

  lemma StartScale(xmax: real, nmax: int, iscale: real)
    requires xmax != 0.0 && iscale == -nmax as real / xmax
    ensures iscale == GridScale(xmax, nmax, 0)
  {
  }

  lemma SignedInRange(x: seq<real>, iscale: real, nmax: int)
    requires nmax >= 1
    ensures InRange(SignedLevels(x, iscale, nmax), nmax)
  {
    hide SignedAt;
  }

  // What the search has found when the grid numbers below `end` have been tried.
  ghost predicate BestUpTo(x: seq<real>, xmax: real, nmax: int, signed: seq<int>, end: int)
    requires |signed| == |x| && xmax != 0.0 && nmax >= 1
  {
    exists t :: -9 <= t <= 9 && signed == SignedLevels(x, GridScale(xmax, nmax, t), nmax)
                && FirstBest(x, xmax, nmax, signed, t, end)
  }

  // Of several grid numbers with the best gain, number 0 is kept, or else the first one.
  ghost predicate FirstBest(x: seq<real>, xmax: real, nmax: int, signed: seq<int>, t: int, end: int)
    requires |signed| == |x| && xmax != 0.0 && nmax >= 1
  {
    && (t < end || t == 0)
    && forall u :: -9 <= u < end || u == 0 ==>
         var gain := SignedGain(x, SignedLevels(x, GridScale(xmax, nmax, u), nmax));
         gain < SignedGain(x, signed) || (gain == SignedGain(x, signed) && (t == 0 || (u != 0 && t <= u)))
  }

  method Search(x: seq<real>, xmax: real, nmax: int, signed0: seq<int>, scale0: real, best0: real)
    returns (signed: seq<int>, scale: real)
    requires xmax != 0.0 && nmax >= 1 && best0 >= 0.0
    requires signed0 == SignedLevels(x, GridScale(xmax, nmax, 0), nmax)
    requires scale0 == BestScale(SumLx(x, signed0), SumL2(x, signed0)) && best0 == SignedGain(x, signed0)
    ensures |signed| == |x| && InRange(signed, nmax) && scale == BestScale(SumLx(x, signed), SumL2(x, signed))
    ensures BestUpTo(x, xmax, nmax, signed, 10)
  {
    hide SignedGain, GridScale, SumLx, SumL2, BestScale, SignedLevels, InRange;
    signed, scale := signed0, scale0;
    var best := best0;
    SignedInRange(x, GridScale(xmax, nmax, 0), nmax);
    for istep := -9 to 10
      invariant |signed| == |x| && InRange(signed, nmax) && scale == BestScale(SumLx(x, signed), SumL2(x, signed))
      invariant best == SignedGain(x, signed) >= 0.0 && BestUpTo(x, xmax, nmax, signed, istep)
    {
      if istep == 0 {
        continue;
      }
      var better, trialSigned, trialScale, gain := Trial(x, xmax, nmax, istep, best);
      if better {
        SignedInRange(x, GridScale(xmax, nmax, istep), nmax);
        signed, scale, best := trialSigned, trialScale, gain;
      }
    }
  }

  lemma AtLeastAsGood(x: seq<real>, signed: seq<int>, xmax: real, nmax: int, valid: bool)
    requires |signed| == |x| && nmax >= 1 && (valid ==> xmax != 0.0 && BestUpTo(x, xmax, nmax, signed, 10))
    ensures var scale := BestScale(SumLx(x, signed), SumL2(x, signed));
            && BestFor(Squares(x), x, Reals(signed), scale)
            && (valid ==> BeatsGrid(x, xmax, nmax, Reals(signed), scale))
  {
    hide SignedGain, GridScale, SumLx, SumL2, BestScale, SignedLevels, Error, Squares, Reals;
    var scale := BestScale(SumLx(x, signed), SumL2(x, signed));
    forall s: real
      ensures Error(Squares(x), x, Reals(signed), scale, 0.0) <= Error(Squares(x), x, Reals(signed), s, 0.0)
    {
      NoWorse(x, signed, signed, s);
    }
    if valid {
      forall t, s: real | -9 <= t <= 9
        ensures Error(Squares(x), x, Reals(signed), scale, 0.0)
             <= Error(Squares(x), x, Reals(SignedLevels(x, GridScale(xmax, nmax, t), nmax)), s, 0.0)
      {
        NoWorse(x, signed, SignedLevels(x, GridScale(xmax, nmax, t), nmax), s);
      }
    }
  }
}
