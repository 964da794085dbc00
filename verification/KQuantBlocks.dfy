/** From a block of values to a packed block (convert_escha_to_gguf.py:253-308, 311-369, 372-428): the
    groups are fitted, their scales and offsets are themselves quantised, and the levels are rounded again
    for the scales that will be stored. The stored fields always fit their bits, and each final level is
    the closest that its field allows. Storing a half-precision number is a parameter. */
module KQuantBlocks {
  import opened WeightedFit
  import Qkx = QkxQuants
  import Qp = QpQuants
  import Qx = QxQuants
  import P = BlockPacking

  // The search parameters that every caller leaves at their defaults.
  const RMIN := -0.9
  const RDELTA := 0.05
  const NSTEP: nat := 36

  predicate Grid(rows: seq<seq<real>>, n: nat, width: nat) {
    |rows| == n && forall g :: 0 <= g < n ==> |rows[g]| == width
  }

  predicate Levels(rows: seq<seq<int>>, n: nat, width: nat, lo: int, hi: int) {
    |rows| == n && forall g :: 0 <= g < n ==> LevelRow(rows[g], width, lo, hi)
  }

  predicate LevelRow(row: seq<int>, width: nat, lo: int, hi: int) {
    |row| == width && forall k :: 0 <= k < width ==> lo <= row[k] <= hi
  }

  // ---------- Rounding a level again ----------

  // The level for `x` under step `d` and offset `m`; without a step the first choice stays.
  function Requantised(x: real, m: real, d: real, first: int, lo: int, hi: int): int
    requires lo <= hi
  {
    if d != 0.0 then Clip(NearestInt((x + m) / d), lo, hi) else first
  }

  // No level in range brings the decoded value closer to `x`.
  ghost predicate Closest(x: real, m: real, d: real, level: int, lo: int, hi: int) {
    lo <= level <= hi && forall l: int :: lo <= l <= hi ==> Off(x, m, d, level) <= Off(x, m, d, l)
  }

  function Off(x: real, m: real, d: real, l: int): real {
    Abs(d * l as real - m - x)
  }

  lemma ClosestInRange(r: real, lo: int, hi: int, l: int)
    requires lo <= l <= hi
    ensures Abs(Clip(NearestInt(r), lo, hi) as real - r) <= Abs(l as real - r)
  {
    var n := NearestInt(r);
    if l < n {
      assert l as real <= (n - 1) as real;
    } else if l > n {
      assert l as real >= (n + 1) as real;
    }
  }

  lemma RequantisedClosest(x: real, m: real, d: real, first: int, lo: int, hi: int)
    requires lo <= hi && d != 0.0
    ensures Closest(x, m, d, Requantised(x, m, d, first, lo, hi), lo, hi)
  {
    hide NearestInt, Off;
    var r := (x + m) / d;
    var level := Clip(NearestInt(r), lo, hi);
    forall l: int | lo <= l <= hi
      ensures Off(x, m, d, level) <= Off(x, m, d, l)
    {
      ClosestInRange(r, lo, hi, l);
      OffScaled(x, m, d, level, r);
      OffScaled(x, m, d, l, r);
      ScaledOrder(Abs(d), Abs(level as real - r), Abs(l as real - r));
    }
  }

  lemma OffScaled(x: real, m: real, d: real, l: int, r: real)
    requires d != 0.0 && r == (x + m) / d
    ensures Off(x, m, d, l) == Times(Abs(d), Abs(l as real - r))
  {
    var e := l as real - r;
    assert d * r == x + m;
    assert d * e == d * l as real - d * r;
    AbsProduct(d, e);
  }

  lemma AbsProduct(d: real, e: real)
    ensures Abs(Times(d, e)) == Times(Abs(d), Abs(e))
  {
    assert d >= 0.0 && e >= 0.0 ==> d * e >= 0.0;
    assert d < 0.0 && e < 0.0 ==> d * e >= 0.0;
    assert d >= 0.0 && e < 0.0 ==> d * e <= 0.0;
    assert d < 0.0 && e >= 0.0 ==> d * e <= 0.0;
  }

  // ---------- Fitting the groups of a block ----------

  // Scales and offsets come out nonnegative, which is what quantising them in turn needs.
  method FitGroups(groups: seq<seq<real>>, weights: seq<seq<real>>, nmax: int, n: nat, width: nat)
    returns (scales: seq<real>, mins: seq<real>, levels: seq<seq<int>>)
    requires Grid(groups, n, width) && Grid(weights, n, width) && width > 0 && nmax >= 1
    requires forall g :: 0 <= g < n ==> NonNegative(weights[g])
    ensures |scales| == |mins| == n && NonNegative(scales) && NonNegative(mins) && Levels(levels, n, width, 0, nmax)
    ensures forall g :: 0 <= g < n ==> Fitted(groups[g], weights[g], nmax, scales[g], mins[g], levels[g])
  {
    hide NonNegative, Fitted, LevelRow;
    scales, mins, levels := [], [], [];
    for g := 0 to n
      invariant |scales| == |mins| == |levels| == g
      invariant forall k :: 0 <= k < g ==> scales[k] >= 0.0 && mins[k] >= 0.0
      invariant forall k :: 0 <= k < g ==> LevelRow(levels[k], width, 0, nmax)
      invariant forall k :: 0 <= k < g ==> Fitted(groups[k], weights[k], nmax, scales[k], mins[k], levels[k])
    {
      var s, m, row := FitGroup(groups[g], weights[g], nmax);
      scales, mins, levels := scales + [s], mins + [m], levels + [row];
    }
    AllNonNegative(scales);
    AllNonNegative(mins);
  }

  lemma AllNonNegative(a: seq<real>)
    requires forall k :: 0 <= k < |a| ==> a[k] >= 0.0
    ensures NonNegative(a)
  {
  }

  ghost predicate Fitted(x: seq<real>, w: seq<real>, nmax: int, scale: real, min: real, levels: seq<int>) {
    && |w| == |x| > 0 && nmax >= 1
    && Qkx.Fit(scale, -min, levels) == Qkx.Search(w, x, nmax, RMIN, RDELTA, false, NSTEP + 1)
  }

  method FitGroup(x: seq<real>, w: seq<real>, nmax: int) returns (scale: real, min: real, levels: seq<int>)
    requires |w| == |x| > 0 && NonNegative(w) && nmax >= 1
    ensures scale >= 0.0 && min >= 0.0 && LevelRow(levels, |x|, 0, nmax) && Fitted(x, w, nmax, scale, min, levels)
  {
    hide Qkx.Search, NonNegative;
    scale, min, levels := Qkx.MakeQkx3Quants(x, w, nmax, RMIN, RDELTA, NSTEP, false);
    Qkx.SearchScale(w, x, nmax, RMIN, RDELTA, false, NSTEP + 1);
  }

  // The sum of the weights of each group.
  function GroupWeights(weights: seq<seq<real>>, n: nat, width: nat): (sw: seq<real>)
    requires Grid(weights, n, width)
    ensures |sw| == n
  {
    seq(n, g requires 0 <= g < n => Dot(weights[g], Ones(width), Ones(width)))
  }

  lemma WeightsNonNegative(weights: seq<seq<real>>, n: nat, width: nat)
    requires Grid(weights, n, width) && forall g :: 0 <= g < n ==> NonNegative(weights[g])
    ensures NonNegative(GroupWeights(weights, n, width))
  {
    hide Dot;
    forall g | 0 <= g < n
      ensures GroupWeights(weights, n, width)[g] >= 0.0
    {
      SquaresNonNegative(weights[g], Ones(width));
    }
  }

  // ---------- Storing ----------

  function ToByte(x: int): P.Byte
    requires 0 <= x < 256
  {
    x as bv8
  }

  lemma ByteBelow(x: int)
    requires 0 <= x
    ensures x < 4 ==> ToByte(x) < 4
    ensures x < 16 ==> ToByte(x) < 16
    ensures x < 64 ==> ToByte(x) < 64
  {
  }

  function RowBytes(row: seq<int>): (out: seq<P.Byte>)
    requires forall k :: 0 <= k < |row| ==> 0 <= row[k] < 256
    ensures |out| == |row|
  {
    seq(|row|, k requires 0 <= k < |row| => ToByte(row[k]))
  }

  // Element `i` of the rows, one after the other.
  function FlatAt(rows: seq<seq<int>>, width: nat, i: nat): (r: int)
    requires width > 0 && i < |rows| * width && forall g :: 0 <= g < |rows| ==> LevelRow(rows[g], width, 0, 255)
    ensures 0 <= r <= 255
  {
    RowOf(i, |rows|, width);
    assert LevelRow(rows[i / width], width, 0, 255);
    rows[i / width][i % width]
  }

  function FlatBytes(rows: seq<seq<int>>, width: nat): (out: seq<P.Byte>)
    requires width > 0 && forall g :: 0 <= g < |rows| ==> LevelRow(rows[g], width, 0, 255)
    ensures |out| == |rows| * width
  {
    seq(|rows| * width, i requires 0 <= i < |rows| * width => ToByte(FlatAt(rows, width, i)))
  }

  lemma RowOf(i: nat, n: nat, width: nat)
    requires width > 0 && i < n * width
    ensures i / width < n
  {
    var q := i / width;
    assert i >= q * width;
    assert (n - q) * width > 0;
  }

  lemma RowBytesBelow(row: seq<int>, n: int, limit: P.Byte)
    requires forall k :: 0 <= k < |row| ==> 0 <= row[k] < n
    requires (n == 4 && limit == 4) || (n == 16 && limit == 16) || (n == 64 && limit == 64)
    ensures P.AllBelow(RowBytes(row), limit)
  {
    hide ToByte;
    forall k | 0 <= k < |row|
      ensures ToByte(row[k]) < limit
    {
      ByteBelow(row[k]);
    }
  }

  lemma FlatAtBelow(rows: seq<seq<int>>, width: nat, n: int, i: nat)
    requires width > 0 && Levels(rows, |rows|, width, 0, n - 1) && n <= 256 && i < |rows| * width
    ensures forall g :: 0 <= g < |rows| ==> LevelRow(rows[g], width, 0, 255)
    ensures FlatAt(rows, width, i) < n
  {
    RowOf(i, |rows|, width);
    assert LevelRow(rows[i / width], width, 0, n - 1);
  }

  lemma FlatBytesBelow(rows: seq<seq<int>>, width: nat, n: int, limit: P.Byte)
    requires width > 0 && Levels(rows, |rows|, width, 0, n - 1)
    requires (n == 4 && limit == 4) || (n == 16 && limit == 16) || (n == 64 && limit == 64)
    ensures P.AllBelow(FlatBytes(rows, width), limit)
  {
    hide ToByte, FlatAt;
    forall i | 0 <= i < |rows| * width
      ensures ToByte(FlatAt(rows, width, i)) < limit
    {
      FlatAtBelow(rows, width, n, i);
      ByteBelow(FlatAt(rows, width, i));
    }
  }

  // The final levels of a block: each group rounded again for its stored step and offset.
  function RequantisedRows(groups: seq<seq<real>>, d: real, ls: seq<int>, m: real, lm: seq<int>, first: seq<seq<int>>,
                           n: nat, width: nat, hi: int): (rows: seq<seq<int>>)
    requires Grid(groups, n, width) && |ls| == |lm| == n && Levels(first, n, width, 0, hi) && hi >= 0
    ensures |rows| == n
  {
    seq(n, g requires 0 <= g < n =>
      assert LevelRow(first[g], width, 0, hi);
      RequantisedRow(groups[g], Step(d, ls[g]), Step(m, lm[g]), first[g], hi))
  }

  // The step or offset of a group, from that of its block.
  function Step(d: real, l: int): real {
    d * l as real
  }

  function RequantisedRow(x: seq<real>, d: real, m: real, first: seq<int>, hi: int): (row: seq<int>)
    requires |first| == |x| && hi >= 0
    ensures |row| == |x|
  {
    seq(|x|, k requires 0 <= k < |x| => Requantised(x[k], m, d, first[k], 0, hi))
  }

  lemma RequantisedInRange(x: seq<real>, d: real, m: real, first: seq<int>, hi: int)
    requires LevelRow(first, |x|, 0, hi) && hi >= 0
    ensures LevelRow(RequantisedRow(x, d, m, first, hi), |x|, 0, hi)
  {
    hide NearestInt;
  }

  // What a stored block promises: every level is the closest one for the stored step and offset of its
  // group, unless the step is zero.
  ghost predicate ClosestLevels(groups: seq<seq<real>>, d: real, ls: seq<int>, m: real, lm: seq<int>,
                                rows: seq<seq<int>>, n: nat, width: nat, hi: int) {
    && Grid(groups, n, width) && |ls| == |lm| == n && Levels(rows, n, width, 0, hi)
    && forall g :: 0 <= g < n ==> ClosestRow(groups[g], Step(d, ls[g]), Step(m, lm[g]), rows[g], hi)
  }

  ghost predicate ClosestRow(x: seq<real>, d: real, m: real, row: seq<int>, hi: int) {
    |row| == |x| && (d != 0.0 ==> forall k :: 0 <= k < |x| ==> Closest(x[k], m, d, row[k], 0, hi))
  }

  lemma RowClosest(x: seq<real>, d: real, m: real, first: seq<int>, hi: int)
    requires |first| == |x| && hi >= 0
    ensures ClosestRow(x, d, m, RequantisedRow(x, d, m, first, hi), hi)
  {
    hide Requantised, Closest;
    if d != 0.0 {
      forall k | 0 <= k < |x|
        ensures Closest(x[k], m, d, RequantisedRow(x, d, m, first, hi)[k], 0, hi)
      {
        RequantisedClosest(x[k], m, d, first[k], 0, hi);
      }
    }
  }

  lemma RowsClosest(groups: seq<seq<real>>, d: real, ls: seq<int>, m: real, lm: seq<int>, first: seq<seq<int>>,
                    n: nat, width: nat, hi: int)
    requires Grid(groups, n, width) && |ls| == |lm| == n && Levels(first, n, width, 0, hi) && hi >= 0
    ensures ClosestLevels(groups, d, ls, m, lm, RequantisedRows(groups, d, ls, m, lm, first, n, width, hi), n, width,
                          hi)
  {
    hide ClosestRow, RequantisedRow, Step;
    assert forall g :: 0 <= g < n ==> |first[g]| == width;
    hide LevelRow;
    forall g | 0 <= g < n
      ensures var row := RequantisedRow(groups[g], Step(d, ls[g]), Step(m, lm[g]), first[g], hi);
              LevelRow(row, width, 0, hi) && ClosestRow(groups[g], Step(d, ls[g]), Step(m, lm[g]), row, hi)
    {
      RequantisedInRange(groups[g], Step(d, ls[g]), Step(m, lm[g]), first[g], hi);
      RowClosest(groups[g], Step(d, ls[g]), Step(m, lm[g]), first[g], hi);
    }
  }

  // The fields of a block before packing: its step and offset as stored, and the integer fields.
  datatype Fields = Fields(d: real, m: real, ls: seq<int>, lm: seq<int>, rows: seq<seq<int>>)

  ghost predicate GoodFields(f: Fields, groups: seq<seq<real>>, n: nat, width: nat, hi: int, scaleMax: int) {
    && LevelRow(f.ls, n, 0, scaleMax) && LevelRow(f.lm, n, 0, scaleMax)
    && ClosestLevels(groups, f.d, f.ls, f.m, f.lm, f.rows, n, width, hi)
  }

  // Where the fields come from: the fits of the groups, the quantised scales and offsets of those, and
  // the step and offset before they are stored.
  datatype Origin = Origin(scales: seq<real>, mins: seq<real>, levels: seq<seq<int>>, d: real, m: real)

  ghost predicate Traced(f: Fields, o: Origin, groups: seq<seq<real>>, weights: seq<seq<real>>, n: nat, width: nat,
                         hi: int, scaleMax: nat, stored: real -> real) {
    && Grid(groups, n, width) && Grid(weights, n, width) && hi >= 1
    && |o.scales| == |o.mins| == |f.ls| == |f.lm| == n && Levels(o.levels, n, width, 0, hi)
    && (forall g :: 0 <= g < n ==> Fitted(groups[g], weights[g], hi, o.scales[g], o.mins[g], o.levels[g]))
    && Qp.Quantised(o.scales, GroupWeights(weights, n, width), scaleMax, o.d, f.ls)
    && Qp.Quantised(o.mins, GroupWeights(weights, n, width), scaleMax, o.m, f.lm)
    && f.d == stored(o.d) && f.m == stored(o.m)
    && f.rows == RequantisedRows(groups, f.d, f.ls, f.m, f.lm, o.levels, n, width, hi)
  }

  // The part that Q2_K and Q4_K share.
  method QuantizeFields(groups: seq<seq<real>>, weights: seq<seq<real>>, n: nat, width: nat, hi: int, scaleMax: nat,
                        stored: real -> real)
    returns (f: Fields, ghost o: Origin)
    requires Grid(groups, n, width) && Grid(weights, n, width) && n > 0 && width > 0 && hi >= 1 && scaleMax >= 1
    requires forall g :: 0 <= g < n ==> NonNegative(weights[g])
    ensures GoodFields(f, groups, n, width, hi, scaleMax)
    ensures Traced(f, o, groups, weights, n, width, hi, scaleMax, stored)
  {
    hide NonNegative, RequantisedRows, ClosestLevels, LevelRow, Fitted, Qp.Quantised;
    var scales, mins, levels := FitGroups(groups, weights, hi, n, width);
    var sw := GroupWeights(weights, n, width);
    WeightsNonNegative(weights, n, width);
    var d0, ls := Qp.MakeQpQuants(scales, sw, scaleMax);
    var m0, lm := Qp.MakeQpQuants(mins, sw, scaleMax);
    QuantisedRow(scales, sw, scaleMax, d0, ls);
    QuantisedRow(mins, sw, scaleMax, m0, lm);
    var d, m := stored(d0), stored(m0);
    RowsClosest(groups, d, ls, m, lm, levels, n, width, hi);
    f := Fields(d, m, ls, lm, RequantisedRows(groups, d, ls, m, lm, levels, n, width, hi));
    o := Origin(scales, mins, levels, d0, m0);
  }

  lemma QuantisedRow(x: seq<real>, w: seq<real>, scaleMax: nat, scale: real, ls: seq<int>)
    requires Qp.Quantised(x, w, scaleMax, scale, ls)
    ensures |ls| == |x| && LevelRow(ls, |x|, 0, scaleMax)
  {
  }

  // The block holds the fields.
  ghost predicate Stored2(b: P.Q2Block, f: Fields, bytes: real -> seq<P.Byte>) {
    && Levels(f.rows, 16, 16, 0, 3) && LevelRow(f.ls, 16, 0, 15) && LevelRow(f.lm, 16, 0, 15)
    && b.levels == FlatBytes(f.rows, 16) && b.ls == RowBytes(f.ls) && b.lm == RowBytes(f.lm)
    && b.d == bytes(f.d) && b.dmin == bytes(f.m)
  }

  method QuantizeQ2Block(groups: seq<seq<real>>, weights: seq<seq<real>>, stored: real -> real,
                         bytes: real -> seq<P.Byte>)
    returns (b: P.Q2Block, ghost f: Fields, ghost o: Origin)
    requires Grid(groups, 16, 16) && Grid(weights, 16, 16) && forall g :: 0 <= g < 16 ==> NonNegative(weights[g])
    requires forall r :: |bytes(r)| == 2
    ensures GoodFields(f, groups, 16, 16, 3, 15)
    ensures Traced(f, o, groups, weights, 16, 16, 3, 15, stored)
    ensures P.ValidQ2(b)
    ensures Stored2(b, f, bytes)
  {
    hide NonNegative, ClosestRow, FlatBytes, RowBytes, Traced;
    var fields;
    fields, o := QuantizeFields(groups, weights, 16, 16, 3, 15, stored);
    f := fields;
    FlatBytesBelow(f.rows, 16, 4, 4);
    RowBytesBelow(f.ls, 16, 16);
    RowBytesBelow(f.lm, 16, 16);
    b := P.Q2Block(FlatBytes(fields.rows, 16), RowBytes(fields.ls), RowBytes(fields.lm), bytes(fields.d),
                   bytes(fields.m));
  }

  // The block holds the fields.
  ghost predicate Stored4(b: P.Q4Block, f: Fields, bytes: real -> seq<P.Byte>) {
    && Levels(f.rows, 8, 32, 0, 15) && LevelRow(f.ls, 8, 0, 63) && LevelRow(f.lm, 8, 0, 63)
    && b.levels == FlatBytes(f.rows, 32) && b.ls == RowBytes(f.ls) && b.lm == RowBytes(f.lm)
    && b.d == bytes(f.d) && b.dmin == bytes(f.m)
  }

  method QuantizeQ4Block(groups: seq<seq<real>>, weights: seq<seq<real>>, stored: real -> real,
                         bytes: real -> seq<P.Byte>)
    returns (b: P.Q4Block, ghost f: Fields, ghost o: Origin)
    requires Grid(groups, 8, 32) && Grid(weights, 8, 32) && forall g :: 0 <= g < 8 ==> NonNegative(weights[g])
    requires forall r :: |bytes(r)| == 2
    ensures GoodFields(f, groups, 8, 32, 15, 63)
    ensures Traced(f, o, groups, weights, 8, 32, 15, 63, stored)
    ensures P.ValidQ4(b)
    ensures Stored4(b, f, bytes)
  {
    hide NonNegative, ClosestRow, FlatBytes, RowBytes, Traced;
    var fields;
    fields, o := QuantizeFields(groups, weights, 8, 32, 15, 63, stored);
    f := fields;
    FlatBytesBelow(f.rows, 32, 16, 16);
    RowBytesBelow(f.ls, 64, 64);
    RowBytesBelow(f.lm, 64, 64);
    b := P.Q4Block(FlatBytes(fields.rows, 32), RowBytes(fields.ls), RowBytes(fields.lm), bytes(fields.d),
                   bytes(fields.m));
  }

  // ---------- Q6_K ----------

  // A signed byte as it is stored.
  function SignedByte(x: int): P.Byte
    requires -128 <= x <= 127
  {
    ToByte(if x < 0 then x + 256 else x)
  }

  // The stored scale of a group: the scale of the largest magnitude becomes -128.
  lemma SubScaleInRange(sub: real, max: real, iscale: real)
    requires max != 0.0 && Abs(sub) <= Abs(max) && iscale == -128.0 / max
    ensures -128 <= StoredScale(sub, iscale) <= 127
  {
    ScaledWithin(sub, max, iscale);
    hide NearestInt, Times, Abs;
    NearestMonotone(-128.0, Times(iscale, sub));
    WholeNearest(-128);
  }

  lemma ScaledWithin(sub: real, max: real, iscale: real)
    requires max != 0.0 && Abs(sub) <= Abs(max) && iscale == -128.0 / max
    ensures -128.0 <= Times(iscale, sub) <= 128.0
  {
    LargestScaled(max, iscale);
    hide Times, Abs;
    AbsProduct(iscale, max);
    AbsProduct(iscale, sub);
    AbsNonNegative(iscale);
    ScaledOrder(Abs(iscale), Abs(sub), Abs(max));
    AbsWithin(Times(iscale, sub), 128.0);
  }

  lemma LargestScaled(max: real, iscale: real)
    requires max != 0.0 && iscale == -128.0 / max
    ensures Abs(Times(iscale, max)) == 128.0
  {
    assert iscale * max == -128.0;
    assert Times(iscale, max) == -128.0;
  }

  lemma AbsNonNegative(r: real)
    ensures Abs(r) >= 0.0
  {
  }

  lemma AbsWithin(r: real, bound: real)
    requires Abs(r) <= bound
    ensures -bound <= r <= bound
  {
  }

  // The stored scales of the groups; zeros when the largest one is zero for all practical purposes.
  function StoredScales(subScales: seq<real>, iscale: real, valid: bool): (scales: seq<int>)
    ensures |scales| == |subScales|
  {
    seq(|subScales|, g requires 0 <= g < |subScales| => if valid then StoredScale(subScales[g], iscale) else 0)
  }

  function StoredScale(sub: real, iscale: real): int {
    Min(127, NearestInt(Times(iscale, sub)))
  }

  lemma StoredScalesInRange(subScales: seq<real>, iscale: real, max: real, valid: bool)
    requires valid ==> max != 0.0 && iscale == -128.0 / max
    requires valid ==> forall g :: 0 <= g < |subScales| ==> Abs(subScales[g]) <= Abs(max)
    ensures LevelRow(StoredScales(subScales, iscale, valid), |subScales|, -128, 127)
  {
    hide StoredScale;
    if valid {
      forall g | 0 <= g < |subScales|
        ensures -128 <= StoredScale(subScales[g], iscale) <= 127
      {
        SubScaleInRange(subScales[g], max, iscale);
      }
    }
  }

  // One group: its levels, counted from -32, rounded again for the stored step.
  function SignedRow(x: seq<real>, d: real, first: seq<int>): (row: seq<int>)
    requires |first| == |x|
    ensures |row| == |x|
  {
    seq(|x|, k requires 0 <= k < |x| => Requantised(x[k], 0.0, d, first[k] - 32, -32, 31) + 32)
  }

  ghost predicate ClosestSigned(x: seq<real>, d: real, row: seq<int>) {
    |row| == |x| && (d != 0.0 ==> forall k :: 0 <= k < |x| ==> Closest(x[k], 0.0, d, row[k] - 32, -32, 31))
  }

  lemma SignedRowGood(x: seq<real>, d: real, first: seq<int>)
    requires LevelRow(first, |x|, 0, 63)
    ensures LevelRow(SignedRow(x, d, first), |x|, 0, 63) && ClosestSigned(x, d, SignedRow(x, d, first))
  {
    hide NearestInt, Closest;
    if d != 0.0 {
      forall k | 0 <= k < |x|
        ensures Closest(x[k], 0.0, d, SignedRow(x, d, first)[k] - 32, -32, 31)
      {
        RequantisedClosest(x[k], 0.0, d, first[k] - 32, -32, 31);
      }
    }
  }

  // The fields of a Q6_K block: every level closest for the stored step of its group.
  datatype SixFields = SixFields(d: real, scales: seq<int>, rows: seq<seq<int>>)

  ghost predicate GoodSix(f: SixFields, groups: seq<seq<real>>, n: nat, width: nat) {
    && Grid(groups, n, width) && LevelRow(f.scales, n, -128, 127) && Levels(f.rows, n, width, 0, 63)
    && forall g :: 0 <= g < n ==> ClosestSigned(groups[g], Step(f.d, f.scales[g]), f.rows[g])
  }

  method FitSigned(groups: seq<seq<real>>, n: nat, width: nat) returns (subScales: seq<real>, levels: seq<seq<int>>)
    requires Grid(groups, n, width) && width > 0
    ensures |subScales| == n && Levels(levels, n, width, 0, 63)
    ensures forall g :: 0 <= g < n ==> Qx.Quantised(groups[g], 32, subScales[g], levels[g])
  {
    hide LevelRow, Qx.Quantised;
    subScales, levels := [], [];
    for g := 0 to n
      invariant |subScales| == |levels| == g && forall k :: 0 <= k < g ==> LevelRow(levels[k], width, 0, 63)
      invariant forall k :: 0 <= k < g ==> Qx.Quantised(groups[k], 32, subScales[k], levels[k])
    {
      var s, row := Qx.MakeQxQuants(groups[g], 32);
      SixBitRow(groups[g], s, row);
      subScales, levels := subScales + [s], levels + [row];
    }
  }

  lemma SixBitRow(x: seq<real>, scale: real, row: seq<int>)
    requires Qx.Quantised(x, 32, scale, row)
    ensures LevelRow(row, |x|, 0, 63)
  {
  }

  // Where those fields come from: the fits of the groups, whose largest scale sets the step.
  ghost predicate TracedSix(f: SixFields, subScales: seq<real>, levels: seq<seq<int>>, groups: seq<seq<real>>, n: nat,
                            width: nat, stored: real -> real) {
    && Grid(groups, n, width) && |subScales| == n > 0 && Levels(levels, n, width, 0, 63) && |f.scales| == |f.rows| == n
    && (forall g :: 0 <= g < n ==> Qx.Quantised(groups[g], 32, subScales[g], levels[g]))
    && var max := subScales[Qx.ArgMaxAbs(subScales)];
       var valid := Abs(max) >= TINY;
       && f.d == stored(if valid then 1.0 / (-128.0 / max) else 0.0)
       && f.scales == StoredScales(subScales, if valid then -128.0 / max else 0.0, valid)
       && forall g :: 0 <= g < n ==> SignedFrom(f.rows[g], groups[g], Step(f.d, f.scales[g]), levels[g])
  }

  ghost predicate SignedFrom(row: seq<int>, x: seq<real>, d: real, first: seq<int>) {
    |first| == |x| && row == SignedRow(x, d, first)
  }

  method QuantizeSixFields(groups: seq<seq<real>>, n: nat, width: nat, stored: real -> real)
    returns (f: SixFields, ghost subScales: seq<real>, ghost levels: seq<seq<int>>)
    requires Grid(groups, n, width) && n > 0 && width > 0
    ensures GoodSix(f, groups, n, width) && TracedSix(f, subScales, levels, groups, n, width, stored)
  {
    hide LevelRow, SignedRow, ClosestSigned, Step, Qx.Quantised, StoredScale;
    var subs, fits := FitSigned(groups, n, width);
    subScales, levels := subs, fits;
    var maxScale := subs[Qx.ArgMaxAbs(subs)];
    var valid := Abs(maxScale) >= TINY;
    var iscale := if valid then -128.0 / maxScale else 0.0;
    InverseStep(maxScale, iscale, valid);
    var d := stored(if valid then 1.0 / iscale else 0.0);
    var scales := StoredScales(subs, iscale, valid);
    StoredScalesInRange(subs, iscale, maxScale, valid);
    RowWidths(fits, n, width);
    forall g | 0 <= g < n
      ensures LevelRow(SignedRow(groups[g], Step(d, scales[g]), fits[g]), width, 0, 63)
      ensures ClosestSigned(groups[g], Step(d, scales[g]), SignedRow(groups[g], Step(d, scales[g]), fits[g]))
    {
      SignedRowGood(groups[g], Step(d, scales[g]), fits[g]);
    }
    f := SixFields(d, scales, seq(n, g requires 0 <= g < n => SignedRow(groups[g], Step(d, scales[g]), fits[g])));
  }

  lemma InverseStep(max: real, iscale: real, valid: bool)
    requires valid == (Abs(max) >= TINY) && iscale == if valid then -128.0 / max else 0.0
    ensures valid ==> max != 0.0 && iscale != 0.0
  {
    if valid {
      assert iscale * max == -128.0;
    }
  }

  lemma RowWidths(rows: seq<seq<int>>, n: nat, width: nat)
    requires Levels(rows, n, width, 0, 63)
    ensures forall g :: 0 <= g < n ==> |rows[g]| == width
  {
  }

  function SignedBytes(scales: seq<int>): (out: seq<P.Byte>)
    requires forall k :: 0 <= k < |scales| ==> -128 <= scales[k] <= 127
    ensures |out| == |scales|
  {
    seq(|scales|, k requires 0 <= k < |scales| => SignedByte(scales[k]))
  }

  ghost predicate Stored6(b: P.Q6Block, f: SixFields, bytes: real -> seq<P.Byte>) {
    && Levels(f.rows, 16, 16, 0, 63) && LevelRow(f.scales, 16, -128, 127)
    && b.levels == FlatBytes(f.rows, 16) && b.scales == SignedBytes(f.scales) && b.d == bytes(f.d)
  }

  method QuantizeQ6Block(groups: seq<seq<real>>, stored: real -> real, bytes: real -> seq<P.Byte>)
    returns (b: P.Q6Block, ghost f: SixFields, ghost subScales: seq<real>, ghost levels: seq<seq<int>>)
    requires Grid(groups, 16, 16) && forall r :: |bytes(r)| == 2
    ensures GoodSix(f, groups, 16, 16) && TracedSix(f, subScales, levels, groups, 16, 16, stored) && P.ValidQ6(b)
    ensures Stored6(b, f, bytes)
  {
    hide ClosestSigned, FlatBytes, SignedBytes, TracedSix;
    var fields;
    fields, subScales, levels := QuantizeSixFields(groups, 16, 16, stored);
    f := fields;
    FlatBytesBelow(f.rows, 16, 64, 64);
    b := P.Q6Block(FlatBytes(fields.rows, 16), SignedBytes(fields.scales), bytes(fields.d));
  }
}
