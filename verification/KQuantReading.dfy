/** ggml's readers for the packed blocks (ggml/src/ggml-quants.c:1342-1372, 1910-1934, 2320-2349), and what they make
    of a quantised block: at every position the step times the level, less the offset, of its group, and nothing
    that the level's field allows is closer to the value that went in. Reading a half-precision number is a
    parameter. */
module KQuantReading {
  import opened WeightedFit
  import opened BlockPacking
  import K = KQuantBlocks

  function Num(b: Byte): real {
    b as int as real
  }

  // A byte as a signed number.
  function Signed(b: Byte): int {
    var n := b as int;
    if n < 128 then n else n - 256
  }

  // A level under the scale and the offset of its group.
  function Value(scale: real, offset: real, level: real): real {
    Times(scale, level) - offset
  }

  // ---------- Q2_K ----------

  // Position `i` of a block.
  function Q2Value(b: Q2Block, half: seq<Byte> -> real, i: nat): real
    requires |b.levels| == QK_K && |b.ls| == |b.lm| == 16 && i < QK_K
  {
    Value(Times(half(b.d), Num(b.ls[i / 16])), Times(half(b.dmin), Num(b.lm[i / 16])), Num(b.levels[i]))
  }

  function Q2Read(out: seq<Byte>, half: seq<Byte> -> real, i: nat): real
    requires |out| == 84 && i < QK_K
  {
    Q2Value(UnpackQ2(out), half, i)
  }

  ghost predicate ReadQ2(y: seq<real>, out: seq<Byte>, half: seq<Byte> -> real, n: nat)
    requires |out| == 84 && n <= QK_K
  {
    |y| == n && forall i :: 0 <= i < n ==> y[i] == Q2Read(out, half, i)
  }

  method DequantizeQ2(out: seq<Byte>, half: seq<Byte> -> real) returns (y: seq<real>)
    requires |out| == 84
    ensures ReadQ2(y, out, half, QK_K)
  {
    hide Q2Read, Times, Num, LowNibble, HighNibble, TwoBits;
    var d, min := half(out[80..82]), half(out[82..84]);
    var qs := out[16..80];
    y := [];
    var at := 0;
    for h := 0 to 2
      invariant at == 8 * h && ReadQ2(y, out, half, 128 * h)
    {
      for j := 0 to 4
        invariant at == 8 * h + 2 * j && ReadQ2(y, out, half, 128 * h + 32 * j)
      {
        var sc := out[at];
        at := at + 1;
        var row := SixteenOfQ2(qs, 32 * h, j, Times(d, Num(LowNibble(sc))), Times(min, Num(HighNibble(sc))));
        Q2RunRead(out, half, h, j, 0, row);
        y := y + row;
        sc := out[at];
        at := at + 1;
        row := SixteenOfQ2(qs, 32 * h + 16, j, Times(d, Num(LowNibble(sc))), Times(min, Num(HighNibble(sc))));
        Q2RunRead(out, half, h, j, 1, row);
        y := y + row;
      }
    }
  }

  ghost predicate SixteenLevels(row: seq<real>, qs: seq<Byte>, at: nat, j: nat, dl: real, ml: real)
    requires at + 16 <= |qs| && j < 4
  {
    |row| == 16 && forall l :: 0 <= l < 16 ==> row[l] == Value(dl, ml, Num(TwoBits(qs[at + l], j)))
  }

  method SixteenOfQ2(qs: seq<Byte>, at: nat, j: nat, dl: real, ml: real) returns (row: seq<real>)
    requires at + 16 <= |qs| && j < 4
    ensures SixteenLevels(row, qs, at, j, dl, ml)
  {
    hide TwoBits, Value, Num;
    row := [];
    for l := 0 to 16
      invariant |row| == l && forall k :: 0 <= k < l ==> row[k] == Value(dl, ml, Num(TwoBits(qs[at + k], j)))
    {
      row := row + [Value(dl, ml, Num(TwoBits(qs[at + l], j)))];
    }
  }

  // Where element `l` of run `p` of pair `j` in half `h` lies.
  lemma Q2RunPlace(h: nat, j: nat, p: nat, l: nat)
    requires h < 2 && j < 4 && p < 2 && l < 16
    ensures var i := 128 * h + 32 * j + 16 * p + l;
            i < QK_K && i / 16 == 8 * h + 2 * j + p && Q2Byte(i) == 32 * h + 16 * p + l && Q2Pair(i) == j
  {
    var r := 16 * p + l;
    Sixteenths(8 * h + 2 * j + p, l);
    Eighths(h, 32 * j + r);
    Halved(j, r);
    Halved(4 * h + j, r);
  }

  lemma Sixteenths(a: nat, l: nat)
    requires l < 16
    ensures (16 * a + l) / 16 == a && (16 * a + l) % 16 == l
  {
  }

  lemma Q2RunRead(out: seq<Byte>, half: seq<Byte> -> real, h: nat, j: nat, p: nat, row: seq<real>)
    requires |out| == 84 && h < 2 && j < 4 && p < 2
    requires var sc := out[8 * h + 2 * j + p];
             SixteenLevels(row, out[16..80], 32 * h + 16 * p, j, Times(half(out[80..82]), Num(LowNibble(sc))),
                           Times(half(out[82..84]), Num(HighNibble(sc))))
    ensures |row| == 16
    ensures forall l :: 0 <= l < 16 ==> row[l] == Q2Read(out, half, 128 * h + 32 * j + 16 * p + l)
  {
    hide TwoBits, LowNibble, HighNibble, Num, Times, Value, Q2Byte, Q2Pair;
    forall l | 0 <= l < 16
      ensures row[l] == Q2Read(out, half, 128 * h + 32 * j + 16 * p + l)
    {
      Q2RunPlace(h, j, p, l);
    }
  }

  // ---------- Q4_K ----------

  function Q4Value(b: Q4Block, half: seq<Byte> -> real, i: nat): real
    requires |b.levels| == QK_K && |b.ls| == |b.lm| == 8 && i < QK_K
  {
    Value(Times(half(b.d), Num(b.ls[i / 32])), Times(half(b.dmin), Num(b.lm[i / 32])), Num(b.levels[i]))
  }

  function Q4Read(out: seq<Byte>, half: seq<Byte> -> real, i: nat): real
    requires |out| == 144 && i < QK_K
  {
    Q4Value(UnpackQ4(out), half, i)
  }

  ghost predicate ReadQ4(y: seq<real>, out: seq<Byte>, half: seq<Byte> -> real, n: nat)
    requires |out| == 144 && n <= QK_K
  {
    |y| == n && forall i :: 0 <= i < n ==> y[i] == Q4Read(out, half, i)
  }

  method DequantizeQ4(out: seq<Byte>, half: seq<Byte> -> real) returns (y: seq<real>)
    requires |out| == 144
    ensures ReadQ4(y, out, half, QK_K)
  {
    hide Q4Read, Times, Num, LowNibble, HighNibble, ScaleAt, MinAt;
    var d, min := half(out[..2]), half(out[2..4]);
    var scales, qs := out[4..16], out[16..];
    y := [];
    for j := 0 to 4
      invariant ReadQ4(y, out, half, 64 * j)
    {
      var d1, m1 := Times(d, Num(ScaleAt(scales, 2 * j))), Times(min, Num(MinAt(scales, 2 * j)));
      var d2, m2 := Times(d, Num(ScaleAt(scales, 2 * j + 1))), Times(min, Num(MinAt(scales, 2 * j + 1)));
      var low := LowOfQ4(qs, 32 * j, d1, m1);
      var high := HighOfQ4(qs, 32 * j, d2, m2);
      Q4LowRead(out, half, j, low);
      Q4HighRead(out, half, j, high);
      y := y + low + high;
    }
  }

  ghost predicate LowLevels(row: seq<real>, qs: seq<Byte>, at: nat, d: real, m: real)
    requires at + 32 <= |qs|
  {
    |row| == 32 && forall l :: 0 <= l < 32 ==> row[l] == Value(d, m, Num(LowNibble(qs[at + l])))
  }

  ghost predicate HighLevels(row: seq<real>, qs: seq<Byte>, at: nat, d: real, m: real)
    requires at + 32 <= |qs|
  {
    |row| == 32 && forall l :: 0 <= l < 32 ==> row[l] == Value(d, m, Num(HighNibble(qs[at + l])))
  }

  method LowOfQ4(qs: seq<Byte>, at: nat, d: real, m: real) returns (row: seq<real>)
    requires at + 32 <= |qs|
    ensures LowLevels(row, qs, at, d, m)
  {
    hide LowNibble, Num, Value;
    row := [];
    for l := 0 to 32
      invariant |row| == l && forall k :: 0 <= k < l ==> row[k] == Value(d, m, Num(LowNibble(qs[at + k])))
    {
      row := row + [Value(d, m, Num(LowNibble(qs[at + l])))];
    }
  }

  method HighOfQ4(qs: seq<Byte>, at: nat, d: real, m: real) returns (row: seq<real>)
    requires at + 32 <= |qs|
    ensures HighLevels(row, qs, at, d, m)
  {
    hide HighNibble, Num, Value;
    row := [];
    for l := 0 to 32
      invariant |row| == l && forall k :: 0 <= k < l ==> row[k] == Value(d, m, Num(HighNibble(qs[at + k])))
    {
      row := row + [Value(d, m, Num(HighNibble(qs[at + l])))];
    }
  }

  lemma Q4LowRead(out: seq<Byte>, half: seq<Byte> -> real, j: nat, row: seq<real>)
    requires |out| == 144 && j < 4
    requires LowLevels(row, out[16..], 32 * j, Times(half(out[..2]), Num(ScaleAt(out[4..16], 2 * j))),
                       Times(half(out[2..4]), Num(MinAt(out[4..16], 2 * j))))
    ensures |row| == 32 && forall l :: 0 <= l < 32 ==> row[l] == Q4Read(out, half, 64 * j + l)
  {
    hide LowNibble, HighNibble, Num, Times, Value, Q4Byte, InHigh, ScaleAt, MinAt;
    forall l | 0 <= l < 32
      ensures row[l] == Q4Read(out, half, 64 * j + l)
    {
      Q4At(j, l);
      Halved(2 * j, l);
    }
  }

  lemma Q4HighRead(out: seq<Byte>, half: seq<Byte> -> real, j: nat, row: seq<real>)
    requires |out| == 144 && j < 4
    requires HighLevels(row, out[16..], 32 * j, Times(half(out[..2]), Num(ScaleAt(out[4..16], 2 * j + 1))),
                        Times(half(out[2..4]), Num(MinAt(out[4..16], 2 * j + 1))))
    ensures |row| == 32 && forall l :: 0 <= l < 32 ==> row[l] == Q4Read(out, half, 64 * j + 32 + l)
  {
    hide LowNibble, HighNibble, Num, Times, Value, Q4Byte, InHigh, ScaleAt, MinAt;
    forall l | 0 <= l < 32
      ensures row[l] == Q4Read(out, half, 64 * j + 32 + l)
    {
      Q4At(j, l);
      Halved(2 * j + 1, l);
    }
  }

  // ---------- Q6_K ----------

  function Q6Value(b: Q6Block, half: seq<Byte> -> real, i: nat): real
    requires |b.levels| == QK_K && |b.scales| == 16 && i < QK_K
  {
    Value(Times(half(b.d), Signed(b.scales[i / 16]) as real), 0.0, (b.levels[i] as int - 32) as real)
  }

  function Q6Read(out: seq<Byte>, half: seq<Byte> -> real, i: nat): real
    requires |out| == 210 && i < QK_K
  {
    Q6Value(UnpackQ6(out), half, i)
  }

  // What is written before column `l` of half `h`.
  predicate Before(i: nat, h: nat, l: nat) {
    i / 128 < h || (i / 128 == h && i % 32 < l)
  }

  ghost predicate ReadQ6(y: seq<real>, out: seq<Byte>, half: seq<Byte> -> real, h: nat, l: nat)
    requires |out| == 210
  {
    |y| == QK_K && forall i :: 0 <= i < QK_K && Before(i, h, l) ==> y[i] == Q6Read(out, half, i)
  }

  // The four values of a column are written 32 apart.
  method DequantizeQ6(out: seq<Byte>, half: seq<Byte> -> real, y: array<real>)
    requires |out| == 210 && y.Length == QK_K
    modifies y
    ensures forall i :: 0 <= i < QK_K ==> y[i] == Q6Read(out, half, i)
  {
    hide Q6Read, Before, Q6Index;
    NoneBefore();
    for h := 0 to 2
      invariant ReadQ6(y[..], out, half, h, 0)
    {
      for l := 0 to 32
        invariant ReadQ6(y[..], out, half, h, l)
      {
        ghost var was := y[..];
        var v0 := OneOfQ6(out, half, h, 0, l);
        var v1 := OneOfQ6(out, half, h, 1, l);
        var v2 := OneOfQ6(out, half, h, 2, l);
        var v3 := OneOfQ6(out, half, h, 3, l);
        ColumnPlaces(h, l);
        y[128 * h + l], y[128 * h + l + 32], y[128 * h + l + 64], y[128 * h + l + 96] := v0, v1, v2, v3;
        ColumnRead(was, y[..], out, half, h, l);
      }
      HalfBefore(h);
    }
    AllBefore();
  }

  lemma NoneBefore()
    ensures forall i: nat :: !Before(i, 0, 0)
  {
  }

  lemma HalfBefore(h: nat)
    ensures forall i: nat :: Before(i, h + 1, 0) ==> Before(i, h, 32)
  {
  }

  lemma AllBefore()
    ensures forall i :: 0 <= i < QK_K ==> Before(i, 2, 0)
  {
  }

  lemma ColumnPlaces(h: nat, l: nat)
    requires h < 2 && l < 32
    ensures Q6Index(h, 0, l) == 128 * h + l && Q6Index(h, 1, l) == 128 * h + l + 32
    ensures Q6Index(h, 2, l) == 128 * h + l + 64 && Q6Index(h, 3, l) == 128 * h + l + 96
  {
  }

  // A position is in the column, or was written before it, or will be.
  lemma NextColumn(i: nat, h: nat, l: nat)
    requires h < 2 && l < 32 && i < QK_K && Before(i, h, l + 1) && !Before(i, h, l)
    ensures i == 128 * h + l || i == 128 * h + l + 32 || i == 128 * h + l + 64 || i == 128 * h + l + 96
  {
    var r := i % 128;
    assert i == 128 * h + r && r == 32 * (r / 32) + r % 32;
    Halved(4 * h + r / 32, r % 32);
  }

  lemma ColumnRead(was: seq<real>, y: seq<real>, out: seq<Byte>, half: seq<Byte> -> real, h: nat, l: nat)
    requires |out| == 210 && h < 2 && l < 32 && ReadQ6(was, out, half, h, l) && |y| == QK_K
    requires var at := 128 * h + l;
             && y == was[at := y[at]][at + 32 := y[at + 32]][at + 64 := y[at + 64]][at + 96 := y[at + 96]]
             && y[at] == Q6Read(out, half, at) && y[at + 32] == Q6Read(out, half, at + 32)
             && y[at + 64] == Q6Read(out, half, at + 64) && y[at + 96] == Q6Read(out, half, at + 96)
    ensures ReadQ6(y, out, half, h, l + 1)
  {
    hide Q6Read, Before;
    forall i | 0 <= i < QK_K && Before(i, h, l + 1)
      ensures y[i] == Q6Read(out, half, i)
    {
      if !Before(i, h, l) {
        NextColumn(i, h, l);
      }
    }
  }

  // One value: six bits from two bytes, less 32, times the scale of its sixteen.
  method OneOfQ6(out: seq<Byte>, half: seq<Byte> -> real, h: nat, quarter: nat, l: nat) returns (v: real)
    requires |out| == 210 && h < 2 && quarter < 4 && l < 32
    ensures v == Q6Read(out, half, Q6Index(h, quarter, l))
  {
    hide Q6LevelAt, Signed, Times, Value, Q6Index;
    var d := half(out[208..210]);
    var ql, qh, scales := out[..128], out[128..192], out[192..208];
    var s := 8 * h + l / 16 + 2 * quarter;
    var q := Q6LevelAt(ql, qh, h, quarter, l) as int - 32;
    v := Value(Times(d, Signed(scales[s]) as real), 0.0, q as real);
    Q6ScalePlace(h, quarter, l);
    Q6IndexParts(h, quarter, l);
  }

  lemma Q6ScalePlace(h: nat, quarter: nat, l: nat)
    requires h < 2 && quarter < 4 && l < 32
    ensures Q6Index(h, quarter, l) / 16 == 8 * h + l / 16 + 2 * quarter
  {
    Sixteenths(8 * h + 2 * quarter + l / 16, l % 16);
  }

  // ---------- Quantised blocks read back ----------

  // `y` is `level` decoded, and no level of the field comes closer to `x`.
  ghost predicate DecodedBest(y: real, x: real, d: real, m: real, level: int, lo: int, hi: int) {
    && y == Value(d, m, level as real)
    && (d != 0.0 ==> lo <= level <= hi && forall l: int :: lo <= l <= hi ==> Abs(y - x) <= K.Off(x, m, d, l))
  }

  // The value at position `i` is that of the group's level under the group's step and offset, and the best one.
  ghost predicate BestAt(y: real, f: K.Fields, groups: seq<seq<real>>, width: nat, hi: int, i: nat) {
    && width > 0 && i / width < |groups| == |f.ls| == |f.lm| == |f.rows|
    && var g, k := i / width, i % width;
       && k < |groups[g]| == |f.rows[g]|
       && DecodedBest(y, groups[g][k], K.Step(f.d, f.ls[g]), K.Step(f.m, f.lm[g]), f.rows[g][k], 0, hi)
  }

  // The same for signed levels without an offset.
  ghost predicate SignedAt(y: real, f: K.SixFields, groups: seq<seq<real>>, i: nat) {
    && i / 16 < |groups| == |f.scales| == |f.rows|
    && var g, k := i / 16, i % 16;
       && k < |groups[g]| == |f.rows[g]|
       && DecodedBest(y, groups[g][k], K.Step(f.d, f.scales[g]), 0.0, f.rows[g][k] - 32, -32, 31)
  }

  lemma BestIs(x: real, d: real, m: real, level: int, lo: int, hi: int)
    requires d != 0.0 ==> K.Closest(x, m, d, level, lo, hi)
    ensures DecodedBest(Value(d, m, level as real), x, d, m, level, lo, hi)
  {
    assert K.Off(x, m, d, level) == Abs(Value(d, m, level as real) - x);
    hide K.Off, Value;
  }

  // The value at position `i` of a quantised Q2_K block, in group `i / 16`.
  lemma Q2Decoded(b: Q2Block, f: K.Fields, groups: seq<seq<real>>, bytes: real -> seq<Byte>, half: seq<Byte> -> real,
                  i: nat)
    requires K.GoodFields(f, groups, 16, 16, 3, 15) && ValidQ2(b) && K.Stored2(b, f, bytes) && i < QK_K
    requires half(bytes(f.d)) == f.d && half(bytes(f.m)) == f.m
    ensures BestAt(Q2Value(b, half, i), f, groups, 16, 3, i)
  {
    hide K.ClosestRow, K.FlatBytes, K.RowBytes, K.Step, Value, Q2Value, DecodedBest;
    hide ValidQ2, K.LevelRow, K.Stored2;
    var g, k := i / 16, i % 16;
    FieldBytes2(b, f, bytes, i);
    Q2ValueIs(b, half, i, f, f.rows[g][k]);
    RowBest(groups[g], K.Step(f.d, f.ls[g]), K.Step(f.m, f.lm[g]), f.rows[g], 3, k);
  }

  lemma StoredIs(f: K.Fields, o: K.Origin, groups: seq<seq<real>>, weights: seq<seq<real>>, n: nat, width: nat,
                 hi: int, scaleMax: nat, stored: real -> real)
    requires K.Traced(f, o, groups, weights, n, width, hi, scaleMax, stored)
    ensures f.d == stored(o.d) && f.m == stored(o.m)
  {
    hide K.Grid, K.Levels, K.Fitted, K.GroupWeights, K.RequantisedRows;
  }

  lemma SixStoredIs(f: K.SixFields, subScales: seq<real>, levels: seq<seq<int>>, groups: seq<seq<real>>,
                    stored: real -> real)
    requires K.TracedSix(f, subScales, levels, groups, 16, 16, stored)
    ensures exists r :: f.d == stored(r)
  {
    hide K.Grid, K.Levels, K.StoredScales, K.SignedFrom;
  }

  lemma RowBest(x: seq<real>, d: real, m: real, row: seq<int>, hi: int, k: nat)
    requires K.ClosestRow(x, d, m, row, hi) && k < |x|
    ensures DecodedBest(Value(d, m, row[k] as real), x[k], d, m, row[k], 0, hi)
  {
    hide K.Closest, Value, DecodedBest;
    BestIs(x[k], d, m, row[k], 0, hi);
  }

  lemma StepIs(d: real, l: int)
    ensures Times(d, l as real) == K.Step(d, l)
  {
  }

  lemma Q2ValueIs(b: Q2Block, half: seq<Byte> -> real, i: nat, f: K.Fields, level: int)
    requires |b.levels| == QK_K && i < QK_K && |b.ls| == |b.lm| == |f.ls| == |f.lm| == 16
    requires half(b.d) == f.d && half(b.dmin) == f.m
    requires Num(b.levels[i]) == level as real
    requires Num(b.ls[i / 16]) == f.ls[i / 16] as real && Num(b.lm[i / 16]) == f.lm[i / 16] as real
    ensures var g := i / 16;
            Q2Value(b, half, i) == Value(K.Step(f.d, f.ls[g]), K.Step(f.m, f.lm[g]), level as real)
  {
    hide Value, Num, Times, K.Step;
    StepIs(f.d, f.ls[i / 16]);
    StepIs(f.m, f.lm[i / 16]);
  }

  // The bytes of a block as the numbers they were made from.
  lemma FieldBytes2(b: Q2Block, f: K.Fields, bytes: real -> seq<Byte>, i: nat)
    requires K.Stored2(b, f, bytes) && ValidQ2(b) && i < QK_K
    ensures var g, k := i / 16, i % 16;
            && |b.levels| == QK_K && b.d == bytes(f.d) && b.dmin == bytes(f.m)
            && g < 16 == |f.ls| == |f.lm| == |f.rows| == |b.ls| == |b.lm| && |f.rows[g]| == 16
            && Num(b.levels[i]) == f.rows[g][k] as real && Num(b.ls[g]) == f.ls[g] as real
            && Num(b.lm[g]) == f.lm[g] as real
  {
    hide K.ToByte, Num;
    K.RowOf(i, 16, 16);
    assert K.LevelRow(f.rows[i / 16], 16, 0, 3);
    ByteNumber(f.rows[i / 16][i % 16]);
    ByteNumber(f.ls[i / 16]);
    ByteNumber(f.lm[i / 16]);
  }

  lemma ByteInteger(x: int)
    requires 0 <= x < 256
    ensures K.ToByte(x) as int == x
  {
    assert x % 256 == x;
  }

  lemma ByteNumber(x: int)
    requires 0 <= x < 256
    ensures Num(K.ToByte(x)) == x as real
  {
    hide K.ToByte;
    ByteInteger(x);
  }

  // From values to the values that are read back.
  method QuantizeAndReadQ2(groups: seq<seq<real>>, weights: seq<seq<real>>, stored: real -> real,
                            bytes: real -> seq<Byte>, half: seq<Byte> -> real)
    returns (y: seq<real>, ghost f: K.Fields)
    requires K.Grid(groups, 16, 16) && K.Grid(weights, 16, 16)
    requires forall g :: 0 <= g < 16 ==> NonNegative(weights[g])
    requires forall r :: |bytes(r)| == 2 && half(bytes(stored(r))) == stored(r)
    ensures K.GoodFields(f, groups, 16, 16, 3, 15)
    ensures |y| == QK_K && forall i :: 0 <= i < QK_K ==> BestAt(y[i], f, groups, 16, 3, i)
  {
    hide UnpackQ2, PackQ2, Q2Value, BestAt, K.Stored2, K.GoodFields, K.Grid, ValidQ2;
    var b;
    ghost var o;
    b, f, o := K.QuantizeQ2Block(groups, weights, stored, bytes);
    StoredIs(f, o, groups, weights, 16, 16, 3, 15, stored);
    Q2RoundTrip(b);
    y := DequantizeQ2(PackQ2(b), half);
    forall i | 0 <= i < QK_K
      ensures BestAt(y[i], f, groups, 16, 3, i)
    {
      Q2Decoded(b, f, groups, bytes, half, i);
    }
  }

  // The value at position `i` of a quantised Q4_K block, in group `i / 32`.
  lemma Q4Decoded(b: Q4Block, f: K.Fields, groups: seq<seq<real>>, bytes: real -> seq<Byte>, half: seq<Byte> -> real,
                  i: nat)
    requires K.GoodFields(f, groups, 8, 32, 15, 63) && ValidQ4(b) && K.Stored4(b, f, bytes) && i < QK_K
    requires half(bytes(f.d)) == f.d && half(bytes(f.m)) == f.m
    ensures BestAt(Q4Value(b, half, i), f, groups, 32, 15, i)
  {
    hide K.ClosestRow, K.FlatBytes, K.RowBytes, K.Step, Value, Q4Value, DecodedBest;
    hide ValidQ4, K.LevelRow, K.Stored4;
    var g, k := i / 32, i % 32;
    FieldBytes4(b, f, bytes, i);
    Q4ValueIs(b, half, i, f, f.rows[g][k]);
    RowBest(groups[g], K.Step(f.d, f.ls[g]), K.Step(f.m, f.lm[g]), f.rows[g], 15, k);
  }

  lemma Q4ValueIs(b: Q4Block, half: seq<Byte> -> real, i: nat, f: K.Fields, level: int)
    requires |b.levels| == QK_K && i < QK_K && |b.ls| == |b.lm| == |f.ls| == |f.lm| == 8
    requires half(b.d) == f.d && half(b.dmin) == f.m
    requires Num(b.levels[i]) == level as real
    requires Num(b.ls[i / 32]) == f.ls[i / 32] as real && Num(b.lm[i / 32]) == f.lm[i / 32] as real
    ensures var g := i / 32;
            Q4Value(b, half, i) == Value(K.Step(f.d, f.ls[g]), K.Step(f.m, f.lm[g]), level as real)
  {
    hide Value, Num, Times, K.Step;
    StepIs(f.d, f.ls[i / 32]);
    StepIs(f.m, f.lm[i / 32]);
  }

  lemma FieldBytes4(b: Q4Block, f: K.Fields, bytes: real -> seq<Byte>, i: nat)
    requires K.Stored4(b, f, bytes) && ValidQ4(b) && i < QK_K
    ensures var g, k := i / 32, i % 32;
            && |b.levels| == QK_K && b.d == bytes(f.d) && b.dmin == bytes(f.m)
            && g < 8 == |f.ls| == |f.lm| == |f.rows| == |b.ls| == |b.lm| && |f.rows[g]| == 32
            && Num(b.levels[i]) == f.rows[g][k] as real && Num(b.ls[g]) == f.ls[g] as real
            && Num(b.lm[g]) == f.lm[g] as real
  {
    hide K.ToByte, Num;
    K.RowOf(i, 8, 32);
    assert K.LevelRow(f.rows[i / 32], 32, 0, 15);
    ByteNumber(f.rows[i / 32][i % 32]);
    ByteNumber(f.ls[i / 32]);
    ByteNumber(f.lm[i / 32]);
  }

  // From values to the values that are read back.
  method QuantizeAndReadQ4(groups: seq<seq<real>>, weights: seq<seq<real>>, stored: real -> real,
                            bytes: real -> seq<Byte>, half: seq<Byte> -> real)
    returns (y: seq<real>, ghost f: K.Fields)
    requires K.Grid(groups, 8, 32) && K.Grid(weights, 8, 32)
    requires forall g :: 0 <= g < 8 ==> NonNegative(weights[g])
    requires forall r :: |bytes(r)| == 2 && half(bytes(stored(r))) == stored(r)
    ensures K.GoodFields(f, groups, 8, 32, 15, 63)
    ensures |y| == QK_K && forall i :: 0 <= i < QK_K ==> BestAt(y[i], f, groups, 32, 15, i)
  {
    hide UnpackQ4, PackQ4, Q4Value, BestAt, K.Stored4, K.GoodFields, K.Grid, ValidQ4;
    var b;
    ghost var o;
    b, f, o := K.QuantizeQ4Block(groups, weights, stored, bytes);
    StoredIs(f, o, groups, weights, 8, 32, 15, 63, stored);
    Q4RoundTrip(b);
    y := DequantizeQ4(PackQ4(b), half);
    forall i | 0 <= i < QK_K
      ensures BestAt(y[i], f, groups, 32, 15, i)
    {
      Q4Decoded(b, f, groups, bytes, half, i);
    }
  }

  // The value at position `i` of a quantised Q6_K block, in group `i / 16`: levels count from -32, with no offset.
  lemma Q6Decoded(b: Q6Block, f: K.SixFields, groups: seq<seq<real>>, bytes: real -> seq<Byte>,
                  half: seq<Byte> -> real, i: nat)
    requires K.GoodSix(f, groups, 16, 16) && ValidQ6(b) && K.Stored6(b, f, bytes) && i < QK_K
    requires half(bytes(f.d)) == f.d
    ensures SignedAt(Q6Value(b, half, i), f, groups, i)
  {
    hide K.ClosestSigned, K.FlatBytes, K.SignedBytes, K.Step, Value, Q6Value, DecodedBest, Signed;
    hide ValidQ6, K.LevelRow, K.Stored6;
    var g, k := i / 16, i % 16;
    FieldBytes6(b, f, bytes, i);
    Q6ValueIs(b, half, i, f.d, f.scales[g], f.rows[g][k]);
    SignedBest(groups[g], f.d, f.scales[g], f.rows[g], k);
  }

  lemma Q6ValueIs(b: Q6Block, half: seq<Byte> -> real, i: nat, d: real, scale: int, level: int)
    requires |b.levels| == QK_K && |b.scales| == 16 && i < QK_K && half(b.d) == d
    requires Signed(b.scales[i / 16]) == scale && b.levels[i] as int == level
    ensures Q6Value(b, half, i) == Value(K.Step(d, scale), 0.0, (level - 32) as real)
  {
    hide Value, Signed, Times, K.Step;
    StepIs(d, scale);
  }

  lemma SignedBest(x: seq<real>, d: real, scale: int, row: seq<int>, k: nat)
    requires K.ClosestSigned(x, K.Step(d, scale), row) && k < |x|
    ensures DecodedBest(Value(K.Step(d, scale), 0.0, (row[k] - 32) as real), x[k], K.Step(d, scale), 0.0, row[k] - 32,
                        -32, 31)
  {
    hide K.Step, K.Closest, Value, DecodedBest;
    BestIs(x[k], K.Step(d, scale), 0.0, row[k] - 32, -32, 31);
  }

  lemma FieldBytes6(b: Q6Block, f: K.SixFields, bytes: real -> seq<Byte>, i: nat)
    requires K.Stored6(b, f, bytes) && ValidQ6(b) && i < QK_K
    ensures var g, k := i / 16, i % 16;
            && |b.levels| == QK_K && b.d == bytes(f.d)
            && g < 16 == |f.scales| == |f.rows| == |b.scales| && |f.rows[g]| == 16
            && b.levels[i] as int == f.rows[g][k] && Signed(b.scales[g]) == f.scales[g]
  {
    hide K.ToByte, Signed, K.SignedByte;
    K.RowOf(i, 16, 16);
    assert K.LevelRow(f.rows[i / 16], 16, 0, 63);
    ByteInteger(f.rows[i / 16][i % 16]);
    SignedInteger(f.scales[i / 16]);
  }

  lemma SignedInteger(x: int)
    requires -128 <= x <= 127
    ensures Signed(K.SignedByte(x)) == x
  {
    hide K.ToByte;
    ByteInteger(if x < 0 then x + 256 else x);
  }

  method QuantizeAndReadQ6(groups: seq<seq<real>>, stored: real -> real, bytes: real -> seq<Byte>,
                            half: seq<Byte> -> real, y: array<real>)
    returns (ghost f: K.SixFields)
    requires K.Grid(groups, 16, 16) && y.Length == QK_K
    requires forall r :: |bytes(r)| == 2 && half(bytes(stored(r))) == stored(r)
    modifies y
    ensures K.GoodSix(f, groups, 16, 16)
    ensures forall i :: 0 <= i < QK_K ==> SignedAt(y[i], f, groups, i)
  {
    hide UnpackQ6, PackQ6, Q6Value, SignedAt, K.Stored6, K.GoodSix, K.Grid, ValidQ6;
    var b;
    ghost var subScales, levels;
    b, f, subScales, levels := K.QuantizeQ6Block(groups, stored, bytes);
    SixStoredIs(f, subScales, levels, groups, stored);
    Q6RoundTrip(b);
    DequantizeQ6(PackQ6(b), half, y);
    forall i | 0 <= i < QK_K
      ensures SignedAt(y[i], f, groups, i)
    {
      Q6Decoded(b, f, groups, bytes, half, i);
    }
  }
}
