/** The byte layouts of the K-quant blocks (convert_escha_to_gguf.py:253-428), with the readers that
    ggml uses for them (ggml/src/ggml-quants.c:1261-1268, 1342-1372, 1910-1932, 2320-2349): for each
    layout, writing and reading are inverse to each other in both directions. */
module BlockPacking {

  type Byte = bv8

  const QK_K := 256

  ghost predicate AllBelow(s: seq<Byte>, n: Byte) {
    forall i :: 0 <= i < |s| ==> s[i] < n
  }

  // ---------- Q2_K: 16 scale bytes, 64 level bytes, two halves ----------

  datatype Q2Block = Q2Block(levels: seq<Byte>, ls: seq<Byte>, lm: seq<Byte>, d: seq<Byte>, dmin: seq<Byte>)

  ghost predicate ValidQ2(b: Q2Block) {
    && |b.levels| == QK_K && |b.ls| == |b.lm| == 16 && |b.d| == |b.dmin| == 2
    && AllBelow(b.levels, 4) && AllBelow(b.ls, 16) && AllBelow(b.lm, 16)
  }

  function FourLevels(a: Byte, b: Byte, c: Byte, d: Byte): Byte {
    a | (b << 2) | (c << 4) | (d << 6)
  }

  function TwoBits(q: Byte, j: nat): Byte
    requires j < 4
  {
    if j == 0 then q & 3 else if j == 1 then (q >> 2) & 3 else if j == 2 then (q >> 4) & 3 else (q >> 6) & 3
  }

  function Nibbles(low: Byte, high: Byte): Byte {
    low | (high << 4)
  }

  function LowNibble(q: Byte): Byte {
    q & 0xF
  }

  function HighNibble(q: Byte): Byte {
    q >> 4
  }

  // Byte `k` of the levels holds four of them, 32 apart, from one half of the block.
  function Q2LevelByte(levels: seq<Byte>, k: nat): Byte
    requires |levels| == QK_K && k < 64
  {
    var base := Q2Base(k);
    FourLevels(levels[base], levels[base + 32], levels[base + 64], levels[base + 96])
  }

  function Q2Base(k: nat): (base: nat)
    requires k < 64
    ensures base + 96 < QK_K
  {
    k / 32 * 128 + k % 32
  }

  // Where ggml's reader looks for level `i`: the byte, and the pair of bits in it.
  function Q2Byte(i: nat): (k: nat)
    requires i < QK_K
    ensures k < 64
  {
    i / 128 * 32 + i % 32
  }

  function Q2Pair(i: nat): (j: nat)
    requires i < QK_K
    ensures j < 4
  {
    i % 128 / 32
  }

  lemma Halved(a: nat, l: nat)
    requires l < 32
    ensures (a * 32 + l) / 32 == a && (a * 32 + l) % 32 == l
  {
  }

  lemma Q2Places(i: nat)
    requires i < QK_K
    ensures Q2Base(Q2Byte(i)) + 32 * Q2Pair(i) == i
  {
    var h, j, l := i / 128, i % 128 / 32, i % 128 % 32;
    assert i == h * 128 + j * 32 + l;
    Halved(4 * h + j, l);
    Halved(h, l);
  }

  lemma Q2PlacesBack(k: nat, j: nat)
    requires k < 64 && j < 4
    ensures var i := Q2Base(k) + 32 * j; i < QK_K && Q2Byte(i) == k && Q2Pair(i) == j
  {
  }

  function PackQ2(b: Q2Block): (out: seq<Byte>)
    requires ValidQ2(b)
    ensures |out| == 84
  {
    seq(16, g requires 0 <= g < 16 => Nibbles(b.ls[g], b.lm[g]))
    + seq(64, k requires 0 <= k < 64 => Q2LevelByte(b.levels, k))
    + b.d + b.dmin
  }

  // The level that ggml's reader takes for position `i`.
  function Q2LevelAt(qs: seq<Byte>, i: nat): Byte
    requires |qs| == 64 && i < QK_K
  {
    TwoBits(qs[Q2Byte(i)], Q2Pair(i))
  }

  function UnpackQ2(out: seq<Byte>): Q2Block
    requires |out| == 84
  {
    var scales, qs := out[..16], out[16..80];
    Q2Block(seq(QK_K, i requires 0 <= i < QK_K => Q2LevelAt(qs, i)),
            seq(16, g requires 0 <= g < 16 => LowNibble(scales[g])),
            seq(16, g requires 0 <= g < 16 => HighNibble(scales[g])),
            out[80..82], out[82..84])
  }

  lemma FourLevelsBits(a: Byte, b: Byte, c: Byte, d: Byte)
    requires a < 4 && b < 4 && c < 4 && d < 4
    ensures var q := FourLevels(a, b, c, d);
            TwoBits(q, 0) == a && TwoBits(q, 1) == b && TwoBits(q, 2) == c && TwoBits(q, 3) == d
  {
  }

  lemma BitsFourLevels(q: Byte)
    ensures FourLevels(TwoBits(q, 0), TwoBits(q, 1), TwoBits(q, 2), TwoBits(q, 3)) == q
    ensures TwoBits(q, 0) < 4 && TwoBits(q, 1) < 4 && TwoBits(q, 2) < 4 && TwoBits(q, 3) < 4
  {
  }

  lemma NibblesBits(low: Byte, high: Byte)
    requires low < 16 && high < 16
    ensures LowNibble(Nibbles(low, high)) == low && HighNibble(Nibbles(low, high)) == high
  {
  }

  lemma BitsNibbles(q: Byte)
    ensures Nibbles(LowNibble(q), HighNibble(q)) == q && LowNibble(q) < 16 && HighNibble(q) < 16
  {
  }

  lemma Q2LevelRead(levels: seq<Byte>, qs: seq<Byte>, i: nat)
    requires |levels| == QK_K && AllBelow(levels, 4) && |qs| == 64 && i < QK_K
    requires forall k :: 0 <= k < 64 ==> qs[k] == Q2LevelByte(levels, k)
    ensures Q2LevelAt(qs, i) == levels[i]
  {
    hide TwoBits, FourLevels, Q2Base, Q2Byte, Q2Pair;
    Q2Places(i);
    var base := Q2Base(Q2Byte(i));
    FourLevelsBits(levels[base], levels[base + 32], levels[base + 64], levels[base + 96]);
  }

  lemma Q2LevelWritten(levels: seq<Byte>, qs: seq<Byte>, k: nat)
    requires |levels| == QK_K && |qs| == 64 && k < 64
    requires forall i :: 0 <= i < QK_K ==> levels[i] == Q2LevelAt(qs, i)
    ensures Q2LevelByte(levels, k) == qs[k]
  {
    hide TwoBits, FourLevels, Q2Base, Q2Byte, Q2Pair;
    Q2PlacesBack(k, 0);
    Q2PlacesBack(k, 1);
    Q2PlacesBack(k, 2);
    Q2PlacesBack(k, 3);
    BitsFourLevels(qs[k]);
  }

  lemma Q2RoundTrip(b: Q2Block)
    requires ValidQ2(b)
    ensures UnpackQ2(PackQ2(b)) == b
  {
    hide TwoBits, FourLevels, Nibbles, LowNibble, HighNibble, Q2LevelByte, Q2LevelAt;
    var out := PackQ2(b);
    var scales, qs, r := out[..16], out[16..80], UnpackQ2(out);
    forall i | 0 <= i < QK_K
      ensures r.levels[i] == b.levels[i]
    {
      Q2LevelRead(b.levels, qs, i);
    }
    forall g | 0 <= g < 16
      ensures r.ls[g] == b.ls[g] && r.lm[g] == b.lm[g]
    {
      NibblesBits(b.ls[g], b.lm[g]);
    }
    assert r.d == b.d && r.dmin == b.dmin;
  }

  lemma Q2RoundTripBytes(out: seq<Byte>)
    requires |out| == 84
    ensures ValidQ2(UnpackQ2(out)) && PackQ2(UnpackQ2(out)) == out
  {
    hide TwoBits, FourLevels, Nibbles, LowNibble, HighNibble, Q2LevelByte, Q2LevelAt;
    var b := UnpackQ2(out);
    forall i | 0 <= i < QK_K
      ensures b.levels[i] < 4
    {
      Q2LevelSmall(out[16..80], i);
    }
    forall g | 0 <= g < 16
      ensures Nibbles(b.ls[g], b.lm[g]) == out[g] && b.ls[g] < 16 && b.lm[g] < 16
    {
      BitsNibbles(out[g]);
    }
    forall k | 0 <= k < 64
      ensures Q2LevelByte(b.levels, k) == out[16 + k]
    {
      Q2LevelWritten(b.levels, out[16..80], k);
    }
    assert PackQ2(b) == out;
  }

  lemma Q2LevelSmall(qs: seq<Byte>, i: nat)
    requires |qs| == 64 && i < QK_K
    ensures Q2LevelAt(qs, i) < 4
  {
    hide TwoBits;
    BitsFourLevels(qs[Q2Byte(i)]);
  }

  // ---------- Q4_K: two halves, 12 scale bytes, 128 level bytes ----------

  datatype Q4Block = Q4Block(levels: seq<Byte>, ls: seq<Byte>, lm: seq<Byte>, d: seq<Byte>, dmin: seq<Byte>)

  ghost predicate ValidQ4(b: Q4Block) {
    && |b.levels| == QK_K && |b.ls| == |b.lm| == 8 && |b.d| == |b.dmin| == 2
    && AllBelow(b.levels, 16) && AllBelow(b.ls, 64) && AllBelow(b.lm, 64)
  }

  // A six-bit number with the top two bits of another one.
  function WithTop(low: Byte, other: Byte): Byte {
    low | ((other >> 4) << 6)
  }

  function LowSix(q: Byte): Byte {
    q & 63
  }

  // A six-bit number from its low nibble and the byte that carries its top two bits.
  function FromParts(nibble: Byte, carrier: Byte): Byte {
    nibble | ((carrier >> 6) << 4)
  }

  function ScaleByte(ls: seq<Byte>, lm: seq<Byte>, k: nat): Byte
    requires |ls| == |lm| == 8 && k < 12
  {
    if k < 4 then WithTop(ls[k], ls[k + 4])
    else if k < 8 then WithTop(lm[k - 4], lm[k])
    else Nibbles(LowNibble(ls[k - 4]), LowNibble(lm[k - 4]))
  }

  function Q4LevelByte(levels: seq<Byte>, k: nat): Byte
    requires |levels| == QK_K && k < 128
  {
    Nibbles(levels[Q4Base(k)], levels[Q4Base(k) + 32])
  }

  function Q4Base(k: nat): (base: nat)
    requires k < 128
    ensures base + 32 < QK_K
  {
    k / 32 * 64 + k % 32
  }

  // Where ggml's reader looks for level `i`: the byte, and whether in its high nibble.
  function Q4Byte(i: nat): (k: nat)
    requires i < QK_K
    ensures k < 128
  {
    i / 64 * 32 + i % 32
  }

  predicate InHigh(i: nat) {
    i % 64 >= 32
  }

  lemma Q4Places(i: nat)
    requires i < QK_K
    ensures Q4Base(Q4Byte(i)) + (if InHigh(i) then 32 else 0) == i
  {
    hide Q4Base, Q4Byte, InHigh;
    var h, r := i / 64, i % 64;
    if r < 32 {
      Q4At(h, r);
    } else {
      Q4At(h, r - 32);
    }
  }

  // Column `l` of the two halves of chunk `h`.
  lemma Q4At(h: nat, l: nat)
    requires h < 4 && l < 32
    ensures Q4Byte(64 * h + l) == 32 * h + l == Q4Byte(64 * h + 32 + l) && Q4Base(32 * h + l) == 64 * h + l
    ensures !InHigh(64 * h + l) && InHigh(64 * h + 32 + l)
  {
    Halved(2 * h, l);
    Halved(2 * h + 1, l);
    Halved(h, l);
    Quartered(h, l);
    Quartered(h, 32 + l);
  }

  lemma Quartered(a: nat, l: nat)
    requires l < 64
    ensures (64 * a + l) / 64 == a && (64 * a + l) % 64 == l
  {
  }

  lemma Q4PlacesBack(k: nat)
    requires k < 128
    ensures Q4Byte(Q4Base(k)) == k == Q4Byte(Q4Base(k) + 32) && !InHigh(Q4Base(k)) && InHigh(Q4Base(k) + 32)
  {
    hide Q4Base, Q4Byte, InHigh;
    Q4At(k / 32, k % 32);
  }

  function PackQ4(b: Q4Block): (out: seq<Byte>)
    requires ValidQ4(b)
    ensures |out| == 144
  {
    b.d + b.dmin
    + seq(12, k requires 0 <= k < 12 => ScaleByte(b.ls, b.lm, k))
    + seq(128, k requires 0 <= k < 128 => Q4LevelByte(b.levels, k))
  }

  // ggml's get_scale_min_k4.
  function ScaleAt(q: seq<Byte>, j: nat): Byte
    requires |q| == 12 && j < 8
  {
    if j < 4 then LowSix(q[j]) else FromParts(LowNibble(q[j + 4]), q[j - 4])
  }

  function MinAt(q: seq<Byte>, j: nat): Byte
    requires |q| == 12 && j < 8
  {
    if j < 4 then LowSix(q[j + 4]) else FromParts(HighNibble(q[j + 4]), q[j])
  }

  function Q4LevelAt(qs: seq<Byte>, i: nat): Byte
    requires |qs| == 128 && i < QK_K
  {
    if InHigh(i) then HighNibble(qs[Q4Byte(i)]) else LowNibble(qs[Q4Byte(i)])
  }

  function UnpackQ4(out: seq<Byte>): Q4Block
    requires |out| == 144
  {
    var scales, qs := out[4..16], out[16..];
    Q4Block(seq(QK_K, i requires 0 <= i < QK_K => Q4LevelAt(qs, i)),
            seq(8, j requires 0 <= j < 8 => ScaleAt(scales, j)),
            seq(8, j requires 0 <= j < 8 => MinAt(scales, j)),
            out[..2], out[2..4])
  }

  // The two low fields and the split ones, for a pair of numbers that share three bytes.
  lemma SixBits(low: Byte, high: Byte)
    requires low < 64 && high < 64
    ensures LowSix(WithTop(low, high)) == low && FromParts(LowNibble(high), WithTop(low, high)) == high
    ensures LowNibble(high) < 16
  {
  }

  lemma BitsSix(q: Byte, nibble: Byte)
    requires nibble < 16
    ensures LowSix(q) < 64 && FromParts(nibble, q) < 64
    ensures WithTop(LowSix(q), FromParts(nibble, q)) == q && LowNibble(FromParts(nibble, q)) == nibble
  {
  }

  lemma ScalesRead(ls: seq<Byte>, lm: seq<Byte>, q: seq<Byte>, j: nat)
    requires |ls| == |lm| == 8 && AllBelow(ls, 64) && AllBelow(lm, 64) && |q| == 12 && j < 8
    requires forall k :: 0 <= k < 12 ==> q[k] == ScaleByte(ls, lm, k)
    ensures ScaleAt(q, j) == ls[j] && MinAt(q, j) == lm[j]
  {
    hide Nibbles, LowNibble, HighNibble, LowSix, FromParts, WithTop;
    var low := j % 4;
    SixBits(ls[low], ls[low + 4]);
    SixBits(lm[low], lm[low + 4]);
    NibblesBits(LowNibble(ls[low + 4]), LowNibble(lm[low + 4]));
  }

  lemma ScalesWritten(ls: seq<Byte>, lm: seq<Byte>, q: seq<Byte>, k: nat)
    requires |ls| == |lm| == 8 && |q| == 12 && k < 12
    requires forall j :: 0 <= j < 8 ==> ls[j] == ScaleAt(q, j) && lm[j] == MinAt(q, j)
    ensures ScaleByte(ls, lm, k) == q[k]
  {
    hide Nibbles, LowNibble, HighNibble, LowSix, FromParts, WithTop;
    var low := k % 4;
    BitsNibbles(q[low + 8]);
    BitsSix(q[low], LowNibble(q[low + 8]));
    BitsSix(q[low + 4], HighNibble(q[low + 8]));
  }

  lemma ScaleSmall(q: seq<Byte>, j: nat)
    requires |q| == 12 && j < 8
    ensures ScaleAt(q, j) < 64 && MinAt(q, j) < 64
  {
    hide Nibbles, LowNibble, HighNibble, LowSix, FromParts, WithTop;
    var low := j % 4;
    BitsNibbles(q[low + 8]);
    BitsSix(q[low], LowNibble(q[low + 8]));
    BitsSix(q[low + 4], HighNibble(q[low + 8]));
  }

  lemma Q4LevelRead(levels: seq<Byte>, qs: seq<Byte>, i: nat)
    requires |levels| == QK_K && AllBelow(levels, 16) && |qs| == 128 && i < QK_K
    requires forall k :: 0 <= k < 128 ==> qs[k] == Q4LevelByte(levels, k)
    ensures Q4LevelAt(qs, i) == levels[i]
  {
    hide Nibbles, LowNibble, HighNibble, Q4Base, Q4Byte, InHigh;
    Q4Places(i);
    var base := Q4Base(Q4Byte(i));
    NibblesBits(levels[base], levels[base + 32]);
  }

  lemma Q4LevelWritten(levels: seq<Byte>, qs: seq<Byte>, k: nat)
    requires |levels| == QK_K && |qs| == 128 && k < 128
    requires forall i :: 0 <= i < QK_K ==> levels[i] == Q4LevelAt(qs, i)
    ensures Q4LevelByte(levels, k) == qs[k]
  {
    hide Nibbles, LowNibble, HighNibble, Q4Base, Q4Byte, InHigh;
    Q4PlacesBack(k);
    BitsNibbles(qs[k]);
  }

  lemma Q4RoundTrip(b: Q4Block)
    requires ValidQ4(b)
    ensures UnpackQ4(PackQ4(b)) == b
  {
    hide ScaleByte, ScaleAt, MinAt, Q4LevelByte, Q4LevelAt;
    var out := PackQ4(b);
    var scales, qs, r := out[4..16], out[16..], UnpackQ4(out);
    forall i | 0 <= i < QK_K
      ensures r.levels[i] == b.levels[i]
    {
      Q4LevelRead(b.levels, qs, i);
    }
    forall j | 0 <= j < 8
      ensures r.ls[j] == b.ls[j] && r.lm[j] == b.lm[j]
    {
      ScalesRead(b.ls, b.lm, scales, j);
    }
    assert r.d == b.d && r.dmin == b.dmin;
  }

  lemma Q4LevelSmall(qs: seq<Byte>, i: nat)
    requires |qs| == 128 && i < QK_K
    ensures Q4LevelAt(qs, i) < 16
  {
    hide LowNibble, HighNibble, Nibbles;
    BitsNibbles(qs[Q4Byte(i)]);
  }

  lemma Q4RoundTripBytes(out: seq<Byte>)
    requires |out| == 144
    ensures ValidQ4(UnpackQ4(out)) && PackQ4(UnpackQ4(out)) == out
  {
    hide ScaleByte, ScaleAt, MinAt, Q4LevelByte, Q4LevelAt;
    var b := UnpackQ4(out);
    forall i | 0 <= i < QK_K
      ensures b.levels[i] < 16
    {
      Q4LevelSmall(out[16..], i);
    }
    forall j | 0 <= j < 8
      ensures b.ls[j] < 64 && b.lm[j] < 64
    {
      ScaleSmall(out[4..16], j);
    }
    forall k | 0 <= k < 12
      ensures ScaleByte(b.ls, b.lm, k) == out[4 + k]
    {
      ScalesWritten(b.ls, b.lm, out[4..16], k);
    }
    forall k | 0 <= k < 128
      ensures Q4LevelByte(b.levels, k) == out[16 + k]
    {
      Q4LevelWritten(b.levels, out[16..], k);
    }
    assert PackQ4(b) == out;
  }

  // ---------- Q6_K: 128 bytes of low nibbles, 64 of top bits, 16 scales, one half ----------

  datatype Q6Block = Q6Block(levels: seq<Byte>, scales: seq<Byte>, d: seq<Byte>)

  ghost predicate ValidQ6(b: Q6Block) {
    |b.levels| == QK_K && |b.scales| == 16 && |b.d| == 2 && AllBelow(b.levels, 64)
  }

  function TopTwo(q: Byte): Byte {
    q >> 4
  }

  function SixFrom(low: Byte, top: Byte): Byte {
    low | (top << 4)
  }

  // Where the half, the quarter of it and the column of a level are.
  function Q6Index(half: nat, quarter: nat, l: nat): (i: nat)
    requires half < 2 && quarter < 4 && l < 32
    ensures i < QK_K
  {
    half * 128 + quarter * 32 + l
  }

  lemma Q6IndexParts(half: nat, quarter: nat, l: nat)
    requires half < 2 && quarter < 4 && l < 32
    ensures var i := Q6Index(half, quarter, l); i / 128 == half && i % 128 / 32 == quarter && i % 32 == l
  {
    Eighths(half, quarter * 32 + l);
    Halved(quarter, l);
    Halved(4 * half + quarter, l);
  }

  lemma Eighths(a: nat, l: nat)
    requires l < 128
    ensures (a * 128 + l) / 128 == a && (a * 128 + l) % 128 == l
  {
  }

  // The byte with the low nibble, and the one with the top bits.
  function LowPlace(half: nat, quarter: nat, l: nat): (k: nat)
    requires half < 2 && quarter < 4 && l < 32
    ensures k < 128
  {
    half * 64 + quarter % 2 * 32 + l
  }

  function TopPlace(half: nat, l: nat): (k: nat)
    requires half < 2 && l < 32
    ensures k < 64
  {
    half * 32 + l
  }

  lemma LowPlaces(half: nat, quarter: nat, l: nat)
    requires half < 2 && quarter < 4 && l < 32
    ensures var k := LowPlace(half, quarter, l); k / 64 == half && k % 64 / 32 == quarter % 2 && k % 32 == l
  {
    var pair := quarter % 2;
    Quartered(half, 32 * pair + l);
    Halved(pair, l);
    Halved(2 * half + pair, l);
  }

  lemma LowPlacesBack(k: nat)
    requires k < 128
    ensures LowPlace(k / 64, k % 64 / 32, k % 32) == k == LowPlace(k / 64, k % 64 / 32 + 2, k % 32)
  {
    var half, pair, l := k / 64, k % 64 / 32, k % 64 % 32;
    Halved(2 * half + pair, l);
    assert k % 32 == l && k == 64 * half + 32 * pair + l;
    SamePair(pair);
  }

  lemma SamePair(pair: nat)
    requires pair < 2
    ensures pair % 2 == pair == (pair + 2) % 2
  {
  }

  lemma TopPlaces(half: nat, l: nat)
    requires half < 2 && l < 32
    ensures TopPlace(half, l) / 32 == half && TopPlace(half, l) % 32 == l
  {
  }

  // Low nibbles: quarters 0 and 2 share the first 32 bytes of a half, 1 and 3 the next 32.
  function LowByte(levels: seq<Byte>, k: nat): Byte
    requires |levels| == QK_K && k < 128
  {
    var half, quarter, l := k / 64, k % 64 / 32, k % 32;
    Nibbles(LowNibble(levels[Q6Index(half, quarter, l)]), LowNibble(levels[Q6Index(half, quarter + 2, l)]))
  }

  function TopByte(levels: seq<Byte>, k: nat): Byte
    requires |levels| == QK_K && k < 64
  {
    var half, l := k / 32, k % 32;
    FourLevels(TopTwo(levels[Q6Index(half, 0, l)]), TopTwo(levels[Q6Index(half, 1, l)]),
               TopTwo(levels[Q6Index(half, 2, l)]), TopTwo(levels[Q6Index(half, 3, l)]))
  }

  function PackQ6(b: Q6Block): (out: seq<Byte>)
    requires ValidQ6(b)
    ensures |out| == 210
  {
    seq(128, k requires 0 <= k < 128 => LowByte(b.levels, k))
    + seq(64, k requires 0 <= k < 64 => TopByte(b.levels, k))
    + b.scales + b.d
  }

  // ggml reads 32 columns at a time: q1 to q4 of column `l`, before 32 is subtracted.
  function Q6LevelAt(ql: seq<Byte>, qh: seq<Byte>, half: nat, quarter: nat, l: nat): Byte
    requires |ql| == 128 && |qh| == 64 && half < 2 && quarter < 4 && l < 32
  {
    var low := ql[LowPlace(half, quarter, l)];
    SixFrom(if quarter < 2 then LowNibble(low) else HighNibble(low), TwoBits(qh[TopPlace(half, l)], quarter))
  }

  function UnpackQ6(out: seq<Byte>): Q6Block
    requires |out| == 210
  {
    var ql, qh := out[..128], out[128..192];
    Q6Block(seq(QK_K, i requires 0 <= i < QK_K => Q6LevelAt(ql, qh, i / 128, i % 128 / 32, i % 32)),
            out[192..208], out[208..210])
  }

  lemma SixFromParts(q: Byte)
    requires q < 64
    ensures SixFrom(LowNibble(q), TopTwo(q)) == q && LowNibble(q) < 16 && TopTwo(q) < 4
  {
  }

  lemma PartsOfSix(low: Byte, top: Byte)
    requires low < 16 && top < 4
    ensures LowNibble(SixFrom(low, top)) == low && TopTwo(SixFrom(low, top)) == top && SixFrom(low, top) < 64
  {
  }

  lemma Q6LowRead(levels: seq<Byte>, ql: seq<Byte>, half: nat, quarter: nat, l: nat)
    requires |levels| == QK_K && |ql| == 128 && half < 2 && quarter < 4 && l < 32
    requires forall k :: 0 <= k < 128 ==> ql[k] == LowByte(levels, k)
    ensures var low := ql[LowPlace(half, quarter, l)];
            (if quarter < 2 then LowNibble(low) else HighNibble(low)) == LowNibble(levels[Q6Index(half, quarter, l)])
  {
    hide Nibbles, LowNibble, HighNibble, LowPlace, Q6Index;
    var r := quarter % 2;
    LowPlaces(half, quarter, l);
    LowNibbleSmall(levels[Q6Index(half, r, l)]);
    LowNibbleSmall(levels[Q6Index(half, r + 2, l)]);
    NibblesBits(LowNibble(levels[Q6Index(half, r, l)]), LowNibble(levels[Q6Index(half, r + 2, l)]));
    assert quarter == r || quarter == r + 2;
  }

  lemma LowNibbleSmall(q: Byte)
    ensures LowNibble(q) < 16
  {
  }

  lemma Q6TopRead(levels: seq<Byte>, qh: seq<Byte>, half: nat, quarter: nat, l: nat)
    requires |levels| == QK_K && AllBelow(levels, 64) && |qh| == 64 && half < 2 && quarter < 4 && l < 32
    requires forall k :: 0 <= k < 64 ==> qh[k] == TopByte(levels, k)
    ensures TwoBits(qh[TopPlace(half, l)], quarter) == TopTwo(levels[Q6Index(half, quarter, l)])
  {
    hide LowNibble, TwoBits, FourLevels, SixFrom, TopTwo, TopPlace, Q6Index;
    TopPlaces(half, l);
    forall j: nat | j < 4
      ensures TopTwo(levels[Q6Index(half, j, l)]) < 4
    {
      SixFromParts(levels[Q6Index(half, j, l)]);
    }
    FourLevelsBits(TopTwo(levels[Q6Index(half, 0, l)]), TopTwo(levels[Q6Index(half, 1, l)]),
                   TopTwo(levels[Q6Index(half, 2, l)]), TopTwo(levels[Q6Index(half, 3, l)]));
  }

  lemma Q6LevelRead(levels: seq<Byte>, ql: seq<Byte>, qh: seq<Byte>, half: nat, quarter: nat, l: nat)
    requires |levels| == QK_K && AllBelow(levels, 64) && |ql| == 128 && |qh| == 64 && half < 2 && quarter < 4 && l < 32
    requires forall k :: 0 <= k < 128 ==> ql[k] == LowByte(levels, k)
    requires forall k :: 0 <= k < 64 ==> qh[k] == TopByte(levels, k)
    ensures Q6LevelAt(ql, qh, half, quarter, l) == levels[Q6Index(half, quarter, l)]
  {
    hide LowNibble, HighNibble, TwoBits, SixFrom, TopTwo, LowByte, TopByte, LowPlace, TopPlace, Q6Index;
    Q6LowRead(levels, ql, half, quarter, l);
    Q6TopRead(levels, qh, half, quarter, l);
    SixFromParts(levels[Q6Index(half, quarter, l)]);
  }

  // The level at each place of a half, quarter and column, as read.
  ghost predicate Q6Reads(levels: seq<Byte>, ql: seq<Byte>, qh: seq<Byte>)
    requires |levels| == QK_K && |ql| == 128 && |qh| == 64
  {
    forall half: nat, quarter: nat, l: nat | half < 2 && quarter < 4 && l < 32 ::
      levels[Q6Index(half, quarter, l)] == Q6LevelAt(ql, qh, half, quarter, l)
  }

  lemma Q6PartsRead(levels: seq<Byte>, ql: seq<Byte>, qh: seq<Byte>, half: nat, quarter: nat, l: nat)
    requires |levels| == QK_K && |ql| == 128 && |qh| == 64 && half < 2 && quarter < 4 && l < 32
    requires Q6Reads(levels, ql, qh)
    ensures var q, low := levels[Q6Index(half, quarter, l)], ql[LowPlace(half, quarter, l)];
            && q < 64 && LowNibble(q) == (if quarter < 2 then LowNibble(low) else HighNibble(low))
            && TopTwo(q) == TwoBits(qh[TopPlace(half, l)], quarter)
  {
    hide Nibbles, LowNibble, HighNibble, TwoBits, FourLevels, SixFrom, TopTwo;
    var low, top := ql[LowPlace(half, quarter, l)], qh[TopPlace(half, l)];
    BitsNibbles(low);
    BitsFourLevels(top);
    PartsOfSix(if quarter < 2 then LowNibble(low) else HighNibble(low), TwoBits(top, quarter));
  }

  lemma Q6LowWritten(levels: seq<Byte>, ql: seq<Byte>, qh: seq<Byte>, k: nat)
    requires |levels| == QK_K && |ql| == 128 && |qh| == 64 && k < 128 && Q6Reads(levels, ql, qh)
    ensures LowByte(levels, k) == ql[k]
  {
    hide Nibbles, LowNibble, HighNibble, Q6Reads, TopTwo, TwoBits, LowPlace, Q6Index;
    var half, quarter, l := k / 64, k % 64 / 32, k % 32;
    Q6PartsRead(levels, ql, qh, half, quarter, l);
    Q6PartsRead(levels, ql, qh, half, quarter + 2, l);
    LowPlacesBack(k);
    BitsNibbles(ql[k]);
  }

  lemma Q6TopWritten(levels: seq<Byte>, ql: seq<Byte>, qh: seq<Byte>, k: nat)
    requires |levels| == QK_K && |ql| == 128 && |qh| == 64 && k < 64 && Q6Reads(levels, ql, qh)
    ensures TopByte(levels, k) == qh[k]
  {
    hide LowNibble, HighNibble, Q6Reads, TopTwo, TwoBits, FourLevels;
    var half, l := k / 32, k % 32;
    Q6PartsRead(levels, ql, qh, half, 0, l);
    Q6PartsRead(levels, ql, qh, half, 1, l);
    Q6PartsRead(levels, ql, qh, half, 2, l);
    Q6PartsRead(levels, ql, qh, half, 3, l);
    assert half * 32 + l == k;
    BitsFourLevels(qh[k]);
  }

  lemma Q6RoundTrip(b: Q6Block)
    requires ValidQ6(b)
    ensures UnpackQ6(PackQ6(b)) == b
  {
    hide LowByte, TopByte, Q6LevelAt;
    var out := PackQ6(b);
    var ql, qh, r := out[..128], out[128..192], UnpackQ6(out);
    forall i | 0 <= i < QK_K
      ensures r.levels[i] == b.levels[i]
    {
      Q6LevelRead(b.levels, ql, qh, i / 128, i % 128 / 32, i % 32);
    }
    assert r.scales == b.scales && r.d == b.d;
  }

  lemma Q6RoundTripBytes(out: seq<Byte>)
    requires |out| == 210
    ensures ValidQ6(UnpackQ6(out)) && PackQ6(UnpackQ6(out)) == out
  {
    hide LowByte, TopByte, Q6LevelAt;
    var b := UnpackQ6(out);
    var ql, qh := out[..128], out[128..192];
    Q6AllRead(b.levels, ql, qh);
    forall i | 0 <= i < QK_K
      ensures b.levels[i] < 64
    {
      Q6PartsRead(b.levels, ql, qh, i / 128, i % 128 / 32, i % 32);
    }
    forall k | 0 <= k < 128
      ensures LowByte(b.levels, k) == out[k]
    {
      Q6LowWritten(b.levels, ql, qh, k);
    }
    forall k | 0 <= k < 64
      ensures TopByte(b.levels, k) == out[128 + k]
    {
      Q6TopWritten(b.levels, ql, qh, k);
    }
    assert PackQ6(b) == out;
  }

  lemma Q6AllRead(levels: seq<Byte>, ql: seq<Byte>, qh: seq<Byte>)
    requires |levels| == QK_K && |ql| == 128 && |qh| == 64
    requires forall i :: 0 <= i < QK_K ==> levels[i] == Q6LevelAt(ql, qh, i / 128, i % 128 / 32, i % 32)
    ensures Q6Reads(levels, ql, qh)
  {
    hide Q6LevelAt, Q6Index;
    forall half: nat, quarter: nat, l: nat | half < 2 && quarter < 4 && l < 32
      ensures levels[Q6Index(half, quarter, l)] == Q6LevelAt(ql, qh, half, quarter, l)
    {
      Q6IndexParts(half, quarter, l);
    }
  }

  // ---------- The bytes, written out ----------

  lemma FourLevelsSum(a: Byte, b: Byte, c: Byte, d: Byte)
    requires a < 4 && b < 4 && c < 4 && d < 4
    ensures FourLevels(a, b, c, d) == a + 4 * b + 16 * c + 64 * d
  {
  }

  lemma NibblesSum(low: Byte, high: Byte)
    requires low < 16 && high < 16
    ensures Nibbles(low, high) == low + 16 * high
  {
  }

  lemma WithTopSum(low: Byte, other: Byte)
    requires low < 64 && other < 64
    ensures WithTop(low, other) == low + 64 * (other / 16)
  {
  }

  lemma NibbleOf(q: Byte)
    ensures LowNibble(q) == q % 16 && LowNibble(q) < 16 && TopTwo(q) == q / 16
    ensures q < 64 ==> TopTwo(q) < 4
  {
  }

  // Scales and offsets share bytes.
  lemma Q2ScaleBytes(b: Q2Block, g: nat)
    requires ValidQ2(b) && g < 16
    ensures PackQ2(b)[g] == b.ls[g] + 16 * b.lm[g]
    ensures PackQ2(b)[80..82] == b.d && PackQ2(b)[82..84] == b.dmin
  {
    hide Nibbles, Q2LevelByte;
    NibblesSum(b.ls[g], b.lm[g]);
  }

  // Byte `l` of half `h` holds the levels `l`, `l + 32`, `l + 64` and `l + 96` of it.
  lemma Q2LevelBytes(b: Q2Block, h: nat, l: nat)
    requires ValidQ2(b) && h < 2 && l < 32
    ensures var at := 128 * h + l;
            PackQ2(b)[16 + 32 * h + l]
            == b.levels[at] + 4 * b.levels[at + 32] + 16 * b.levels[at + 64] + 64 * b.levels[at + 96]
  {
    hide FourLevels, Nibbles;
    var at := 128 * h + l;
    Halved(h, l);
    assert Q2Base(32 * h + l) == at;
    FourLevelsSum(b.levels[at], b.levels[at + 32], b.levels[at + 64], b.levels[at + 96]);
  }

  // The first eight bytes of the scale field hold the first four scales and offsets, with the top two bits of the
  // last four, the other four bytes the low nibbles of those.
  lemma Q4ScaleBytes(b: Q4Block, k: nat)
    requires ValidQ4(b) && k < 4
    ensures PackQ4(b)[4 + k] == b.ls[k] + 64 * (b.ls[k + 4] / 16)
    ensures PackQ4(b)[8 + k] == b.lm[k] + 64 * (b.lm[k + 4] / 16)
    ensures PackQ4(b)[12 + k] == b.ls[k + 4] % 16 + 16 * (b.lm[k + 4] % 16)
    ensures PackQ4(b)[..2] == b.d && PackQ4(b)[2..4] == b.dmin
  {
    hide WithTop, Nibbles, LowNibble, Q4LevelByte;
    WithTopSum(b.ls[k], b.ls[k + 4]);
    WithTopSum(b.lm[k], b.lm[k + 4]);
    NibbleOf(b.ls[k + 4]);
    NibbleOf(b.lm[k + 4]);
    NibblesSum(LowNibble(b.ls[k + 4]), LowNibble(b.lm[k + 4]));
  }

  // Byte `l` of chunk `h` holds the levels `l` and `l + 32` of it.
  lemma Q4LevelBytes(b: Q4Block, h: nat, l: nat)
    requires ValidQ4(b) && h < 4 && l < 32
    ensures PackQ4(b)[16 + 32 * h + l] == b.levels[64 * h + l] + 16 * b.levels[64 * h + 32 + l]
  {
    hide ScaleByte, Nibbles;
    Q4At(h, l);
    assert PackQ4(b)[16 + 32 * h + l] == Q4LevelByte(b.levels, 32 * h + l);
    NibblesSum(b.levels[64 * h + l], b.levels[64 * h + 32 + l]);
  }

  // In a half, the low nibbles of quarters 0 and 2 share bytes, and those of 1 and 3.
  lemma Q6LowBytes(b: Q6Block, h: nat, p: nat, l: nat)
    requires ValidQ6(b) && h < 2 && p < 2 && l < 32
    ensures var at := 128 * h + 32 * p + l;
            PackQ6(b)[64 * h + 32 * p + l] == b.levels[at] % 16 + 16 * (b.levels[at + 64] % 16)
  {
    var at, k := 128 * h + 32 * p + l, 64 * h + 32 * p + l;
    LowSum(b.levels[at], b.levels[at + 64]);
    Q6Parts(b);
    LowByteAt(b.levels, h, p, l);
    hide PackQ6, LowByte, ValidQ6, LowNibble, Nibbles;
  }

  lemma Q6Parts(b: Q6Block)
    requires ValidQ6(b)
    ensures forall k :: 0 <= k < 128 ==> PackQ6(b)[k] == LowByte(b.levels, k)
    ensures forall k :: 0 <= k < 64 ==> PackQ6(b)[128 + k] == TopByte(b.levels, k)
    ensures PackQ6(b)[192..208] == b.scales && PackQ6(b)[208..210] == b.d
  {
    hide LowByte, TopByte;
  }

  lemma LowByteAt(levels: seq<Byte>, h: nat, p: nat, l: nat)
    requires |levels| == QK_K && h < 2 && p < 2 && l < 32
    ensures var at := 128 * h + 32 * p + l;
            LowByte(levels, 64 * h + 32 * p + l) == Nibbles(LowNibble(levels[at]), LowNibble(levels[at + 64]))
  {
    hide Nibbles, LowNibble, Q6Index;
    LowParts(h, p, l);
    Q6At(h, p, l);
  }

  lemma LowParts(h: nat, p: nat, l: nat)
    requires h < 2 && p < 2 && l < 32
    ensures var k := 64 * h + 32 * p + l; k / 64 == h && k % 64 / 32 == p && k % 32 == l
  {
    Quartered(h, 32 * p + l);
    Halved(p, l);
    Halved(2 * h + p, l);
  }

  lemma Q6At(h: nat, p: nat, l: nat)
    requires h < 2 && p < 2 && l < 32
    ensures Q6Index(h, p, l) == 128 * h + 32 * p + l && Q6Index(h, p + 2, l) == 128 * h + 32 * p + l + 64
  {
  }

  // The top two bits of all four quarters share a byte.
  lemma Q6TopBytes(b: Q6Block, h: nat, l: nat)
    requires ValidQ6(b) && h < 2 && l < 32
    ensures var at := 128 * h + l;
            PackQ6(b)[128 + 32 * h + l]
            == b.levels[at] / 16 + 4 * (b.levels[at + 32] / 16) + 16 * (b.levels[at + 64] / 16)
               + 64 * (b.levels[at + 96] / 16)
  {
    var at := 128 * h + l;
    TopSum(b.levels[at], b.levels[at + 32], b.levels[at + 64], b.levels[at + 96]);
    Q6Parts(b);
    TopByteAt(b.levels, h, l);
    hide PackQ6, TopByte, ValidQ6, TopTwo, FourLevels;
    assert 128 + 32 * h + l == 128 + (32 * h + l);
  }

  lemma TopByteAt(levels: seq<Byte>, h: nat, l: nat)
    requires |levels| == QK_K && h < 2 && l < 32
    ensures var at := 128 * h + l;
            TopByte(levels, 32 * h + l) == FourLevels(TopTwo(levels[at]), TopTwo(levels[at + 32]),
                                                      TopTwo(levels[at + 64]), TopTwo(levels[at + 96]))
  {
    hide FourLevels, TopTwo;
    TopPlaces(h, l);
    assert TopPlace(h, l) == 32 * h + l;
  }

  lemma LowSum(p: Byte, q: Byte)
    ensures Nibbles(LowNibble(p), LowNibble(q)) == p % 16 + 16 * (q % 16)
  {
  }

  lemma TopSum(p: Byte, q: Byte, r: Byte, s: Byte)
    requires p < 64 && q < 64 && r < 64 && s < 64
    ensures FourLevels(TopTwo(p), TopTwo(q), TopTwo(r), TopTwo(s))
            == p / 16 + 4 * (q / 16) + 16 * (r / 16) + 64 * (s / 16)
  {
    hide FourLevels, TopTwo;
    NibbleOf(p);
    NibbleOf(q);
    NibbleOf(r);
    NibbleOf(s);
    FourLevelsSum(TopTwo(p), TopTwo(q), TopTwo(r), TopTwo(s));
  }
}
