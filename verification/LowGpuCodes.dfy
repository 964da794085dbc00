/** The packed 3-bit vocabulary (convert_escha_to_gguf.py:456-477, 834-840): three bytes hold eight codes,
    code `j` of a row being bits 3j to 3j+2 of its bytes, least significant first; rows are read in
    chunks, and the chunk size does not show in the result. */
module LowGpuCodes {
  import opened Wrappers

  // ---------- Eight codes from three bytes ----------

  // Code `u` of a group, in the 32-bit arithmetic of the source.
  function Code(b0: bv32, b1: bv32, b2: bv32, u: nat): bv32
    requires u < 8
  {
    if u == 0 then b0 & 7
    else if u == 1 then (b0 >> 3) & 7
    else if u == 2 then ((b0 >> 6) | (b1 << 2)) & 7
    else if u == 3 then (b1 >> 1) & 7
    else if u == 4 then (b1 >> 4) & 7
    else if u == 5 then ((b1 >> 7) | (b2 << 1)) & 7
    else if u == 6 then (b2 >> 2) & 7
    else (b2 >> 5) & 7
  }

  function FirstByte(c0: bv32, c1: bv32, c2: bv32): bv32 {
    c0 | (c1 << 3) | ((c2 & 3) << 6)
  }

  function SecondByte(c2: bv32, c3: bv32, c4: bv32, c5: bv32): bv32 {
    (c2 >> 2) | (c3 << 1) | (c4 << 4) | ((c5 & 1) << 7)
  }

  function ThirdByte(c5: bv32, c6: bv32, c7: bv32): bv32 {
    (c5 >> 1) | (c6 << 2) | (c7 << 5)
  }

  lemma BytesOfCodes(b0: bv32, b1: bv32, b2: bv32)
    requires b0 < 256 && b1 < 256 && b2 < 256
    ensures FirstByte(Code(b0, b1, b2, 0), Code(b0, b1, b2, 1), Code(b0, b1, b2, 2)) == b0
    ensures SecondByte(Code(b0, b1, b2, 2), Code(b0, b1, b2, 3), Code(b0, b1, b2, 4), Code(b0, b1, b2, 5)) == b1
    ensures ThirdByte(Code(b0, b1, b2, 5), Code(b0, b1, b2, 6), Code(b0, b1, b2, 7)) == b2
  {
  }

  lemma FirstCodes(c0: bv32, c1: bv32, c2: bv32, b1: bv32, b2: bv32)
    requires c0 < 8 && c1 < 8 && c2 < 8
    ensures var b0 := FirstByte(c0, c1, c2); b0 < 256 && Code(b0, b1, b2, 0) == c0 && Code(b0, b1, b2, 1) == c1
  {
  }

  lemma MiddleCodes(b0: bv32, c2: bv32, c3: bv32, c4: bv32, c5: bv32, b2: bv32)
    requires c2 < 8 && c3 < 8 && c4 < 8 && c5 < 8
    ensures var b1 := SecondByte(c2, c3, c4, c5); b1 < 256 && Code(b0, b1, b2, 3) == c3 && Code(b0, b1, b2, 4) == c4
  {
  }

  lemma LastCodes(b0: bv32, b1: bv32, c5: bv32, c6: bv32, c7: bv32)
    requires c5 < 8 && c6 < 8 && c7 < 8
    ensures var b2 := ThirdByte(c5, c6, c7); b2 < 256 && Code(b0, b1, b2, 6) == c6 && Code(b0, b1, b2, 7) == c7
  {
  }

  // The two codes that straddle a byte boundary.
  lemma StraddlingCodes(c0: bv32, c1: bv32, c2: bv32, c3: bv32, c4: bv32, c5: bv32, c6: bv32, c7: bv32, b0: bv32,
                        b2: bv32)
    requires c0 < 8 && c1 < 8 && c2 < 8 && c3 < 8 && c4 < 8 && c5 < 8 && c6 < 8 && c7 < 8
    ensures Code(FirstByte(c0, c1, c2), SecondByte(c2, c3, c4, c5), b2, 2) == c2
    ensures Code(b0, SecondByte(c2, c3, c4, c5), ThirdByte(c5, c6, c7), 5) == c5
  {
  }

  lemma CodesOfBytes(c0: bv32, c1: bv32, c2: bv32, c3: bv32, c4: bv32, c5: bv32, c6: bv32, c7: bv32)
    requires c0 < 8 && c1 < 8 && c2 < 8 && c3 < 8 && c4 < 8 && c5 < 8 && c6 < 8 && c7 < 8
    ensures var b0, b1, b2 := FirstByte(c0, c1, c2), SecondByte(c2, c3, c4, c5), ThirdByte(c5, c6, c7);
            && b0 < 256 && b1 < 256 && b2 < 256
            && Code(b0, b1, b2, 0) == c0 && Code(b0, b1, b2, 1) == c1 && Code(b0, b1, b2, 2) == c2
            && Code(b0, b1, b2, 3) == c3
            && Code(b0, b1, b2, 4) == c4 && Code(b0, b1, b2, 5) == c5 && Code(b0, b1, b2, 6) == c6
            && Code(b0, b1, b2, 7) == c7
  {
    hide Code, FirstByte, SecondByte, ThirdByte;
    var b0, b1, b2 := FirstByte(c0, c1, c2), SecondByte(c2, c3, c4, c5), ThirdByte(c5, c6, c7);
    FirstCodes(c0, c1, c2, b1, b2);
    MiddleCodes(b0, c2, c3, c4, c5, b2);
    LastCodes(b0, b1, c5, c6, c7);
    StraddlingCodes(c0, c1, c2, c3, c4, c5, c6, c7, b0, b2);
  }

  // ---------- A row as a stream of bits ----------

  function Bit(q: bv32, k: nat): bv32
    requires k < 8
  {
    if k == 0 then q & 1
    else if k == 1 then (q >> 1) & 1
    else if k == 2 then (q >> 2) & 1
    else if k == 3 then (q >> 3) & 1
    else if k == 4 then (q >> 4) & 1
    else if k == 5 then (q >> 5) & 1
    else if k == 6 then (q >> 6) & 1
    else (q >> 7) & 1
  }

  function ThreeBits(x: bv32, y: bv32, z: bv32): bv32 {
    x | (y << 1) | (z << 2)
  }

  // Bit `p` of a row.
  function StreamBit(row: seq<bv32>, p: nat): bv32
    requires p < 8 * |row|
  {
    Bit(row[p / 8], p % 8)
  }

  function CodeAt(row: seq<bv32>, j: nat): bv32
    requires |row| % 3 == 0 && j < |row| / 3 * 8
  {
    var t := j / 8;
    Code(row[3 * t], row[3 * t + 1], row[3 * t + 2], j % 8)
  }

  ghost predicate Bytes(row: seq<bv32>) {
    forall i :: 0 <= i < |row| ==> row[i] < 256
  }

  // Bit `q` of the 24 bits of a group.
  function GroupBit(b0: bv32, b1: bv32, b2: bv32, q: nat): bv32
    requires q < 24
  {
    Bit(if q < 8 then b0 else if q < 16 then b1 else b2, q % 8)
  }

  // Code `u` of a group, from the bits of the group.
  function CodeFromBits(b0: bv32, b1: bv32, b2: bv32, u: nat): bv32
    requires u < 8
  {
    ThreeBits(GroupBit(b0, b1, b2, 3 * u), GroupBit(b0, b1, b2, 3 * u + 1), GroupBit(b0, b1, b2, 3 * u + 2))
  }

  lemma CodeBits0(b0: bv32, b1: bv32, b2: bv32)
    requires b0 < 256
    ensures Code(b0, b1, b2, 0) == CodeFromBits(b0, b1, b2, 0)
  {
  }

  lemma CodeBits1(b0: bv32, b1: bv32, b2: bv32)
    requires b0 < 256
    ensures Code(b0, b1, b2, 1) == CodeFromBits(b0, b1, b2, 1)
  {
  }

  lemma CodeBits2(b0: bv32, b1: bv32, b2: bv32)
    requires b0 < 256
    ensures Code(b0, b1, b2, 2) == CodeFromBits(b0, b1, b2, 2)
  {
  }

  lemma CodeBits3(b0: bv32, b1: bv32, b2: bv32)
    requires b1 < 256
    ensures Code(b0, b1, b2, 3) == CodeFromBits(b0, b1, b2, 3)
  {
  }

  lemma CodeBits4(b0: bv32, b1: bv32, b2: bv32)
    requires b1 < 256
    ensures Code(b0, b1, b2, 4) == CodeFromBits(b0, b1, b2, 4)
  {
  }

  lemma CodeBits5(b0: bv32, b1: bv32, b2: bv32)
    requires b1 < 256
    ensures Code(b0, b1, b2, 5) == CodeFromBits(b0, b1, b2, 5)
  {
  }

  lemma CodeBits6(b0: bv32, b1: bv32, b2: bv32)
    requires b2 < 256
    ensures Code(b0, b1, b2, 6) == CodeFromBits(b0, b1, b2, 6)
  {
  }

  lemma CodeBits7(b0: bv32, b1: bv32, b2: bv32)
    requires b2 < 256
    ensures Code(b0, b1, b2, 7) == CodeFromBits(b0, b1, b2, 7)
  {
  }

  lemma CodeBits(b0: bv32, b1: bv32, b2: bv32, u: nat)
    requires b0 < 256 && b1 < 256 && b2 < 256 && u < 8
    ensures Code(b0, b1, b2, u) == CodeFromBits(b0, b1, b2, u)
  {
    hide Code, CodeFromBits;
    CodeBits0(b0, b1, b2);
    CodeBits1(b0, b1, b2);
    CodeBits2(b0, b1, b2);
    CodeBits3(b0, b1, b2);
    CodeBits4(b0, b1, b2);
    CodeBits5(b0, b1, b2);
    CodeBits6(b0, b1, b2);
    CodeBits7(b0, b1, b2);
  }

  // Bit `q` of group `t` of a row.
  lemma BitOfGroup(row: seq<bv32>, t: nat, q: nat)
    requires |row| % 3 == 0 && t < |row| / 3 && q < 24
    ensures StreamBit(row, 24 * t + q) == GroupBit(row[3 * t], row[3 * t + 1], row[3 * t + 2], q)
  {
    hide Bit;
    BitPlace(t, q / 8, q % 8);
  }

  // Where a bit of group `t` lies.
  lemma BitPlace(t: nat, byte: nat, k: nat)
    requires k < 8
    ensures (24 * t + 8 * byte + k) / 8 == 3 * t + byte && (24 * t + 8 * byte + k) % 8 == k
  {
    assert 24 * t + 8 * byte + k == 8 * (3 * t + byte) + k;
  }

  // Code `j` of a row is its bits 3j, 3j+1 and 3j+2.
  lemma CodeIsBits(row: seq<bv32>, j: nat)
    requires |row| % 3 == 0 && j < |row| / 3 * 8 && Bytes(row)
    ensures CodeAt(row, j) == ThreeBits(StreamBit(row, 3 * j), StreamBit(row, 3 * j + 1), StreamBit(row, 3 * j + 2))
  {
    hide Code, GroupBit, ThreeBits, StreamBit;
    var t, u := j / 8, j % 8;
    CodeBits(row[3 * t], row[3 * t + 1], row[3 * t + 2], u);
    assert 3 * j == 24 * t + 3 * u;
    BitOfGroup(row, t, 3 * u);
    BitOfGroup(row, t, 3 * u + 1);
    BitOfGroup(row, t, 3 * u + 2);
  }

  // ---------- Rows ----------

  // The bytes that hold the codes `cs`.
  function RowByte(cs: seq<bv32>, i: nat): bv32
    requires |cs| % 8 == 0 && i < |cs| / 8 * 3
  {
    var g := i / 3 * 8;
    if i % 3 == 0 then FirstByte(cs[g], cs[g + 1], cs[g + 2])
    else if i % 3 == 1 then SecondByte(cs[g + 2], cs[g + 3], cs[g + 4], cs[g + 5])
    else ThirdByte(cs[g + 5], cs[g + 6], cs[g + 7])
  }

  function RowBytes(cs: seq<bv32>): (row: seq<bv32>)
    requires |cs| % 8 == 0
    ensures |row| == |cs| / 8 * 3
  {
    seq(|cs| / 8 * 3, i requires 0 <= i < |cs| / 8 * 3 => RowByte(cs, i))
  }

  function RowCodes(row: seq<bv32>): (cs: seq<bv32>)
    requires |row| % 3 == 0
    ensures |cs| == |row| / 3 * 8
  {
    seq(|row| / 3 * 8, j requires 0 <= j < |row| / 3 * 8 => CodeAt(row, j))
  }

  // Every row of bytes is the packing of its codes.
  lemma RowOfCodes(row: seq<bv32>)
    requires |row| % 3 == 0 && Bytes(row)
    ensures RowBytes(RowCodes(row)) == row
  {
    hide Code, FirstByte, SecondByte, ThirdByte, RowByte, CodeAt, Bytes;
    var cs := RowCodes(row);
    forall i | 0 <= i < |row|
      ensures RowByte(cs, i) == row[i]
    {
      GroupWritten(row, cs, i / 3);
      assert i == 3 * (i / 3) + i % 3;
    }
    assert RowBytes(cs) == row;
  }

  lemma CodePlace(row: seq<bv32>, t: nat, u: nat)
    requires |row| % 3 == 0 && t < |row| / 3 && u < 8
    ensures CodeAt(row, t * 8 + u) == Code(row[3 * t], row[3 * t + 1], row[3 * t + 2], u)
  {
    hide Code;
    assert (t * 8 + u) / 8 == t && (t * 8 + u) % 8 == u;
  }

  lemma GroupWritten(row: seq<bv32>, cs: seq<bv32>, t: nat)
    requires |row| % 3 == 0 && Bytes(row) && cs == RowCodes(row) && t < |row| / 3
    ensures RowByte(cs, 3 * t) == row[3 * t] && RowByte(cs, 3 * t + 1) == row[3 * t + 1]
    ensures RowByte(cs, 3 * t + 2) == row[3 * t + 2]
  {
    hide Code, FirstByte, SecondByte, ThirdByte, CodeAt, RowByte;
    CodePlace(row, t, 0);
    CodePlace(row, t, 1);
    CodePlace(row, t, 2);
    CodePlace(row, t, 3);
    CodePlace(row, t, 4);
    CodePlace(row, t, 5);
    CodePlace(row, t, 6);
    CodePlace(row, t, 7);
    BytesOfCodes(row[3 * t], row[3 * t + 1], row[3 * t + 2]);
    BytesPlaced(cs, t);
  }

  // Every row of codes is read back from its packing.
  lemma CodesOfRow(cs: seq<bv32>)
    requires |cs| % 8 == 0 && forall j :: 0 <= j < |cs| ==> cs[j] < 8
    ensures RowCodes(RowBytes(cs)) == cs && Bytes(RowBytes(cs))
  {
    hide Code, FirstByte, SecondByte, ThirdByte, RowByte;
    var row := RowBytes(cs);
    forall j | 0 <= j < |cs|
      ensures CodeAt(row, j) == cs[j]
    {
      GroupRead(cs, row, j / 8, j % 8);
    }
    assert RowCodes(row) == cs;
    forall i | 0 <= i < |row|
      ensures row[i] < 256
    {
      RowByteSmall(cs, i);
    }
  }

  lemma RowByteSmall(cs: seq<bv32>, i: nat)
    requires |cs| % 8 == 0 && (forall j :: 0 <= j < |cs| ==> cs[j] < 8) && i < |cs| / 8 * 3
    ensures RowByte(cs, i) < 256
  {
    hide Code, FirstByte, SecondByte, ThirdByte;
    var g := i / 3 * 8;
    CodesOfBytes(cs[g], cs[g + 1], cs[g + 2], cs[g + 3], cs[g + 4], cs[g + 5], cs[g + 6], cs[g + 7]);
  }

  // Where the bytes of group `t` are made.
  lemma BytesPlaced(cs: seq<bv32>, t: nat)
    requires |cs| % 8 == 0 && t < |cs| / 8
    ensures var g := 8 * t;
            && RowByte(cs, 3 * t) == FirstByte(cs[g], cs[g + 1], cs[g + 2])
            && RowByte(cs, 3 * t + 1) == SecondByte(cs[g + 2], cs[g + 3], cs[g + 4], cs[g + 5])
            && RowByte(cs, 3 * t + 2) == ThirdByte(cs[g + 5], cs[g + 6], cs[g + 7])
  {
    hide FirstByte, SecondByte, ThirdByte;
    InThirds(t, 0);
    InThirds(t, 1);
    InThirds(t, 2);
  }

  lemma InThirds(t: nat, r: nat)
    requires r < 3
    ensures (3 * t + r) / 3 == t && (3 * t + r) % 3 == r
  {
  }

  lemma GroupRead(cs: seq<bv32>, row: seq<bv32>, t: nat, u: nat)
    requires |cs| % 8 == 0 && (forall j :: 0 <= j < |cs| ==> cs[j] < 8) && row == RowBytes(cs) && t < |cs| / 8 && u < 8
    ensures Code(row[3 * t], row[3 * t + 1], row[3 * t + 2], u) == cs[8 * t + u]
  {
    hide Code, FirstByte, SecondByte, ThirdByte, RowByte;
    var g := 8 * t;
    BytesPlaced(cs, t);
    CodesOfBytes(cs[g], cs[g + 1], cs[g + 2], cs[g + 3], cs[g + 4], cs[g + 5], cs[g + 6], cs[g + 7]);
  }

  // ---------- Values ----------

  // One row: codes less the zero point of their group, times its scale.
  function DequantRow(row: seq<bv32>, scales: seq<real>, zps: seq<real>, group: nat): (out: seq<real>)
    requires |row| % 3 == 0 && group > 0 && (|row| / 3 * 8) % group == 0
    requires |scales| == |zps| == |row| / 3 * 8 / group
    ensures |out| == |row| / 3 * 8
  {
    seq(|row| / 3 * 8, j requires 0 <= j < |row| / 3 * 8 =>
      GroupOf(j, group, |row| / 3 * 8);
      (CodeAt(row, j) as int as real - zps[j / group]) * scales[j / group])
  }

  lemma GroupOf(j: nat, group: nat, k: nat)
    requires group > 0 && j < k && k % group == 0
    ensures j / group < k / group
  {
    assert k == k / group * group;
    var a, b := j / group, k / group;
    assert j >= a * group;
    assert (b - a) * group > 0;
  }

  // The arrays of a vocabulary: a row of bytes, of scales and of zero points for each entry.
  datatype Vocabulary = Vocabulary(codes: seq<seq<bv32>>, scales: seq<seq<real>>, zps: seq<seq<real>>)

  ghost predicate WellShaped(v: Vocabulary, group: nat) {
    && group > 0 && |v.scales| == |v.zps| == |v.codes|
    && forall r :: 0 <= r < |v.codes| ==> RowShaped(v, r, group)
  }

  ghost predicate RowShaped(v: Vocabulary, r: nat, group: nat)
    requires group > 0 && r < |v.codes| == |v.scales| == |v.zps|
  {
    && |v.codes[r]| % 3 == 0 && (|v.codes[r]| / 3 * 8) % group == 0
    && |v.scales[r]| == |v.zps[r]| == |v.codes[r]| / 3 * 8 / group
  }

  function DequantRows(v: Vocabulary, row0: nat, row1: nat, group: nat): (out: seq<seq<real>>)
    requires WellShaped(v, group) && row0 <= row1 <= |v.codes|
    ensures |out| == row1 - row0
  {
    seq(row1 - row0, k requires 0 <= k < row1 - row0 =>
      assert RowShaped(v, row0 + k, group);
      DequantRow(v.codes[row0 + k], v.scales[row0 + k], v.zps[row0 + k], group))
  }

  // Reading in chunks gives all rows at once, whatever the chunk size; without rows there is nothing
  // to concatenate.
  method DequantAll(v: Vocabulary, group: nat, chunk: nat) returns (out: Option<seq<seq<real>>>)
    requires WellShaped(v, group) && chunk > 0
    ensures out == if |v.codes| == 0 then None else Some(DequantRows(v, 0, |v.codes|, group))
  {
    hide DequantRow;
    var n := |v.codes|;
    var parts: seq<seq<real>> := [];
    var r0 := 0;
    while r0 < n
      invariant parts == DequantRows(v, 0, if r0 <= n then r0 else n, group)
      decreases n - r0
    {
      var r1 := if r0 + chunk < n then r0 + chunk else n;
      parts := parts + DequantRows(v, r0, r1, group);
      r0 := r0 + chunk;
    }
    out := if n == 0 then None else Some(parts);
  }
}
