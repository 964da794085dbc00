/** One entry in the tensor directory of a legacy model file (convert_llama_ggml_to_gguf.py:101-131): little-endian
    words, slices that take negative bounds the way Python does, and a byte count that is a 64-bit number. The
    count is the true one, or negative, exactly under conditions on the dimensions. */
module GgmlEntries {
  import opened Outcomes
  import opened Wrappers

  type Byte = b: int | 0 <= b < 256

  // ---------- Bytes and words ----------

  const TWO32 := 0x1_0000_0000
  const TWO60 := 0x1000_0000_0000_0000
  const TWO63 := 0x8000_0000_0000_0000
  const TWO64 := 0x1_0000_0000_0000_0000

  // A slice bound: a negative one counts from the end, and all of them stop at the ends of the data.
  function Bound(size: nat, x: int): (r: nat)
    ensures r <= size
  {
    if x < 0 then (if x + size < 0 then 0 else x + size) else if x > size then size else x
  }

  // `data[from:to]`.
  function Slice(data: seq<Byte>, from: int, to: int): seq<Byte> {
    var lo, hi := Bound(|data|, from), Bound(|data|, to);
    if lo <= hi then data[lo..hi] else []
  }

  // A slice that is not empty and has its full length starts inside the data, or inside it counted from the end.
  lemma SliceWhole(data: seq<Byte>, from: int, to: int)
    requires from < to && |Slice(data, from, to)| == to - from
    ensures -|data| <= from < |data|
  {
  }

  function FromDigits(b0: int, b1: int, b2: int, b3: int): int {
    b0 + 0x100 * b1 + 0x1_0000 * b2 + 0x100_0000 * b3
  }

  // The words that a multiple of four bytes stands for.
  function Unpacked(s: seq<Byte>): (r: seq<nat>)
    requires |s| % 4 == 0
    ensures |r| == |s| / 4 && forall i :: 0 <= i < |r| ==> r[i] < TWO32
  {
    if s == [] then []
    else
      var n := |s| - 4;
      Unpacked(s[..n]) + [FromDigits(s[n], s[n + 1], s[n + 2], s[n + 3])]
  }

  // `k` words at an offset, or nothing when the slice is shorter than they are.
  function Words(data: seq<Byte>, offset: int, k: nat): (r: Option<seq<nat>>)
    ensures r.Some? ==> |r.value| == k && forall i :: 0 <= i < k ==> r.value[i] < TWO32
    ensures r.Some? && k > 0 ==> -|data| <= offset < |data|
  {
    var s := Slice(data, offset, offset + 4 * k);
    if |s| == 4 * k then
      if k > 0 then SliceWhole(data, offset, offset + 4 * k); Some(Unpacked(s)) else Some([])
    else None
  }

  function Low(n: nat): Byte {
    n % 0x100
  }

  function PutWord(n: nat): (s: seq<Byte>)
    requires n < TWO32
    ensures |s| == 4
  {
    [Low(n), Low(n / 0x100), Low(n / 0x1_0000), Low(n / 0x100_0000)]
  }

  function PutWords(ns: seq<nat>): (s: seq<Byte>)
    requires forall i :: 0 <= i < |ns| ==> ns[i] < TWO32
    ensures |s| == 4 * |ns|
  {
    if ns == [] then [] else PutWords(ns[..|ns| - 1]) + PutWord(ns[|ns| - 1])
  }

  lemma Digits(n: nat)
    requires n < TWO32
    ensures FromDigits(Low(n), Low(n / 0x100), Low(n / 0x1_0000), Low(n / 0x100_0000)) == n
  {
    var a: int := n / 0x100;
    var b: int := a / 0x100;
    assert b == n / 0x1_0000 && b / 0x100 == n / 0x100_0000;
  }

  lemma {:induction false} UnpackedPut(ns: seq<nat>)
    requires forall i :: 0 <= i < |ns| ==> ns[i] < TWO32
    ensures Unpacked(PutWords(ns)) == ns
    decreases |ns|
  {
    hide Low, FromDigits;
    if ns != [] {
      var init, last := ns[..|ns| - 1], ns[|ns| - 1];
      var s := PutWords(ns);
      UnpackedPut(init);
      Digits(last);
      assert s[..|s| - 4] == PutWords(init);
      assert init + [last] == ns;
    }
  }

  // The data holds `s` at `offset`.
  ghost predicate Holds(data: seq<Byte>, offset: nat, s: seq<Byte>) {
    offset + |s| <= |data| && data[offset..offset + |s|] == s
  }

  lemma HoldsParts(data: seq<Byte>, offset: nat, x: seq<Byte>, y: seq<Byte>)
    requires Holds(data, offset, x + y)
    ensures Holds(data, offset, x) && Holds(data, offset + |x|, y)
  {
    var s := data[offset..offset + |x + y|];
    assert data[offset..offset + |x|] == s[..|x|] == x;
    assert data[offset + |x|..offset + |x| + |y|] == s[|x|..] == y;
  }

  lemma ReadSlice(data: seq<Byte>, offset: nat, s: seq<Byte>)
    requires Holds(data, offset, s)
    ensures Slice(data, offset, offset + |s|) == s
  {
  }

  lemma WordsSliced(data: seq<Byte>, offset: int, k: nat, s: seq<Byte>)
    requires |s| == 4 * k && Slice(data, offset, offset + 4 * k) == s
    ensures Words(data, offset, k) == Some(Unpacked(s))
  {
    hide Slice, FromDigits;
  }

  lemma ReadWords(data: seq<Byte>, offset: nat, ns: seq<nat>)
    requires (forall i :: 0 <= i < |ns| ==> ns[i] < TWO32) && Holds(data, offset, PutWords(ns))
    ensures Words(data, offset, |ns|) == Some(ns)
  {
    hide Slice, Unpacked, PutWords, Holds, Words;
    ReadSlice(data, offset, PutWords(ns));
    WordsSliced(data, offset, |ns|, PutWords(ns));
    UnpackedPut(ns);
  }

  // ---------- Sizes ----------

  // Block size and bytes for a block, by tensor type.
  function QuantSize(dtype: nat): (r: Option<(nat, nat)>)
    ensures r.Some? ==> dtype < TWO32 && 0 < r.value.0 <= 256
  {
    match dtype
    case 0 => Some((1, 4)) case 1 => Some((1, 2))
    case 2 => Some((32, 18)) case 3 => Some((32, 20))
    case 6 => Some((32, 22)) case 7 => Some((32, 24)) case 8 => Some((32, 34)) case 9 => Some((32, 40))
    case 10 => Some((256, 84)) case 11 => Some((256, 110)) case 12 => Some((256, 144)) case 13 => Some((256, 176))
    case 14 => Some((256, 210)) case 15 => Some((256, 292))
    case 16 => Some((256, 66)) case 17 => Some((256, 74)) case 18 => Some((256, 98)) case 19 => Some((256, 50))
    case 20 => Some((32, 18)) case 21 => Some((256, 110)) case 22 => Some((256, 82)) case 23 => Some((256, 136))
    case 24 => Some((1, 1)) case 25 => Some((1, 2)) case 26 => Some((1, 4)) case 27 => Some((1, 8))
    case 28 => Some((1, 8)) case 29 => Some((256, 56)) case 30 => Some((1, 2)) case 34 => Some((256, 54))
    case 35 => Some((256, 66)) case 39 => Some((32, 17)) case 40 => Some((64, 36)) case 41 => Some((128, 18))
    case 42 => Some((64, 18))
    case _ => None
  }

  // 64-bit arithmetic wraps around.
  function Wrap(n: int): (r: int)
    ensures -TWO63 <= r < TWO63
  {
    (n + TWO63) % TWO64 - TWO63
  }

  function WrappedProduct(dims: seq<nat>): int {
    if dims == [] then 1 else Wrap(WrappedProduct(dims[..|dims| - 1]) * dims[|dims| - 1])
  }

  function Product(dims: seq<nat>): nat {
    if dims == [] then 1 else Product(dims[..|dims| - 1]) * dims[|dims| - 1]
  }

  // The number of bytes as 64-bit numbers give it: both products wrap around, and the quotient is rounded down.
  function WrappedBytes(dims: seq<nat>, blockSize: nat, typeSize: nat): int
    requires blockSize > 0
  {
    Quotient(Wrap(WrappedProduct(dims) * typeSize), blockSize)
  }

  // The bytes of the blocks before they are divided by the block size.
  function BlockBytes(dims: seq<nat>, typeSize: nat): nat {
    Product(dims) * typeSize
  }

  function Quotient(n: int, d: nat): int
    requires d > 0
  {
    n / d
  }

  lemma WrapShift(n: int, q: int)
    ensures Wrap(n + TWO64 * q) == Wrap(n)
  {
  }

  lemma WrapDistance(n: int) returns (q: int)
    ensures Wrap(n) == n + TWO64 * q
  {
    q := -((n + TWO63) / TWO64);
  }

  lemma WrapTimes(a: int, b: int)
    ensures Wrap(Wrap(a) * b) == Wrap(a * b)
  {
    hide Wrap;
    var q := WrapDistance(a);
    assert Wrap(a) * b == a * b + TWO64 * (q * b);
    WrapShift(a * b, q * b);
  }

  lemma {:induction false} ProductWraps(dims: seq<nat>)
    ensures WrappedProduct(dims) == Wrap(Product(dims))
    decreases |dims|
  {
    if dims != [] {
      var init, last := dims[..|dims| - 1], dims[|dims| - 1];
      hide Wrap;
      ProductWraps(init);
      WrapTimes(Product(init), last);
    }
  }

  // Wrapping around on the way does no more harm than wrapping around once at the end.
  lemma BytesWrap(dims: seq<nat>, blockSize: nat, typeSize: nat)
    requires blockSize > 0
    ensures WrappedBytes(dims, blockSize, typeSize) == Quotient(Wrap(BlockBytes(dims, typeSize)), blockSize)
  {
    hide Wrap, Product, WrappedProduct, Quotient;
    ProductWraps(dims);
    WrapTimes(Product(dims), typeSize);
  }

  lemma WrapExact(n: nat)
    ensures Wrap(n) == n <==> n < TWO63
    ensures Wrap(n) < 0 <==> n % TWO64 >= TWO63
    ensures n >= TWO63 ==> Wrap(n) <= n - TWO64
  {
  }

  lemma QuotientExact(w: int, n: nat, d: nat)
    requires 0 < d <= 256 && (w == n || w <= n - TWO64)
    ensures Quotient(w, d) == Quotient(n, d) <==> w == n
    ensures Quotient(w, d) < 0 <==> w < 0
  {
    if w != n {
      assert w + d <= n;
      QuotientBelow(w, n, d);
    }
  }

  lemma QuotientBelow(w: int, n: int, d: nat)
    requires d > 0 && w + d <= n
    ensures Quotient(w, d) < Quotient(n, d)
  {
    var q, p := w / d, n / d;
    assert d * q <= w && n < d * (p + 1);
    assert d * (q + 1) == d * q + d;
    TimesOrder(d, p + 1, q + 1);
  }

  lemma TimesOrder(d: nat, a: int, b: int)
    requires d > 0
    ensures a <= b ==> d * a <= d * b
  {
    if a <= b {
      assert d * b - d * a == d * (b - a);
    }
  }

  // The count of a tensor is the true one exactly when its blocks have fewer than 2^63 bytes; it is negative
  // exactly when their number of bytes, modulo 2^64, has the sign bit.
  lemma CountExact(dims: seq<nat>, blockSize: nat, typeSize: nat)
    requires 0 < blockSize <= 256
    ensures (WrappedBytes(dims, blockSize, typeSize) == Quotient(BlockBytes(dims, typeSize), blockSize))
            <==> BlockBytes(dims, typeSize) < TWO63
    ensures WrappedBytes(dims, blockSize, typeSize) < 0 <==> BlockBytes(dims, typeSize) % TWO64 >= TWO63
    ensures -TWO63 <= WrappedBytes(dims, blockSize, typeSize) < TWO63
  {
    hide Wrap, WrappedBytes, BlockBytes, Quotient;
    BytesWrap(dims, blockSize, typeSize);
    var n := BlockBytes(dims, typeSize);
    WrapExact(n);
    QuotientExact(Wrap(n), n, blockSize);
    QuotientSmaller(Wrap(n), blockSize);
  }

  lemma QuotientSmaller(w: int, d: nat)
    requires d > 0 && -TWO63 <= w < TWO63
    ensures -TWO63 <= Quotient(w, d) < TWO63
  {
    var q := w / d;
    assert d * q <= w < d * (q + 1);
    TimesOrder(d, q + 1, -TWO63);
    TimesOrder(d, TWO63, q);
  }

  // ---------- Entries ----------

  // A tensor in the directory: where its bytes start and how many they are, as the reader computes it.
  datatype Entry = Entry(name: seq<Byte>, dims: seq<nat>, dtype: nat, start: int, len: int)

  function EndOf(e: Entry): int {
    e.start + e.len
  }

  // The next multiple of 32.
  function Aligned(offset: int): (r: int)
    ensures offset <= r < offset + 32 && r % 32 == 0
  {
    (offset + 31) / 32 * 32
  }

  // The count belongs to the dimensions and the type.
  predicate Counted(e: Entry) {
    && QuantSize(e.dtype).Some?
    && var quant := QuantSize(e.dtype).value;
       e.len == WrappedBytes(e.dims, quant.0, quant.1)
  }

  // The number of bytes does not have the sign bit.
  predicate CountFits(e: Entry) {
    QuantSize(e.dtype).Some? && BlockBytes(e.dims, QuantSize(e.dtype).value.1) % TWO64 < TWO63
  }

  lemma CountSign(e: Entry)
    requires Counted(e)
    ensures e.len >= 0 <==> CountFits(e)
    ensures -TWO63 <= e.len < TWO63
  {
    hide WrappedBytes, BlockBytes, QuantSize;
    var quant := QuantSize(e.dtype).value;
    CountExact(e.dims, quant.0, quant.1);
  }

  function LoadTensor(data: seq<Byte>, offset: int, padding: bool): (r: Result<Entry>)
    ensures r.Ok? ==> -|data| <= offset < |data| && offset + 12 <= r.value.start < offset + 12 + 16 + 4096 + 32
    ensures r.Ok? && padding ==> r.value.start % 32 == 0
    ensures r.Ok? ==> Counted(r.value)
  {
    hide WrappedBytes, Words, QuantSize;
    match Words(data, offset, 3)
    case None => Error
    case Some(fields) =>
      var nDims, nameLen, dtype := fields[0], fields[1], fields[2];
      if nDims > 4 || nameLen >= 4096 then Error
      else
        match (QuantSize(dtype), Words(data, offset + 12, nDims))
        case (Some((blockSize, typeSize)), Some(dims)) =>
          var atName := offset + 12 + 4 * nDims;
          var afterName := atName + nameLen;
          Ok(Entry(Slice(data, atName, afterName), dims, dtype, if padding then Aligned(afterName) else afterName,
                   WrappedBytes(dims, blockSize, typeSize)))
        case (_, _) => Error
  }

  // What the fields of an entry make of it.
  lemma TensorFrom(data: seq<Byte>, offset: int, padding: bool, dims: seq<nat>, name: seq<Byte>, dtype: nat)
    requires |dims| <= 4 && |name| < 4096 && QuantSize(dtype).Some?
    requires Words(data, offset, 3) == Some([|dims|, |name|, dtype]) && Words(data, offset + 12, |dims|) == Some(dims)
    ensures var atName := offset + 12 + 4 * |dims|;
            var quant := QuantSize(dtype).value;
            LoadTensor(data, offset, padding) ==
              Ok(Entry(Slice(data, atName, atName + |name|), dims, dtype,
                       if padding then Aligned(atName + |name|) else atName + |name|,
                       WrappedBytes(dims, quant.0, quant.1)))
  {
    hide WrappedBytes, Words, QuantSize, Aligned, Slice;
  }

  // ---------- A reference writer for one tensor ----------

  datatype Tensor = Tensor(name: seq<Byte>, dims: seq<nat>, dtype: nat, payload: seq<Byte>)

  predicate WritableTensor(t: Tensor) {
    && |t.dims| <= 4 && (forall i :: 0 <= i < |t.dims| ==> t.dims[i] < TWO32) && |t.name| < 4096
    && QuantSize(t.dtype).Some?
    && var quant := QuantSize(t.dtype).value;
       BlockBytes(t.dims, quant.1) < TWO63 && |t.payload| == Quotient(BlockBytes(t.dims, quant.1), quant.0)
  }

  // Everything in front of the padding.
  function PutFields(t: Tensor): (s: seq<Byte>)
    requires WritableTensor(t)
    ensures |s| == 12 + 4 * |t.dims| + |t.name|
  {
    PutWords([|t.dims|, |t.name|, t.dtype]) + (PutWords(t.dims) + t.name)
  }

  // The directory entry of a tensor that is written at `offset`.
  function EntryOf(t: Tensor, offset: nat, padding: bool): (e: Entry)
    ensures e.start >= offset + 12 + 4 * |t.dims| + |t.name| && e.len == |t.payload|
  {
    var afterName := offset + 12 + 4 * |t.dims| + |t.name|;
    Entry(t.name, t.dims, t.dtype, if padding then Aligned(afterName) else afterName, |t.payload|)
  }

  function Blank(n: nat): (s: seq<Byte>)
    ensures |s| == n
  {
    seq(n, _ => 0)
  }

  function PutTensor(t: Tensor, offset: nat, padding: bool): (s: seq<Byte>)
    requires WritableTensor(t)
    ensures offset + |s| == EndOf(EntryOf(t, offset, padding)) && |s| >= |PutFields(t)| + |t.payload|
    ensures s[..|PutFields(t)|] == PutFields(t)
  {
    PutFields(t) + (Blank(EntryOf(t, offset, padding).start - offset - |PutFields(t)|) + t.payload)
  }

  lemma FieldsHeld(data: seq<Byte>, offset: nat, t: Tensor)
    requires WritableTensor(t) && Holds(data, offset, PutFields(t))
    ensures Words(data, offset, 3) == Some([|t.dims|, |t.name|, t.dtype])
    ensures Words(data, offset + 12, |t.dims|) == Some(t.dims)
    ensures var atName := offset + 12 + 4 * |t.dims|; Slice(data, atName, atName + |t.name|) == t.name
  {
    hide PutWords, Words, QuantSize, Slice, Holds;
    var fields := [|t.dims|, |t.name|, t.dtype];
    HoldsParts(data, offset, PutWords(fields), PutWords(t.dims) + t.name);
    HoldsParts(data, offset + 12, PutWords(t.dims), t.name);
    ReadWords(data, offset, fields);
    ReadWords(data, offset + 12, t.dims);
    ReadSlice(data, offset + 12 + 4 * |t.dims|, t.name);
  }

  // Reading an entry gives back what was written, whatever there is of the bytes it stands for.
  lemma TensorRead(data: seq<Byte>, offset: nat, t: Tensor, padding: bool)
    requires WritableTensor(t) && Holds(data, offset, PutFields(t))
    ensures LoadTensor(data, offset, padding) == Ok(EntryOf(t, offset, padding))
  {
    hide Words, QuantSize, WrappedBytes, BlockBytes, Aligned, Slice, PutFields, LoadTensor;
    FieldsHeld(data, offset, t);
    var quant := QuantSize(t.dtype).value;
    CountExact(t.dims, quant.0, quant.1);
    TensorFrom(data, offset, padding, t.dims, t.name, t.dtype);
  }
}
