/** Reading legacy model files (convert_llama_ggml_to_gguf.py:59-200): three container formats, their
    hyperparameters and vocabulary, and the scan over the tensor directory. Reading what a reference writer wrote
    gives it back; in any file that loads, the byte ranges are in order exactly when no byte count wrapped around
    to a negative number. */
module GgmlFile {
  import opened GgmlEntries
  import opened GgmlScan
  import opened Outcomes
  import opened Wrappers

  datatype Format = GGML | GGMF | GGJT

  // ---------- Hyperparameters ----------

  datatype Hyperparameters = Hyperparameters(nVocab: nat, nEmbd: nat, nMult: nat, nHead: nat, nLayer: nat, nRot: nat,
                                             ftype: nat)

  predicate KnownFtype(n: nat) {
    n <= 4 || 7 <= n <= 18
  }

  function LoadHyperparameters(data: seq<Byte>, offset: nat): Result<Hyperparameters> {
    match Words(data, offset, 7)
    case None => Error
    case Some(w) =>
      var hp := Hyperparameters(w[0], w[1], w[2], w[3], w[4], w[5], w[6]);
      if KnownFtype(hp.ftype) then Ok(hp) else Error
  }

  function Fields(hp: Hyperparameters): seq<nat> {
    [hp.nVocab, hp.nEmbd, hp.nMult, hp.nHead, hp.nLayer, hp.nRot, hp.ftype]
  }

  predicate WritableHyperparameters(hp: Hyperparameters) {
    (forall i :: 0 <= i < 7 ==> Fields(hp)[i] < TWO32) && KnownFtype(hp.ftype)
  }

  function PutHyperparameters(hp: Hyperparameters): (s: seq<Byte>)
    requires WritableHyperparameters(hp)
    ensures |s| == 28
  {
    PutWords(Fields(hp))
  }

  lemma HyperparametersRead(data: seq<Byte>, offset: nat, hp: Hyperparameters)
    requires WritableHyperparameters(hp) && Holds(data, offset, PutHyperparameters(hp))
    ensures LoadHyperparameters(data, offset) == Ok(hp)
  {
    hide Words, PutWords, Holds;
    ReadWords(data, offset, Fields(hp));
  }

  // ---------- Vocabulary ----------

  // An item: its text, and the four bytes of its score (zeros when the format has none).
  datatype Item = Item(text: seq<Byte>, score: seq<Byte>)

  const NO_SCORE: seq<Byte> := [0, 0, 0, 0]

  function LoadItem(data: seq<Byte>, offset: nat, scores: bool): (r: Result<(Item, nat)>)
    ensures r.Ok? ==> r.value.1 >= offset + 4
  {
    match Words(data, offset, 1)
    case None => Error
    case Some(word) =>
      var len := word[0];
      if len >= 4096 then Error
      else
        var next := offset + 4 + len;
        var text := Slice(data, offset + 4, next);
        if !scores then Ok((Item(text, NO_SCORE), next))
        else
          var score := Slice(data, next, next + 4);
          if |score| < 4 then Error else Ok((Item(text, score), next + 4))
  }

  // The first `n` items, and where they end.
  function LoadItems(data: seq<Byte>, offset: nat, n: nat, scores: bool): Result<(seq<Item>, nat)> {
    if n == 0 then Ok(([], offset))
    else
      match LoadItems(data, offset, n - 1, scores)
      case Error => Error
      case Ok((items, next)) =>
        match LoadItem(data, next, scores)
        case Error => Error
        case Ok((item, end)) => Ok((items + [item], end))
  }

  method LoadVocab(data: seq<Byte>, offset0: nat, n: nat, scores: bool) returns (r: Result<(seq<Item>, nat)>)
    ensures r == LoadItems(data, offset0, n, scores)
  {
    hide LoadItem;
    var offset := offset0;
    var items: seq<Item> := [];
    for k := 0 to n
      invariant LoadItems(data, offset0, k, scores) == Ok((items, offset))
    {
      var item := LoadItem(data, offset, scores);
      if item.Error? {
        ItemsFail(data, offset0, k + 1, n, scores);
        return Error;
      }
      items := items + [item.value.0];
      offset := item.value.1;
    }
    r := Ok((items, offset));
  }

  lemma {:induction false} ItemsFail(data: seq<Byte>, offset: nat, k: nat, n: nat, scores: bool)
    requires k <= n && LoadItems(data, offset, k, scores).Error?
    ensures LoadItems(data, offset, n, scores).Error?
    decreases n
  {
    if k < n {
      ItemsFail(data, offset, k, n - 1, scores);
    }
  }

  predicate WritableItem(item: Item, scores: bool) {
    |item.text| < 4096 && |item.score| == 4 && (scores || item.score == NO_SCORE)
  }

  function PutItem(item: Item, scores: bool): seq<Byte>
    requires WritableItem(item, scores)
  {
    PutWords([|item.text|]) + (item.text + if scores then item.score else [])
  }

  function PutItems(items: seq<Item>, scores: bool): seq<Byte>
    requires forall i :: 0 <= i < |items| ==> WritableItem(items[i], scores)
  {
    if items == [] then [] else PutItems(items[..|items| - 1], scores) + PutItem(items[|items| - 1], scores)
  }

  lemma ItemRead(data: seq<Byte>, offset: nat, item: Item, scores: bool)
    requires WritableItem(item, scores) && Holds(data, offset, PutItem(item, scores))
    ensures LoadItem(data, offset, scores) == Ok((item, offset + |PutItem(item, scores)|))
  {
    hide Words, PutWords, Holds, Slice;
    var score := if scores then item.score else [];
    var length: seq<nat> := [|item.text|];
    HoldsParts(data, offset, PutWords(length), item.text + score);
    HoldsParts(data, offset + 4, item.text, score);
    ReadWords(data, offset, length);
    ReadSlice(data, offset + 4, item.text);
    ReadSlice(data, offset + 4 + |item.text|, score);
  }

  lemma {:induction false} ItemsRead(data: seq<Byte>, offset: nat, items: seq<Item>, scores: bool)
    requires forall i :: 0 <= i < |items| ==> WritableItem(items[i], scores)
    requires Holds(data, offset, PutItems(items, scores))
    ensures LoadItems(data, offset, |items|, scores) == Ok((items, offset + |PutItems(items, scores)|))
    decreases |items|
  {
    hide LoadItem, PutItem, WritableItem, Holds;
    if items != [] {
      var init, last := items[..|items| - 1], items[|items| - 1];
      HoldsParts(data, offset, PutItems(init, scores), PutItem(last, scores));
      ItemsRead(data, offset, init, scores);
      ItemRead(data, offset + |PutItems(init, scores)|, last, scores);
      assert init + [last] == items;
    } else {
      assert items == [];
    }
  }

  // ---------- Header and eligibility ----------

  const MAGIC_GGUF: seq<Byte> := [71, 71, 85, 70]
  const MAGIC_GGML: seq<Byte> := [108, 109, 103, 103]
  const MAGIC_GGMF: seq<Byte> := [102, 109, 103, 103]
  const MAGIC_GGJT: seq<Byte> := [116, 106, 103, 103]

  datatype Header = Header(format: Format, version: nat)

  function HeaderSize(h: Header): nat {
    if h.format == GGML then 4 else 8
  }

  predicate ValidHeader(h: Header) {
    match h.format
    case GGJT => 1 <= h.version <= 3
    case _ => h.version == 1
  }

  function LoadHeader(data: seq<Byte>): Result<Header> {
    var magic := Slice(data, 0, 4);
    if magic == MAGIC_GGUF then Error
    else if magic == MAGIC_GGML then Ok(Header(GGML, 1))
    else
      match Words(data, 4, 1)
      case None => Error
      case Some(word) =>
        var version := word[0];
        if magic == MAGIC_GGMF then (if version != 1 then Error else Ok(Header(GGMF, version)))
        else if magic == MAGIC_GGJT then (if version < 1 || version > 3 then Error else Ok(Header(GGJT, version)))
        else Error
  }

  function PutHeader(h: Header): (s: seq<Byte>)
    requires ValidHeader(h)
    ensures |s| == HeaderSize(h)
  {
    match h.format
    case GGML => MAGIC_GGML
    case GGMF => MAGIC_GGMF + PutWords([h.version])
    case GGJT => MAGIC_GGJT + PutWords([h.version])
  }

  // Quantised files are only taken from the versions whose layouts are still in use.
  predicate Eligible(h: Header, ftype: nat) {
    if h.format != GGJT || h.version < 2 then ftype <= 1
    else if h.version == 2 then ftype != 2 && ftype != 3 && ftype != 4 && ftype != 7
    else true
  }

  lemma HeaderRead(data: seq<Byte>, h: Header)
    requires ValidHeader(h) && Holds(data, 0, PutHeader(h))
    ensures LoadHeader(data) == Ok(h)
  {
    hide Words, PutWords;
    if h.format == GGML {
      ReadSlice(data, 0, MAGIC_GGML);
    } else {
      var magic := if h.format == GGMF then MAGIC_GGMF else MAGIC_GGJT;
      var version: seq<nat> := [h.version];
      HoldsParts(data, 0, magic, PutWords(version));
      ReadSlice(data, 0, magic);
      ReadWords(data, 4, version);
    }
  }

  predicate StartsWith(data: seq<Byte>, s: seq<Byte>) {
    |s| <= |data| && data[..|s|] == s
  }

  // The headers that are accepted, byte by byte: "lmgg"; "fmgg" and a 1; "tjgg" and a 1, 2 or 3.
  predicate KnownHeader(data: seq<Byte>, h: Header) {
    || (h == Header(GGML, 1) && StartsWith(data, [108, 109, 103, 103]))
    || (h == Header(GGMF, 1) && StartsWith(data, [102, 109, 103, 103, 1, 0, 0, 0]))
    || (h.format == GGJT && 1 <= h.version <= 3 && StartsWith(data, [116, 106, 103, 103, h.version, 0, 0, 0]))
  }

  // A small word is its lowest byte.
  lemma SmallWord(data: seq<Byte>, v: nat)
    requires v < 256
    ensures Words(data, 4, 1) == Some([v]) <==> |data| >= 8 && data[4..8] == [v, 0, 0, 0]
  {
    if |data| >= 8 {
      var s := data[4..8];
      assert Slice(data, 4, 8) == s;
      assert s[..0] == [] && Unpacked(s[..0]) == [];
      assert Unpacked(s) == [FromDigits(s[0], s[1], s[2], s[3])];
      assert s == [s[0], s[1], s[2], s[3]];
    }
  }

  lemma HeaderExact(data: seq<Byte>, h: Header)
    ensures LoadHeader(data) == Ok(h) <==> KnownHeader(data, h)
  {
    var magic := Slice(data, 0, 4);
    assert |data| >= 4 ==> magic == data[..4];
    SmallWord(data, 1);
    SmallWord(data, 2);
    SmallWord(data, 3);
    hide Words, Slice;
    HeaderParts(data, 1);
    HeaderParts(data, h.version);
    hide StartsWith;
  }

  lemma HeaderParts(data: seq<Byte>, v: nat)
    ensures v < 256 ==>
              && (StartsWith(data, [102, 109, 103, 103, v, 0, 0, 0])
                  <==> |data| >= 8 && data[..4] == MAGIC_GGMF && data[4..8] == [v, 0, 0, 0])
              && (StartsWith(data, [116, 106, 103, 103, v, 0, 0, 0])
                  <==> |data| >= 8 && data[..4] == MAGIC_GGJT && data[4..8] == [v, 0, 0, 0])
  {
    if v < 256 && |data| >= 8 {
      assert data[..8] == data[..4] + data[4..8];
      assert MAGIC_GGMF + [v, 0, 0, 0] == [102, 109, 103, 103, v, 0, 0, 0];
      assert MAGIC_GGJT + [v, 0, 0, 0] == [116, 106, 103, 103, v, 0, 0, 0];
      HeadTail(data[..4], data[4..8], MAGIC_GGMF, [v, 0, 0, 0]);
      HeadTail(data[..4], data[4..8], MAGIC_GGJT, [v, 0, 0, 0]);
    }
  }

  lemma HeadTail(x: seq<Byte>, y: seq<Byte>, x': seq<Byte>, y': seq<Byte>)
    requires |x| == |x'|
    ensures x + y == x' + y' <==> x == x' && y == y'
  {
    if x + y == x' + y' {
      assert x == (x + y)[..|x|] && y == (x + y)[|x|..];
      assert x' == (x' + y')[..|x|] && y' == (x' + y')[|x|..];
    }
  }

  // ---------- Whole files ----------

  datatype Contents = Contents(header: Header, hp: Hyperparameters, items: seq<Item>, tensors: seq<Tensor>)

  predicate WritableContents(c: Contents) {
    && ValidHeader(c.header) && WritableHyperparameters(c.hp) && Eligible(c.header, c.hp.ftype)
    && c.hp.nVocab == |c.items|
    && (forall i :: 0 <= i < |c.items| ==> WritableItem(c.items[i], c.header.format != GGML))
    && forall i :: 0 <= i < |c.tensors| ==> WritableTensor(c.tensors[i])
  }

  function DirectoryStart(c: Contents): nat
    requires WritableContents(c)
  {
    HeaderSize(c.header) + 28 + |PutItems(c.items, c.header.format != GGML)|
  }

  function PutFile(c: Contents): seq<Byte>
    requires WritableContents(c)
  {
    PutFront(c) + PutTensors(c.tensors, DirectoryStart(c), c.header.format == GGJT)
  }

  datatype Loaded =
    | Loaded(header: Header, hp: Hyperparameters, items: seq<Item>, entries: seq<Entry>, end: int)
    | Failed
    | Endless

  function LoadFile(data: seq<Byte>): Loaded {
    match LoadHeader(data)
    case Error => Failed
    case Ok(header) =>
      match LoadHyperparameters(data, HeaderSize(header))
      case Error => Failed
      case Ok(hp) =>
        if !Eligible(header, hp.ftype) then Failed
        else
          match LoadItems(data, HeaderSize(header) + 28, hp.nVocab, header.format != GGML)
          case Error => Failed
          case Ok((items, offset)) =>
            match LoadTensors(data, offset, header.format == GGJT)
            case Directory(entries, end) => Loaded(header, hp, items, entries, end)
            case Unreadable => Failed
            case Unfinished => Endless
  }

  // What is in front of the directory.
  function PutFront(c: Contents): (s: seq<Byte>)
    requires WritableContents(c)
    ensures |s| == DirectoryStart(c)
  {
    PutHeader(c.header) + (PutHyperparameters(c.hp) + PutItems(c.items, c.header.format != GGML))
  }

  lemma FrontRead(data: seq<Byte>, c: Contents)
    requires WritableContents(c) && Holds(data, 0, PutFront(c))
    ensures LoadHeader(data) == Ok(c.header) && LoadHyperparameters(data, HeaderSize(c.header)) == Ok(c.hp)
    ensures LoadItems(data, HeaderSize(c.header) + 28, |c.items|, c.header.format != GGML)
            == Ok((c.items, DirectoryStart(c)))
  {
    hide LoadHeader, LoadHyperparameters, LoadItems, PutHeader, PutHyperparameters, PutItems, WritableItem,
         WritableTensor, WritableHyperparameters, Holds;
    var scores := c.header.format != GGML;
    var items := PutItems(c.items, scores);
    HoldsParts(data, 0, PutHeader(c.header), PutHyperparameters(c.hp) + items);
    HoldsParts(data, HeaderSize(c.header), PutHyperparameters(c.hp), items);
    HeaderRead(data, c.header);
    HyperparametersRead(data, HeaderSize(c.header), c.hp);
    ItemsRead(data, HeaderSize(c.header) + 28, c.items, scores);
  }

  // Loading what was written gives back the hyperparameters, the vocabulary and the directory. The bytes of the
  // last tensor play no part: any number of them may be cut off, and the directory then reaches past the end.
  lemma FileRead(c: Contents, cut: nat)
    requires WritableContents(c) && |PutFile(c)| < TWO63 && cut <= Unread(c.tensors)
    ensures cut <= |PutFile(c)|
    ensures var data := PutFile(c)[..|PutFile(c)| - cut];
            LoadFile(data) == Loaded(c.header, c.hp, c.items,
                                     EntriesOf(c.tensors, DirectoryStart(c), c.header.format == GGJT),
                                     |data| + cut)
  {
    hide LoadHeader, LoadHyperparameters, LoadItems, ScanUpTo, PutFront, PutTensors, WritableItem, WritableTensor,
         WritableHyperparameters, Holds, Unread, EntriesOf;
    var padding := c.header.format == GGJT;
    var front, tensors := PutFront(c), PutTensors(c.tensors, DirectoryStart(c), padding);
    UnreadInside(c.tensors, DirectoryStart(c), padding);
    var data := PutFile(c)[..|PutFile(c)| - cut];
    FrontHeld(data, front, tensors, cut);
    FrontRead(data, c);
    TensorsRead(data, DirectoryStart(c), c.tensors, padding, cut);
    EndsAs(data, padding, DirectoryStart(c), |c.tensors|);
  }

  lemma FrontHeld(data: seq<Byte>, front: seq<Byte>, tensors: seq<Byte>, cut: nat)
    requires cut <= |tensors| && data == (front + tensors)[..|front| + |tensors| - cut]
    ensures Holds(data, 0, front) && data[|front|..] <= tensors
  {
    assert data[0..|front|] == front;
    assert data[|front|..] == tensors[..|tensors| - cut];
  }

  lemma {:induction false} ItemsAdvance(data: seq<Byte>, offset: nat, n: nat, scores: bool)
    ensures LoadItems(data, offset, n, scores).Ok? ==> LoadItems(data, offset, n, scores).value.1 >= offset + 4 * n
    decreases n
  {
    hide LoadItem;
    if n > 0 {
      ItemsAdvance(data, offset, n - 1, scores);
    }
  }

  // In any file that loads, the tensors follow each other behind header, hyperparameters and vocabulary; they are
  // in order exactly when no number of bytes has the sign bit modulo 2^64.
  lemma FileInOrder(data: seq<Byte>)
    requires LoadFile(data).Loaded? && |data| < TWO60
    ensures var f := LoadFile(data);
            var behind := HeaderSize(f.header) + 28 + 4 * f.hp.nVocab;
            && Chained(f.entries, behind, |data|, f.header.format == GGJT)
            && (InOrder(f.entries, behind) <==> forall i :: 0 <= i < |f.entries| ==> CountFits(f.entries[i]))
            && f.end >= |data|
  {
    hide LoadHeader, LoadHyperparameters, LoadItems, LoadTensors, InOrder, Chained, CountFits;
    var f := LoadFile(data);
    var scores, from, padding := f.header.format != GGML, HeaderSize(f.header) + 28, f.header.format == GGJT;
    ItemsAdvance(data, from, f.hp.nVocab, scores);
    var offset := LoadItems(data, from, f.hp.nVocab, scores).value.1;
    DirectoryInOrder(data, offset, padding);
    ChainedFrom(f.entries, offset, from + 4 * f.hp.nVocab, |data|, padding);
    ChainFits(f.entries, offset, |data|, padding);
    ChainFits(f.entries, from + 4 * f.hp.nVocab, |data|, padding);
  }

  lemma ChainedFrom(entries: seq<Entry>, offset: int, lower: int, size: int, padding: bool)
    requires Chained(entries, offset, size, padding) && lower <= offset
    ensures Chained(entries, lower, size, padding)
  {
    hide Counted;
  }

  // When a file is never read to its end, some count in the directory wrapped around to a negative number.
  lemma EndlessWrapped(data: seq<Byte>)
    requires LoadFile(data).Endless? && |data| < TWO60
    ensures var header := LoadHeader(data).value;
            var hp := LoadHyperparameters(data, HeaderSize(header)).value;
            var vocab := LoadItems(data, HeaderSize(header) + 28, hp.nVocab, header.format != GGML);
            !CountsFit(data, header.format == GGJT, vocab.value.1)
  {
    hide LoadHeader, LoadHyperparameters, LoadItems, LoadTensors, CountsFit;
    var header := LoadHeader(data).value;
    var hp := LoadHyperparameters(data, HeaderSize(header)).value;
    var offset := LoadItems(data, HeaderSize(header) + 28, hp.nVocab, header.format != GGML).value.1;
    if CountsFit(data, header.format == GGJT, offset) {
      FittingEnds(data, header.format == GGJT, offset);
    }
  }

  // ---------- Files on which the count goes wrong ----------

  // The fields of a tensor of bytes with these dimensions and a name of `nameLen` bytes.
  function ByteFields(dims: seq<nat>, nameLen: nat): (s: seq<Byte>)
    requires |dims| < TWO32 && nameLen < TWO32 && forall i :: 0 <= i < |dims| ==> dims[i] < TWO32
    ensures |s| == 12 + 4 * |dims|
  {
    PutWords([|dims|, nameLen, 24]) + PutWords(dims)
  }

  // 64 * (2^29 - 1) * (2^29 + 1) is 64 short of 2^64.
  const ALMOST: seq<nat> := [64, 0x1FFF_FFFF, 0x2000_0001]

  lemma AlmostWraps()
    ensures WrappedBytes(ALMOST, 1, 1) == -64
  {
    assert ALMOST[..2] == [64, 0x1FFF_FFFF] && ALMOST[..2][..1] == [64] && ALMOST[..2][..1][..0] == [];
    assert WrappedProduct(ALMOST[..2][..1]) == 64;
    assert WrappedProduct(ALMOST[..2]) == 64 * 0x1FFF_FFFF;
    assert 64 * 0x1FFF_FFFF * 0x2000_0001 == TWO64 - 64;
    assert WrappedProduct(ALMOST) == -64;
  }

  // A file in the oldest format without vocabulary, which holds `rest` behind its 32 bytes of header.
  function Bare(rest: seq<Byte>): seq<Byte> {
    PutHeader(Header(GGML, 1)) + PutHyperparameters(Hyperparameters(0, 0, 0, 0, 0, 0, 0)) + rest
  }

  lemma BareRead(rest: seq<Byte>)
    ensures var data := Bare(rest);
            && LoadHeader(data) == Ok(Header(GGML, 1)) && Holds(data, 32, rest) && |data| == 32 + |rest|
            && LoadHyperparameters(data, 4) == Ok(Hyperparameters(0, 0, 0, 0, 0, 0, 0))
            && LoadItems(data, 32, 0, false) == Ok(([], 32))
  {
    hide LoadHeader, LoadHyperparameters, PutHeader, PutHyperparameters;
    var data, header, hp := Bare(rest), Header(GGML, 1), Hyperparameters(0, 0, 0, 0, 0, 0, 0);
    assert Holds(data, 0, PutHeader(header)) && Holds(data, 4, PutHyperparameters(hp)) && Holds(data, 32, rest);
    HeaderRead(data, header);
    HyperparametersRead(data, 4, hp);
  }

  lemma AlmostRead(data: seq<Byte>, offset: nat, nameLen: nat)
    requires nameLen < 4096 && Holds(data, offset, ByteFields(ALMOST, nameLen))
    ensures LoadTensor(data, offset, false).Ok?
    ensures var e := LoadTensor(data, offset, false).value;
            e.start == offset + 24 + nameLen && e.len == -64 && QuantSize(e.dtype) == Some((1, 1)) && e.dims == ALMOST
  {
    hide Words, WrappedBytes, PutWords, Slice;
    var fields: seq<nat> := [3, nameLen, 24];
    HoldsParts(data, offset, PutWords(fields), PutWords(ALMOST));
    ReadWords(data, offset, fields);
    ReadWords(data, offset + 12, ALMOST);
    AlmostWraps();
  }

  // With a name of 40 bytes the count takes the scan back to where the entry began: it never ends.
  lemma EndlessExample()
    ensures LoadFile(Bare(ByteFields(ALMOST, 40) + Blank(40))) == Endless
  {
    hide LoadHeader, LoadHyperparameters, LoadItems, LoadTensors, LoadTensor, Bare, ByteFields, After, Holds;
    var rest := ByteFields(ALMOST, 40) + Blank(40);
    var data := Bare(rest);
    BareRead(rest);
    HoldsParts(data, 32, ByteFields(ALMOST, 40), Blank(40));
    AlmostRead(data, 32, 40);
    SelfLoop(data, false, 32);
  }

  // With a long name that is cut off, the same count lets the file load, with a range that ends before it starts.
  lemma NegativeCountExample()
    ensures var f := LoadFile(Bare(ByteFields(ALMOST, 4000)));
            f.Loaded? && |f.entries| == 1 && EndOf(f.entries[0]) < f.entries[0].start
            && !CountFits(f.entries[0]) && !InOrder(f.entries, 32)
  {
    hide LoadHeader, LoadHyperparameters, LoadItems, LoadTensors, LoadTensor, Bare, ByteFields, Holds, CountFits;
    var rest := ByteFields(ALMOST, 4000);
    var data := Bare(rest);
    BareRead(rest);
    AlmostRead(data, 32, 4000);
    OneEntry(data, false, 32);
    CountSign(LoadTensor(data, 32, false).value);
  }

  // A file with one tensor of five bytes loads without any of them.
  lemma MissingBytesExample()
    ensures var t := Tensor([], [5], 24, [1, 2, 3, 4, 5]);
            var c := Contents(Header(GGML, 1), Hyperparameters(0, 0, 0, 0, 0, 0, 0), [], [t]);
            && WritableContents(c) && |PutFile(c)| == 53
            && LoadFile(PutFile(c)[..48]).Loaded? && LoadFile(PutFile(c)[..48]).end == 53
  {
    hide LoadFile, PutFront;
    var t := Tensor([], [5], 24, [1, 2, 3, 4, 5]);
    var c := Contents(Header(GGML, 1), Hyperparameters(0, 0, 0, 0, 0, 0, 0), [], [t]);
    assert [5][..0] == [] && Product([]) == 1 && Product([5]) == 5;
    assert WritableTensor(t);
    assert DirectoryStart(c) == 32 && [t][1..] == [];
    assert PutTensors([t], 32, false) == PutTensor(t, 32, false) + [];
    assert |PutTensor(t, 32, false)| == 21;
    FileRead(c, 5);
  }

  // ---------- The model object ----------

  // The name of the tensor whose second dimension is the feed-forward size.
  const FEED_FORWARD: seq<Byte> :=
    [108, 97, 121, 101, 114, 115, 46, 48, 46, 102, 101, 101, 100, 95, 102, 111, 114, 119, 97, 114, 100,
     46, 119, 49, 46, 119, 101, 105, 103, 104, 116]

  function NameMap(entries: seq<Entry>): (m: map<seq<Byte>, nat>)
    ensures forall name :: name in m ==> m[name] < |entries|
  {
    if entries == [] then map[]
    else
      var n := |entries| - 1;
      NameMap(entries[..n])[entries[n].name := n]
  }

  // The last index of every name, and nothing else.
  ghost predicate LastOfNames(m: map<seq<Byte>, nat>, entries: seq<Entry>) {
    && (forall i :: 0 <= i < |entries| ==> entries[i].name in m)
    && (forall name :: name in m ==> LastNamed(m[name], name, entries))
  }

  predicate LastNamed(i: nat, name: seq<Byte>, entries: seq<Entry>) {
    i < |entries| && entries[i].name == name && forall j :: i < j < |entries| ==> entries[j].name != name
  }

  lemma {:induction false} NameMapLast(entries: seq<Entry>)
    ensures LastOfNames(NameMap(entries), entries)
    decreases |entries|
  {
    if entries != [] {
      var n := |entries| - 1;
      NameMapLast(entries[..n]);
      forall name | name in NameMap(entries)
        ensures LastNamed(NameMap(entries)[name], name, entries)
      {
        assert name != entries[n].name ==> LastNamed(NameMap(entries[..n])[name], name, entries[..n]);
      }
    }
  }

  // How a call ends: with the offset behind the file, with an exception, or not at all.
  datatype Outcome = Returned(end: int) | Raised | NotEnding

  class Model {
    var header: Header
    var hyperparameters: Option<Hyperparameters>
    var nFf: nat
    var vocab: seq<Item>
    var tensors: seq<Entry>
    var tensorMap: map<seq<Byte>, nat>

    constructor ()
      ensures hyperparameters == None && tensors == [] && tensorMap == map[]
    {
      header, hyperparameters, nFf, vocab, tensors, tensorMap := Header(GGML, 1), None, 0, [], [], map[];
    }

    // A file that loads fills the fields with what is in it; the call still fails when the feed-forward
    // tensor, the last one of its name, is missing or has fewer than two dimensions. A file that does not load
    // leaves them alone.
    method Load(data: seq<Byte>) returns (r: Outcome)
      modifies this
      ensures !LoadFile(data).Loaded? ==>
                && r == (if LoadFile(data).Endless? then NotEnding else Raised)
                && hyperparameters == old(hyperparameters) && vocab == old(vocab) && tensors == old(tensors)
                && tensorMap == old(tensorMap) && nFf == old(nFf)
      ensures LoadFile(data).Loaded? ==>
                var f := LoadFile(data);
                && header == f.header && hyperparameters == Some(f.hp) && vocab == f.items && tensors == f.entries
                && tensorMap == NameMap(f.entries) && LastOfNames(tensorMap, f.entries)
                && (r != Raised <==> FEED_FORWARD in tensorMap && |tensors[tensorMap[FEED_FORWARD]].dims| >= 2)
                && (r != Raised ==> r == Returned(f.end) && nFf == tensors[tensorMap[FEED_FORWARD]].dims[1])
    {
      hide LoadHeader, LoadHyperparameters, LoadItems, LoadTensors, NameMap, LastOfNames;
      var h := LoadHeader(data);
      if h.Error? {
        return Raised;
      }
      header := h.value;
      var hp := LoadHyperparameters(data, HeaderSize(header));
      if hp.Error? || !Eligible(header, hp.value.ftype) {
        return Raised;
      }
      var items := LoadVocab(data, HeaderSize(header) + 28, hp.value.nVocab, header.format != GGML);
      if items.Error? {
        return Raised;
      }
      var scan := ScanTensors(data, items.value.1, header.format == GGJT);
      if !scan.Directory? {
        return if scan.Unfinished? then NotEnding else Raised;
      }
      hyperparameters := Some(hp.value);
      vocab := items.value.0;
      tensors := scan.entries;
      tensorMap := BuildMap(tensors);
      if FEED_FORWARD !in tensorMap || |tensors[tensorMap[FEED_FORWARD]].dims| < 2 {
        return Raised;
      }
      nFf := tensors[tensorMap[FEED_FORWARD]].dims[1];
      r := Returned(scan.end);
    }
  }

  method BuildMap(entries: seq<Entry>) returns (m: map<seq<Byte>, nat>)
    ensures m == NameMap(entries) && LastOfNames(m, entries)
  {
    m := map[];
    for k := 0 to |entries|
      invariant m == NameMap(entries[..k])
    {
      assert entries[..k + 1][..k] == entries[..k];
      m := m[entries[k].name := k];
    }
    assert entries[..|entries|] == entries;
    NameMapLast(entries);
  }
}
