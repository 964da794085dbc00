/** The scan over the tensor directory of a legacy model file (convert_llama_ggml_to_gguf.py:189-194). The offset
    of the next entry is a 64-bit sum, so a byte count that wrapped around can send the scan backwards, even in
    front of the data, where Python's negative slice bounds still find something to read. The scan goes on for
    ever exactly when it comes to an offset twice; the byte ranges of a directory are in order exactly when no
    count wrapped around to a negative number. */
module GgmlScan {
  import opened GgmlEntries
  import opened Wrappers

  // Where the entry behind `e` is looked for.
  function Next(e: Entry): int {
    Wrap(EndOf(e))
  }

  datatype Scan = Directory(entries: seq<Entry>, end: int) | Unreadable | Unfinished

  // The scan, as far as `limit` rounds take it.
  function ScanUpTo(data: seq<Byte>, offset: int, padding: bool, limit: nat): Scan
    decreases limit
  {
    hide LoadTensor, Next;
    if offset >= |data| then Directory([], offset)
    else if limit == 0 then Unfinished
    else
      match LoadTensor(data, offset, padding)
      case Error => Unreadable
      case Ok(e) => Preceded([e], ScanUpTo(data, Next(e), padding, limit - 1))
  }

  function Preceded(entries: seq<Entry>, s: Scan): Scan {
    match s
    case Directory(more, end) => Directory(entries + more, end)
    case Unreadable => Unreadable
    case Unfinished => Unfinished
  }

  // An entry starts at one of 2n offsets, so after one round more the scan has been somewhere twice. What is
  // unfinished by then never ends.
  function EnoughRounds(data: seq<Byte>): nat {
    2 * |data| + 1
  }

  // The whole directory from `offset`: `Unfinished` when the scan does not end.
  function LoadTensors(data: seq<Byte>, offset: int, padding: bool): Scan {
    ScanUpTo(data, offset, padding, EnoughRounds(data))
  }

  // The loop, stopped when it cannot end any more.
  method ScanTensors(data: seq<Byte>, offset0: int, padding: bool) returns (r: Scan)
    ensures r == LoadTensors(data, offset0, padding)
  {
    hide LoadTensor, Next;
    var offset := offset0;
    var tensors: seq<Entry> := [];
    var rounds := EnoughRounds(data);
    ghost var whole := LoadTensors(data, offset0, padding);
    PrecededNone(whole);
    while offset < |data|
      invariant whole == Preceded(tensors, ScanUpTo(data, offset, padding, rounds))
      decreases rounds
    {
      if rounds == 0 {
        return Unfinished;
      }
      rounds := rounds - 1;
      var tensor := LoadTensor(data, offset, padding);
      if tensor.Error? {
        return Unreadable;
      }
      PrecededOne(tensors, tensor.value, ScanUpTo(data, Next(tensor.value), padding, rounds));
      tensors := tensors + [tensor.value];
      offset := Next(tensor.value);
    }
    assert tensors + [] == tensors;
    r := Directory(tensors, offset);
  }

  lemma PrecededNone(s: Scan)
    ensures Preceded([], s) == s
  {
    if s.Directory? {
      assert [] + s.entries == s.entries;
    }
  }

  lemma PrecededOne(entries: seq<Entry>, entry: Entry, s: Scan)
    ensures Preceded(entries, Preceded([entry], s)) == Preceded(entries + [entry], s)
  {
    if s.Directory? {
      assert entries + ([entry] + s.entries) == (entries + [entry]) + s.entries;
    }
  }

  // ---------- Does the scan end? ----------

  // Where the scan stands after `k` rounds; nothing when there are not so many.
  function After(data: seq<Byte>, padding: bool, offset: int, k: nat): Option<int>
    decreases k
  {
    hide LoadTensor, Next;
    if k == 0 then Some(offset)
    else
      match LoadTensor(data, offset, padding)
      case Error => None
      case Ok(e) => After(data, padding, Next(e), k - 1)
  }

  lemma {:induction false} AfterMore(data: seq<Byte>, padding: bool, offset: int, i: nat, j: nat)
    requires After(data, padding, offset, i).Some?
    ensures After(data, padding, offset, i + j) == After(data, padding, After(data, padding, offset, i).value, j)
    decreases i
  {
    hide LoadTensor, Next;
    if i > 0 {
      AfterMore(data, padding, Next(LoadTensor(data, offset, padding).value), i - 1, j);
    }
  }

  lemma {:induction false} AfterFewer(data: seq<Byte>, padding: bool, offset: int, i: nat, k: nat)
    requires i <= k && After(data, padding, offset, k).Some?
    ensures After(data, padding, offset, i).Some?
    ensures i < k ==> -|data| <= After(data, padding, offset, i).value < |data|
    decreases i
  {
    hide LoadTensor, Next;
    if i > 0 {
      AfterFewer(data, padding, Next(LoadTensor(data, offset, padding).value), i - 1, k - 1);
    } else if k > 0 {
      InsideToRead(data, padding, offset);
    }
  }

  lemma InsideToRead(data: seq<Byte>, padding: bool, offset: int)
    ensures LoadTensor(data, offset, padding).Ok? ==> -|data| <= offset < |data|
  {
  }

  // So many rounds can be gone, and there is more to read behind them.
  ghost predicate GoesOn(data: seq<Byte>, padding: bool, offset: int, k: nat) {
    After(data, padding, offset, k).Some? && After(data, padding, offset, k).value < |data|
  }

  lemma {:induction false} UnfinishedWhen(data: seq<Byte>, padding: bool, offset: int, limit: nat)
    ensures ScanUpTo(data, offset, padding, limit) == Unfinished <==> GoesOn(data, padding, offset, limit)
    decreases limit
  {
    hide LoadTensor, Next;
    InsideToRead(data, padding, offset);
    if limit > 0 && offset < |data| && LoadTensor(data, offset, padding).Ok? {
      UnfinishedWhen(data, padding, Next(LoadTensor(data, offset, padding).value), limit - 1);
    }
  }

  // The scan is at the same offset after `i` rounds and again after `j`.
  ghost predicate Returns(data: seq<Byte>, padding: bool, offset: int, i: nat, j: nat) {
    && i < j && After(data, padding, offset, i).Some?
    && After(data, padding, offset, j) == After(data, padding, offset, i)
  }

  // From an offset that it comes back to, the scan goes on for ever.
  lemma {:induction false} Periodic(data: seq<Byte>, padding: bool, offset: int, p: nat, k: nat)
    requires p > 0 && After(data, padding, offset, p) == Some(offset)
    ensures GoesOn(data, padding, offset, k)
    decreases k
  {
    hide After;
    if k >= p {
      AfterMore(data, padding, offset, p, k - p);
      Periodic(data, padding, offset, p, k - p);
    } else {
      AfterFewer(data, padding, offset, k, p);
    }
  }

  lemma ReturningGoesOn(data: seq<Byte>, padding: bool, offset: int, i: nat, j: nat, k: nat)
    requires Returns(data, padding, offset, i, j)
    ensures GoesOn(data, padding, offset, k)
  {
    hide After;
    if k >= i {
      var there := After(data, padding, offset, i).value;
      AfterMore(data, padding, offset, i, j - i);
      Periodic(data, padding, there, j - i, k - i);
      AfterMore(data, padding, offset, i, k - i);
    } else {
      AfterFewer(data, padding, offset, k, j);
    }
  }

  // The offset of a round that the scan comes to.
  function At(data: seq<Byte>, padding: bool, offset: int, k: nat): int {
    match After(data, padding, offset, k)
    case Some(x) => x
    case None => 0
  }

  // The offsets of the first rounds.
  lemma Visited(data: seq<Byte>, padding: bool, offset: int, n: nat) returns (s: seq<int>)
    requires After(data, padding, offset, n).Some?
    ensures |s| == n
    ensures forall i :: 0 <= i < n ==> After(data, padding, offset, i) == Some(s[i]) && -|data| <= s[i] < |data|
  {
    hide After;
    s := seq(n, i requires 0 <= i < n => At(data, padding, offset, i));
    forall i | 0 <= i < n
      ensures After(data, padding, offset, i) == Some(s[i]) && -|data| <= s[i] < |data|
    {
      AfterFewer(data, padding, offset, i, n);
    }
  }

  // Among more numbers than there are values two are equal.
  lemma {:induction false} Pigeonhole(s: seq<int>, lo: int, hi: int) returns (i: nat, j: nat)
    requires lo <= hi && |s| > hi - lo && forall k :: 0 <= k < |s| ==> lo <= s[k] < hi
    ensures i < j < |s| && s[i] == s[j]
  {
    var distinct := exists i, j :: 0 <= i < j < |s| && s[i] == s[j];
    if !distinct {
      SmallerRange(s, lo, hi);
    }
    i, j :| 0 <= i < j < |s| && s[i] == s[j];
  }

  lemma {:induction false} SmallerRange(s: seq<int>, lo: int, hi: int)
    requires lo <= hi && forall k :: 0 <= k < |s| ==> lo <= s[k] < hi
    requires forall i, j :: 0 <= i < j < |s| ==> s[i] != s[j]
    ensures |s| <= hi - lo
    decreases hi - lo
  {
    if lo < hi {
      if k :| 0 <= k < |s| && s[k] == hi - 1 {
        SmallerRange(s[..k] + s[k + 1..], lo, hi - 1);
      } else {
        SmallerRange(s, lo, hi - 1);
      }
    } else {
      RoomForOne(s, lo, hi);
    }
  }

  lemma RoomForOne(s: seq<int>, lo: int, hi: int)
    requires forall k :: 0 <= k < |s| ==> lo <= s[k] < hi
    ensures s != [] ==> lo < hi
  {
    if s != [] {
      assert lo <= s[0] < hi;
    }
  }

  lemma EnoughReturns(data: seq<Byte>, padding: bool, offset: int) returns (i: nat, j: nat)
    requires GoesOn(data, padding, offset, EnoughRounds(data))
    ensures Returns(data, padding, offset, i, j)
  {
    hide After;
    var s := Visited(data, padding, offset, EnoughRounds(data));
    i, j := Pigeonhole(s, -|data|, |data|);
  }

  // The bound on the rounds loses nothing: what is unfinished then is never finished, and this is so exactly
  // when the scan comes to some offset twice.
  lemma EndlessExact(data: seq<Byte>, padding: bool, offset: int)
    ensures (LoadTensors(data, offset, padding) == Unfinished)
            <==> forall limit: nat :: ScanUpTo(data, offset, padding, limit) == Unfinished
    ensures (LoadTensors(data, offset, padding) == Unfinished)
            <==> exists i: nat, j: nat :: Returns(data, padding, offset, i, j)
  {
    hide After, ScanUpTo, Returns, GoesOn;
    UnfinishedWhen(data, padding, offset, EnoughRounds(data));
    if LoadTensors(data, offset, padding) == Unfinished {
      var i, j := EnoughReturns(data, padding, offset);
      forall limit: nat
        ensures ScanUpTo(data, offset, padding, limit) == Unfinished
      {
        ReturningGoesOn(data, padding, offset, i, j, limit);
        UnfinishedWhen(data, padding, offset, limit);
      }
    }
    if i: nat, j: nat :| Returns(data, padding, offset, i, j) {
      ReturningGoesOn(data, padding, offset, i, j, EnoughRounds(data));
    }
  }

  // An entry whose end is where it began keeps the scan there.
  lemma SelfLoop(data: seq<Byte>, padding: bool, offset: int)
    requires LoadTensor(data, offset, padding).Ok? && Next(LoadTensor(data, offset, padding).value) == offset
    ensures LoadTensors(data, offset, padding) == Unfinished
  {
    hide LoadTensor, Next, LoadTensors;
    EndlessExact(data, padding, offset);
    assert After(data, padding, offset, 1) == After(data, padding, offset, 0);
    assert Returns(data, padding, offset, 0, 1);
  }

  // A single entry whose end is behind the data.
  lemma OneEntry(data: seq<Byte>, padding: bool, offset: int)
    requires LoadTensor(data, offset, padding).Ok? && Next(LoadTensor(data, offset, padding).value) >= |data|
    ensures var e := LoadTensor(data, offset, padding).value;
            LoadTensors(data, offset, padding) == Directory([e], Next(e))
  {
    hide LoadTensor, Next, LoadTensors;
    InsideToRead(data, padding, offset);
    var e := LoadTensor(data, offset, padding).value;
    assert ScanUpTo(data, Next(e), padding, 0) == Directory([], Next(e));
    assert [e] + [] == [e];
    EndsAs(data, padding, offset, 1);
  }

  lemma {:induction false} MoreRounds(data: seq<Byte>, padding: bool, offset: int, limit: nat, more: nat)
    requires limit <= more && ScanUpTo(data, offset, padding, limit) != Unfinished
    ensures ScanUpTo(data, offset, padding, more) == ScanUpTo(data, offset, padding, limit)
    decreases limit
  {
    hide LoadTensor, Next;
    if limit > 0 && offset < |data| && LoadTensor(data, offset, padding).Ok? {
      MoreRounds(data, padding, Next(LoadTensor(data, offset, padding).value), limit - 1, more - 1);
    }
  }

  // A scan that ends, after however many rounds, ends the way `LoadTensors` says.
  lemma EndsAs(data: seq<Byte>, padding: bool, offset: int, limit: nat)
    requires ScanUpTo(data, offset, padding, limit) != Unfinished
    ensures LoadTensors(data, offset, padding) == ScanUpTo(data, offset, padding, limit)
  {
    hide ScanUpTo;
    EndlessExact(data, padding, offset);
    var most := if limit < EnoughRounds(data) then EnoughRounds(data) else limit;
    MoreRounds(data, padding, offset, limit, most);
    MoreRounds(data, padding, offset, EnoughRounds(data), most);
  }

  // A round takes the scan forward exactly when the count, negative or not, leaves the end of the range behind
  // the offset and the sum does not wrap around; the other way round it advances only through a wrapped sum.
  lemma StepAdvances(data: seq<Byte>, padding: bool, offset: int)
    requires LoadTensor(data, offset, padding).Ok? && |data| < TWO60
    ensures var e := LoadTensor(data, offset, padding).value;
            Next(e) > offset <==> offset < EndOf(e) < TWO63 || EndOf(e) < -TWO63
  {
    hide LoadTensor;
    var e := LoadTensor(data, offset, padding).value;
    CountSign(e);
    WrappedEnd(e.start, e.len, offset, |data|);
  }

  lemma WrappedEnd(start: int, len: int, offset: int, size: int)
    requires 0 <= size < TWO60 && -size <= offset < size && offset + 12 <= start < offset + 4156
    requires -TWO63 <= len < TWO63
    ensures Wrap(start + len) > offset <==> offset < start + len < TWO63 || start + len < -TWO63
    ensures Wrap(start + len) < size ==> Wrap(start + len) == start + len || Wrap(start + len) < -size
    ensures len >= 0 && start >= 0 && Wrap(start + len) >= size ==> Wrap(start + len) == start + len
  {
  }

  // When every round goes forward, the scan ends.
  lemma AdvancingEnds(data: seq<Byte>, padding: bool, offset: int)
    requires forall k: nat :: After(data, padding, offset, k + 1).Some? ==>
                                After(data, padding, offset, k).Some?
                                && After(data, padding, offset, k).value < After(data, padding, offset, k + 1).value
    ensures LoadTensors(data, offset, padding) != Unfinished
  {
    hide After, LoadTensors;
    EndlessExact(data, padding, offset);
    if i: nat, j: nat :| Returns(data, padding, offset, i, j) {
      Increasing(data, padding, offset, i, j);
    }
  }

  lemma {:induction false} Increasing(data: seq<Byte>, padding: bool, offset: int, i: nat, j: nat)
    requires forall k: nat :: After(data, padding, offset, k + 1).Some? ==>
                                After(data, padding, offset, k).Some?
                                && After(data, padding, offset, k).value < After(data, padding, offset, k + 1).value
    requires i < j && After(data, padding, offset, j).Some?
    ensures After(data, padding, offset, i).Some?
    ensures After(data, padding, offset, i).value < After(data, padding, offset, j).value
    decreases j
  {
    hide After;
    assert After(data, padding, offset, (j - 1) + 1).Some?;
    if i < j - 1 {
      Increasing(data, padding, offset, i, j - 1);
    }
  }

  lemma StopsOutside(data: seq<Byte>, offset: int, padding: bool, limit: nat)
    ensures offset >= |data| ==> ScanUpTo(data, offset, padding, limit) == Directory([], offset)
    ensures offset < -|data| && offset < |data| ==> !ScanUpTo(data, offset, padding, limit).Directory?
    ensures offset < -|data| && offset < |data| && limit > 0 ==> ScanUpTo(data, offset, padding, limit) == Unreadable
  {
    hide LoadTensor;
    InsideToRead(data, padding, offset);
  }

  // None of the counts that the scan comes to is negative.
  ghost predicate CountsFit(data: seq<Byte>, padding: bool, offset: int) {
    forall k: nat :: After(data, padding, offset, k).Some? ==> FitsAt(data, padding, At(data, padding, offset, k))
  }

  predicate FitsAt(data: seq<Byte>, padding: bool, offset: int) {
    match LoadTensor(data, offset, padding)
    case Ok(e) => CountFits(e)
    case Error => true
  }

  // Only a count that wrapped around to a negative number can keep the scan from ending.
  lemma FittingEnds(data: seq<Byte>, padding: bool, offset: nat)
    requires CountsFit(data, padding, offset) && |data| < TWO60
    ensures LoadTensors(data, offset, padding) != Unfinished
  {
    hide ScanUpTo, CountsFit;
    var limit := if offset < |data| then |data| - offset + 1 else 0;
    FittingUpTo(data, padding, offset, limit);
    EndsAs(data, padding, offset, limit);
  }

  lemma {:induction false} FittingUpTo(data: seq<Byte>, padding: bool, offset: nat, limit: nat)
    requires CountsFit(data, padding, offset) && |data| < TWO60
    requires offset < |data| ==> limit > |data| - offset
    ensures ScanUpTo(data, offset, padding, limit) != Unfinished
    decreases limit
  {
    hide LoadTensor, FitsAt, CountsFit, CountFits;
    if offset < |data| && LoadTensor(data, offset, padding).Ok? {
      var e := LoadTensor(data, offset, padding).value;
      FitsNow(data, padding, offset);
      CountSign(e);
      WrappedEnd(e.start, e.len, offset, |data|);
      StopsOutside(data, Next(e), padding, limit - 1);
      if 0 <= Next(e) {
        FitsNext(data, padding, offset);
        FittingUpTo(data, padding, Next(e), limit - 1);
      }
    }
  }

  lemma FitsNow(data: seq<Byte>, padding: bool, offset: int)
    requires CountsFit(data, padding, offset) && LoadTensor(data, offset, padding).Ok?
    ensures CountFits(LoadTensor(data, offset, padding).value)
  {
    hide LoadTensor, CountFits;
    assert After(data, padding, offset, 0) == Some(offset);
    assert FitsAt(data, padding, At(data, padding, offset, 0));
  }

  lemma FitsNext(data: seq<Byte>, padding: bool, offset: int)
    requires CountsFit(data, padding, offset) && LoadTensor(data, offset, padding).Ok?
    ensures CountsFit(data, padding, Next(LoadTensor(data, offset, padding).value))
  {
    hide LoadTensor, FitsAt, Next;
    var next := Next(LoadTensor(data, offset, padding).value);
    forall k: nat | After(data, padding, next, k).Some?
      ensures FitsAt(data, padding, At(data, padding, next, k))
    {
      assert After(data, padding, offset, k + 1) == After(data, padding, next, k);
      assert At(data, padding, offset, k + 1) == At(data, padding, next, k);
    }
  }

  // ---------- What any directory promises ----------

  // Each range starts at least twelve bytes behind the end of the one before it, on a 32-byte boundary when the
  // format pads, and all but the last end inside the data.
  ghost predicate Chained(entries: seq<Entry>, offset: int, size: int, padding: bool) {
    && (entries != [] ==> entries[0].start >= offset + 12)
    && (forall i :: 0 <= i < |entries| - 1 ==> EndOf(entries[i]) + 12 <= entries[i + 1].start)
    && (forall i :: 0 <= i < |entries| - 1 ==> -size <= EndOf(entries[i]) < size)
    && (padding ==> forall i :: 0 <= i < |entries| ==> entries[i].start % 32 == 0)
    && (forall i :: 0 <= i < |entries| ==> Counted(entries[i]))
  }

  // The entries stand for byte ranges behind `offset` that follow each other without overlapping.
  ghost predicate InOrder(entries: seq<Entry>, offset: int) {
    && (forall i :: 0 <= i < |entries| ==> offset + 12 <= entries[i].start <= EndOf(entries[i]))
    && (forall i, j :: 0 <= i < j < |entries| ==> EndOf(entries[i]) + 12 <= entries[j].start)
  }

  // Every directory that is read is such a chain, wherever its counts send the scan.
  lemma {:induction false} DirectoryChained(data: seq<Byte>, offset: int, padding: bool, limit: nat)
    requires ScanUpTo(data, offset, padding, limit).Directory? && |data| < TWO60
    ensures var d := ScanUpTo(data, offset, padding, limit);
            && Chained(d.entries, offset, |data|, padding)
            && d.end == (if d.entries == [] then offset else Next(d.entries[|d.entries| - 1])) >= |data|
    decreases limit
  {
    hide LoadTensor, Chained, Counted;
    if offset < |data| {
      var e := LoadTensor(data, offset, padding).value;
      var rest := ScanUpTo(data, Next(e), padding, limit - 1);
      CountSign(e);
      WrappedEnd(e.start, e.len, offset, |data|);
      StopsOutside(data, Next(e), padding, limit - 1);
      DirectoryChained(data, Next(e), padding, limit - 1);
      ChainedOne(e, rest.entries, offset, |data|, padding);
    } else {
      NothingChained(offset, |data|, padding);
    }
  }

  lemma NothingChained(offset: int, size: int, padding: bool)
    ensures Chained([], offset, size, padding)
  {
  }

  lemma ChainedOne(e: Entry, rest: seq<Entry>, offset: int, size: int, padding: bool)
    requires e.start >= offset + 12 && (padding ==> e.start % 32 == 0) && Counted(e)
    requires Chained(rest, Next(e), size, padding)
    requires rest != [] ==> Next(e) == EndOf(e) && -size <= EndOf(e) < size
    ensures Chained([e] + rest, offset, size, padding)
  {
    hide Counted;
    var all := [e] + rest;
    assert forall i :: 1 <= i < |all| ==> all[i] == rest[i - 1];
  }

  // A chain is in order exactly when no count is negative.
  lemma ChainInOrder(entries: seq<Entry>, offset: int, size: int, padding: bool)
    requires Chained(entries, offset, size, padding)
    ensures InOrder(entries, offset) <==> forall i :: 0 <= i < |entries| ==> entries[i].len >= 0
  {
    if forall i :: 0 <= i < |entries| ==> entries[i].len >= 0 {
      forall i | 0 <= i < |entries|
        ensures offset + 12 <= entries[i].start
      {
        StartsBehind(entries, offset, size, padding, i);
      }
      forall i, j | 0 <= i < j < |entries|
        ensures EndOf(entries[i]) + 12 <= entries[j].start
      {
        StartsAfter(entries, offset, size, padding, i, j);
      }
    } else {
      var i :| 0 <= i < |entries| && entries[i].len < 0;
      assert EndOf(entries[i]) < entries[i].start;
    }
  }

  lemma {:induction false} StartsBehind(entries: seq<Entry>, offset: int, size: int, padding: bool, i: nat)
    requires Chained(entries, offset, size, padding) && i < |entries|
    requires forall k :: 0 <= k < |entries| ==> entries[k].len >= 0
    ensures offset + 12 <= entries[i].start
    decreases i
  {
    if i > 0 {
      StartsBehind(entries, offset, size, padding, i - 1);
      assert EndOf(entries[i - 1]) + 12 <= entries[(i - 1) + 1].start;
    }
  }

  lemma {:induction false} StartsAfter(entries: seq<Entry>, offset: int, size: int, padding: bool, i: nat, j: nat)
    requires Chained(entries, offset, size, padding) && i < j < |entries|
    requires forall k :: 0 <= k < |entries| ==> entries[k].len >= 0
    ensures EndOf(entries[i]) + 12 <= entries[j].start
    decreases j
  {
    assert EndOf(entries[j - 1]) + 12 <= entries[(j - 1) + 1].start;
    if i < j - 1 {
      StartsAfter(entries, offset, size, padding, i, j - 1);
    }
  }

  lemma ChainFits(entries: seq<Entry>, offset: int, size: int, padding: bool)
    requires Chained(entries, offset, size, padding)
    ensures InOrder(entries, offset) <==> forall i :: 0 <= i < |entries| ==> CountFits(entries[i])
  {
    hide InOrder, Counted, CountFits;
    ChainInOrder(entries, offset, size, padding);
    forall i | 0 <= i < |entries|
      ensures CountFits(entries[i]) <==> entries[i].len >= 0
    {
      CountSign(entries[i]);
    }
  }

  // In any directory the ranges are in order exactly when, for each tensor, the number of bytes that its
  // dimensions and type ask for does not have the sign bit modulo 2^64.
  lemma DirectoryInOrder(data: seq<Byte>, offset: int, padding: bool)
    requires LoadTensors(data, offset, padding).Directory? && |data| < TWO60
    ensures var d := LoadTensors(data, offset, padding);
            && Chained(d.entries, offset, |data|, padding)
            && (InOrder(d.entries, offset) <==> forall i :: 0 <= i < |d.entries| ==> CountFits(d.entries[i]))
            && d.end == (if d.entries == [] then offset else Next(d.entries[|d.entries| - 1])) >= |data|
  {
    hide ScanUpTo, InOrder, Chained, CountFits;
    DirectoryChained(data, offset, padding, EnoughRounds(data));
    ChainFits(LoadTensors(data, offset, padding).entries, offset, |data|, padding);
  }

  // ---------- Reading what was written ----------

  function PutTensors(ts: seq<Tensor>, offset: nat, padding: bool): seq<Byte>
    requires forall i :: 0 <= i < |ts| ==> WritableTensor(ts[i])
  {
    if ts == [] then []
    else PutTensor(ts[0], offset, padding) + PutTensors(ts[1..], EndOf(EntryOf(ts[0], offset, padding)), padding)
  }

  function EntriesOf(ts: seq<Tensor>, offset: nat, padding: bool): seq<Entry> {
    if ts == [] then []
    else [EntryOf(ts[0], offset, padding)] + EntriesOf(ts[1..], EndOf(EntryOf(ts[0], offset, padding)), padding)
  }

  // The bytes of the last tensor, which the scan does not look at.
  function Unread(ts: seq<Tensor>): nat {
    if ts == [] then 0 else |ts[|ts| - 1].payload|
  }

  lemma {:induction false} UnreadInside(ts: seq<Tensor>, offset: nat, padding: bool)
    requires forall i :: 0 <= i < |ts| ==> WritableTensor(ts[i])
    ensures Unread(ts) <= |PutTensors(ts, offset, padding)|
    ensures ts != [] ==> Unread(ts) + 12 <= |PutTensors(ts, offset, padding)|
    decreases |ts|
  {
    hide WritableTensor, EntryOf, PutTensor;
    if |ts| > 1 {
      UnreadInside(ts[1..], EndOf(EntryOf(ts[0], offset, padding)), padding);
    } else if |ts| == 1 {
      assert ts[1..] == [];
    }
  }

  // The directory comes back as it was written, also from data in which up to all bytes of the last tensor are
  // missing.
  lemma {:induction false} TensorsRead(data: seq<Byte>, offset: nat, ts: seq<Tensor>, padding: bool, cut: nat)
    requires (forall i :: 0 <= i < |ts| ==> WritableTensor(ts[i])) && cut <= Unread(ts)
    requires offset + |PutTensors(ts, offset, padding)| < TWO63
    requires offset + |PutTensors(ts, offset, padding)| == |data| + cut
    requires offset <= |data| && data[offset..] <= PutTensors(ts, offset, padding)
    ensures ScanUpTo(data, offset, padding, |ts|) == Directory(EntriesOf(ts, offset, padding), |data| + cut)
    decreases |ts|
  {
    hide LoadTensor, PutTensor, EntryOf, WritableTensor, PutFields, Wrap;
    if ts != [] {
      var e := EntryOf(ts[0], offset, padding);
      var first, rest := PutTensor(ts[0], offset, padding), PutTensors(ts[1..], EndOf(e), padding);
      UnreadInside(ts[1..], EndOf(e), padding);
      UnreadInside(ts, offset, padding);
      OneTail(ts, cut);
      FieldsFirst(data, offset, PutFields(ts[0]), first, rest);
      TensorRead(data, offset, ts[0], padding);
      WrapInside(EndOf(e));
      if |ts| > 1 {
        TailFirst(data, offset, first, rest);
        TensorsRead(data, EndOf(e), ts[1..], padding, cut);
      } else {
        assert ts[1..] == [];
        AllScanned(data, EndOf(e), padding);
      }
    }
  }

  lemma OneTail(ts: seq<Tensor>, cut: nat)
    requires ts != [] && cut <= Unread(ts)
    ensures |ts| > 1 ==> cut <= Unread(ts[1..])
  {
  }

  lemma WrapInside(n: nat)
    requires n < TWO63
    ensures Wrap(n) == n
  {
  }

  lemma AllScanned(data: seq<Byte>, offset: int, padding: bool)
    requires offset >= |data|
    ensures ScanUpTo(data, offset, padding, 0) == Directory([], offset)
  {
  }

  lemma FieldsFirst(data: seq<Byte>, offset: nat, fields: seq<Byte>, first: seq<Byte>, rest: seq<Byte>)
    requires offset + |fields| <= |data| && data[offset..] <= first + rest
    requires |fields| <= |first| && first[..|fields|] == fields
    ensures Holds(data, offset, fields)
  {
    assert data[offset..offset + |fields|] == data[offset..][..|fields|];
    assert (first + rest)[..|fields|] == first[..|fields|];
  }

  lemma TailFirst(data: seq<Byte>, offset: nat, first: seq<Byte>, rest: seq<Byte>)
    requires offset + |first| <= |data| && data[offset..] <= first + rest
    ensures data[offset + |first|..] <= rest
  {
    assert data[offset + |first|..] == data[offset..][|first|..];
    assert rest == (first + rest)[|first|..];
  }
}
