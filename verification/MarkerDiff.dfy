/** Segmentation of rendered chat templates into markers (`<...>`, `[...]`) and text. */
module MarkerSegments {

  datatype SegmentType = TEXT | MARKER

  datatype Segment = Segment(kind: SegmentType, value: string)

  predicate IsOpener(c: char) {
    c == '<' || c == '['
  }

  predicate IsCloser(opener: char, c: char) {
    (opener == '<' && c == '>') || (opener == '[' && c == ']')
  }

  // The first position at or after `from` that opens a marker, or the end of the text.
  function NextOpener(text: string, from: nat): (i: nat)
    requires from <= |text|
    ensures from <= i <= |text|
    ensures forall k :: from <= k < i ==> !IsOpener(text[k])
    ensures i < |text| ==> IsOpener(text[i])
    decreases |text| - from
  {
    if from == |text| || IsOpener(text[from]) then from else NextOpener(text, from + 1)
  }

  // The first position at or after `from` that closes a marker begun by `opener`, or the end of the text.
  function NextCloser(text: string, opener: char, from: nat): (i: nat)
    requires from <= |text|
    ensures from <= i <= |text|
    ensures forall k :: from <= k < i ==> !IsCloser(opener, text[k])
    ensures i < |text| ==> IsCloser(opener, text[i])
    decreases |text| - from
  {
    if from == |text| || IsCloser(opener, text[from]) then from else NextCloser(text, opener, from + 1)
  }

  function TextPiece(text: string, lo: nat, hi: nat): seq<Segment>
    requires lo <= hi <= |text|
  {
    if lo < hi then [Segment(TEXT, text[lo..hi])] else []
  }

  // Reference segmentation of text[from..], read outside a marker.
  function SegmentsFrom(text: string, from: nat): seq<Segment>
    requires from <= |text|
    decreases |text| - from, 1
  {
    var open := NextOpener(text, from);
    TextPiece(text, from, open) + if open == |text| then [] else MarkerFrom(text, open)
  }

  // Reference segmentation of text[open..], where `open` begins a marker. An unclosed marker is text.
  function MarkerFrom(text: string, open: nat): seq<Segment>
    requires open < |text|
    decreases |text| - open, 0
  {
    var close := NextCloser(text, text[open], open + 1);
    if close == |text| then TextPiece(text, open, |text|)
    else [Segment(MARKER, text[open..close + 1])] + SegmentsFrom(text, close + 1)
  }

  function Segments(text: string): seq<Segment> {
    SegmentsFrom(text, 0)
  }

  function Concat(segs: seq<Segment>): string {
    if segs == [] then "" else segs[0].value + Concat(segs[1..])
  }

  lemma {:induction false} ConcatAppend(x: seq<Segment>, y: seq<Segment>)
    ensures Concat(x + y) == Concat(x) + Concat(y)
  {
    if x == [] {
      assert x + y == y;
    } else {
      assert (x + y)[1..] == x[1..] + y;
      ConcatAppend(x[1..], y);
    }
  }

  lemma ConcatSplit(x: seq<Segment>, i: nat)
    requires i <= |x|
    ensures Concat(x) == Concat(x[..i]) + Concat(x[i..])
  {
    assert x == x[..i] + x[i..];
    ConcatAppend(x[..i], x[i..]);
  }

  lemma ConcatSingle(s: Segment)
    ensures Concat([s]) == s.value
  {
    assert [s][1..] == [];
  }

  ghost predicate NonEmptyValues(segs: seq<Segment>) {
    forall i :: 0 <= i < |segs| ==> segs[i].value != ""
  }

  lemma ConcatNonEmpty(segs: seq<Segment>)
    requires NonEmptyValues(segs)
    ensures Concat(segs) == "" <==> segs == []
  {
  }

  lemma ConcatCons(s: Segment, rest: seq<Segment>)
    ensures Concat([s] + rest) == s.value + Concat(rest)
  {
    assert ([s] + rest)[1..] == rest;
  }

  lemma TextPieceLossless(text: string, lo: nat, hi: nat)
    requires lo <= hi <= |text|
    ensures Concat(TextPiece(text, lo, hi)) == text[lo..hi]
    ensures NonEmptyValues(TextPiece(text, lo, hi))
  {
    if lo < hi {
      ConcatSingle(Segment(TEXT, text[lo..hi]));
    }
  }

  lemma SliceSplit(text: string, lo: nat, mid: nat)
    requires lo <= mid <= |text|
    ensures text[lo..] == text[lo..mid] + text[mid..]
  {
  }

  lemma {:induction false} SegmentsFromLossless(text: string, from: nat)
    requires from <= |text|
    ensures Concat(SegmentsFrom(text, from)) == text[from..]
    ensures NonEmptyValues(SegmentsFrom(text, from))
    decreases |text| - from, 1
  {
    hide NextOpener, NextCloser, MarkerFrom, TextPiece, Concat;
    var open := NextOpener(text, from);
    var head := TextPiece(text, from, open);
    TextPieceLossless(text, from, open);
    if open < |text| {
      MarkerFromLossless(text, open);
      ConcatAppend(head, MarkerFrom(text, open));
      SliceSplit(text, from, open);
    } else {
      assert head + [] == head;
    }
  }

  lemma {:induction false} MarkerFromLossless(text: string, open: nat)
    requires open < |text|
    ensures Concat(MarkerFrom(text, open)) == text[open..]
    ensures NonEmptyValues(MarkerFrom(text, open))
    decreases |text| - open, 0
  {
    hide NextOpener, NextCloser, SegmentsFrom, TextPiece, Concat;
    var close := NextCloser(text, text[open], open + 1);
    if close < |text| {
      SegmentsFromLossless(text, close + 1);
      ConcatCons(Segment(MARKER, text[open..close + 1]), SegmentsFrom(text, close + 1));
      SliceSplit(text, open, close + 1);
    } else {
      TextPieceLossless(text, open, |text|);
    }
  }

  // Segmentation loses nothing: the segments, none of them empty, spell the text.
  lemma SegmentsLossless(text: string)
    ensures Concat(Segments(text)) == text
    ensures NonEmptyValues(Segments(text))
  {
    SegmentsFromLossless(text, 0);
  }

  // A closed marker: an opener, then no matching closer until the last character.
  predicate IsMarkerText(v: string) {
    && |v| >= 2 && IsOpener(v[0]) && IsCloser(v[0], v[|v| - 1])
    && forall k :: 1 <= k < |v| - 1 ==> !IsCloser(v[0], v[k])
  }

  // An opener whose closer never comes.
  predicate IsUnclosed(v: string) {
    && |v| >= 1 && IsOpener(v[0])
    && forall k :: 1 <= k < |v| ==> !IsCloser(v[0], v[k])
  }

  predicate IsPlain(v: string) {
    forall k :: 0 <= k < |v| ==> !IsOpener(v[k])
  }

  ghost predicate WellShaped(segs: seq<Segment>) {
    forall i :: 0 <= i < |segs| ==>
                  if segs[i].kind == MARKER then IsMarkerText(segs[i].value)
                  else IsPlain(segs[i].value) || (i == |segs| - 1 && IsUnclosed(segs[i].value))
  }

  // What the two kinds mean: a MARKER is a whole closed marker; a TEXT holds no opener,
  // except that the last one may be a marker that was never closed.
  lemma {:induction false} SegmentsShape(text: string, from: nat)
    requires from <= |text|
    ensures WellShaped(SegmentsFrom(text, from))
    decreases |text| - from, 1
  {
    hide NextOpener, NextCloser, MarkerFrom;
    var open := NextOpener(text, from);
    assert IsPlain(text[from..open]);
    if open < |text| {
      MarkerShape(text, open);
    }
  }

  lemma {:induction false} MarkerShape(text: string, open: nat)
    requires open < |text| && IsOpener(text[open])
    ensures WellShaped(MarkerFrom(text, open))
    decreases |text| - open, 0
  {
    hide NextOpener, NextCloser, SegmentsFrom;
    var close := NextCloser(text, text[open], open + 1);
    if close < |text| {
      SegmentsShape(text, close + 1);
      assert IsMarkerText(text[open..close + 1]);
    } else {
      assert IsUnclosed(text[open..|text|]);
    }
  }

  lemma NoSegments()
    ensures Segments("") == []
  {
  }

  lemma {:induction false} NextOpenerShift(x: string, y: string, i: nat)
    requires i <= |y|
    ensures NextOpener(x + y, |x| + i) == |x| + NextOpener(y, i)
    decreases |y| - i
  {
    if i < |y| {
      NextOpenerShift(x, y, i + 1);
    }
  }

  lemma {:induction false} NextCloserShift(x: string, y: string, opener: char, i: nat)
    requires i <= |y|
    ensures NextCloser(x + y, opener, |x| + i) == |x| + NextCloser(y, opener, i)
    decreases |y| - i
  {
    if i < |y| {
      NextCloserShift(x, y, opener, i + 1);
    }
  }

  // Segmentation starts afresh after a prefix: positions in `y` are only shifted.
  lemma {:induction false} SegmentsShift(x: string, y: string, i: nat)
    requires i <= |y|
    ensures SegmentsFrom(x + y, |x| + i) == SegmentsFrom(y, i)
    decreases |y| - i, 1
  {
    hide NextOpener, NextCloser, MarkerFrom;
    var open := NextOpener(y, i);
    NextOpenerShift(x, y, i);
    assert (x + y)[|x| + i..|x| + open] == y[i..open];
    if open < |y| {
      MarkerShift(x, y, open);
    }
  }

  lemma {:induction false} MarkerShift(x: string, y: string, open: nat)
    requires open < |y|
    ensures MarkerFrom(x + y, |x| + open) == MarkerFrom(y, open)
    decreases |y| - open, 0
  {
    hide NextOpener, NextCloser, SegmentsFrom;
    var close := NextCloser(y, y[open], open + 1);
    NextCloserShift(x, y, y[open], open + 1);
    assert (x + y)[|x| + open..|x + y|] == y[open..|y|];
    assert close < |y| ==> (x + y)[|x| + open..|x| + close + 1] == y[open..close + 1];
    if close < |y| {
      SegmentsShift(x, y, close + 1);
    }
  }

  // A closed marker in front of a text is its first segment, whatever follows.
  lemma MarkerFirst(marker: string, rest: string)
    requires IsMarkerText(marker)
    ensures Segments(marker + rest) == [Segment(MARKER, marker)] + Segments(rest)
  {
    hide NextOpener, NextCloser, SegmentsFrom, MarkerFrom;
    var text := marker + rest;
    AtOpener(text, 0, 0);
    AtCloser(text, 0, |marker| - 1);
    SegmentsShift(marker, rest, 0);
    assert text[0..|marker|] == marker;
  }

  // One step of the reference segmentation, for each way the scan can leave a border.
  lemma AtOpener(text: string, border: nat, pos: nat)
    requires border <= pos <= |text|
    requires forall k :: border <= k < pos ==> !IsOpener(text[k])
    requires pos < |text| ==> IsOpener(text[pos])
    ensures SegmentsFrom(text, border)
         == TextPiece(text, border, pos) + if pos == |text| then [] else MarkerFrom(text, pos)
  {
    hide NextOpener, MarkerFrom;
    assert NextOpener(text, border) == pos;
  }

  lemma AtCloser(text: string, border: nat, pos: nat)
    requires border < pos <= |text|
    requires forall k :: border < k < pos ==> !IsCloser(text[border], text[k])
    requires pos < |text| ==> IsCloser(text[border], text[pos])
    ensures MarkerFrom(text, border)
         == if pos == |text| then TextPiece(text, border, pos)
            else [Segment(MARKER, text[border..pos + 1])] + SegmentsFrom(text, pos + 1)
  {
    hide NextCloser, SegmentsFrom;
    assert NextCloser(text, text[border], border + 1) == pos;
  }

  // Behind a text comes a marker, or one that is never closed.
  ghost predicate TextsApart(segs: seq<Segment>) {
    forall i :: 0 <= i < |segs| - 1 && segs[i].kind == TEXT ==>
                  segs[i + 1].kind == MARKER || IsUnclosed(segs[i + 1].value)
  }

  lemma OnlyText(text: string)
    requires text != "" && IsPlain(text)
    ensures Segments(text) == [Segment(TEXT, text)]
  {
    assert NextOpener(text, 0) == |text|;
    assert text[0..|text|] == text;
  }

  lemma UnclosedAlone(text: string)
    requires IsUnclosed(text)
    ensures Segments(text) == [Segment(TEXT, text)]
  {
    hide NextOpener, NextCloser;
    AtOpener(text, 0, 0);
    AtCloser(text, 0, |text|);
    assert text[0..|text|] == text;
  }

  // A text in front of something that begins a marker.
  lemma TextFirst(text: string, rest: string)
    requires text != "" && IsPlain(text) && rest != "" && IsOpener(rest[0])
    ensures Segments(text + rest) == [Segment(TEXT, text)] + Segments(rest)
  {
    hide NextOpener, NextCloser, SegmentsFrom, MarkerFrom;
    var whole := text + rest;
    AtOpener(whole, 0, |text|);
    AtOpener(rest, 0, 0);
    MarkerShift(text, rest, 0);
    assert whole[0..|text|] == text;
  }

  // There is one such list for each text: whatever loses nothing, has no empty segment and has this shape.
  lemma {:induction false} SegmentsUnique(text: string, segs: seq<Segment>)
    requires Concat(segs) == text && NonEmptyValues(segs) && WellShaped(segs) && TextsApart(segs)
    ensures segs == Segments(text)
    decreases |segs|
  {
    hide SegmentsFrom, IsMarkerText, IsUnclosed, IsPlain;
    if segs == [] {
      NoSegments();
    } else {
      var first, rest := segs[0], segs[1..];
      assert segs == [first] + rest;
      ConcatCons(first, rest);
      assert forall i :: 0 <= i < |rest| ==> rest[i] == segs[i + 1];
      SegmentsUnique(Concat(rest), rest);
      if first.kind == MARKER {
        MarkerFirst(first.value, Concat(rest));
      } else if rest == [] {
        assert Concat(rest) == "" by { NoConcat(); }
        assert first.value + "" == text;
        assert IsPlain(first.value) || IsUnclosed(first.value);
        AloneUnique(first.value);
        assert first == Segment(TEXT, text);
      } else {
        BeginsMarker(rest);
        TextFirst(first.value, Concat(rest));
      }
    }
  }

  // Both kinds of brackets, each closed by its own closer only, and a marker that is never closed.
  lemma SegmentsExample()
    ensures Segments("<a]>[b>]c<d")
         == [Segment(MARKER, "<a]>"), Segment(MARKER, "[b>]"), Segment(TEXT, "c"), Segment(TEXT, "<d")]
  {
    var a, b := Segment(MARKER, "<a]>"), Segment(MARKER, "[b>]");
    var c, d := Segment(TEXT, "c"), Segment(TEXT, "<d");
    ConcatSingle(d);
    ConcatCons(c, [d]);
    ConcatCons(b, [c, d]);
    ConcatCons(a, [b, c, d]);
    assert [c] + [d] == [c, d] && [b] + [c, d] == [b, c, d] && [a] + [b, c, d] == [a, b, c, d];
    assert Concat([a, b, c, d]) == "<a]>" + ("[b>]" + ("c" + "<d")) == "<a]>[b>]c<d";
    hide Concat, SegmentsFrom;
    SegmentsUnique("<a]>[b>]c<d", [a, b, c, d]);
  }

  lemma NoConcat()
    ensures Concat([]) == ""
  {
  }

  lemma AloneUnique(text: string)
    requires text != "" && (IsPlain(text) || IsUnclosed(text))
    ensures Segments(text) == [Segment(TEXT, text)]
  {
    hide SegmentsFrom, IsUnclosed, IsPlain;
    if IsPlain(text) {
      OnlyText(text);
    } else {
      UnclosedAlone(text);
    }
  }

  lemma BeginsMarker(segs: seq<Segment>)
    requires segs != [] && NonEmptyValues(segs) && WellShaped(segs)
    requires segs[0].kind == MARKER || IsUnclosed(segs[0].value)
    ensures Concat(segs) != "" && IsOpener(Concat(segs)[0])
  {
    assert segs == [segs[0]] + segs[1..];
    ConcatCons(segs[0], segs[1..]);
  }

  // The segments of a text have that shape too.
  lemma {:induction false} SegmentsApart(text: string, from: nat)
    requires from <= |text|
    ensures TextsApart(SegmentsFrom(text, from))
    decreases |text| - from, 1
  {
    hide NextOpener, NextCloser, MarkerFrom, IsUnclosed;
    var open := NextOpener(text, from);
    if open < |text| {
      MarkerApart(text, open);
    }
  }

  lemma {:induction false} MarkerApart(text: string, open: nat)
    requires open < |text| && IsOpener(text[open])
    ensures TextsApart(MarkerFrom(text, open)) && MarkerFrom(text, open) != []
    ensures var first := MarkerFrom(text, open)[0]; first.kind == MARKER || IsUnclosed(first.value)
    decreases |text| - open, 0
  {
    hide NextOpener, NextCloser, SegmentsFrom;
    var close := NextCloser(text, text[open], open + 1);
    if close < |text| {
      SegmentsApart(text, close + 1);
      var rest := SegmentsFrom(text, close + 1);
      assert forall i :: 0 <= i < |rest| ==> ([Segment(MARKER, text[open..close + 1])] + rest)[i + 1] == rest[i];
    } else {
      assert IsUnclosed(text[open..|text|]);
    }
  }

  method SegmentizeMarkers(text: string) returns (retval: seq<Segment>)
    ensures retval == Segments(text)
  {
    hide SegmentsFrom, MarkerFrom;
    retval := [];
    var inMarker := false;
    var markerOpener := '\0';
    var lastBorder := 0;
    var curPos := 0;
    while curPos < |text|
      invariant 0 <= lastBorder <= curPos <= |text|
      invariant !inMarker ==> Segments(text) == retval + SegmentsFrom(text, lastBorder)
      invariant !inMarker ==> forall k :: lastBorder <= k < curPos ==> !IsOpener(text[k])
      invariant inMarker ==> lastBorder < curPos && text[lastBorder] == markerOpener
      invariant inMarker ==> Segments(text) == retval + MarkerFrom(text, lastBorder)
      invariant inMarker ==> forall k :: lastBorder < k < curPos ==> !IsCloser(markerOpener, text[k])
    {
      if !inMarker && IsOpener(text[curPos]) {
        AtOpener(text, lastBorder, curPos);
        if lastBorder < curPos {
          retval := retval + [Segment(TEXT, text[lastBorder..curPos])];
        }
        lastBorder := curPos;
        inMarker := true;
        markerOpener := text[curPos];
      } else if inMarker && IsCloser(markerOpener, text[curPos]) {
        AtCloser(text, lastBorder, curPos);
        retval := retval + [Segment(MARKER, text[lastBorder..curPos + 1])];
        lastBorder := curPos + 1;
        inMarker := false;
        markerOpener := '\0';
      }
      curPos := curPos + 1;
    }
    if inMarker {
      AtCloser(text, lastBorder, |text|);
    } else {
      AtOpener(text, lastBorder, |text|);
    }
    if lastBorder < |text| {
      assert text[lastBorder..] == text[lastBorder..|text|];
      retval := retval + [Segment(TEXT, text[lastBorder..])];
    }
  }
}

/** The difference of two rendered templates: shared prefix, shared suffix and the two differing middles. */
module MarkerDiff {
  import opened MarkerSegments

  datatype DiffSplit = DiffSplit(prefix: string, suffix: string, left: string, right: string)

  // ---------- Common prefixes and suffixes ----------

  // The number of positions, from `i` on, at which both sequences agree in front.
  function CommonPrefixFrom<T(==)>(x: seq<T>, y: seq<T>, i: nat): (n: nat)
    requires i <= |x| && i <= |y|
    ensures i <= n <= |x| && n <= |y|
    ensures forall k :: i <= k < n ==> x[k] == y[k]
    ensures n < |x| && n < |y| ==> x[n] != y[n]
    decreases |x| - i
  {
    if i == |x| || i == |y| || x[i] != y[i] then i else CommonPrefixFrom(x, y, i + 1)
  }

  function CommonPrefix<T(==)>(x: seq<T>, y: seq<T>): (n: nat)
    ensures n <= |x| && n <= |y|
  {
    CommonPrefixFrom(x, y, 0)
  }

  // The element `k` places before the last one.
  function FromEnd<T>(x: seq<T>, k: nat): T
    requires k < |x|
  {
    x[|x| - 1 - k]
  }

  // The same, counted from the back.
  function CommonSuffixFrom<T(==)>(x: seq<T>, y: seq<T>, i: nat): (n: nat)
    requires i <= |x| && i <= |y|
    ensures i <= n <= |x| && n <= |y|
    ensures forall k :: i <= k < n ==> FromEnd(x, k) == FromEnd(y, k)
    ensures n < |x| && n < |y| ==> FromEnd(x, n) != FromEnd(y, n)
    decreases |x| - i
  {
    if i == |x| || i == |y| || FromEnd(x, i) != FromEnd(y, i) then i else CommonSuffixFrom(x, y, i + 1)
  }

  function CommonSuffix<T(==)>(x: seq<T>, y: seq<T>): (n: nat)
    ensures n <= |x| && n <= |y|
  {
    CommonSuffixFrom(x, y, 0)
  }

  method CommonPrefixLen(left: string, right: string) returns (prefixLen: nat)
    ensures prefixLen == CommonPrefix(left, right)
  {
    prefixLen := 0;
    var minLen := if |left| < |right| then |left| else |right|;
    while prefixLen < minLen && left[prefixLen] == right[prefixLen]
      invariant prefixLen <= minLen
      invariant CommonPrefix(left, right) == CommonPrefixFrom(left, right, prefixLen)
    {
      prefixLen := prefixLen + 1;
    }
  }

  method CommonSuffixLen(left: string, right: string) returns (suffixLen: nat)
    ensures suffixLen == CommonSuffix(left, right)
  {
    suffixLen := 0;
    var minLen := if |left| < |right| then |left| else |right|;
    while suffixLen < minLen && left[|left| - 1 - suffixLen] == right[|right| - 1 - suffixLen]
      invariant suffixLen <= minLen
      invariant CommonSuffix(left, right) == CommonSuffixFrom(left, right, suffixLen)
    {
      suffixLen := suffixLen + 1;
    }
  }

  // ---------- What a split should be ----------

  predicate Reconstructs(left: string, right: string, d: DiffSplit) {
    && d.prefix + d.left + d.suffix == left
    && d.prefix + d.right + d.suffix == right
  }

  // Segments of `a` can be eaten twice: `a` has an even number of segments, its first half
  // begins `b` and its second half ends `b`, so both ends are eaten in every round, and the
  // segment in the middle of `a` is found once more at the edge of what `b` has left.
  predicate EatenTwice(a: seq<Segment>, b: seq<Segment>) {
    var k := |a| / 2;
    && 0 < |a| < |b| && |a| % 2 == 0
    && a[..k] == b[..k] && a[k..] == b[|b| - k..]
    && if |b| == |a| + 1 then a[k] == b[k] && a[k].kind == MARKER
       else a[k] == b[|b| - 1 - k] || a[k] == b[k]
  }

  // The inputs on which the split does not add up. The last repair step saves the case in
  // which `left` is a prefix of `right`, provided something of `right` was left over.
  predicate SplitFails(left: string, right: string) {
    var a, b := Segments(left), Segments(right);
    || (EatenTwice(a, b) && !(|b| > |a| + 1 && left <= right))
    || EatenTwice(b, a)
  }

  // Splits the two remainders between `prefix` and `suffix` by characters: a shared ending
  // moves to the suffix when both remainders end in text, then a shared beginning to the
  // prefix when both begin with text.
  function RefineRest(prefix: string, suffix: string, ra: seq<Segment>, rb: seq<Segment>): DiffSplit
    requires ra != [] && rb != []
  {
    CutByText(prefix, suffix, Concat(ra), Concat(rb),
              ra[|ra| - 1].kind == TEXT && rb[|rb| - 1].kind == TEXT,
              ra[0].kind == TEXT && rb[0].kind == TEXT)
  }

  function CutByText(prefix: string, suffix: string, x: string, y: string, textBehind: bool,
                     textInFront: bool): DiffSplit {
    var n := if textBehind then CommonSuffix(x, y) else 0;
    var m := if textInFront then CommonPrefix(x[..|x| - n], y[..|y| - n]) else 0;
    Cut(prefix, suffix, x, y, m, n)
  }

  // `m` characters in front and `n` behind move from both remainders to prefix and suffix.
  function Cut(prefix: string, suffix: string, x: string, y: string, m: nat, n: nat): DiffSplit
    requires m + n <= |x| && m + n <= |y|
  {
    DiffSplit(prefix + x[..m], x[|x| - n..] + suffix, x[m..|x| - n], y[m..|y| - n])
  }

  lemma CutNothing(prefix: string, suffix: string, x: string, y: string, textBehind: bool, textInFront: bool)
    requires x == "" || y == ""
    ensures CutByText(prefix, suffix, x, y, textBehind, textInFront) == DiffSplit(prefix, suffix, x, y)
  {
  }

  // The split around `p` shared segments in front and `s` behind.
  function Refine(a: seq<Segment>, b: seq<Segment>, p: nat, s: nat): DiffSplit
    requires p + s < |a| && p + s < |b|
  {
    RefineRest(Concat(a[..p]), Concat(a[|a| - s..]), a[p..|a| - s], b[p..|b| - s])
  }

  // The two closing adjustments: no difference at all, and `left` being a prefix of `right`.
  function Tidy(left: string, right: string, d: DiffSplit): DiffSplit {
    if d.left == "" && d.right == "" then DiffSplit(left, "", "", "")
    else if d.left == "" && left <= right then DiffSplit(left, "", "", right[|left|..])
    else d
  }

  // ---------- Reconstruction ----------

  ghost predicate Shared(a: seq<Segment>, b: seq<Segment>, p: nat, s: nat) {
    && p + s <= |a| && p + s <= |b|
    && a[..p] == b[..p] && a[|a| - s..] == b[|b| - s..]
  }

  lemma ConcatThree(a: seq<Segment>, p: nat, s: nat)
    requires p + s <= |a|
    ensures Concat(a) == Concat(a[..p]) + Concat(a[p..|a| - s]) + Concat(a[|a| - s..])
  {
    hide Concat;
    ConcatSplit(a, |a| - s);
    ConcatSplit(a[..|a| - s], p);
    assert a[..|a| - s][..p] == a[..p];
    assert a[..|a| - s][p..] == a[p..|a| - s];
  }

  lemma RefineReconstructs(a: seq<Segment>, b: seq<Segment>, p: nat, s: nat)
    requires Shared(a, b, p, s) && p + s < |a| && p + s < |b|
    ensures Reconstructs(Concat(a), Concat(b), Refine(a, b, p, s))
  {
    hide Concat, RefineRest, Reconstructs;
    ConcatThree(a, p, s);
    ConcatThree(b, p, s);
    RestReconstructs(Concat(a[..p]), Concat(a[|a| - s..]), a[p..|a| - s], b[p..|b| - s]);
  }

  lemma RestReconstructs(prefix: string, suffix: string, ra: seq<Segment>, rb: seq<Segment>)
    requires ra != [] && rb != []
    ensures Reconstructs(prefix + Concat(ra) + suffix, prefix + Concat(rb) + suffix, RefineRest(prefix, suffix, ra, rb))
  {
    hide Concat, CutByText, Reconstructs;
    CutReconstructs(prefix, suffix, Concat(ra), Concat(rb),
                    ra[|ra| - 1].kind == TEXT && rb[|rb| - 1].kind == TEXT, ra[0].kind == TEXT && rb[0].kind == TEXT);
  }

  lemma CutReconstructs(prefix: string, suffix: string, x: string, y: string, textBehind: bool, textInFront: bool)
    ensures Reconstructs(prefix + x + suffix, prefix + y + suffix,
                         CutByText(prefix, suffix, x, y, textBehind, textInFront))
  {
    hide CommonSuffixFrom, CommonPrefixFrom;
    var n := if textBehind then CommonSuffix(x, y) else 0;
    var m := if textInFront then CommonPrefix(x[..|x| - n], y[..|y| - n]) else 0;
    assert x[..|x| - n][..m] == y[..|y| - n][..m];
    hide CommonSuffix, CommonPrefix;
    CutsAgree(x, y, m, n);
    hide FromEnd, Reconstructs;
    CutAgreed(prefix, suffix, x, y, m, n);
  }

  lemma CutAgreed(prefix: string, suffix: string, x: string, y: string, m: nat, n: nat)
    requires m + n <= |x| && m + n <= |y|
    requires x[..m] == y[..m] && x[|x| - n..] == y[|y| - n..]
    ensures Reconstructs(prefix + x + suffix, prefix + y + suffix, Cut(prefix, suffix, x, y, m, n))
  {
    Regroup(prefix, x, m, n, suffix);
    Regroup(prefix, y, m, n, suffix);
  }

  lemma CutsAgree(x: string, y: string, m: nat, n: nat)
    requires m + n <= |x| && m + n <= |y|
    requires forall k :: 0 <= k < n ==> FromEnd(x, k) == FromEnd(y, k)
    requires x[..|x| - n][..m] == y[..|y| - n][..m]
    ensures x[..m] == y[..m] && x[|x| - n..] == y[|y| - n..]
  {
    var xs, ys := x[|x| - n..], y[|y| - n..];
    forall k | 0 <= k < |xs|
      ensures xs[k] == ys[k]
    {
      assert FromEnd(x, n - 1 - k) == FromEnd(y, n - 1 - k);
    }
    assert x[..m] == x[..|x| - n][..m];
    assert y[..m] == y[..|y| - n][..m];
  }

  lemma Regroup(prefix: string, x: string, m: nat, n: nat, suffix: string)
    requires m + n <= |x|
    ensures prefix + x + suffix == prefix + x[..m] + x[m..|x| - n] + (x[|x| - n..] + suffix)
  {
    assert x == x[..m] + x[m..|x| - n] + x[|x| - n..];
  }

  lemma TidyReconstructs(left: string, right: string, d: DiffSplit)
    requires Reconstructs(left, right, d)
    ensures Reconstructs(left, right, Tidy(left, right, d))
  {
  }

  // ---------- The segment loop ----------

  // What the loop keeps: `p` and `s` segments are shared in front and behind, and a side is
  // marked consumed only when a round ate its last two segments from both ends at once.
  // `t` counts the rounds; an end that fell behind the rounds is stuck at a mismatch.
  ghost predicate Eating(a: seq<Segment>, b: seq<Segment>, p: nat, s: nat, t: nat, leftDone: bool, rightDone: bool) {
    && Shared(a, b, p, s) && p <= t && s <= t && p < |a| && p < |b|
    && (if leftDone then p + s == |a| && p == s else p + s < |a|)
    && (if rightDone then p + s == |b| && p == s else p + s < |b|)
    && (p < t ==> a[p] != b[p])
    && (s < t && s < |a| && s < |b| ==> FromEnd(a, s) != FromEnd(b, s))
  }

  // Why the loop stopped.
  ghost predicate Stopped(a: seq<Segment>, b: seq<Segment>, p: nat, s: nat) {
    || p + s >= |a| - 1 || p + s >= |b| - 1
    || (p < |a| && p < |b| && a[p] != b[p] && s < |a| && s < |b| && FromEnd(a, s) != FromEnd(b, s))
  }

  lemma SharedPointwise(a: seq<Segment>, b: seq<Segment>, p: nat, s: nat)
    requires Shared(a, b, p, s)
    ensures forall i :: 0 <= i < p ==> a[i] == b[i]
    ensures forall i :: 0 <= i < s ==> FromEnd(a, i) == FromEnd(b, i)
  {
    forall i | 0 <= i < p
      ensures a[i] == b[i]
    {
      assert a[i] == a[..p][i] == b[..p][i];
    }
    forall i | 0 <= i < s
      ensures FromEnd(a, i) == FromEnd(b, i)
    {
      assert FromEnd(a, i) == a[|a| - s..][s - 1 - i] == b[|b| - s..][s - 1 - i];
    }
  }

  // A doubly eaten list is exactly a left side consumed inside the loop, halfway.
  lemma StoppedWhenEatenTwice(a: seq<Segment>, b: seq<Segment>, p: nat, s: nat, t: nat, leftDone: bool, rightDone: bool)
    requires Eating(a, b, p, s, t, leftDone, rightDone) && Stopped(a, b, p, s)
    requires EatenTwice(a, b)
    ensures leftDone && !rightDone && p == |a| / 2
  {
    SharedPointwise(a, b, |a| / 2, |a| / 2);
  }

  lemma HalvesShared(a: seq<Segment>, b: seq<Segment>, p: nat, s: nat, t: nat, leftDone: bool, rightDone: bool)
    requires Eating(a, b, p, s, t, leftDone, rightDone)
    requires leftDone && !rightDone
    ensures var k := |a| / 2; p == k && |a| % 2 == 0 && |a| < |b| && a[..k] == b[..k] && a[k..] == b[|b| - k..]
  {
  }

  // Both lists shrink to nothing only if they are equal.
  lemma BothDone(a: seq<Segment>, b: seq<Segment>, p: nat, s: nat)
    requires Shared(a, b, p, s) && p + s == |a| == |b|
    ensures a == b
  {
    assert a == a[..p] + a[|a| - s..];
    assert b == b[..p] + b[|b| - s..];
  }

  // ---------- The split ----------

  // Everything the two outer cases need to know about a side that was consumed.
  lemma ConsumedReconstructs(left: string, right: string, a: seq<Segment>, b: seq<Segment>, p: nat, s: nat)
    requires a == Segments(left) && b == Segments(right)
    requires Shared(a, b, p, s) && (p + s == |a| || p + s == |b|)
    ensures var d := DiffSplit(Concat(a[..p]), Concat(a[|a| - s..]), Concat(a[p..|a| - s]), Concat(b[p..|b| - s]));
            Reconstructs(left, right, d)
  {
    hide Concat, SegmentsFrom;
    SegmentsLossless(left);
    SegmentsLossless(right);
    ConcatThree(a, p, s);
    ConcatThree(b, p, s);
  }

  // One segment of `left` was counted once too often and nothing of `left` remains.
  lemma LeftCountedTwice(left: string, right: string, d: DiffSplit)
    requires |d.prefix| + |d.suffix| > |left| && d.left == ""
    requires d.right == "" ==> left != right
    ensures Reconstructs(left, right, Tidy(left, right, d)) <==> d.right != "" && left <= right
  {
  }

  lemma RightCountedTwice(left: string, right: string, d: DiffSplit)
    requires |d.prefix| + |d.suffix| > |right| && d.right == "" && left != right
    requires d.left == "" ==> |right| < |left|
    ensures !Reconstructs(left, right, Tidy(left, right, d))
  {
  }

  lemma ShareInFront(a: seq<Segment>, b: seq<Segment>, p: nat, s: nat)
    requires Shared(a, b, p, s) && p + s < |a| && p + s < |b| && a[p] == b[p]
    ensures Shared(a, b, p + 1, s)
    ensures Concat(a[..p + 1]) == Concat(a[..p]) + a[p].value
  {
    assert a[..p + 1] == a[..p] + [a[p]];
    assert b[..p + 1] == b[..p] + [b[p]];
    ConcatAppend(a[..p], [a[p]]);
    ConcatSingle(a[p]);
  }

  lemma ShareBehind(a: seq<Segment>, b: seq<Segment>, p: nat, s: nat)
    requires Shared(a, b, p, s) && p + s < |a| && p + s < |b| && FromEnd(a, s) == FromEnd(b, s)
    ensures Shared(a, b, p, s + 1)
    ensures Concat(a[|a| - s - 1..]) == FromEnd(a, s).value + Concat(a[|a| - s..])
  {
    assert a[|a| - s - 1..] == [FromEnd(a, s)] + a[|a| - s..];
    assert b[|b| - s - 1..] == [FromEnd(b, s)] + b[|b| - s..];
    ConcatCons(FromEnd(a, s), a[|a| - s..]);
  }

  lemma NothingEaten(a: seq<Segment>, b: seq<Segment>)
    requires a != [] && b != []
    ensures Eating(a, b, 0, 0, 0, false, false)
    ensures Concat(a[..0]) == "" && Concat(a[|a|..]) == ""
  {
    assert a[|a|..] == [] == b[|b|..];
  }

  // One round of the loop: at most one more segment at each end.
  lemma EatRound(a: seq<Segment>, b: seq<Segment>, p: nat, s: nat, t: nat)
    requires Eating(a, b, p, s, t, false, false)
    requires p + s < |a| - 1 && p + s < |b| - 1
    requires a[p] == b[p] || FromEnd(a, s) == FromEnd(b, s)
    ensures var front, back := a[p] == b[p], FromEnd(a, s) == FromEnd(b, s);
            var p', s' := if front then p + 1 else p, if back then s + 1 else s;
            && Eating(a, b, p', s', t + 1, back && p' + s == |a| - 1, back && p' + s == |b| - 1)
            && Concat(a[..p']) == Concat(a[..p]) + (if front then a[p].value else "")
            && Concat(a[|a| - s'..]) == (if back then FromEnd(a, s).value else "") + Concat(a[|a| - s..])
  {
    hide Concat;
    var p' := p;
    if a[p] == b[p] {
      ShareInFront(a, b, p, s);
      p' := p + 1;
    }
    if FromEnd(a, s) == FromEnd(b, s) {
      ShareBehind(a, b, p', s);
    }
  }

  predicate EndsWith(x: string, t: string) {
    |t| <= |x| && x[|x| - |t|..] == t
  }

  // `x` and `y` with the longest ending they share taken off, then the longest beginning of what is left, each
  // only if it may be.
  ghost predicate TextCut(x: string, y: string, head: string, tail: string, left: string, right: string,
                          behind: bool, inFront: bool) {
    && x == head + left + tail && y == head + right + tail
    && (if behind then forall t :: EndsWith(x, t) && EndsWith(y, t) ==> |t| <= |tail| else tail == "")
    && (if inFront then forall h :: h <= head + left && h <= head + right ==> |h| <= |head| else head == "")
  }

  // With segments to spare on both sides: `p` shared segments and a shared text in front, a shared text and `s`
  // shared segments behind. Characters move only where both sides have text.
  ghost predicate SpareSplit(a: seq<Segment>, b: seq<Segment>, p: nat, s: nat, d: DiffSplit)
    requires p + s < |a| && p + s < |b|
  {
    var front, back := Concat(a[..p]), Concat(a[|a| - s..]);
    && front <= d.prefix && EndsWith(d.suffix, back)
    && TextCut(Concat(a[p..|a| - s]), Concat(b[p..|b| - s]), d.prefix[|front|..], d.suffix[..|d.suffix| - |back|],
               d.left, d.right, FromEnd(a, s).kind == TEXT && FromEnd(b, s).kind == TEXT,
               a[p].kind == TEXT && b[p].kind == TEXT)
  }

  // A list of `n` segments that both ends cover is eaten from both ends in turn: `c` in front, as near to the
  // middle as the shared ends allow.
  predicate EvenCut(n: nat, c: nat, p: nat, s: nat) {
    c <= p && c <= n <= c + s && (c < n / 2 ==> c == p) && (c > n / 2 ==> c + s == n)
  }

  // All segments of `a` are shared with the longer `b`; `rest` is what `b` has besides. A doubly eaten list has
  // one of its segments counted twice, behind if `b` still ends with it, else in front.
  ghost predicate CoveredSplit(a: seq<Segment>, b: seq<Segment>, p: nat, s: nat, prefix: string, suffix: string,
                               rest: string)
    requires |a| < |b|
  {
    var k := |a| / 2;
    if !EatenTwice(a, b) then
      exists c: nat :: EvenCut(|a|, c, p, s)
        && prefix == Concat(a[..c]) && suffix == Concat(a[c..]) && rest == Concat(b[c..|b| - (|a| - c)])
    else if |a| + 1 < |b| && a[k] == b[|b| - 1 - k] then
      prefix == Concat(a[..k]) && suffix == a[k].value + Concat(a[k..]) && rest == Concat(b[k..|b| - 1 - k])
    else
      prefix == Concat(a[..k]) + a[k].value && suffix == Concat(a[k..]) && rest == Concat(b[k + 1..|b| - k])
  }

  // What is shared and what is not, before the closing adjustments.
  ghost predicate Divided(a: seq<Segment>, b: seq<Segment>, d: DiffSplit) {
    var p, s := CommonPrefix(a, b), CommonSuffix(a, b);
    if p + s < |a| && p + s < |b| then SpareSplit(a, b, p, s, d)
    else if |a| < |b| then d.left == "" && CoveredSplit(a, b, p, s, d.prefix, d.suffix, d.right)
    else if |b| < |a| then d.right == "" && CoveredSplit(b, a, p, s, d.prefix, d.suffix, d.left)
    else d.left == "" == d.right
  }

  // The closing adjustments: without a difference everything is prefix, and so is all of a `left` that has
  // nothing of its own and begins `right`.
  ghost predicate Adjusted(left: string, right: string, d: DiffSplit, r: DiffSplit) {
    && (d.left == "" && d.right == "" ==> r == DiffSplit(left, "", "", ""))
    && (d.left == "" && d.right != "" && left <= right ==> r == DiffSplit(left, "", "", right[|left|..]))
    && (d.left != "" || (d.right != "" && !(left <= right)) ==> r == d)
  }

  // The promise of the split: it divides what the ends share, and it adds up exactly on the inputs that do not fail.
  ghost predicate Promised(left: string, right: string, r: DiffSplit) {
    && (exists d :: Divided(Segments(left), Segments(right), d) && Adjusted(left, right, d, r))
    && (Reconstructs(left, right, r) <==> !SplitFails(left, right))
  }

  // The split before the closing adjustments, from the segments each side has left.
  function Remainder(prefix: string, suffix: string, ra: seq<Segment>, rb: seq<Segment>): DiffSplit {
    if ra == [] || rb == [] then DiffSplit(prefix, suffix, Concat(ra), Concat(rb))
    else RefineRest(prefix, suffix, ra, rb)
  }

  // The segments between two ends, both included unless the side was consumed.
  function Rest(a: seq<Segment>, start: nat, end: nat, consumed: bool): seq<Segment>
    requires start <= end < |a|
  {
    if consumed then a[start..end] else a[start..end + 1]
  }

  // ---------- The four ways the loop and the last segment can end ----------

  // No segment was eaten twice, and what is left over cannot be matched any further.
  ghost predicate Settled(a: seq<Segment>, b: seq<Segment>, p: nat, s: nat) {
    && Shared(a, b, p, s) && !EatenTwice(a, b) && !EatenTwice(b, a)
    && (p + s < |a| && p + s < |b| ==>
          || (a[p] != b[p] && FromEnd(a, s) != FromEnd(b, s))
          || (p + s == |a| - 1 == |b| - 1 && a[p] == b[p] && a[p].kind == TEXT))
    && (p + s == |a| < |b| ==> EvenCut(|a|, p, CommonPrefix(a, b), CommonSuffix(a, b)))
    && (p + s == |b| < |a| ==> EvenCut(|b|, p, CommonPrefix(a, b), CommonSuffix(a, b)))
  }

  lemma SettledShare(a: seq<Segment>, b: seq<Segment>, p: nat, s: nat)
    requires Settled(a, b, p, s)
    ensures p <= CommonPrefix(a, b) && s <= CommonSuffix(a, b)
    ensures p + s < |a| && p + s < |b| && !(p + s == |a| - 1 == |b| - 1 && a[p] == b[p]) ==>
              p == CommonPrefix(a, b) && s == CommonSuffix(a, b)
  {
    hide EatenTwice;
    SharedPointwise(a, b, p, s);
  }

  lemma RefineEqualText(prefix: string, suffix: string, x: Segment)
    requires x.kind == TEXT
    ensures var d := RefineRest(prefix, suffix, [x], [x]); d.left == "" && d.right == ""
  {
    hide Concat;
    hide CommonSuffixFrom, CommonPrefixFrom;
    assert CommonSuffix(Concat([x]), Concat([x])) == |Concat([x])|;
  }

  // The split around `p` and `s` shared segments, whichever sides are used up.
  function Around(a: seq<Segment>, b: seq<Segment>, p: nat, s: nat): DiffSplit
    requires p + s <= |a| && p + s <= |b|
  {
    Remainder(Concat(a[..p]), Concat(a[|a| - s..]), a[p..|a| - s], b[p..|b| - s])
  }

  lemma AroundReconstructs(left: string, right: string, a: seq<Segment>, b: seq<Segment>, p: nat, s: nat)
    requires a == Segments(left) && b == Segments(right)
    requires Shared(a, b, p, s)
    ensures Reconstructs(left, right, Around(a, b, p, s))
  {
    hide Concat, SegmentsFrom, RefineRest, Reconstructs;
    SegmentsLossless(left);
    SegmentsLossless(right);
    if p + s < |a| && p + s < |b| {
      RefineReconstructs(a, b, p, s);
    } else {
      ConsumedReconstructs(left, right, a, b, p, s);
    }
  }

  lemma NoText()
    ensures Concat([]) == ""
  {
  }

  // ---------- What the split divides ----------

  lemma LongestEnding(x: string, y: string, t: string)
    requires EndsWith(x, t) && EndsWith(y, t)
    ensures |t| <= CommonSuffix(x, y)
  {
    hide CommonSuffixFrom;
    assert forall k :: 0 <= k < |t| ==> FromEnd(x, k) == x[|x| - |t|..][|t| - 1 - k] == t[|t| - 1 - k];
    assert forall k :: 0 <= k < |t| ==> FromEnd(y, k) == y[|y| - |t|..][|t| - 1 - k] == t[|t| - 1 - k];
  }

  lemma LongestBeginning(x: string, y: string, h: string)
    requires h <= x && h <= y
    ensures |h| <= CommonPrefix(x, y)
  {
    hide CommonPrefixFrom;
    assert forall k :: 0 <= k < |h| ==> x[k] == h[k] == y[k];
  }

  lemma TextMoves(x: string, y: string, behind: bool, inFront: bool)
    ensures var n := if behind then CommonSuffix(x, y) else 0;
            var m := if inFront then CommonPrefix(x[..|x| - n], y[..|y| - n]) else 0;
            TextCut(x, y, x[..m], x[|x| - n..], x[m..|x| - n], y[m..|y| - n], behind, inFront)
  {
    var n := if behind then CommonSuffix(x, y) else 0;
    var x', y' := x[..|x| - n], y[..|y| - n];
    var m := if inFront then CommonPrefix(x', y') else 0;
    assert x'[..m] == y'[..m];
    CutsAgree(x, y, m, n);
    LongestEndings(x, y);
    LongestBeginnings(x', y');
    hide CommonSuffix, CommonPrefix;
    CutMoves(x, y, m, n, behind, inFront);
  }

  // A cut that takes the longest ending, where it may, and then the longest beginning.
  lemma CutMoves(x: string, y: string, m: nat, n: nat, behind: bool, inFront: bool)
    requires m + n <= |x| && m + n <= |y| && x[..m] == y[..m] && x[|x| - n..] == y[|y| - n..]
    requires if behind then forall t :: EndsWith(x, t) && EndsWith(y, t) ==> |t| <= n else n == 0
    requires if inFront then forall h :: h <= x[..|x| - n] && h <= y[..|y| - n] ==> |h| <= m else m == 0
    ensures TextCut(x, y, x[..m], x[|x| - n..], x[m..|x| - n], y[m..|y| - n], behind, inFront)
  {
    hide EndsWith;
    Pieces(x, m, n);
    Pieces(y, m, n);
  }

  lemma Pieces(x: string, m: nat, n: nat)
    requires m + n <= |x|
    ensures x == x[..m] + x[m..|x| - n] + x[|x| - n..] && x[..|x| - n] == x[..m] + x[m..|x| - n]
    ensures n == 0 ==> x[|x| - n..] == ""
  {
  }

  lemma LongestEndings(x: string, y: string)
    ensures forall t :: EndsWith(x, t) && EndsWith(y, t) ==> |t| <= CommonSuffix(x, y)
  {
    hide EndsWith, CommonSuffix;
    forall t | EndsWith(x, t) && EndsWith(y, t)
      ensures |t| <= CommonSuffix(x, y)
    {
      LongestEnding(x, y, t);
    }
  }

  lemma LongestBeginnings(x: string, y: string)
    ensures forall h :: h <= x && h <= y ==> |h| <= CommonPrefix(x, y)
  {
    hide CommonPrefix;
    forall h | h <= x && h <= y
      ensures |h| <= CommonPrefix(x, y)
    {
      LongestBeginning(x, y, h);
    }
  }

  lemma CutIsTextCut(prefix: string, suffix: string, x: string, y: string, behind: bool, inFront: bool)
    ensures var d := CutByText(prefix, suffix, x, y, behind, inFront);
            && prefix <= d.prefix && EndsWith(d.suffix, suffix)
            && TextCut(x, y, d.prefix[|prefix|..], d.suffix[..|d.suffix| - |suffix|], d.left, d.right, behind, inFront)
  {
    hide TextCut, CommonSuffix, CommonPrefix, EndsWith;
    TextMoves(x, y, behind, inFront);
    var n := if behind then CommonSuffix(x, y) else 0;
    var m := if inFront then CommonPrefix(x[..|x| - n], y[..|y| - n]) else 0;
    CutParts(prefix, suffix, x, y, m, n);
    hide Cut;
  }

  lemma CutParts(prefix: string, suffix: string, x: string, y: string, m: nat, n: nat)
    requires m + n <= |x| && m + n <= |y|
    ensures var d := Cut(prefix, suffix, x, y, m, n);
            && d.left == x[m..|x| - n] && d.right == y[m..|y| - n]
            && prefix <= d.prefix && d.prefix[|prefix|..] == x[..m]
            && EndsWith(d.suffix, suffix) && d.suffix[..|d.suffix| - |suffix|] == x[|x| - n..]
  {
  }

  lemma RefineSpare(a: seq<Segment>, b: seq<Segment>, p: nat, s: nat)
    requires p + s < |a| && p + s < |b|
    ensures SpareSplit(a, b, p, s, Refine(a, b, p, s))
  {
    hide Concat, CutByText, TextCut, EndsWith;
    var ra, rb := a[p..|a| - s], b[p..|b| - s];
    assert ra[0] == a[p] && rb[0] == b[p] && ra[|ra| - 1] == FromEnd(a, s) && rb[|rb| - 1] == FromEnd(b, s);
    CutIsTextCut(Concat(a[..p]), Concat(a[|a| - s..]), Concat(ra), Concat(rb),
                 ra[|ra| - 1].kind == TEXT && rb[|rb| - 1].kind == TEXT, ra[0].kind == TEXT && rb[0].kind == TEXT);
  }

  lemma AroundIsRefine(a: seq<Segment>, b: seq<Segment>, p: nat, s: nat)
    requires p + s < |a| && p + s < |b|
    ensures Around(a, b, p, s) == Refine(a, b, p, s)
  {
    hide Concat, RefineRest;
  }

  // The shorter list is used up.
  lemma CoveredAround(a: seq<Segment>, b: seq<Segment>, p: nat, s: nat)
    requires Settled(a, b, p, s) && p + s == |a| < |b|
    ensures var d, e := Around(a, b, p, s), Around(b, a, p, s);
            && d.left == "" == e.right
            && CoveredSplit(a, b, CommonPrefix(a, b), CommonSuffix(a, b), d.prefix, d.suffix, d.right)
            && CoveredSplit(a, b, CommonPrefix(a, b), CommonSuffix(a, b), e.prefix, e.suffix, e.left)
  {
    NoText();
    hide Concat, CommonPrefix, CommonSuffix, EatenTwice;
    assert a[p..|a| - s] == [] && |a| - s == p;
    assert a[..p] == b[..p] && a[|a| - s..] == b[|b| - s..];
    assert |b| - (|a| - p) == |b| - s;
  }

  lemma SettledSwap(a: seq<Segment>, b: seq<Segment>, p: nat, s: nat)
    requires Settled(a, b, p, s)
    ensures Settled(b, a, p, s) && CommonPrefix(a, b) == CommonPrefix(b, a) && CommonSuffix(a, b) == CommonSuffix(b, a)
  {
    hide EatenTwice, EvenCut;
    SwapPrefix(a, b, 0);
    SwapSuffix(a, b, 0);
  }

  lemma {:induction false} SwapPrefix<T>(x: seq<T>, y: seq<T>, i: nat)
    requires i <= |x| && i <= |y|
    ensures CommonPrefixFrom(x, y, i) == CommonPrefixFrom(y, x, i)
    decreases |x| - i
  {
    if i < |x| && i < |y| && x[i] == y[i] {
      SwapPrefix(x, y, i + 1);
    }
  }

  lemma {:induction false} SwapSuffix<T>(x: seq<T>, y: seq<T>, i: nat)
    requires i <= |x| && i <= |y|
    ensures CommonSuffixFrom(x, y, i) == CommonSuffixFrom(y, x, i)
    decreases |x| - i
  {
    hide FromEnd;
    if i < |x| && i < |y| && FromEnd(x, i) == FromEnd(y, i) {
      SwapSuffix(x, y, i + 1);
    }
  }

  lemma AroundDivides(a: seq<Segment>, b: seq<Segment>, p: nat, s: nat)
    requires Settled(a, b, p, s)
    ensures Divided(a, b, Around(a, b, p, s))
  {
    hide Settled, Divided, Around;
    SettledShare(a, b, p, s);
    if p + s < |a| && p + s < |b| {
      SpareDivides(a, b, p, s);
    } else {
      CoveredDivides(a, b, p, s);
    }
  }

  lemma SpareDivides(a: seq<Segment>, b: seq<Segment>, p: nat, s: nat)
    requires Settled(a, b, p, s) && p + s < |a| && p + s < |b|
    ensures Divided(a, b, Around(a, b, p, s))
  {
    SettledShare(a, b, p, s);
    AroundIsRefine(a, b, p, s);
    if p + s == |a| - 1 == |b| - 1 && a[p] == b[p] {
      assert a[p..|a| - s] == [a[p]] == b[p..|b| - s];
      RefineEqualText(Concat(a[..p]), Concat(a[|a| - s..]), a[p]);
    } else {
      RefineSpare(a, b, p, s);
    }
    hide Concat, CommonPrefix, CommonSuffix, EatenTwice, CoveredSplit, SpareSplit, RefineRest;
  }

  lemma CoveredDivides(a: seq<Segment>, b: seq<Segment>, p: nat, s: nat)
    requires Settled(a, b, p, s) && !(p + s < |a| && p + s < |b|)
    ensures Divided(a, b, Around(a, b, p, s))
  {
    NoText();
    SettledShare(a, b, p, s);
    SettledSwap(a, b, p, s);
    if p + s == |a| < |b| {
      CoveredAround(a, b, p, s);
    } else if p + s == |b| < |a| {
      CoveredAround(b, a, p, s);
    }
    hide Concat, CommonPrefix, CommonSuffix, EatenTwice, CoveredSplit, SpareSplit, RefineRest;
    assert p + s == |a| ==> a[p..|a| - s] == [];
    assert p + s == |b| ==> b[p..|b| - s] == [];
  }

  lemma TidyAdjusts(left: string, right: string, d: DiffSplit)
    ensures Adjusted(left, right, d, Tidy(left, right, d))
  {
  }

  lemma PromisedBy(left: string, right: string, d: DiffSplit)
    requires Divided(Segments(left), Segments(right), d)
    requires Reconstructs(left, right, Tidy(left, right, d)) <==> !SplitFails(left, right)
    ensures Promised(left, right, Tidy(left, right, d))
  {
    hide Divided, Adjusted, Reconstructs, SplitFails, Tidy, Segments;
    TidyAdjusts(left, right, d);
  }

  lemma SettledPromised(left: string, right: string, a: seq<Segment>, b: seq<Segment>, p: nat, s: nat)
    requires a == Segments(left) && b == Segments(right) && a != [] && b != []
    requires Settled(a, b, p, s)
    ensures Promised(left, right, Tidy(left, right, Around(a, b, p, s)))
  {
    hide Segments, CommonPrefix, CommonSuffix, EatenTwice, Reconstructs, Tidy, Around, Divided, EvenCut;
    AroundReconstructs(left, right, a, b, p, s);
    TidyReconstructs(left, right, Around(a, b, p, s));
    AroundDivides(a, b, p, s);
    PromisedBy(left, right, Around(a, b, p, s));
  }

  // A consumed left side one of whose segments was eaten again: `prefix` and `suffix` hold
  // more than `left`, and the `right` they leave over is short of that segment.
  lemma LeftTwicePromised(left: string, right: string, a: seq<Segment>, b: seq<Segment>, prefix: string, suffix: string,
                          ra: seq<Segment>, rb: seq<Segment>)
    requires a == Segments(left) && b == Segments(right)
    requires EatenTwice(a, b) && CoveredSplit(a, b, CommonPrefix(a, b), CommonSuffix(a, b), prefix, suffix, Concat(rb))
    requires |prefix| + |suffix| > |left| && ra == [] && |rb| == |b| - |a| - 1 && NonEmptyValues(rb)
    ensures Promised(left, right, Tidy(left, right, Remainder(prefix, suffix, ra, rb)))
  {
    hide SegmentsFrom, CommonPrefixFrom, CommonSuffixFrom, RefineRest;
    ConcatNonEmpty(rb);
    HalvesCover(a, b);
    NoText();
    LeftCountedTwice(left, right, Remainder(prefix, suffix, ra, rb));
    hide CoveredSplit, Concat, Tidy, Reconstructs;
    assert Divided(a, b, Remainder(prefix, suffix, ra, rb));
    PromisedBy(left, right, Remainder(prefix, suffix, ra, rb));
  }

  // The first and second half of a doubly eaten list cover it.
  lemma HalvesCover(a: seq<Segment>, b: seq<Segment>)
    requires EatenTwice(a, b)
    ensures |a| <= CommonPrefix(a, b) + CommonSuffix(a, b)
  {
    hide CommonPrefixFrom, CommonSuffixFrom;
    SharedPointwise(a, b, |a| / 2, |a| / 2);
  }

  lemma HalvesCoverRight(a: seq<Segment>, b: seq<Segment>)
    requires EatenTwice(b, a)
    ensures |b| <= CommonPrefix(a, b) + CommonSuffix(a, b)
  {
    hide CommonPrefixFrom, CommonSuffixFrom;
    SharedPointwise(a, b, |b| / 2, |b| / 2);
  }

  lemma RightTwicePromised(left: string, right: string, a: seq<Segment>, b: seq<Segment>, prefix: string,
                           suffix: string, ra: seq<Segment>, rb: seq<Segment>)
    requires a == Segments(left) && b == Segments(right)
    requires EatenTwice(b, a) && CoveredSplit(b, a, CommonPrefix(a, b), CommonSuffix(a, b), prefix, suffix, Concat(ra))
    requires |prefix| + |suffix| > |right| && rb == [] && NonEmptyValues(ra)
    ensures Promised(left, right, Tidy(left, right, Remainder(prefix, suffix, ra, rb)))
  {
    hide SegmentsFrom, CommonPrefixFrom, CommonSuffixFrom, RefineRest;
    HalvesCoverRight(a, b);
    LongerText(left, right, a, b);
    NoText();
    RightCountedTwice(left, right, Remainder(prefix, suffix, ra, rb));
    hide CoveredSplit, Concat, Tidy, Reconstructs;
    assert Divided(a, b, Remainder(prefix, suffix, ra, rb));
    PromisedBy(left, right, Remainder(prefix, suffix, ra, rb));
  }

  lemma LongerText(left: string, right: string, a: seq<Segment>, b: seq<Segment>)
    requires a == Segments(left) && b == Segments(right)
    requires EatenTwice(b, a)
    ensures |right| < |left|
  {
    hide SegmentsFrom;
    var k := |b| / 2;
    SegmentsLossless(left);
    SegmentsLossless(right);
    ConcatThree(a, k, k);
    ConcatThree(b, k, k);
    assert NonEmptyValues(a[k..|a| - k]);
    ConcatNonEmpty(a[k..|a| - k]);
    assert b[k..|b| - k] == [];
  }

  lemma EqualPromised(left: string, right: string)
    requires left == right && Segments(left) != []
    ensures Promised(left, right, Tidy(left, right, DiffSplit("", "", "", "")))
    ensures forall prefix, suffix ::
              Tidy(left, right, DiffSplit(prefix, suffix, "", "")) == Tidy(left, right, DiffSplit("", "", "", ""))
  {
    hide SegmentsFrom, RefineRest;
    EqualShare(Segments(left), Segments(right));
    hide CommonPrefix, CommonSuffix;
    assert Divided(Segments(left), Segments(right), DiffSplit("", "", "", ""));
    PromisedBy(left, right, DiffSplit("", "", "", ""));
  }

  lemma EqualShare(a: seq<Segment>, b: seq<Segment>)
    ensures a == b ==> |a| <= CommonPrefix(a, b) + CommonSuffix(a, b)
  {
    hide CommonPrefixFrom, CommonSuffixFrom;
  }

  // ---------- What the branches after the loop do to the shared segments ----------

  // The situation when the loop has stopped, on two non-empty segment lists.
  ghost predicate AfterLoop(left: string, right: string, a: seq<Segment>, b: seq<Segment>,
                            p: nat, s: nat, t: nat, leftDone: bool, rightDone: bool) {
    && a == Segments(left) && b == Segments(right) && a != [] && b != []
    && NonEmptyValues(a) && NonEmptyValues(b) && Concat(a) == left && Concat(b) == right
    && Eating(a, b, p, s, t, leftDone, rightDone) && Stopped(a, b, p, s)
  }

  ghost predicate Accepts(left: string, right: string, prefix: string, suffix: string, ra: seq<Segment>,
                          rb: seq<Segment>) {
    Promised(left, right, Tidy(left, right, Remainder(prefix, suffix, ra, rb)))
  }

  lemma LoopLeft(left: string, right: string, a: seq<Segment>, b: seq<Segment>,
                 p: nat, s: nat, t: nat, leftDone: bool, rightDone: bool)
    requires a == Segments(left) && b == Segments(right) && a != [] && b != []
    requires NonEmptyValues(a) && NonEmptyValues(b) && Concat(a) == left && Concat(b) == right
    requires Eating(a, b, p, s, t, leftDone, rightDone)
    requires
      || p == |a| - 1 - s + (if leftDone then 1 else 0)
      || p == |b| - 1 - s + (if rightDone then 1 else 0)
      || (s < |a| && s < |b| && p < |a| && p < |b| && a[p] != b[p] && FromEnd(a, s) != FromEnd(b, s))
    ensures AfterLoop(left, right, a, b, p, s, t, leftDone, rightDone)
  {
    hide Concat, SegmentsFrom;
  }

  lemma NeverTwice(left: string, right: string, a: seq<Segment>, b: seq<Segment>,
                   p: nat, s: nat, t: nat, leftDone: bool, rightDone: bool)
    requires AfterLoop(left, right, a, b, p, s, t, leftDone, rightDone)
    ensures EatenTwice(a, b) ==> leftDone && !rightDone && p == |a| / 2
    ensures EatenTwice(b, a) ==> rightDone && !leftDone && p == |b| / 2
  {
    hide Concat, SegmentsFrom;
    if EatenTwice(a, b) {
      StoppedWhenEatenTwice(a, b, p, s, t, leftDone, rightDone);
    }
    if EatenTwice(b, a) {
      StoppedWhenEatenTwice(b, a, p, s, t, rightDone, leftDone);
    }
  }

  // The segments at which the branches after the loop look.
  ghost predicate NoBranchApplies(a: seq<Segment>, b: seq<Segment>, p: nat, s: nat)
    requires p < |a| && p < |b| && p + s <= |a| && p + s <= |b|
  {
    && (p + s >= |a| - 1 && p + s < |b| - 1 ==> a[p] != b[|b| - 1 - s] && a[p] != b[p])
    && (p + s >= |b| - 1 && p + s < |a| - 1 ==> a[|a| - 1 - s] != b[p] && a[p] != b[p])
    && (p + s >= |a| - 1 && p + s >= |b| - 1 ==> !(a[p] == b[p] && a[p].kind == MARKER))
  }

  // A side that the loop consumes is cut in the middle.
  lemma EvenDone(a: seq<Segment>, b: seq<Segment>, p: nat, s: nat, t: nat, leftDone: bool, rightDone: bool)
    requires Eating(a, b, p, s, t, leftDone, rightDone)
    ensures p + s == |a| ==> EvenCut(|a|, p, CommonPrefix(a, b), CommonSuffix(a, b))
    ensures p + s == |b| ==> EvenCut(|b|, p, CommonPrefix(a, b), CommonSuffix(a, b))
  {
    hide CommonPrefixFrom, CommonSuffixFrom;
    SharedPointwise(a, b, p, s);
  }

  // The last segment of the shorter side goes to the end that still shares, the back one first.
  lemma EvenBehind(a: seq<Segment>, b: seq<Segment>, p: nat, s: nat, t: nat)
    requires Eating(a, b, p, s, t, false, false) && FromEnd(a, s) == FromEnd(b, s)
    ensures p + s + 1 == |a| < |b| ==> EvenCut(|a|, p, CommonPrefix(a, b), CommonSuffix(a, b))
    ensures p + s + 1 == |b| < |a| ==> EvenCut(|b|, p, CommonPrefix(a, b), CommonSuffix(a, b))
  {
    hide CommonPrefixFrom, CommonSuffixFrom;
    SharedPointwise(a, b, p, s);
  }

  lemma EvenInFront(a: seq<Segment>, b: seq<Segment>, p: nat, s: nat, t: nat)
    requires Eating(a, b, p, s, t, false, false) && a[p] == b[p] && FromEnd(a, s) != FromEnd(b, s)
    ensures p + s + 1 == |a| < |b| ==> EvenCut(|a|, p + 1, CommonPrefix(a, b), CommonSuffix(a, b))
    ensures p + s + 1 == |b| < |a| ==> EvenCut(|b|, p + 1, CommonPrefix(a, b), CommonSuffix(a, b))
  {
    hide CommonPrefixFrom, CommonSuffixFrom;
    SharedPointwise(a, b, p, s);
  }

  lemma NoLastMatch(left: string, right: string, a: seq<Segment>, b: seq<Segment>,
                    p: nat, s: nat, t: nat, leftDone: bool, rightDone: bool)
    requires AfterLoop(left, right, a, b, p, s, t, leftDone, rightDone)
    requires !(leftDone && rightDone)
    requires p < |a| && p < |b| && p + s <= |a| && p + s <= |b| && NoBranchApplies(a, b, p, s)
    ensures Accepts(left, right, Concat(a[..p]), Concat(a[|a| - s..]), a[p..|a| - s], b[p..|b| - s])
  {
    hide Concat, Segments, Promised, Remainder, NonEmptyValues, Shared;
    NeverTwice(left, right, a, b, p, s, t, leftDone, rightDone);
    assert !EatenTwice(a, b) && !EatenTwice(b, a);
    EvenDone(a, b, p, s, t, leftDone, rightDone);
    hide EatenTwice, EvenCut, CommonPrefix, CommonSuffix;
    assert Settled(a, b, p, s);
    SettledPromised(left, right, a, b, p, s);
  }

  // What the loop leaves when neither side is consumed.
  lemma LoopShares(left: string, right: string, a: seq<Segment>, b: seq<Segment>,
                   p: nat, s: nat, t: nat, leftDone: bool, rightDone: bool)
    requires AfterLoop(left, right, a, b, p, s, t, leftDone, rightDone)
    requires p + s < |a| && p + s < |b|
    ensures a == Segments(left) && b == Segments(right) && a != [] && b != []
    ensures Shared(a, b, p, s) && !EatenTwice(a, b) && !EatenTwice(b, a) && Eating(a, b, p, s, t, false, false)
  {
    NeverTwice(left, right, a, b, p, s, t, leftDone, rightDone);
    hide Concat, SegmentsFrom, EatenTwice, Shared;
  }

  // With one side used up nothing more can be shared.
  lemma SettledLast(a: seq<Segment>, b: seq<Segment>, p: nat, s: nat)
    requires Shared(a, b, p, s) && (p + s == |a| || p + s == |b|) && !EatenTwice(a, b) && !EatenTwice(b, a)
    requires p + s == |a| < |b| ==> EvenCut(|a|, p, CommonPrefix(a, b), CommonSuffix(a, b))
    requires p + s == |b| < |a| ==> EvenCut(|b|, p, CommonPrefix(a, b), CommonSuffix(a, b))
    ensures Settled(a, b, p, s)
  {
    hide EatenTwice, Shared, EvenCut, CommonPrefix, CommonSuffix;
  }

  // The last segment of `a`, or the last one of `b`, is matched at the far end of the other side.
  lemma LastMatchBehind(left: string, right: string, a: seq<Segment>, b: seq<Segment>,
                        p: nat, s: nat, t: nat, leftDone: bool, rightDone: bool)
    requires AfterLoop(left, right, a, b, p, s, t, leftDone, rightDone)
    requires p + s < |a| && p + s < |b| && FromEnd(a, s) == FromEnd(b, s)
    requires p + s == |a| - 1 || p + s == |b| - 1
    ensures Accepts(left, right, Concat(a[..p]), FromEnd(a, s).value + Concat(a[|a| - s..]), a[p..|a| - s - 1],
                    b[p..|b| - s - 1])
  {
    hide Concat, Segments, Promised, Remainder, AfterLoop, EatenTwice, Shared, Settled, EvenCut, CommonPrefix,
         CommonSuffix;
    LoopShares(left, right, a, b, p, s, t, leftDone, rightDone);
    EvenBehind(a, b, p, s, t);
    ShareBehind(a, b, p, s);
    SettledLast(a, b, p, s + 1);
    SettledPromised(left, right, a, b, p, s + 1);
  }

  lemma LastMatchInFront(left: string, right: string, a: seq<Segment>, b: seq<Segment>,
                         p: nat, s: nat, t: nat, leftDone: bool, rightDone: bool)
    requires AfterLoop(left, right, a, b, p, s, t, leftDone, rightDone)
    requires p + s < |a| && p + s < |b| && a[p] == b[p]
    requires p + s == |a| - 1 || p + s == |b| - 1
    requires FromEnd(a, s) != FromEnd(b, s) || |a| == |b|
    ensures Accepts(left, right, Concat(a[..p]) + a[p].value, Concat(a[|a| - s..]), a[p + 1..|a| - s],
                    b[p + 1..|b| - s])
  {
    hide Concat, Segments, Promised, Remainder, AfterLoop, EatenTwice, Shared, Settled, EvenCut, CommonPrefix,
         CommonSuffix;
    LoopShares(left, right, a, b, p, s, t, leftDone, rightDone);
    if FromEnd(a, s) != FromEnd(b, s) {
      EvenInFront(a, b, p, s, t);
    }
    ShareInFront(a, b, p, s);
    SettledLast(a, b, p + 1, s);
    SettledPromised(left, right, a, b, p + 1, s);
  }

  // The segment `a[p]` is taken once more, behind if the other side ends with it, else in front.
  ghost predicate AgainBy(a: seq<Segment>, b: seq<Segment>, p: nat, s: nat, prefix: string, suffix: string,
                          rb: seq<Segment>)
    requires p < |a| && p <= |b| - 1 - s && s <= |a|
  {
    if p < |b| - 1 - s && a[p] == b[|b| - 1 - s] then
      prefix == Concat(a[..p]) && suffix == a[p].value + Concat(a[|a| - s..]) && rb == b[p..|b| - s - 1]
    else
      prefix == Concat(a[..p]) + a[p].value && suffix == Concat(a[|a| - s..]) && rb == b[p + 1..|b| - s]
  }

  lemma AgainCovers(a: seq<Segment>, b: seq<Segment>, p: nat, s: nat, prefix: string, suffix: string,
                    rb: seq<Segment>, cp: nat, cs: nat)
    requires EatenTwice(a, b) && p == s == |a| / 2 && p < |a| && p <= |b| - 1 - s && s <= |a|
    requires AgainBy(a, b, p, s, prefix, suffix, rb) && NonEmptyValues(a)
    ensures CoveredSplit(a, b, cp, cs, prefix, suffix, Concat(rb)) && |rb| == |b| - |a| - 1
    ensures |prefix| + |suffix| > |Concat(a[..p])| + |Concat(a[|a| - s..])|
  {
    hide Concat;
    assert a[p].value != "";
    assert |a| - s == p;
  }

  // `left` was consumed in the loop; its middle segment is matched once more.
  lemma LeftMatchedAgain(left: string, right: string, a: seq<Segment>, b: seq<Segment>,
                         p: nat, s: nat, t: nat, prefix: string, suffix: string, rb: seq<Segment>)
    requires AfterLoop(left, right, a, b, p, s, t, true, false)
    requires if |b| == |a| + 1 then a[p] == b[p] && a[p].kind == MARKER else a[p] == b[|b| - 1 - s] || a[p] == b[p]
    requires AgainBy(a, b, p, s, prefix, suffix, rb)
    ensures Accepts(left, right, prefix, suffix, [], rb)
  {
    NoText();
    hide Concat, Segments, Promised, Remainder, CommonPrefix, CommonSuffix, CoveredSplit;
    assert NonEmptyValues(rb);
    HalvesShared(a, b, p, s, t, true, false);
    ConcatThree(a, p, s);
    assert a[p..|a| - s] == [];
    hide Eating, Stopped;
    AgainCovers(a, b, p, s, prefix, suffix, rb, CommonPrefix(a, b), CommonSuffix(a, b));
    hide NonEmptyValues, AgainBy, EatenTwice;
    LeftTwicePromised(left, right, a, b, prefix, suffix, [], rb);
  }

  lemma RightMatchedAgain(left: string, right: string, a: seq<Segment>, b: seq<Segment>,
                          p: nat, s: nat, t: nat, prefix: string, suffix: string, ra: seq<Segment>)
    requires AfterLoop(left, right, a, b, p, s, t, false, true)
    requires if |a| == |b| + 1 then b[p] == a[p] && b[p].kind == MARKER else b[p] == a[|a| - 1 - s] || b[p] == a[p]
    requires AgainBy(b, a, p, s, prefix, suffix, ra)
    ensures Accepts(left, right, prefix, suffix, ra, [])
  {
    NoText();
    hide Concat, Segments, Promised, Remainder, CommonPrefix, CommonSuffix, CoveredSplit;
    assert NonEmptyValues(ra);
    HalvesShared(b, a, p, s, t, true, false);
    ConcatThree(b, p, s);
    assert b[p..|b| - s] == [];
    hide Eating, Stopped;
    AgainCovers(b, a, p, s, prefix, suffix, ra, CommonPrefix(a, b), CommonSuffix(a, b));
    hide NonEmptyValues, AgainBy, EatenTwice;
    RightTwicePromised(left, right, a, b, prefix, suffix, ra, []);
  }

  lemma BothConsumed(left: string, right: string, a: seq<Segment>, b: seq<Segment>,
                     p: nat, s: nat, t: nat, prefix: string, suffix: string)
    requires AfterLoop(left, right, a, b, p, s, t, true, true)
    ensures Accepts(left, right, prefix, suffix, [], [])
  {
    hide SegmentsFrom, Promised;
    BothDone(a, b, p, s);
    EqualPromised(left, right);
  }

  // The last part of the split: what each side has left, refined by characters and adjusted.
  method FinishSplit(left: string, right: string, leftSeg: seq<Segment>, rightSeg: seq<Segment>,
                     leftStart: nat, leftEnd: nat, rightStart: nat, rightEnd: nat,
                     leftFullyConsumed: bool, rightFullyConsumed: bool, prefix: string, suffix: string)
    returns (result: DiffSplit)
    requires leftStart <= leftEnd < |leftSeg| && rightStart <= rightEnd < |rightSeg|
    requires leftFullyConsumed ==> leftStart == leftEnd
    requires rightFullyConsumed ==> rightStart == rightEnd
    requires Accepts(left, right, prefix, suffix,
                     Rest(leftSeg, leftStart, leftEnd, leftFullyConsumed),
                     Rest(rightSeg, rightStart, rightEnd, rightFullyConsumed))
    ensures Promised(left, right, result)
  {
    hide Concat, CutByText, Tidy, Remainder, Rest, Promised;
    var canHaveTextSuffix := leftSeg[leftEnd].kind == TEXT && rightSeg[rightEnd].kind == TEXT;
    var canHaveTextPrefix := rightSeg[rightStart].kind == TEXT && leftSeg[leftStart].kind == TEXT;

    var remainderLeft := Concat(Rest(leftSeg, leftStart, leftEnd, leftFullyConsumed));
    var remainderRight := Concat(Rest(rightSeg, rightStart, rightEnd, rightFullyConsumed));

    result := RefineText(prefix, suffix, remainderLeft, remainderRight, canHaveTextSuffix, canHaveTextPrefix);
    RemainderByText(leftSeg, rightSeg, leftStart, leftEnd, rightStart, rightEnd,
                    leftFullyConsumed, rightFullyConsumed, prefix, suffix);
    result := TidySplit(left, right, result);
  }

  // The kinds of the segments at the two ends decide which characters may move.
  lemma RemainderByText(a: seq<Segment>, b: seq<Segment>, leftStart: nat, leftEnd: nat, rightStart: nat, rightEnd: nat,
                        leftDone: bool, rightDone: bool, prefix: string, suffix: string)
    requires leftStart <= leftEnd < |a| && rightStart <= rightEnd < |b|
    requires leftDone ==> leftStart == leftEnd
    requires rightDone ==> rightStart == rightEnd
    ensures var ra, rb := Rest(a, leftStart, leftEnd, leftDone), Rest(b, rightStart, rightEnd, rightDone);
            Remainder(prefix, suffix, ra, rb) == CutByText(prefix, suffix, Concat(ra), Concat(rb),
              a[leftEnd].kind == TEXT && b[rightEnd].kind == TEXT,
              b[rightStart].kind == TEXT && a[leftStart].kind == TEXT)
  {
    NoText();
    hide Concat, CutByText;
    var ra, rb := Rest(a, leftStart, leftEnd, leftDone), Rest(b, rightStart, rightEnd, rightDone);
    if ra == [] || rb == [] {
      CutNothing(prefix, suffix, Concat(ra), Concat(rb),
                 a[leftEnd].kind == TEXT && b[rightEnd].kind == TEXT,
                 b[rightStart].kind == TEXT && a[leftStart].kind == TEXT);
    } else {
      assert ra[0] == a[leftStart] && ra[|ra| - 1] == a[leftEnd];
      assert rb[0] == b[rightStart] && rb[|rb| - 1] == b[rightEnd];
    }
  }

  method RefineText(prefix: string, suffix: string, remainderLeft: string, remainderRight: string,
                    canHaveTextSuffix: bool, canHaveTextPrefix: bool)
    returns (result: DiffSplit)
    ensures result == CutByText(prefix, suffix, remainderLeft, remainderRight, canHaveTextSuffix, canHaveTextPrefix)
  {
    hide CommonSuffixFrom, CommonPrefixFrom;
    var suffixLen := 0;
    if canHaveTextSuffix {
      suffixLen := CommonSuffixLen(remainderLeft, remainderRight);
    }
    var prefixLen := 0;
    if canHaveTextPrefix {
      prefixLen := CommonPrefixLen(remainderLeft[..|remainderLeft| - suffixLen],
                                   remainderRight[..|remainderRight| - suffixLen]);
    }
    result := DiffSplit(
      prefix + remainderLeft[..prefixLen],
      remainderLeft[|remainderLeft| - suffixLen..] + suffix,
      remainderLeft[prefixLen..|remainderLeft| - suffixLen],
      remainderRight[prefixLen..|remainderRight| - suffixLen]);
  }

  method TidySplit(left: string, right: string, split: DiffSplit) returns (result: DiffSplit)
    ensures result == Tidy(left, right, split)
  {
    result := split;
    if result.left == "" && result.right == "" {
      result := result.(prefix := left, suffix := "");
    }
    if result.left == "" && result.right != "" && |left| <= |right| && right[..|left|] == left {
      result := result.(prefix := left, suffix := "", right := right[|left|..]);
    }
  }

  lemma EmptyDivides(a: seq<Segment>, b: seq<Segment>)
    requires a == [] || b == []
    ensures Divided(a, b, DiffSplit("", "", Concat(a), Concat(b)))
  {
    NoText();
    hide Concat, CommonPrefixFrom, CommonSuffixFrom;
    assert EvenCut(0, 0, CommonPrefix(a, b), CommonSuffix(a, b));
    assert a[0..|a|] == a && b[0..|b|] == b && a[..0] == [] == b[..0];
  }

  lemma EmptySidePromised(left: string, right: string)
    requires left == "" || right == ""
    ensures Promised(left, right, DiffSplit("", "", left, right))
  {
    hide SegmentsFrom, CommonPrefixFrom, CommonSuffixFrom;
    NoSegments();
    NoText();
    SegmentsLossless(left);
    SegmentsLossless(right);
    EmptyDivides(Segments(left), Segments(right));
    hide CommonPrefix, CommonSuffix, Divided;
    TidyAdjusts(left, right, DiffSplit("", "", left, right));
    PromisedBy(left, right, DiffSplit("", "", left, right));
  }

  // With segments to spare and something left on both sides, no shared character is left at an end where both sides
  // have text, and elsewhere nothing but the shared segments has moved.
  ghost predicate EndsDiffer(left: string, right: string, r: DiffSplit) {
    var a, b := Segments(left), Segments(right);
    var p, s := CommonPrefix(a, b), CommonSuffix(a, b);
    p + s < |a| && p + s < |b| && r.left != "" && r.right != "" ==>
      && (if FromEnd(a, s).kind == TEXT && FromEnd(b, s).kind == TEXT then FromEnd(r.left, 0) != FromEnd(r.right, 0)
          else r.suffix == Concat(a[|a| - s..]))
      && (if a[p].kind == TEXT && b[p].kind == TEXT then r.left[0] != r.right[0] else r.prefix == Concat(a[..p]))
  }

  lemma TextCutEnds(x: string, y: string, head: string, tail: string, left: string, right: string, behind: bool,
                    inFront: bool)
    requires TextCut(x, y, head, tail, left, right, behind, inFront) && left != "" && right != ""
    ensures behind ==> FromEnd(left, 0) != FromEnd(right, 0)
    ensures inFront ==> left[0] != right[0]
  {
    OneMore(x, head, left, tail);
    OneMore(y, head, right, tail);
    hide EndsWith;
    var t, h := [FromEnd(left, 0)] + tail, head + [left[0]];
    assert behind && FromEnd(left, 0) == FromEnd(right, 0) ==> EndsWith(x, t) && EndsWith(y, t) && |t| > |tail|;
    assert inFront && left[0] == right[0] ==> h <= head + left && h <= head + right && |h| > |head|;
  }

  // A character of the middle joins the ending, or the beginning.
  lemma OneMore(x: string, head: string, middle: string, tail: string)
    requires x == head + middle + tail && middle != ""
    ensures EndsWith(x, [FromEnd(middle, 0)] + tail) && head + [middle[0]] <= head + middle
  {
    assert middle == middle[..|middle| - 1] + [FromEnd(middle, 0)];
    assert x == head + middle[..|middle| - 1] + ([FromEnd(middle, 0)] + tail);
  }

  lemma PromisedEnds(left: string, right: string, r: DiffSplit)
    requires Promised(left, right, r)
    ensures EndsDiffer(left, right, r)
  {
    var a, b := Segments(left), Segments(right);
    var p, s := CommonPrefix(a, b), CommonSuffix(a, b);
    hide Concat, SegmentsFrom, CommonPrefixFrom, CommonSuffixFrom, TextCut, SplitFails, Reconstructs;
    if p + s < |a| && p + s < |b| && r.left != "" && r.right != "" {
      assert SpareSplit(a, b, p, s, r);
      var front, back := Concat(a[..p]), Concat(a[|a| - s..]);
      var head, tail := r.prefix[|front|..], r.suffix[..|r.suffix| - |back|];
      var behind, inFront := FromEnd(a, s).kind == TEXT && FromEnd(b, s).kind == TEXT,
                             a[p].kind == TEXT && b[p].kind == TEXT;
      TextCutEnds(Concat(a[p..|a| - s]), Concat(b[p..|b| - s]), head, tail, r.left, r.right, behind, inFront);
      TextCutStays(Concat(a[p..|a| - s]), Concat(b[p..|b| - s]), head, tail, r.left, r.right, behind, inFront);
      assert tail == "" ==> r.suffix == back;
      assert head == "" ==> r.prefix == front;
    }
  }

  lemma TextCutStays(x: string, y: string, head: string, tail: string, left: string, right: string, behind: bool,
                     inFront: bool)
    requires TextCut(x, y, head, tail, left, right, behind, inFront)
    ensures (!behind ==> tail == "") && (!inFront ==> head == "")
  {
  }

  method CalculateDiffSplit(left: string, right: string) returns (result: DiffSplit)
    ensures Promised(left, right, result) && EndsDiffer(left, right, result)
  {
    result := DivideSegments(left, right);
    PromisedEnds(left, right, result);
  }

  method DivideSegments(left: string, right: string) returns (result: DiffSplit)
    ensures Promised(left, right, result)
  {
    hide Concat, SegmentsFrom, Promised, EatenTwice, Shared;
    result := DiffSplit("", "", "", "");
    var leftSeg := SegmentizeMarkers(left);
    var rightSeg := SegmentizeMarkers(right);
    SegmentsLossless(left);
    SegmentsLossless(right);
    ConcatNonEmpty(leftSeg);
    ConcatNonEmpty(rightSeg);
    if leftSeg == [] {
      EmptySidePromised(left, right);
      return result.(right := right);
    }
    if rightSeg == [] {
      EmptySidePromised(left, right);
      return result.(left := left);
    }

    var leftStart, leftEnd := 0, |leftSeg| - 1;
    var rightStart, rightEnd := 0, |rightSeg| - 1;
    var leftFullyConsumed, rightFullyConsumed := false, false;
    var prefix, suffix := "", "";
    ghost var p, s, t := 0, 0, 0;
    NothingEaten(leftSeg, rightSeg);
    hide Eating;
    while leftStart != leftEnd && rightStart != rightEnd
      invariant Eating(leftSeg, rightSeg, p, s, t, leftFullyConsumed, rightFullyConsumed)
      invariant leftStart == rightStart == p
      invariant leftFullyConsumed || rightFullyConsumed ==> leftStart == leftEnd || rightStart == rightEnd
      invariant leftEnd == |leftSeg| - 1 - s + if leftFullyConsumed then 1 else 0
      invariant rightEnd == |rightSeg| - 1 - s + if rightFullyConsumed then 1 else 0
      invariant leftStart <= leftEnd && rightStart <= rightEnd && s <= |leftSeg|
      invariant prefix == Concat(leftSeg[..p]) && suffix == Concat(leftSeg[|leftSeg| - s..])
      decreases leftEnd - leftStart
    {
      var advanced := false;
      if leftSeg[leftStart] == rightSeg[rightStart] || leftSeg[leftEnd] == rightSeg[rightEnd] {
        EatRound(leftSeg, rightSeg, p, s, t);
      }
      if leftSeg[leftStart] == rightSeg[rightStart] {
        p := p + 1;
        prefix := prefix + leftSeg[leftStart].value;
        leftStart := leftStart + 1;
        rightStart := rightStart + 1;
        advanced := true;
      }
      if leftSeg[leftEnd] == rightSeg[rightEnd] {
        s := s + 1;
        suffix := leftSeg[leftEnd].value + suffix;
        if leftStart != leftEnd {
          leftEnd := leftEnd - 1;
        } else {
          leftFullyConsumed := true;
        }
        if rightStart != rightEnd {
          rightEnd := rightEnd - 1;
        } else {
          rightFullyConsumed := true;
        }
        advanced := true;
      }
      if !advanced {
        break;
      }
      t := t + 1;
    }

    LoopLeft(left, right, leftSeg, rightSeg, p, s, t, leftFullyConsumed, rightFullyConsumed);
    EatenBounds(leftSeg, rightSeg, p, s, t, leftFullyConsumed, rightFullyConsumed);
    result := MatchLastSegment(left, right, leftSeg, rightSeg, leftStart, leftEnd, rightStart, rightEnd,
                               leftFullyConsumed, rightFullyConsumed, prefix, suffix, p, s, t);
  }

  // Where the loop has ended: `p` and `s` segments eaten at the ends, the iterators in between.
  ghost predicate AtLast(left: string, right: string, leftSeg: seq<Segment>, rightSeg: seq<Segment>,
                         leftStart: nat, leftEnd: nat, rightStart: nat, rightEnd: nat,
                         leftConsumed: bool, rightConsumed: bool, prefix: string, suffix: string,
                         p: nat, s: nat, t: nat) {
    && AfterLoop(left, right, leftSeg, rightSeg, p, s, t, leftConsumed, rightConsumed)
    && (if leftConsumed then p + s == |leftSeg| else p + s < |leftSeg|)
    && (if rightConsumed then p + s == |rightSeg| else p + s < |rightSeg|)
    && p < |leftSeg| && p < |rightSeg| && leftStart == rightStart == p
    && leftEnd == |leftSeg| - 1 - s + (if leftConsumed then 1 else 0)
    && rightEnd == |rightSeg| - 1 - s + (if rightConsumed then 1 else 0)
    && prefix == Concat(leftSeg[..p]) == Concat(rightSeg[..p])
    && suffix == Concat(leftSeg[|leftSeg| - s..]) == Concat(rightSeg[|rightSeg| - s..])
  }

  // When one side is down to a single segment, it may still match an end of the other side.
  method MatchLastSegment(left: string, right: string, leftSeg: seq<Segment>, rightSeg: seq<Segment>,
                          leftStart0: nat, leftEnd0: nat, rightStart0: nat, rightEnd0: nat,
                          leftConsumed: bool, rightConsumed: bool, prefix0: string, suffix0: string,
                          ghost p: nat, ghost s: nat, ghost t: nat)
    returns (result: DiffSplit)
    requires AtLast(left, right, leftSeg, rightSeg, leftStart0, leftEnd0, rightStart0, rightEnd0, leftConsumed,
                    rightConsumed, prefix0, suffix0, p, s, t)
    ensures Promised(left, right, result)
  {
    if leftStart0 == leftEnd0 && rightStart0 != rightEnd0 {
      result := MatchLastLeft(left, right, leftSeg, rightSeg, leftStart0, leftEnd0, rightStart0, rightEnd0,
                              leftConsumed, rightConsumed, prefix0, suffix0, p, s, t);
    } else if rightStart0 == rightEnd0 && leftStart0 != leftEnd0 {
      result := MatchLastRight(left, right, leftSeg, rightSeg, leftStart0, leftEnd0, rightStart0, rightEnd0,
                               leftConsumed, rightConsumed, prefix0, suffix0, p, s, t);
    } else {
      result := MatchLastBoth(left, right, leftSeg, rightSeg, leftStart0, leftEnd0, rightStart0, rightEnd0,
                              leftConsumed, rightConsumed, prefix0, suffix0, p, s, t);
    }
  }

  method MatchLastLeft(left: string, right: string, leftSeg: seq<Segment>, rightSeg: seq<Segment>,
                       leftStart0: nat, leftEnd0: nat, rightStart0: nat, rightEnd0: nat,
                       leftConsumed: bool, rightConsumed: bool, prefix0: string, suffix0: string,
                       ghost p: nat, ghost s: nat, ghost t: nat)
    returns (result: DiffSplit)
    requires AtLast(left, right, leftSeg, rightSeg, leftStart0, leftEnd0, rightStart0, rightEnd0, leftConsumed,
                    rightConsumed, prefix0, suffix0, p, s, t)
    requires leftStart0 == leftEnd0 && rightStart0 != rightEnd0
    ensures Promised(left, right, result)
  {
    hide Concat, Segments, Promised, Remainder, Eating, EatenTwice, Shared, CommonPrefix, CommonSuffix;
    var leftStart, leftEnd, rightStart, rightEnd := leftStart0, leftEnd0, rightStart0, rightEnd0;
    var leftFullyConsumed, rightFullyConsumed := leftConsumed, rightConsumed;
    var prefix, suffix := prefix0, suffix0;
    hide AfterLoop, Accepts, Rest;
    ghost var ra, rb := leftSeg[p..|leftSeg| - s], rightSeg[p..|rightSeg| - s];
    assert (leftConsumed ==> ra == []) && (rightConsumed ==> rb == []);
    if leftSeg[leftStart] == rightSeg[rightEnd] {
      suffix := rightSeg[rightEnd].value + suffix;
      rightEnd := rightEnd - 1;
      leftFullyConsumed := true;
      ra, rb := [], rightSeg[p..|rightSeg| - s - 1];
      if leftConsumed {
        LeftMatchedAgain(left, right, leftSeg, rightSeg, p, s, t, prefix, suffix, rb);
      } else {
        assert leftSeg[p..|leftSeg| - s - 1] == ra;
        LastMatchBehind(left, right, leftSeg, rightSeg, p, s, t, leftConsumed, rightConsumed);
      }
    } else if leftSeg[leftStart] == rightSeg[rightStart] {
      prefix := prefix + rightSeg[rightStart].value;
      rightStart := rightStart + 1;
      leftFullyConsumed := true;
      ra, rb := [], rightSeg[p + 1..|rightSeg| - s];
      if leftConsumed {
        LeftMatchedAgain(left, right, leftSeg, rightSeg, p, s, t, prefix, suffix, rb);
      } else {
        assert leftSeg[p + 1..|leftSeg| - s] == ra;
        LastMatchInFront(left, right, leftSeg, rightSeg, p, s, t, leftConsumed, rightConsumed);
      }
    } else {
      NoLastMatch(left, right, leftSeg, rightSeg, p, s, t, leftConsumed, rightConsumed);
    }
    RestIs(leftSeg, leftStart, leftEnd, leftFullyConsumed);
    RestIs(rightSeg, rightStart, rightEnd, rightFullyConsumed);
    result := FinishSplit(left, right, leftSeg, rightSeg, leftStart, leftEnd, rightStart, rightEnd,
                          leftFullyConsumed, rightFullyConsumed, prefix, suffix);
  }

  method MatchLastRight(left: string, right: string, leftSeg: seq<Segment>, rightSeg: seq<Segment>,
                        leftStart0: nat, leftEnd0: nat, rightStart0: nat, rightEnd0: nat,
                        leftConsumed: bool, rightConsumed: bool, prefix0: string, suffix0: string,
                        ghost p: nat, ghost s: nat, ghost t: nat)
    returns (result: DiffSplit)
    requires AtLast(left, right, leftSeg, rightSeg, leftStart0, leftEnd0, rightStart0, rightEnd0, leftConsumed,
                    rightConsumed, prefix0, suffix0, p, s, t)
    requires rightStart0 == rightEnd0 && leftStart0 != leftEnd0
    ensures Promised(left, right, result)
  {
    hide Concat, Segments, Promised, Remainder, Eating, EatenTwice, Shared, CommonPrefix, CommonSuffix;
    var leftStart, leftEnd, rightStart, rightEnd := leftStart0, leftEnd0, rightStart0, rightEnd0;
    var leftFullyConsumed, rightFullyConsumed := leftConsumed, rightConsumed;
    var prefix, suffix := prefix0, suffix0;
    hide AfterLoop, Accepts, Rest;
    ghost var ra, rb := leftSeg[p..|leftSeg| - s], rightSeg[p..|rightSeg| - s];
    assert (leftConsumed ==> ra == []) && (rightConsumed ==> rb == []);
    if leftSeg[leftEnd] == rightSeg[rightStart] {
      suffix := leftSeg[leftEnd].value + suffix;
      leftEnd := leftEnd - 1;
      rightFullyConsumed := true;
      ra, rb := leftSeg[p..|leftSeg| - s - 1], [];
      if rightConsumed {
        RightMatchedAgain(left, right, leftSeg, rightSeg, p, s, t, prefix, suffix, ra);
      } else {
        assert rightSeg[p..|rightSeg| - s - 1] == rb;
        LastMatchBehind(left, right, leftSeg, rightSeg, p, s, t, leftConsumed, rightConsumed);
      }
    } else if leftSeg[leftStart] == rightSeg[rightStart] {
      prefix := prefix + leftSeg[leftStart].value;
      leftStart := leftStart + 1;
      rightFullyConsumed := true;
      ra, rb := leftSeg[p + 1..|leftSeg| - s], [];
      if rightConsumed {
        RightMatchedAgain(left, right, leftSeg, rightSeg, p, s, t, prefix, suffix, ra);
      } else {
        assert rightSeg[p + 1..|rightSeg| - s] == rb;
        LastMatchInFront(left, right, leftSeg, rightSeg, p, s, t, leftConsumed, rightConsumed);
      }
    } else {
      NoLastMatch(left, right, leftSeg, rightSeg, p, s, t, leftConsumed, rightConsumed);
    }
    RestIs(leftSeg, leftStart, leftEnd, leftFullyConsumed);
    RestIs(rightSeg, rightStart, rightEnd, rightFullyConsumed);
    result := FinishSplit(left, right, leftSeg, rightSeg, leftStart, leftEnd, rightStart, rightEnd,
                          leftFullyConsumed, rightFullyConsumed, prefix, suffix);
  }

  method MatchLastBoth(left: string, right: string, leftSeg: seq<Segment>, rightSeg: seq<Segment>,
                       leftStart0: nat, leftEnd0: nat, rightStart0: nat, rightEnd0: nat,
                       leftConsumed: bool, rightConsumed: bool, prefix0: string, suffix0: string,
                       ghost p: nat, ghost s: nat, ghost t: nat)
    returns (result: DiffSplit)
    requires AtLast(left, right, leftSeg, rightSeg, leftStart0, leftEnd0, rightStart0, rightEnd0, leftConsumed,
                    rightConsumed, prefix0, suffix0, p, s, t)
    requires leftStart0 == leftEnd0 <==> rightStart0 == rightEnd0
    ensures Promised(left, right, result)
  {
    hide Concat, Segments, Promised, Remainder, Eating, EatenTwice, Shared, CommonPrefix, CommonSuffix;
    var leftStart, leftEnd, rightStart, rightEnd := leftStart0, leftEnd0, rightStart0, rightEnd0;
    var leftFullyConsumed, rightFullyConsumed := leftConsumed, rightConsumed;
    var prefix, suffix := prefix0, suffix0;
    hide AfterLoop, Accepts, Rest;
    ghost var ra, rb := leftSeg[p..|leftSeg| - s], rightSeg[p..|rightSeg| - s];
    assert (leftConsumed ==> ra == []) && (rightConsumed ==> rb == []);
    if leftStart == leftEnd && rightStart == rightEnd && leftSeg[leftStart] == rightSeg[rightStart]
              && leftSeg[leftStart].kind == MARKER {
      prefix := prefix + rightSeg[rightStart].value;
      leftFullyConsumed := true;
      rightFullyConsumed := true;
      ra, rb := [], [];
      if leftConsumed && rightConsumed {
        BothConsumed(left, right, leftSeg, rightSeg, p, s, t, prefix, suffix);
      } else if leftConsumed {
        assert rightSeg[p..|rightSeg| - s - 1] == rb;
        LeftMatchedAgain(left, right, leftSeg, rightSeg, p, s, t, prefix, suffix, rb);
      } else if rightConsumed {
        assert leftSeg[p..|leftSeg| - s - 1] == ra;
        RightMatchedAgain(left, right, leftSeg, rightSeg, p, s, t, prefix, suffix, ra);
      } else {
        assert leftSeg[p + 1..|leftSeg| - s] == ra && rightSeg[p + 1..|rightSeg| - s] == rb;
        LastMatchInFront(left, right, leftSeg, rightSeg, p, s, t, leftConsumed, rightConsumed);
      }
    } else if leftConsumed && rightConsumed {
      ra, rb := [], [];
      BothConsumed(left, right, leftSeg, rightSeg, p, s, t, prefix, suffix);
    } else {
      NoLastMatch(left, right, leftSeg, rightSeg, p, s, t, leftConsumed, rightConsumed);
    }
    RestIs(leftSeg, leftStart, leftEnd, leftFullyConsumed);
    RestIs(rightSeg, rightStart, rightEnd, rightFullyConsumed);
    result := FinishSplit(left, right, leftSeg, rightSeg, leftStart, leftEnd, rightStart, rightEnd,
                          leftFullyConsumed, rightFullyConsumed, prefix, suffix);
  }

  lemma RestIs(a: seq<Segment>, start: nat, end: nat, consumed: bool)
    requires start <= end < |a| && (consumed ==> start == end)
    ensures Rest(a, start, end, consumed) == if consumed then [] else a[start..end + 1]
  {
  }

  // What the shared counts say about positions and about the texts already eaten.
  lemma EatenBounds(a: seq<Segment>, b: seq<Segment>, p: nat, s: nat, t: nat, leftDone: bool, rightDone: bool)
    requires Eating(a, b, p, s, t, leftDone, rightDone)
    ensures if leftDone then p + s == |a| else p + s < |a|
    ensures if rightDone then p + s == |b| else p + s < |b|
    ensures p < |a| && p < |b|
    ensures Concat(a[..p]) == Concat(b[..p]) && Concat(a[|a| - s..]) == Concat(b[|b| - s..])
  {
  }

  // When both sides keep something of their own, the split always adds up.
  lemma BothDifferReconstruct(left: string, right: string, r: DiffSplit)
    requires Promised(left, right, r) && r.left != "" && r.right != ""
    ensures Reconstructs(left, right, r)
  {
    hide Concat, SegmentsFrom, CommonPrefixFrom, CommonSuffixFrom, Refine;
    var a, b := Segments(left), Segments(right);
    if EatenTwice(a, b) {
      HalvesCover(a, b);
    }
    if EatenTwice(b, a) {
      HalvesCoverRight(a, b);
    }
  }

  // Two inputs on which the split does not add up, one for each way of counting `<b>` twice.
  lemma SplitFailsExamples()
    ensures SplitFails("<a><b>", "<a><x><b><b>")
    ensures SplitFails("<a><b>", "<a><b><b>")
  {
    hide SegmentsFrom;
    var a, b, x := Segment(MARKER, "<a>"), Segment(MARKER, "<b>"), Segment(MARKER, "<x>");
    ExampleSegments();
    assert EatenTwice([a, b], [a, x, b, b]);
    assert EatenTwice([a, b], [a, b, b]);
    hide EatenTwice;
    assert "<a><b>"[4] != "<a><x><b><b>"[4];
  }

  lemma ExampleSegments()
    ensures var a, b, x := Segment(MARKER, "<a>"), Segment(MARKER, "<b>"), Segment(MARKER, "<x>");
            && Segments("<a><b>") == [a, b]
            && Segments("<a><b><b>") == [a, b, b]
            && Segments("<a><x><b><b>") == [a, x, b, b]
  {
    hide Segments;
    var a, b, x := Segment(MARKER, "<a>"), Segment(MARKER, "<b>"), Segment(MARKER, "<x>");
    NoSegments();
    MarkerBefore("<b>", "", []);
    assert "<b>" + "" == "<b>";
    MarkerBefore("<b>", "<b>", [b]);
    assert "<b>" + "<b>" == "<b><b>";
    MarkerBefore("<a>", "<b>", [b]);
    assert "<a>" + "<b>" == "<a><b>";
    MarkerBefore("<a>", "<b><b>", [b, b]);
    assert "<a>" + "<b><b>" == "<a><b><b>";
    MarkerBefore("<x>", "<b><b>", [b, b]);
    assert "<x>" + "<b><b>" == "<x><b><b>";
    MarkerBefore("<a>", "<x><b><b>", [x, b, b]);
    assert "<a>" + "<x><b><b>" == "<a><x><b><b>";
  }

  lemma MarkerBefore(marker: string, rest: string, segs: seq<Segment>)
    requires IsMarkerText(marker) && Segments(rest) == segs
    ensures Segments(marker + rest) == [Segment(MARKER, marker)] + segs
  {
    MarkerFirst(marker, rest);
  }

  // Two texts without markers that differ in one character: what is in front and behind is shared.
  lemma OneCharacterSplit(front: string, c: char, e: char, back: string, r: DiffSplit)
    requires c != e && IsPlain(front + [c] + back) && IsPlain(front + [e] + back)
    requires Promised(front + [c] + back, front + [e] + back, r)
    ensures r == DiffSplit(front, back, [c], [e])
  {
    var left, right := front + [c] + back, front + [e] + back;
    OnlyText(left);
    OnlyText(right);
    assert left[|front|] == c && right[|front|] == e;
    var a, b := Segment(TEXT, left), Segment(TEXT, right);
    NothingShared(a, b);
    hide Segments, CommonPrefix, CommonSuffix, Reconstructs, SplitFails, Concat, SpareSplit, TextCut, IsPlain;
    var d :| Divided([a], [b], d) && Adjusted(left, right, d, r);
    SingleTexts(a, b, d);
    OneCharacter(front, c, e, back, d.prefix, d.suffix, d.left, d.right);
  }

  // A shared text ending moves to the suffix.
  lemma TextEndExample(r: DiffSplit)
    requires Promised("Hello A!", "Hello B!", r)
    ensures r == DiffSplit("Hello ", "!", "A", "B")
  {
    hide Promised;
    assert "Hello A!" == "Hello " + ['A'] + "!" && "Hello B!" == "Hello " + ['B'] + "!";
    OneCharacterSplit("Hello ", 'A', 'B', "!", r);
  }

  lemma SingleTexts(a: Segment, b: Segment, d: DiffSplit)
    requires SpareSplit([a], [b], 0, 0, d) && a.kind == b.kind == TEXT && a != b
    ensures TextCut(a.value, b.value, d.prefix, d.suffix, d.left, d.right, true, true)
  {
    NothingShared(a, b);
    hide Concat, TextCut, CommonPrefix, CommonSuffix, EndsWith;
    assert d.prefix[0..] == d.prefix && d.suffix[..|d.suffix| - 0] == d.suffix;
    assert FromEnd([a], 0) == a && FromEnd([b], 0) == b;
  }

  // Two single segments that differ.
  lemma NothingShared(a: Segment, b: Segment)
    requires a != b
    ensures CommonPrefix([a], [b]) == 0 == CommonSuffix([a], [b])
    ensures Concat([a]) == a.value && Concat([b]) == b.value && Concat([]) == ""
    ensures [a][..0] == [] == [a][1..] && [a][0..1] == [a] && [b][0..1] == [b]
  {
    assert FromEnd([a], 0) == a && FromEnd([b], 0) == b;
  }

  // Two texts that differ in one character are cut around it.
  lemma OneCharacter(front: string, c: char, e: char, back: string, head: string, tail: string, x: string, y: string)
    requires c != e && TextCut(front + [c] + back, front + [e] + back, head, tail, x, y, true, true)
    ensures head == front && tail == back && x == [c] && y == [e]
  {
    var left, right := front + [c] + back, front + [e] + back;
    SameEnding(front + [c], front + [e], back);
    TailAgrees(left, right, tail);
    assert FromEnd(left, |back|) == c && FromEnd(right, |back|) == e;
    hide EndsWith;
    assert |tail| == |back|;
    SameLengths(front + [c], back, head + x, tail);
    SameLengths(front + [e], back, head + y, tail);
    HeadAgrees(head + x, head + y, head);
    assert front <= head + x && front <= head + y;
    SameLengths(front, [c], head, x);
    SameLengths(front, [e], head, y);
  }

  lemma SameEnding(x: string, y: string, t: string)
    ensures EndsWith(x + t, t) && EndsWith(y + t, t)
  {
  }

  lemma TailAgrees(left: string, right: string, tail: string)
    requires EndsWith(left, tail) && EndsWith(right, tail)
    ensures forall k :: 0 <= k < |tail| ==> FromEnd(left, k) == FromEnd(right, k)
  {
    assert forall k :: 0 <= k < |tail| ==> FromEnd(left, k) == left[|left| - |tail|..][|tail| - 1 - k];
    assert forall k :: 0 <= k < |tail| ==> FromEnd(right, k) == right[|right| - |tail|..][|tail| - 1 - k];
  }

  lemma HeadAgrees(left: string, right: string, head: string)
    requires head <= left && head <= right
    ensures forall k :: 0 <= k < |head| ==> left[k] == right[k]
  {
  }

  lemma SameLengths(x: string, y: string, x': string, y': string)
    requires x + y == x' + y' && (|x| == |x'| || |y| == |y'|)
    ensures x == x' && y == y'
  {
    assert |x + y| == |x' + y'|;
    assert x == (x + y)[..|x|] && x' == (x' + y')[..|x'|];
    assert y == (x + y)[|x|..] && y' == (x' + y')[|x'|..];
  }
}
