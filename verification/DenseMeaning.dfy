/** What the operations on dense tensors mean, element by element: which position of the operand shows at which
    position of the result. The adapters are compared with these operations (convert_lora_to_gguf.py:58-259), so
    each is stated here without the selections and position lists by which it is defined. */
module DenseMeaning {
  import opened Outcomes
  import opened Wrappers
  import opened Tensors
  import opened LoraProduct
  import opened LoraIndexing
  import opened LoraShapes
  import opened LoraJoining
  import opened LoraRuns

  // ---------- Splitting a dimension ----------

  // Where piece `which` begins: behind the pieces before it.
  function Before(sizes: seq<nat>, which: nat): nat
    requires which <= |sizes|
  {
    if which == 0 then 0 else Before(sizes, which - 1) + sizes[which - 1]
  }

  lemma {:induction false} BeforeTotal(sizes: seq<nat>, which: nat)
    requires which <= |sizes|
    ensures Total(sizes[..which]) == Before(sizes, which)
    decreases which
  {
    if which > 0 {
      BeforeTotal(sizes, which - 1);
      assert sizes[..which][..which - 1] == sizes[..which - 1];
    }
  }

  lemma PieceAt(sizes: seq<nat>, which: nat)
    requires which < |sizes|
    ensures |PiecePositions(sizes, which)| == sizes[which]
    ensures forall i :: 0 <= i < sizes[which] ==> PiecePositions(sizes, which)[i] == Before(sizes, which) + i
  {
    BeforeTotal(sizes, which);
  }

  // The positions of the first `n` pieces, one piece after the other.
  function PiecesInTurn(sizes: seq<nat>, n: nat): seq<nat>
    requires n <= |sizes|
  {
    if n == 0 then [] else PiecesInTurn(sizes, n - 1) + PiecePositions(sizes, n - 1)
  }

  // The pieces take every position once, in order.
  lemma {:induction false} PiecesTile(sizes: seq<nat>, n: nat)
    requires n <= |sizes|
    ensures |PiecesInTurn(sizes, n)| == Before(sizes, n)
    ensures forall i :: 0 <= i < Before(sizes, n) ==> PiecesInTurn(sizes, n)[i] == i
    decreases n
  {
    hide PiecePositions;
    if n > 0 {
      PiecesTile(sizes, n - 1);
      PieceAt(sizes, n - 1);
    }
  }

  // The sizes that a split asks for: the listed ones, or equal ones with what is left over as the last.
  ghost predicate SplitInto(pieces: Pieces, n: nat, sizes: seq<nat>) {
    && Before(sizes, |sizes|) == n
    && match pieces
       case Sizes(listed) => sizes == listed
       case Every(size) =>
         && sizes != [] && (forall i :: 0 <= i < |sizes| - 1 ==> sizes[i] == size)
         && sizes[|sizes| - 1] <= size && (n > 0 ==> sizes[|sizes| - 1] > 0) && (n == 0 ==> |sizes| == 1)
  }

  lemma {:induction false} EqualSizesExact(n: nat, size: nat)
    requires size > 0
    ensures var r := EqualSizes(n, size);
            (n > 0 ==> r[|r| - 1] > 0) && (n == 0 ==> |r| == 1)
    decreases n
  {
    if n > size {
      EqualSizesExact(n - size, size);
    }
  }

  lemma SizesSplit(pieces: Pieces, n: nat)
    requires SizesOf(pieces, n).Ok?
    ensures SplitInto(pieces, n, SizesOf(pieces, n).value)
  {
    hide EqualSizes;
    var sizes := SizesOf(pieces, n).value;
    BeforeTotal(sizes, |sizes|);
    assert sizes[..|sizes|] == sizes;
    if pieces.Every? && pieces.size > 0 {
      EqualSizesExact(n, pieces.size);
    }
  }

  // A piece shows the operand moved along its dimension by the sizes in front of it.
  ghost predicate PieceMeans(x: Tensor, y: Tensor, d: nat, sizes: seq<nat>, which: nat)
    requires d <= |x.outer| && which < |sizes|
  {
    if d == |x.outer| then
      && y.outer == x.outer && y.last == sizes[which]
      && forall o, k: nat :: Inside(o, y.outer) && k < y.last ==> y.at(o, k) == x.at(o, Before(sizes, which) + k)
    else
      && y.outer == x.outer[d := sizes[which]] && y.last == x.last
      && forall o, k: nat :: Inside(o, y.outer) && k < y.last ==>
           y.at(o, k) == x.at(o[d := Before(sizes, which) + o[d]], k)
  }

  ghost predicate SplitMeans(x: Tensor, y: Tensor, pieces: Pieces, dim: int, which: nat) {
    exists d: nat, sizes: seq<nat> :: d <= |x.outer| && (dim == d || dim == d - (|x.outer| + 1))
      && SplitInto(pieces, (x.outer + [x.last])[d], sizes) && which < |sizes| && PieceMeans(x, y, d, sizes, which)
  }

  // ---------- Selections ----------

  // How many of the first `i` dimensions a selection keeps.
  function Kept(sels: seq<Sel>, i: nat): (n: nat)
    requires i <= |sels|
    ensures n <= i
  {
    if i == 0 then 0 else Kept(sels, i - 1) + if sels[i - 1].Pick? then 1 else 0
  }

  // What dimension `i` of the operand is read at.
  function ReadAt(sels: seq<Sel>, o: seq<nat>, i: nat): nat
    requires i < |sels|
  {
    match sels[i]
    case At(j) => j
    case Pick(ps) =>
      var c := Kept(sels, i);
      if c < |o| && o[c] < |ps| then ps[o[c]] else 0
  }

  lemma {:induction false} KeptInit(sels: seq<Sel>, n: nat, i: nat)
    requires i <= n <= |sels|
    ensures Kept(sels[..n], i) == Kept(sels, i)
    decreases i
  {
    if i > 0 {
      KeptInit(sels, n, i - 1);
    }
  }

  lemma {:induction false} KeptMore(sels: seq<Sel>, i: nat, n: nat)
    requires i < n <= |sels|
    ensures Kept(sels, i) + (if sels[i].Pick? then 1 else 0) <= Kept(sels, n)
    decreases n
  {
    if i < n - 1 {
      KeptMore(sels, i, n - 1);
    }
  }

  lemma {:induction false} PickedSize(sels: seq<Sel>)
    ensures |PickedShape(sels)| == Kept(sels, |sels|)
    decreases |sels|
  {
    if sels != [] {
      PickedSize(sels[..|sels| - 1]);
      KeptInit(sels, |sels| - 1, |sels| - 1);
    }
  }

  lemma {:induction false} PickedDim(sels: seq<Sel>, i: nat)
    requires i < |sels| && sels[i].Pick?
    ensures Kept(sels, i) < |PickedShape(sels)| && PickedShape(sels)[Kept(sels, i)] == |sels[i].ps|
    decreases |sels|
  {
    var n := |sels| - 1;
    KeptInit(sels, n, n);
    PickedSize(sels[..n]);
    if i < n {
      KeptInit(sels, n, i);
      PickedDim(sels[..n], i);
    }
  }

  // The shape that a selection leaves.
  lemma PickedShapeAt(sels: seq<Sel>)
    ensures |PickedShape(sels)| == Kept(sels, |sels|)
    ensures forall i :: 0 <= i < |sels| && sels[i].Pick? ==>
              Kept(sels, i) < |PickedShape(sels)| && PickedShape(sels)[Kept(sels, i)] == |sels[i].ps|
  {
    hide PickedShape, Kept;
    PickedSize(sels);
    forall i | 0 <= i < |sels| && sels[i].Pick?
      ensures Kept(sels, i) < |PickedShape(sels)| && PickedShape(sels)[Kept(sels, i)] == |sels[i].ps|
    {
      PickedDim(sels, i);
    }
  }

  lemma {:induction false} PickedAt(sels: seq<Sel>, o: seq<nat>, i: nat)
    requires i < |sels| && |o| == Kept(sels, |sels|)
    ensures Picked(sels, o)[i] == ReadAt(sels, o, i)
    decreases |sels|
  {
    var n := |sels| - 1;
    var init := sels[..n];
    KeptInit(sels, n, n);
    KeptInit(sels, n, if i < n then i else n);
    match sels[n]
    case At(_) =>
      if i < n {
        PickedAt(init, o, i);
      }
    case Pick(ps) =>
      assert o != [];
      var o' := o[..|o| - 1];
      if i < n {
        PickedAt(init, o', i);
        KeptMore(init, i, n);
      }
  }

  // A selection shows at every position what its dimensions are read at.
  ghost predicate SelectMeans(x: Tensor, y: Tensor, sels: seq<Sel>, cols: seq<nat>) {
    && |y.outer| == Kept(sels, |sels|) && y.last == |cols|
    && (forall i :: 0 <= i < |sels| && sels[i].Pick? ==> Kept(sels, i) < |y.outer|
                                                         && y.outer[Kept(sels, i)] == |sels[i].ps|)
    && forall o, k: nat :: Inside(o, y.outer) && k < y.last ==>
         y.at(o, k) == x.at(seq(|sels|, i requires 0 <= i < |sels| => ReadAt(sels, o, i)), cols[k])
  }

  lemma SelectColumns(x: Tensor, sels: seq<Sel>, cols: seq<nat>)
    ensures SelectMeans(x, Columns(Select(x, sels), cols), sels, cols)
  {
    PickedShapeAt(sels);
    var y := Columns(Select(x, sels), cols);
    forall o, k: nat | Inside(o, y.outer) && k < y.last
      ensures y.at(o, k) == x.at(seq(|sels|, i requires 0 <= i < |sels| => ReadAt(sels, o, i)), cols[k])
    {
      PickedIs(sels, o);
    }
  }

  lemma PickedIs(sels: seq<Sel>, o: seq<nat>)
    requires |o| == Kept(sels, |sels|)
    ensures Picked(sels, o) == seq(|sels|, i requires 0 <= i < |sels| => ReadAt(sels, o, i))
  {
    hide Picked, ReadAt;
    forall i | 0 <= i < |sels|
      ensures Picked(sels, o)[i] == ReadAt(sels, o, i)
    {
      PickedAt(sels, o, i);
    }
  }

  // A selection along one dimension only.
  lemma AlongRead(shape: seq<nat>, d: nat, ps: seq<nat>, o: seq<nat>)
    requires d < |shape| && Inside(o, shape[d := |ps|])
    ensures Picked(AlongOnly(shape, d, ps), o) == o[d := ps[o[d]]]
  {
    var sels := AlongOnly(shape, d, ps);
    AllKept(sels, |sels|);
    PickedIs(sels, o);
    forall i | 0 <= i < |sels|
      ensures ReadAt(sels, o, i) == o[d := ps[o[d]]][i]
    {
      AllKept(sels, i);
    }
  }

  lemma {:induction false} AllKept(sels: seq<Sel>, i: nat)
    requires i <= |sels| && forall k :: 0 <= k < |sels| ==> sels[k].Pick?
    ensures Kept(sels, i) == i
    decreases i
  {
    if i > 0 {
      AllKept(sels, i - 1);
    }
  }

  // ---------- Python's indices ----------

  // Where a slice begins and ends among `n` positions.
  predicate SliceBounds(s: Slice, n: nat, lo: int, hi: int) {
    && (match s.start
        case None => lo == 0
        case Some(v) => if v >= 0 then lo == (if v < n then v else n) else lo == (if v + n > 0 then v + n else 0))
    && (match s.stop
        case None => hi == n
        case Some(v) => if v >= 0 then hi == (if v < n then v else n) else hi == (if v + n > 0 then v + n else 0))
  }

  // The positions of a slice: every `step`-th one from the beginning, all that are in front of the end.
  ghost predicate SliceReads(s: Slice, n: nat, ps: seq<nat>) {
    s.step > 0 && exists lo, hi :: SliceBounds(s, n, lo, hi) && Progression(lo, hi, s.step, ps)
  }

  predicate Progression(lo: int, hi: int, step: nat, ps: seq<nat>) {
    && (forall i :: 0 <= i < |ps| ==> ps[i] == lo + i * step && ps[i] < hi)
    && lo + |ps| * step >= hi
  }

  lemma {:induction false} StepsProgress(start: nat, stop: nat, step: nat)
    requires step > 0
    ensures Progression(start, stop, step, Steps(start, stop, step))
    decreases stop - start
  {
    if start < stop {
      StepsProgress(start + step, stop, step);
      var ps, rest := Steps(start, stop, step), Steps(start + step, stop, step);
      forall i | 0 <= i < |ps|
        ensures ps[i] == start + i * step && ps[i] < stop
      {
        OneStep(start, step, i);
        assert i > 0 ==> ps[i] == rest[i - 1];
      }
      OneStep(start, step, |ps|);
    } else {
      assert 0 * step == 0;
    }
  }

  lemma OneStep(start: nat, step: nat, i: nat)
    ensures start + i * step == start + step + (i - 1) * step && 0 * step == 0
  {
  }

  lemma PositionsRead(s: Slice, n: nat)
    requires s.step > 0
    ensures SliceReads(s, n, Positions(s, n))
  {
    hide Progression, Steps;
    var lo, hi := Bound(s.start, n, 0), Bound(s.stop, n, n);
    StepsProgress(lo, hi, s.step);
    assert SliceBounds(s, n, lo, hi);
  }

  // An integer counts from the end when it is negative.
  predicate IndexIs(j: int, n: nat, p: nat) {
    p < n && (if j >= 0 then p == j else p == j + n)
  }

  ghost predicate Chosen(i: Index, n: nat, s: Sel) {
    match i
    case Int(j) => s.At? && IndexIs(j, n, s.j)
    case Range(r) => s.Pick? && SliceReads(r, n, s.ps)
    case Ellipsis => false
  }

  lemma SelChosen(i: Index, n: nat)
    requires SelOf(i, n).Ok?
    ensures Chosen(i, n, SelOf(i, n).value)
  {
    hide Positions, SliceReads;
    if i.Range? {
      PositionsRead(i.s, n);
    }
  }

  lemma {:induction false} SelsChosen(inds: seq<Index>, shape: seq<nat>)
    requires SelsOf(inds, shape).Ok?
    ensures |SelsOf(inds, shape).value| == |inds| == |shape|
    ensures forall i :: 0 <= i < |inds| ==> Chosen(inds[i], shape[i], SelsOf(inds, shape).value[i])
    decreases |inds|
  {
    hide SelOf, Chosen;
    if inds != [] {
      var n := |inds| - 1;
      SelsChosen(inds[..n], shape[..n]);
      SelChosen(inds[n], shape[n]);
    }
  }

  // One index for each dimension.
  ghost predicate IndexMeans(x: Tensor, y: Tensor, inds: seq<Index>) {
    && |inds| == |x.outer| + 1 && inds[|x.outer|].Range?
    && exists sels, cols :: |sels| == |x.outer|
         && (forall i :: 0 <= i < |sels| ==> Chosen(inds[i], x.outer[i], sels[i]))
         && SliceReads(inds[|x.outer|].s, x.last, cols) && SelectMeans(x, y, sels, cols)
  }

  lemma IndexDenseMeans(x: Tensor, inds: seq<Index>)
    requires IndexDense(x, inds).Ok?
    ensures IndexMeans(x, IndexDense(x, inds).value, inds)
  {
    hide SelsOf, Chosen, SliceReads, Positions, SelectMeans, Select, Columns;
    var n := |x.outer|;
    var sels, cols := SelsOf(inds[..n], x.outer).value, Positions(inds[n].s, x.last);
    SelsChosen(inds[..n], x.outer);
    PositionsRead(inds[n].s, x.last);
    SelectColumns(x, sels, cols);
    assert forall i :: 0 <= i < n ==> inds[..n][i] == inds[i];
  }

  // What an ellipsis stands for, or the end of a tuple without one, is filled up with whole dimensions.
  ghost predicate FilledUp(inds: seq<Index>, ndim: nat, all: seq<Index>) {
    if NoEllipsis(inds) then
      |inds| <= ndim == |all| && inds <= all && forall i :: |inds| <= i < ndim ==> all[i] == ALL
    else
      exists p: nat :: p < |inds| && inds[p] == Ellipsis && FilledAt(inds[..p], inds[p + 1..], ndim, all)
  }

  ghost predicate FilledAt(pre: seq<Index>, post: seq<Index>, ndim: nat, all: seq<Index>) {
    && NoEllipsis(pre) && NoEllipsis(post) && |pre| + |post| <= ndim == |all|
    && all[..|pre|] == pre && all[ndim - |post|..] == post
    && forall i :: |pre| <= i < ndim - |post| ==> all[i] == ALL
  }

  lemma MeaningFills(inds: seq<Index>, ndim: nat)
    requires Meaning(inds, ndim).Ok?
    ensures FilledUp(inds, ndim, Meaning(inds, ndim).value)
  {
    hide NoEllipsis;
    var all := Meaning(inds, ndim).value;
    if !NoEllipsis(inds) {
      var p := FirstEllipsis(inds);
      assert FilledAt(inds[..p], inds[p + 1..], ndim, all);
    }
  }

  // ---------- Single integers and slices ----------

  ghost predicate ItemMeans(x: Tensor, y: Tensor, j: int)
    requires x.outer != []
  {
    exists p: nat :: IndexIs(j, x.outer[0], p)
      && y.outer == x.outer[1..] && y.last == x.last
      && forall o, k: nat :: Inside(o, y.outer) && k < y.last ==> y.at(o, k) == x.at([p] + o, k)
  }

  ghost predicate SliceMeans(x: Tensor, y: Tensor, s: Slice)
    requires x.outer != []
  {
    exists ps :: SliceReads(s, x.outer[0], ps)
      && y.outer == [|ps|] + x.outer[1..] && y.last == x.last
      && forall o, k: nat :: Inside(o, y.outer) && k < y.last ==> y.at(o, k) == x.at([ps[o[0]]] + o[1..], k)
  }

  lemma {:induction false} ItemKept(sels: seq<Sel>, i: nat)
    requires 0 < i <= |sels| && sels[0].At? && forall k :: 1 <= k < |sels| ==> sels[k].Pick?
    ensures Kept(sels, i) == i - 1
    decreases i
  {
    if i > 1 {
      ItemKept(sels, i - 1);
    }
  }

  lemma {:induction false} FullShapeIs(shape: seq<nat>)
    ensures PickedShape(Full(shape)) == shape
    decreases |shape|
  {
    if shape != [] {
      var n := |shape| - 1;
      assert Full(shape)[..n] == Full(shape[..n]);
      FullShapeIs(shape[..n]);
    }
  }

  lemma {:induction false} PickedShapeCons(first: Sel, sels: seq<Sel>)
    ensures PickedShape([first] + sels) == PickedShape([first]) + PickedShape(sels)
    decreases |sels|
  {
    if sels == [] {
      assert [first] + sels == [first];
    } else {
      var n := |sels| - 1;
      assert ([first] + sels)[..n + 1] == [first] + sels[..n];
      PickedShapeCons(first, sels[..n]);
    }
  }

  lemma SingleShape(first: Sel)
    ensures PickedShape([first]) == if first.At? then [] else [|first.ps|]
  {
    assert [first][..0] == [];
  }

  lemma ItemRead(shape: seq<nat>, p: nat, o: seq<nat>)
    requires shape != [] && Inside(o, shape[1..])
    ensures Picked(FirstOnly(shape, At(p)), o) == [p] + o
  {
    var sels := FirstOnly(shape, At(p));
    ItemKept(sels, |sels|);
    PickedIs(sels, o);
    forall i | 0 <= i < |sels|
      ensures ReadAt(sels, o, i) == ([p] + o)[i]
    {
      if i > 0 {
        ItemKept(sels, i);
      }
    }
  }

  lemma ItemShape(shape: seq<nat>, p: nat)
    requires shape != []
    ensures PickedShape(FirstOnly(shape, At(p))) == shape[1..]
  {
    PickedShapeCons(At(p), Full(shape[1..]));
    SingleShape(At(p));
    FullShapeIs(shape[1..]);
    hide PickedShape, Full;
  }

  lemma ItemDense(x: Tensor, j: int, p: nat)
    requires x.outer != [] && IndexIs(j, x.outer[0], p)
    ensures ItemMeans(x, Select(x, FirstOnly(x.outer, At(p))), j)
  {
    var y := Select(x, FirstOnly(x.outer, At(p)));
    ItemShape(x.outer, p);
    hide Picked, PickedShape, FirstOnly, IndexIs;
    forall o, k: nat | Inside(o, y.outer) && k < y.last
      ensures y.at(o, k) == x.at([p] + o, k)
    {
      ItemRead(x.outer, p, o);
    }
  }

  lemma SliceRead(shape: seq<nat>, ps: seq<nat>, o: seq<nat>)
    requires shape != [] && Inside(o, [|ps|] + shape[1..])
    ensures Picked(FirstOnly(shape, Pick(ps)), o) == [ps[o[0]]] + o[1..]
  {
    var sels := FirstOnly(shape, Pick(ps));
    AllKept(sels, |sels|);
    PickedIs(sels, o);
    forall i | 0 <= i < |sels|
      ensures ReadAt(sels, o, i) == ([ps[o[0]]] + o[1..])[i]
    {
      AllKept(sels, i);
    }
  }

  lemma SliceShape(shape: seq<nat>, ps: seq<nat>)
    requires shape != []
    ensures PickedShape(FirstOnly(shape, Pick(ps))) == [|ps|] + shape[1..]
  {
    PickedShapeCons(Pick(ps), Full(shape[1..]));
    SingleShape(Pick(ps));
    FullShapeIs(shape[1..]);
    hide PickedShape, Full;
  }

  lemma SliceDense(x: Tensor, s: Slice, ps: seq<nat>)
    requires x.outer != [] && SliceReads(s, x.outer[0], ps)
    ensures SliceMeans(x, Select(x, FirstOnly(x.outer, Pick(ps))), s)
  {
    var y := Select(x, FirstOnly(x.outer, Pick(ps)));
    SliceShape(x.outer, ps);
    hide Picked, PickedShape, FirstOnly, SliceReads;
    forall o, k: nat | Inside(o, y.outer) && k < y.last
      ensures y.at(o, k) == x.at([ps[o[0]]] + o[1..], k)
    {
      SliceRead(x.outer, ps, o);
    }
  }

  lemma PieceDenseMeans(x: Tensor, pieces: Pieces, dim: int, which: nat)
    requires PieceDense(x, pieces, dim, which).Ok?
    ensures SplitMeans(x, PieceDense(x, pieces, dim, which).value, pieces, dim, which)
  {
    hide PiecePositions, SizesOf, SplitInto, AlongOnly, Select, Columns;
    var d := NormIndex(dim, |x.outer| + 1).value;
    var sizes := SizesOf(pieces, (x.outer + [x.last])[d]).value;
    SizesSplit(pieces, (x.outer + [x.last])[d]);
    if d == |x.outer| {
      ColumnPieceMeans(x, sizes, which);
    } else {
      OuterPieceMeans(x, d, sizes, which);
    }
    hide PieceMeans;
    assert PieceMeans(x, PieceDense(x, pieces, dim, which).value, d, sizes, which);
  }

  lemma ColumnPieceMeans(x: Tensor, sizes: seq<nat>, which: nat)
    requires which < |sizes|
    ensures PieceMeans(x, Columns(x, PiecePositions(sizes, which)), |x.outer|, sizes, which)
  {
    PieceAt(sizes, which);
    hide PiecePositions;
  }

  lemma OuterPieceMeans(x: Tensor, d: nat, sizes: seq<nat>, which: nat)
    requires d < |x.outer| && which < |sizes|
    ensures PieceMeans(x, Select(x, AlongOnly(x.outer, d, PiecePositions(sizes, which))), d, sizes, which)
  {
    var ps := PiecePositions(sizes, which);
    PieceAt(sizes, which);
    AlongShape(x.outer, d, ps);
    var y := Select(x, AlongOnly(x.outer, d, ps));
    hide PiecePositions, AlongOnly, Picked, PickedShape;
    forall o, k: nat | Inside(o, y.outer) && k < y.last
      ensures y.at(o, k) == x.at(o[d := Before(sizes, which) + o[d]], k)
    {
      AlongRead(x.outer, d, ps, o);
    }
  }

  // ---------- Reshaping ----------

  // Row-major order of indices.
  ghost predicate Earlier(o: seq<nat>, p: seq<nat>) {
    |o| == |p| && exists i :: 0 <= i < |o| && o[..i] == p[..i] && o[i] < p[i]
  }

  // The elements keep their order: `source` takes the indices of the result to those of the operand in order,
  // which with as many elements on both sides leaves no choice.
  ghost predicate RowMajor(x: Tensor, y: Tensor, source: seq<nat> -> seq<nat>) {
    && Size(y.outer) == Size(x.outer) && y.last == x.last
    && (forall o :: Inside(o, y.outer) ==> Inside(source(o), x.outer))
    && (forall o, p :: Inside(o, y.outer) && Inside(p, y.outer) && Earlier(o, p) ==> Earlier(source(o), source(p)))
    && forall o, k: nat :: Inside(o, y.outer) && k < y.last ==> y.at(o, k) == x.at(source(o), k)
  }

  lemma {:induction false} EarlierFlat(o: seq<nat>, p: seq<nat>, shape: seq<nat>)
    requires Inside(o, shape) && Inside(p, shape) && Earlier(o, p)
    ensures Flat(o, shape) < Flat(p, shape)
    decreases |o|
  {
    var n := |o| - 1;
    var i :| 0 <= i < |o| && o[..i] == p[..i] && o[i] < p[i];
    if i < n {
      assert o[..n][..i] == o[..i] == p[..i] == p[..n][..i];
      EarlierFlat(o[..n], p[..n], shape[..n]);
      NextRow(Flat(o[..n], shape[..n]), Flat(p[..n], shape[..n]), shape[n], o[n], p[n]);
    } else {
      assert o[..n] == p[..n];
    }
  }

  lemma NextRow(f: nat, g: nat, width: nat, k: nat, l: nat)
    requires f < g && k < width
    ensures f * width + k < g * width + l
  {
    assert (f + 1) * width <= g * width;
  }

  lemma {:induction false} EarlierTotal(o: seq<nat>, p: seq<nat>)
    requires |o| == |p|
    ensures o == p || Earlier(o, p) || Earlier(p, o)
    decreases |o|
  {
    if o != [] {
      var n := |o| - 1;
      EarlierTotal(o[..n], p[..n]);
      if o[..n] == p[..n] {
        assert o == o[..n] + [o[n]] && p == p[..n] + [p[n]];
      } else if Earlier(o[..n], p[..n]) {
        EarlierLonger(o, p);
      } else {
        EarlierLonger(p, o);
      }
    }
  }

  lemma EarlierLonger(o: seq<nat>, p: seq<nat>)
    requires |o| == |p| > 0 && Earlier(o[..|o| - 1], p[..|o| - 1])
    ensures Earlier(o, p)
  {
    var n := |o| - 1;
    var i :| 0 <= i < n && o[..n][..i] == p[..n][..i] && o[..n][i] < p[..n][i];
    assert o[..i] == o[..n][..i] && p[..i] == p[..n][..i];
  }

  lemma ReshapeOrdered(x: Tensor, outer: seq<nat>)
    requires Size(outer) == Size(x.outer)
    ensures RowMajor(x, Reshape(x, outer), ReshapeSource(outer, x.outer))
  {
    hide Size, Flat, Unflat, Earlier, Inside;
    ReshapeWithin(outer, x.outer);
    forall o, p | Inside(o, outer) && Inside(p, outer) && Earlier(o, p)
      ensures Earlier(ReshapeSource(outer, x.outer)(o), ReshapeSource(outer, x.outer)(p))
    {
      InsideLength(o, outer);
      InsideLength(p, outer);
      SourcesOrdered(o, p, outer, x.outer);
    }
  }

  lemma InsideLength(o: seq<nat>, shape: seq<nat>)
    requires Inside(o, shape)
    ensures |o| == |shape|
  {
  }

  lemma SourcesOrdered(o: seq<nat>, p: seq<nat>, outer: seq<nat>, shape: seq<nat>)
    requires Inside(o, outer) && Inside(p, outer) && Earlier(o, p) && Size(outer) == Size(shape)
    ensures Earlier(Unflat(Flat(o, outer), shape), Unflat(Flat(p, outer), shape))
  {
    EarlierFlat(o, p, outer);
    FlatBelow(o, outer);
    FlatBelow(p, outer);
    UnflatInside(Flat(o, outer), shape);
    UnflatInside(Flat(p, outer), shape);
    var q, r := Unflat(Flat(o, outer), shape), Unflat(Flat(p, outer), shape);
    EarlierTotal(q, r);
    hide Flat, Unflat, Size, Earlier;
    if Earlier(r, q) {
      EarlierFlat(r, q, shape);
    }
  }

  // What a new shape asks for: its own entries, -1 where it leaves one to the number of elements.
  ghost predicate ShapeFits(shape: seq<int>, outer: seq<nat>, last: nat) {
    && |shape| == |outer| + 1 && |outer| >= 1
    && (forall i :: 0 <= i < |outer| ==> shape[i] == -1 || outer[i] == shape[i])
    && (shape[|outer|] == -1 || shape[|outer|] == last)
  }

  lemma NewOuterFits(shape: seq<int>, was: seq<nat>)
    requires was != [] && NewOuter(shape, was).Ok?
    ensures ShapeFits(shape, NewOuter(shape, was).value, was[|was| - 1])
  {
    hide Volume, Size;
  }

  // ---------- Permuting ----------

  // The front-counted dimension of each entry.
  predicate FromFront(dims: seq<int>, ndim: nat, front: seq<nat>) {
    |dims| == ndim == |front|
    && forall i :: 0 <= i < ndim ==> front[i] < ndim && (front[i] == dims[i] || front[i] == dims[i] + ndim)
  }

  // Dimension `i` of the result is dimension `front[i]` of the operand.
  ghost predicate PermuteMeans(x: Tensor, y: Tensor, front: seq<nat>) {
    && |y.outer| == |x.outer| && |front| == |x.outer| + 1 && Below(front, |front|)
    && (forall i :: 0 <= i < |front| ==> (y.outer + [y.last])[i] == (x.outer + [x.last])[front[i]])
    && forall o, k: nat, o', k': nat ::
         (Inside(o, y.outer) && k < y.last && Inside(o', x.outer) && k' < x.last && Moved(o + [k], o' + [k'], front))
         ==> y.at(o, k) == x.at(o', k')
  }

  predicate Moved(index: seq<nat>, from: seq<nat>, front: seq<nat>) {
    |index| == |from| == |front| && forall i :: 0 <= i < |front| ==> front[i] < |from| && index[i] == from[front[i]]
  }

  lemma UnpermutedIs(o: seq<nat>, o': seq<nat>, dims: seq<nat>)
    requires IsPermutation(dims, |o'|) && |o| == |dims| && forall i :: 0 <= i < |dims| ==> o[i] == o'[dims[i]]
    ensures Unpermuted(o, dims) == o'
  {
    forall j | 0 <= j < |dims|
      ensures Unpermuted(o, dims)[j] == o'[j]
    {
      assert j in dims;
    }
  }

  lemma PermutedMeans(x: Tensor, front: seq<nat>)
    requires |front| == |x.outer| + 1 && front[|x.outer|] == |x.outer|
    requires IsPermutation(front[..|x.outer|], |x.outer|)
    ensures PermuteMeans(x, Permute(x, front[..|x.outer|]), front)
  {
    var n := |x.outer|;
    var y := Permute(x, front[..n]);
    hide Unpermuted, IsPermutation;
    PermutedDims(x.outer, front);
    forall o, k: nat, o', k': nat | Inside(o, y.outer) && k < y.last && Inside(o', x.outer) && k' < x.last
      && Moved(o + [k], o' + [k'], front)
      ensures y.at(o, k) == x.at(o', k')
    {
      MovedParts(o, k, o', k', front);
      UnpermutedIs(o, o', front[..n]);
    }
  }

  lemma PermutedDims(shape: seq<nat>, front: seq<nat>)
    requires |front| == |shape| + 1 && front[|shape|] == |shape| && IsPermutation(front[..|shape|], |shape|)
    ensures Below(front, |front|)
    ensures forall i :: 0 <= i < |shape| ==> PermutedShape(shape, front[..|shape|])[i] == shape[front[i]]
  {
    var n := |shape|;
    assert forall i :: 0 <= i < n ==> front[..n][i] == front[i];
  }

  lemma MovedParts(o: seq<nat>, k: nat, o': seq<nat>, k': nat, front: seq<nat>)
    requires |o| == |o'| == |front| - 1 && front[|o|] == |o| && Moved(o + [k], o' + [k'], front)
    requires IsPermutation(front[..|o|], |o|)
    ensures k == k' && forall i :: 0 <= i < |o| ==> front[..|o|][i] < |o| && o[i] == o'[front[..|o|][i]]
  {
    var n := |o|;
    assert (o + [k])[n] == k && (o' + [k'])[n] == k';
    forall i | 0 <= i < n
      ensures front[..n][i] < n && o[i] == o'[front[..n][i]]
    {
      assert (o + [k])[i] == o[i] && (o' + [k'])[front[i]] == o'[front[i]];
    }
  }

  lemma TransposeMeans(x: Tensor)
    requires |x.outer| == 1
    ensures PermuteMeans(x, Transpose(x), [1, 0])
  {
    var y := Transpose(x);
    forall o, k: nat, o', k': nat | Inside(o, y.outer) && k < y.last && Inside(o', x.outer) && k' < x.last
      && Moved(o + [k], o' + [k'], [1, 0])
      ensures y.at(o, k) == x.at(o', k')
    {
      assert (o + [k])[0] == o[0] && (o' + [k'])[1] == k';
      assert (o + [k])[1] == k && (o' + [k'])[0] == o'[0];
      assert o' == [k] && k' == o[0];
    }
  }

  lemma PermuteDenseMeans(x: Tensor, front: seq<nat>)
    requires PermuteDense(x, front).Ok?
    ensures PermuteMeans(x, PermuteDense(x, front).value, front)
  {
    hide PermuteMeans, IsPermutation, Permute, Transpose;
    if front[|x.outer|] == |x.outer| && IsPermutation(front[..|x.outer|], |x.outer|) {
      PermutedMeans(x, front);
    } else {
      TransposeMeans(x);
    }
  }

  lemma FrontDimsCount(dims: seq<int>, ndim: nat)
    requires FrontDims(dims, ndim).Ok?
    ensures FromFront(dims, ndim, FrontDims(dims, ndim).value)
  {
  }

  // Two dimensions change places, the others stay.
  ghost predicate Exchanges(i: int, j: int, ndim: nat, front: seq<nat>) {
    && |front| == ndim
    && exists a: nat, b: nat :: IndexIs(i, ndim, a) && IndexIs(j, ndim, b)
         && front[a] == b && front[b] == a && forall k :: 0 <= k < ndim && k != a && k != b ==> front[k] == k
  }

  lemma ExchangeFront(i: int, j: int, ndim: nat)
    requires ExchangedDims(ndim, i, j).Ok? && FrontDims(ExchangedDims(ndim, i, j).value, ndim).Ok?
    ensures Exchanges(i, j, ndim, FrontDims(ExchangedDims(ndim, i, j).value, ndim).value)
  {
    var a, b := NormIndex(i, ndim).value, NormIndex(j, ndim).value;
    assert IndexIs(i, ndim, a) && IndexIs(j, ndim, b);
  }

  // ---------- Scaling ----------

  // An index of a broadcast operand: it agrees, counted from the back, except along dimensions of size 1.
  predicate ReadBy(q: seq<nat>, o: seq<nat>, shape: seq<nat>) {
    && Inside(q, shape) && |q| <= |o|
    && forall i :: 0 <= i < |q| ==> q[i] == o[|o| - |q| + i] || shape[i] == 1
  }

  ghost predicate ScaleMeans(x: Tensor, y: Tensor, factor: Tensor) {
    && |y.outer| == |x.outer| && y.last == x.last
    && (forall i :: 0 <= i < |x.outer| ==>
          var missing := |x.outer| - |factor.outer|;
          y.outer[i] == if i >= missing >= 0 && x.outer[i] == 1 then factor.outer[i - missing] else x.outer[i])
    && forall o, k: nat, q, o' ::
         (Inside(o, y.outer) && k < y.last && ReadBy(q, o, factor.outer) && ReadBy(o', o, x.outer))
         ==> y.at(o, k) == factor.at(q, 0) * x.at(o', k)
  }

  lemma FactorRead(factor: Tensor, o: seq<nat>, q: seq<nat>)
    requires ReadBy(q, o, factor.outer)
    ensures FactorAt(factor, o) == factor.at(q, 0)
  {
    var n := |factor.outer|;
    var aligned := seq(n, i requires 0 <= i < n =>
      if factor.outer[i] == 1 || |o| < n then 0 else Coordinate(o, |o| - n + i));
    assert aligned == q;
  }

  lemma ClampedRead(shape: seq<nat>, o: seq<nat>, q: seq<nat>)
    requires ReadBy(q, o, shape) && |o| == |shape|
    ensures Clamped(shape, o) == q
  {
  }

  lemma ScaledMeans(x: Tensor, factor: Tensor)
    requires Broadcasts(factor, x.outer)
    ensures ScaleMeans(x, Scale(x, factor), factor)
  {
    var y := Scale(x, factor);
    ScaledShape(x.outer, factor);
    hide FactorAt, Clamped, BroadcastShape, Broadcasts, ReadBy;
    forall o, k: nat, q, o' | Inside(o, y.outer) && k < y.last && ReadBy(q, o, factor.outer) && ReadBy(o', o, x.outer)
      ensures y.at(o, k) == factor.at(q, 0) * x.at(o', k)
    {
      FactorRead(factor, o, q);
      ClampedRead(x.outer, o, o');
    }
  }

  lemma ScaledShape(outer: seq<nat>, factor: Tensor)
    requires Broadcasts(factor, outer)
    ensures |BroadcastShape(factor, outer)| == |outer|
    ensures forall i :: 0 <= i < |outer| ==>
              var missing := |outer| - |factor.outer|;
              BroadcastShape(factor, outer)[i]
              == if i >= missing >= 0 && outer[i] == 1 then factor.outer[i - missing] else outer[i]
  {
    forall i | 0 <= i < |outer|
      ensures var missing := |outer| - |factor.outer|;
              BroadcastShape(factor, outer)[i]
              == if i >= missing >= 0 && outer[i] == 1 then factor.outer[i - missing] else outer[i]
    {
      assert AlignedDim(factor, outer, i) == 1 || outer[i] == 1 || AlignedDim(factor, outer, i) == outer[i];
    }
  }

  // ---------- All operations ----------

  ghost predicate Means(x: Tensor, op: Op, y: Tensor)
    requires x.outer != []
  {
    var ndim := |x.outer| + 1;
    match op
    case Item(j) => ItemMeans(x, y, j)
    case Sliced(s) => SliceMeans(x, y, s)
    case Tuple(inds) => exists all :: FilledUp(inds, ndim, all) && IndexMeans(x, y, all)
    case NewShape(shape) => ShapeFits(shape, y.outer, x.last) && RowMajor(x, y, ReshapeSource(y.outer, x.outer))
    case Permuted(dims) => exists front :: FromFront(dims, ndim, front) && PermuteMeans(x, y, front)
    case Exchanged(i, j) => exists front :: Exchanges(i, j, ndim, front) && PermuteMeans(x, y, front)
    case Piece(pieces, dim, which) => SplitMeans(x, y, pieces, dim, which)
    case Scaled(factor) => ScaleMeans(x, y, factor)
  }

  // Every operation on a dense tensor is what it is called.
  lemma DenseMeans(x: Tensor, op: Op)
    requires x.outer != [] && ApplyDense(x, op).Ok?
    ensures Means(x, op, ApplyDense(x, op).value)
  {
    hide ItemMeans, SliceMeans, FilledUp, IndexMeans, ShapeFits, RowMajor, FromFront, PermuteMeans, Exchanges,
         SplitMeans, ScaleMeans, IndexDense, Meaning, PieceDense, PermuteDense, FrontDims, ExchangedDims, NewOuter,
         Reshape, Scale, Select, Positions, Broadcasts, Size;
    var ndim := |x.outer| + 1;
    match op
    case Item(j) => ItemDense(x, j, NormIndex(j, x.outer[0]).value);
    case Sliced(s) =>
      PositionsRead(s, x.outer[0]);
      SliceDense(x, s, Positions(s, x.outer[0]));
    case Tuple(inds) =>
      MeaningFills(inds, ndim);
      IndexDenseMeans(x, Meaning(inds, ndim).value);
    case NewShape(shape) =>
      NewOuterFits(shape, x.outer + [x.last]);
      ReshapeOrdered(x, NewOuter(shape, x.outer + [x.last]).value);
      ReshapedOuter(x, NewOuter(shape, x.outer + [x.last]).value);
    case Permuted(dims) =>
      FrontDimsCount(dims, ndim);
      PermuteDenseMeans(x, FrontDims(dims, ndim).value);
    case Exchanged(i, j) =>
      ExchangeFront(i, j, ndim);
      PermuteDenseMeans(x, FrontDims(ExchangedDims(ndim, i, j).value, ndim).value);
    case Piece(pieces, dim, which) => PieceDenseMeans(x, pieces, dim, which);
    case Scaled(factor) => ScaledMeans(x, factor);
  }

  lemma ReshapedOuter(x: Tensor, outer: seq<nat>)
    ensures Reshape(x, outer).outer == outer
  {
  }

  // ---------- Joining ----------

  // Each tensor shows behind those before it.
  ghost predicate CatMeans(xs: seq<Tensor>, y: Tensor)
    requires xs != [] && Dimensioned(xs)
  {
    var dims := FirstDims(xs);
    && y.outer == [Before(dims, |xs|)] + xs[0].outer[1..] && y.last == xs[0].last
    && forall i, o, k: nat :: 0 <= i < |xs| && Inside(o, xs[i].outer) && k < y.last ==>
         y.at([Before(dims, i) + o[0]] + o[1..], k) == xs[i].at(o, k)
  }

  ghost predicate StackMeans(xs: seq<Tensor>, y: Tensor)
    requires xs != []
  {
    && y.outer == [|xs|] + xs[0].outer && y.last == xs[0].last
    && forall i: nat, o, k: nat :: i < |xs| && Inside(o, xs[i].outer) && k < y.last ==>
         y.at([i] + o, k) == xs[i].at(o, k)
  }

  lemma {:induction false} BeforeCons(first: nat, rest: seq<nat>, i: nat)
    requires i <= |rest|
    ensures Before([first] + rest, i + 1) == first + Before(rest, i)
    decreases i
  {
    if i > 0 {
      BeforeCons(first, rest, i - 1);
    }
  }

  lemma {:induction false} CatAtPiece(xs: seq<Tensor>, i: nat, o: seq<nat>, k: nat)
    requires Dimensioned(xs) && i < |xs| && o != [] && o[0] < xs[i].outer[0]
    ensures CatAt(xs, [Before(FirstDims(xs), i) + o[0]] + o[1..], k) == xs[i].at(o, k)
    decreases |xs|
  {
    var dims := FirstDims(xs);
    var at := [Before(dims, i) + o[0]] + o[1..];
    assert Before(dims, 0) == 0;
    hide Before;
    if i == 0 {
      assert at == o;
    } else {
      var rest := FirstDims(xs[1..]);
      assert dims == [dims[0]] + rest;
      BeforeCons(dims[0], rest, i - 1);
      CatAtPiece(xs[1..], i - 1, o, k);
      CatAtLater(xs, [Before(rest, i - 1) + o[0]] + o[1..], k);
    }
  }

  lemma CatAtLater(xs: seq<Tensor>, o: seq<nat>, k: nat)
    requires Dimensioned(xs) && xs != [] && o != []
    ensures CatAt(xs, [xs[0].outer[0] + o[0]] + o[1..], k) == CatAt(xs[1..], o, k)
  {
    var o' := [xs[0].outer[0] + o[0]] + o[1..];
    assert [o'[0] - xs[0].outer[0]] + o'[1..] == o;
  }

  // Joining and stacking are what they are called.
  lemma JoinMeans(xs: seq<Tensor>)
    requires JoinDense(xs).Ok?
    ensures CatMeans(xs, JoinDense(xs).value)
  {
    hide CatAt, Total;
    BeforeTotal(FirstDims(xs), |xs|);
    assert FirstDims(xs)[..|xs|] == FirstDims(xs);
    forall i, o, k: nat | 0 <= i < |xs| && Inside(o, xs[i].outer) && k < xs[0].last
      ensures CatAt(xs, [Before(FirstDims(xs), i) + o[0]] + o[1..], k) == xs[i].at(o, k)
    {
      CatAtPiece(xs, i, o, k);
    }
  }

  lemma StackingMeans(xs: seq<Tensor>)
    requires StackDense(xs).Ok?
    ensures StackMeans(xs, StackDense(xs).value)
  {
    var y := StackDense(xs).value;
    forall i: nat, o, k: nat | i < |xs| && Inside(o, xs[i].outer) && k < y.last
      ensures y.at([i] + o, k) == xs[i].at(o, k)
    {
      assert ([i] + o)[1..] == o;
    }
  }

  // ---------- A split, joined again ----------

  lemma {:induction false} Locate(sizes: seq<nat>, n: nat, p: nat) returns (i: nat)
    requires n <= |sizes| && p < Before(sizes, n)
    ensures i < n && Before(sizes, i) <= p < Before(sizes, i) + sizes[i]
    decreases n
  {
    if p < Before(sizes, n - 1) {
      i := Locate(sizes, n - 1, p);
    } else {
      i := n - 1;
    }
  }

  // All pieces of a tensor, joined along the dimension they were split along, are the tensor.
  lemma SplitJoined(x: Tensor, pieces: Pieces, ys: seq<Tensor>)
    requires x.outer != [] && SizesOf(pieces, x.outer[0]).Ok? && |ys| == |SizesOf(pieces, x.outer[0]).value| > 0
    requires forall i :: 0 <= i < |ys| ==> PieceDense(x, pieces, 0, i) == Ok(ys[i])
    ensures JoinDense(ys).Ok? && Same(JoinDense(ys).value, x)
  {
    hide PieceDense, SizesOf, SplitInto, CatAt;
    var sizes := SizesOf(pieces, x.outer[0]).value;
    SizesSplit(pieces, x.outer[0]);
    forall i | 0 <= i < |ys|
      ensures PieceMeans(x, ys[i], 0, sizes, i)
    {
      FirstPiece(x, pieces, i);
    }
    assert FirstDims(ys) == sizes;
    JoinMeans(ys);
    var y := JoinDense(ys).value;
    SplitTotal(pieces, x.outer[0], sizes);
    forall o, k: nat | Inside(o, x.outer) && k < x.last
      ensures y.at(o, k) == x.at(o, k)
    {
      JoinedAt(x, ys, sizes, y, o, k);
    }
  }

  lemma SplitTotal(pieces: Pieces, n: nat, sizes: seq<nat>)
    requires SplitInto(pieces, n, sizes)
    ensures Before(sizes, |sizes|) == n
  {
  }

  lemma FirstPiece(x: Tensor, pieces: Pieces, i: nat)
    requires x.outer != [] && SizesOf(pieces, x.outer[0]).Ok? && i < |SizesOf(pieces, x.outer[0]).value|
    ensures PieceDense(x, pieces, 0, i).Ok?
    ensures PieceMeans(x, PieceDense(x, pieces, 0, i).value, 0, SizesOf(pieces, x.outer[0]).value, i)
  {
    hide SizesOf, PieceMeans, PiecePositions, AlongOnly, Select;
    OuterPieceMeans(x, 0, SizesOf(pieces, x.outer[0]).value, i);
  }

  lemma InsidePiece(o: seq<nat>, shape: seq<nat>, size: nat, n: nat)
    requires shape != [] && Inside(o, shape) && n <= o[0] < n + size
    ensures Inside(o[0 := o[0] - n], shape[0 := size])
    ensures var q := o[0 := o[0] - n]; [n + q[0]] + q[1..] == o == q[0 := n + q[0]]
  {
  }

  lemma PieceShape(x: Tensor, y: Tensor, sizes: seq<nat>, i: nat)
    requires x.outer != [] && i < |sizes| && PieceMeans(x, y, 0, sizes, i)
    ensures y.outer == x.outer[0 := sizes[i]] && y.last == x.last
  {
  }

  lemma CatLast(ys: seq<Tensor>, y: Tensor)
    requires ys != [] && Dimensioned(ys) && CatMeans(ys, y)
    ensures y.last == ys[0].last
  {
  }

  lemma PieceElement(x: Tensor, y: Tensor, sizes: seq<nat>, i: nat, q: seq<nat>, k: nat)
    requires x.outer != [] && i < |sizes| && PieceMeans(x, y, 0, sizes, i) && Inside(q, y.outer) && k < y.last
    ensures y.at(q, k) == x.at(q[0 := Before(sizes, i) + q[0]], k)
  {
  }

  lemma CatElement(ys: seq<Tensor>, y: Tensor, i: nat, q: seq<nat>, k: nat)
    requires ys != [] && Dimensioned(ys) && CatMeans(ys, y) && i < |ys| && Inside(q, ys[i].outer) && k < y.last
    ensures y.at([Before(FirstDims(ys), i) + q[0]] + q[1..], k) == ys[i].at(q, k)
  {
  }

  lemma JoinedAt(x: Tensor, ys: seq<Tensor>, sizes: seq<nat>, y: Tensor, o: seq<nat>, k: nat)
    requires x.outer != [] && ys != [] && Dimensioned(ys) && FirstDims(ys) == sizes && CatMeans(ys, y)
    requires forall i :: 0 <= i < |ys| ==> PieceMeans(x, ys[i], 0, sizes, i)
    requires Before(sizes, |sizes|) == x.outer[0] && Inside(o, x.outer) && k < x.last
    ensures y.at(o, k) == x.at(o, k)
  {
    hide CatMeans, PieceMeans, Before;
    var i := Locate(sizes, |sizes|, o[0]);
    var n := Before(sizes, i);
    var q := o[0 := o[0] - n];
    InsidePiece(o, x.outer, sizes[i], n);
    PieceShape(x, ys[i], sizes, i);
    PieceShape(x, ys[0], sizes, 0);
    CatLast(ys, y);
    PieceElement(x, ys[i], sizes, i, q, k);
    CatElement(ys, y, i, q, k);
  }

  // ---------- When an operation on an adapter succeeds ----------

  // Wherever the dense operation succeeds, so does the one on the adapter; only integer indices are narrower, and
  // tuples, whose condition is that their indexing of the factors is defined.
  lemma StepSucceeds(l: Lora, op: Op)
    requires UnitLead(l) && l.b.last > 0 && Supported(l, op) && ApplyDense(Product(l), op).Ok?
    requires !op.Tuple? && (op.Item? ==> op.j == 0 || op.j == -1)
    ensures ApplyLora(l, op).Ok?
  {
    ProductShape(l);
    match op
    case Item(j) => ItemSucceeds(l, j);
    case Sliced(s) => SliceSucceeds(l, s);
    case NewShape(shape) => ShapeSucceeds(l, shape);
    case Permuted(dims) =>
      hide FrontDims, IsPermutation;
      PermuteSucceeds(l, dims);
    case Exchanged(i, j) =>
      hide FrontDims, ExchangedDims, IsPermutation;
      PermuteSucceeds(l, ExchangedDims(|Shape(l)|, i, j).value);
    case Piece(pieces, dim, which) =>
      hide SizesOf, PiecePositions, AlongOnly;
      PieceSucceeds(l, pieces, dim, which);
    case Scaled(factor) => hide Broadcasts, Scale;
  }

  lemma ItemSucceeds(l: Lora, j: int)
    requires UnitLead(l) && ApplyDense(Product(l), Item(j)).Ok? && (j == 0 || j == -1)
    ensures GetItem(l, j).Ok?
  {
    ProductShape(l);
    hide Product, Select;
    GetItemExact(l, j);
  }

  lemma SliceSucceeds(l: Lora, s: Slice)
    requires UnitLead(l) && s.step > 0
    ensures GetSlice(l, s).Ok?
  {
    hide Product, Select, Positions;
    if |l.b.outer| >= 2 {
      GetSliceExact(l, s);
    } else {
      GetRowsRefines(l, s);
    }
  }

  lemma {:induction false} OnesSize(shape: seq<nat>)
    requires AllOnes(shape)
    ensures Size(shape) == 1
    decreases |shape|
  {
    if shape != [] {
      OnesSize(shape[..|shape| - 1]);
    }
  }

  lemma UnitSize(shape: seq<nat>)
    requires shape != [] && AllOnes(shape[..|shape| - 1])
    ensures Size(shape) == shape[|shape| - 1]
  {
    OnesSize(shape[..|shape| - 1]);
  }

  lemma ShapeSucceeds(l: Lora, shape: seq<int>)
    requires UnitLead(l) && l.b.last > 0 && NewOuter(shape, Shape(l)).Ok?
    requires Size(NewOuter(shape, Shape(l)).value) == Size(l.b.outer)
    ensures ReshapeLora(l, shape).Ok?
  {
    var outer := NewOuter(shape, Shape(l)).value;
    NewOuterFits(shape, Shape(l));
    var ones := Ones(|outer| - 1);
    assert (ones + [l.b.last])[..|ones|] == ones;
    UnitSize(ones + [l.b.last]);
    UnitSize(l.a.outer);
    hide NewOuter, Size, Reshape;
  }

  lemma PermuteSucceeds(l: Lora, dims: seq<int>)
    requires UnitLead(l) && FrontDims(dims, |Shape(l)|).Ok?
    requires PermuteDense(Product(l), FrontDims(dims, |Shape(l)|).value).Ok?
    ensures PermuteLora(l, dims).Ok?
  {
    ProductShape(l);
    hide FrontDims, IsPermutation, Permute;
  }

  lemma PieceSucceeds(l: Lora, pieces: Pieces, dim: int, which: nat)
    requires UnitLead(l) && PieceDense(Product(l), pieces, dim, which).Ok? && 0 - |Shape(l)| <= dim < |Shape(l)|
    ensures PieceLora(l, pieces, dim, which).Ok?
  {
    ProductShape(l);
    hide PiecePositions, AlongOnly, Select, Product, SizesOf, Columns;
    var n, d := |l.b.outer|, if dim < 0 then dim + |Shape(l)| else dim;
    if d == n {
      ColumnSucceeds(l, pieces, which);
    } else {
      OuterSucceeds(l, pieces, d, which);
    }
  }

  lemma ColumnSucceeds(l: Lora, pieces: Pieces, which: nat)
    requires UnitLead(l) && SizesOf(pieces, l.a.last).Ok? && which < |SizesOf(pieces, l.a.last).value|
    ensures PieceLora(l, pieces, |l.b.outer|, which).Ok? && PieceLora(l, pieces, -1, which).Ok?
  {
    hide PiecePositions, SizesOf;
  }

  lemma OuterSucceeds(l: Lora, pieces: Pieces, d: nat, which: nat)
    requires UnitLead(l) && d < |l.b.outer|
    requires SizesOf(pieces, l.b.outer[d]).Ok? && which < |SizesOf(pieces, l.b.outer[d]).value|
    ensures PieceLora(l, pieces, d, which).Ok? && PieceLora(l, pieces, d - |Shape(l)|, which).Ok?
  {
    LeadIsUnit(l, d);
    AlongKeepsLast(l.b, d, PiecePositions(SizesOf(pieces, l.b.outer[d]).value, which));
    hide PiecePositions, SizesOf, Select, AlongOnly;
  }

  lemma AlongKeepsLast(x: Tensor, d: nat, ps: seq<nat>)
    requires d < |x.outer|
    ensures var y := Select(x, AlongOnly(x.outer, d, ps)); y.last == x.last && |y.outer| == |x.outer|
  {
    AlongShape(x.outer, d, ps);
    hide AlongOnly, PickedShape;
  }
}
