/** Dense tensors of two and more dimensions, and the operations on them that adapters go through:
    selecting, reshaping with the last dimension kept, permuting with the last dimension kept,
    transposing, scaling and concatenating. The last dimension is kept apart from the others. */
module Tensors {
  // The shape is `outer` followed by `last`; `at` gives the elements inside it.
  datatype Tensor = Tensor(outer: seq<nat>, last: nat, at: (seq<nat>, nat) -> real)

  predicate Inside(o: seq<nat>, shape: seq<nat>) {
    |o| == |shape| && forall i :: 0 <= i < |o| ==> o[i] < shape[i]
  }

  // Equality of shape and of every element.
  ghost predicate Same(x: Tensor, y: Tensor) {
    && x.outer == y.outer && x.last == y.last
    && forall o, k: nat :: Inside(o, x.outer) && k < x.last ==> x.at(o, k) == y.at(o, k)
  }

  // The tensor that shows at `o` what `x` has at `source(o)`.
  function View(x: Tensor, outer: seq<nat>, source: seq<nat> -> seq<nat>): Tensor {
    Tensor(outer, x.last, (o: seq<nat>, k: nat) => x.at(source(o), k))
  }

  ghost predicate Within(outer: seq<nat>, source: seq<nat> -> seq<nat>, inner: seq<nat>) {
    forall o :: Inside(o, outer) ==> Inside(source(o), inner)
  }

  lemma ViewSame(x: Tensor, y: Tensor, outer: seq<nat>, source: seq<nat> -> seq<nat>)
    requires Same(x, y) && Within(outer, source, x.outer)
    ensures Same(View(x, outer, source), View(y, outer, source))
  {
  }

  // The tensor with the chosen positions of the last dimension.
  function Columns(x: Tensor, ps: seq<nat>): Tensor {
    Tensor(x.outer, |ps|, (o: seq<nat>, k: nat) => if k < |ps| then x.at(o, ps[k]) else 0.0)
  }

  predicate Below(ps: seq<nat>, n: nat) {
    forall i :: 0 <= i < |ps| ==> ps[i] < n
  }

  lemma ColumnsSame(x: Tensor, y: Tensor, ps: seq<nat>)
    requires Same(x, y) && Below(ps, x.last)
    ensures Same(Columns(x, ps), Columns(y, ps))
  {
  }

  // ---------- Selecting along the outer dimensions ----------

  // One dimension is fixed at a position and disappears, or keeps a list of positions.
  datatype Sel = At(j: nat) | Pick(ps: seq<nat>)

  predicate Selects(sels: seq<Sel>, shape: seq<nat>) {
    |sels| == |shape| && forall i :: 0 <= i < |sels| ==> SelectsOne(sels[i], shape[i])
  }

  predicate SelectsOne(s: Sel, n: nat) {
    match s
    case At(j) => j < n
    case Pick(ps) => Below(ps, n)
  }

  function PickedShape(sels: seq<Sel>): seq<nat> {
    if sels == [] then []
    else
      var init := PickedShape(sels[..|sels| - 1]);
      match sels[|sels| - 1]
      case At(_) => init
      case Pick(ps) => init + [|ps|]
  }

  // Where the element of the selection at `o` comes from.
  function Picked(sels: seq<Sel>, o: seq<nat>): (source: seq<nat>)
    ensures |source| == |sels|
  {
    if sels == [] then []
    else
      match sels[|sels| - 1]
      case At(j) => Picked(sels[..|sels| - 1], o) + [j]
      case Pick(ps) =>
        var p := if o == [] then 0 else o[|o| - 1];
        Picked(sels[..|sels| - 1], if o == [] then [] else o[..|o| - 1]) + [if p < |ps| then ps[p] else 0]
  }

  lemma {:induction false} PickedInside(sels: seq<Sel>, shape: seq<nat>, o: seq<nat>)
    requires Selects(sels, shape) && Inside(o, PickedShape(sels))
    ensures Inside(Picked(sels, o), shape)
    decreases |sels|
  {
    if sels != [] {
      var n := |sels| - 1;
      var init := sels[..n];
      assert SelectsOne(sels[n], shape[n]);
      match sels[n]
      case At(j) =>
        PickedInside(init, shape[..n], o);
      case Pick(ps) =>
        assert o[..|o| - 1] == o[..|PickedShape(init)|];
        PickedInside(init, shape[..n], o[..|o| - 1]);
    }
  }

  function Select(x: Tensor, sels: seq<Sel>): Tensor {
    View(x, PickedShape(sels), PickSource(sels))
  }

  function PickSource(sels: seq<Sel>): seq<nat> -> seq<nat> {
    (o: seq<nat>) => Picked(sels, o)
  }

  lemma SelectWithin(sels: seq<Sel>, shape: seq<nat>)
    requires Selects(sels, shape)
    ensures Within(PickedShape(sels), PickSource(sels), shape)
  {
    forall o | Inside(o, PickedShape(sels))
      ensures Inside(Picked(sels, o), shape)
    {
      PickedInside(sels, shape, o);
    }
  }

  // ---------- Reshaping the outer dimensions ----------

  function Size(shape: seq<nat>): nat {
    if shape == [] then 1 else Size(shape[..|shape| - 1]) * shape[|shape| - 1]
  }

  // The position of an index in row-major order.
  function Flat(o: seq<nat>, shape: seq<nat>): nat
    requires |o| == |shape|
  {
    if o == [] then 0
    else
      var n := |o| - 1;
      Flat(o[..n], shape[..n]) * shape[n] + o[n]
  }

  // Division of a row-major position; a dimension of size 0 has none.
  function Quotient(f: nat, w: nat): nat {
    if w == 0 then 0 else NatQuotient(f, w)
  }

  function NatQuotient(f: nat, w: nat): nat
    requires w > 0
  {
    QuotientRemainder(f, w);
    f / w
  }

  function Remainder(f: nat, w: nat): (r: nat)
    ensures w > 0 ==> r < w
  {
    if w == 0 then 0 else f % w
  }

  lemma QuotientRemainder(f: nat, w: nat)
    requires w > 0
    ensures 0 <= f / w && f == f / w * w + f % w
  {
  }

  function Unflat(f: nat, shape: seq<nat>): (o: seq<nat>)
    ensures |o| == |shape|
    decreases |shape|
  {
    if shape == [] then []
    else
      var n := |shape| - 1;
      Unflat(Quotient(f, shape[n]), shape[..n]) + [Remainder(f, shape[n])]
  }

  lemma {:induction false} FlatBelow(o: seq<nat>, shape: seq<nat>)
    requires Inside(o, shape)
    ensures Flat(o, shape) < Size(shape)
    decreases |o|
  {
    if o != [] {
      var n := |o| - 1;
      FlatBelow(o[..n], shape[..n]);
      RowBelow(Flat(o[..n], shape[..n]), Size(shape[..n]), shape[n], o[n]);
    }
  }

  lemma RowBelow(f: nat, size: nat, width: nat, k: nat)
    requires f < size && k < width
    ensures f * width + k < size * width
  {
    assert (f + 1) * width <= size * width;
  }

  lemma {:induction false} UnflatInside(f: nat, shape: seq<nat>)
    requires f < Size(shape)
    ensures Inside(Unflat(f, shape), shape) && Flat(Unflat(f, shape), shape) == f
    decreases |shape|
  {
    if shape != [] {
      var n := |shape| - 1;
      var w := shape[n];
      assert w > 0;
      QuotientBelow(f, Size(shape[..n]), w);
      UnflatInside(Quotient(f, w), shape[..n]);
      UnflatStep(f, shape, Unflat(Quotient(f, w), shape[..n]));
    }
  }

  lemma UnflatStep(f: nat, shape: seq<nat>, o: seq<nat>)
    requires shape != [] && |o| == |shape| - 1
    requires var n := |shape| - 1; shape[n] > 0 && Inside(o, shape[..n]) && Flat(o, shape[..n]) == Quotient(f, shape[n])
    ensures var o' := o + [Remainder(f, shape[|shape| - 1])]; Inside(o', shape) && Flat(o', shape) == f
  {
    var n := |shape| - 1;
    var o' := o + [Remainder(f, shape[n])];
    assert o'[..n] == o;
    forall i | 0 <= i < n
      ensures o'[i] < shape[i]
    {
      assert shape[..n][i] == shape[i];
    }
    QuotientRemainder(f, shape[n]);
  }

  lemma QuotientBelow(f: nat, size: nat, width: nat)
    requires width > 0 && f < size * width
    ensures Quotient(f, width) < size
  {
    var q := Quotient(f, width);
    QuotientRemainder(f, width);
    assert (size - q) * width > 0;
  }

  // The same elements in row-major order under another shape.
  function Reshape(x: Tensor, outer: seq<nat>): Tensor {
    View(x, outer, ReshapeSource(outer, x.outer))
  }

  function ReshapeSource(outer: seq<nat>, shape: seq<nat>): seq<nat> -> seq<nat> {
    (o: seq<nat>) => if |o| == |outer| then Unflat(Flat(o, outer), shape) else []
  }

  lemma ReshapeWithin(outer: seq<nat>, shape: seq<nat>)
    requires Size(outer) == Size(shape)
    ensures Within(outer, ReshapeSource(outer, shape), shape)
  {
    forall o | Inside(o, outer)
      ensures Inside(Unflat(Flat(o, outer), shape), shape)
    {
      FlatBelow(o, outer);
      UnflatInside(Flat(o, outer), shape);
    }
  }

  // ---------- Permuting the outer dimensions ----------

  predicate IsPermutation(dims: seq<nat>, n: nat) {
    |dims| == n && Below(dims, n) && forall j :: 0 <= j < n ==> j in dims
  }

  function Position(dims: seq<nat>, j: nat): (i: nat)
    ensures j in dims ==> i < |dims| && dims[i] == j
  {
    if dims == [] || dims[0] == j then 0 else 1 + Position(dims[1..], j)
  }

  // Index `o` of the permuted tensor, in the order of the original one.
  function Unpermuted(o: seq<nat>, dims: seq<nat>): seq<nat> {
    seq(|dims|, j requires 0 <= j < |dims| => Coordinate(o, Position(dims, j)))
  }

  function Coordinate(o: seq<nat>, i: nat): nat {
    if i < |o| then o[i] else 0
  }

  function PermutedShape(shape: seq<nat>, dims: seq<nat>): seq<nat>
    requires IsPermutation(dims, |shape|)
  {
    seq(|dims|, i requires 0 <= i < |dims| => shape[dims[i]])
  }

  function Permute(x: Tensor, dims: seq<nat>): Tensor
    requires IsPermutation(dims, |x.outer|)
  {
    View(x, PermutedShape(x.outer, dims), PermuteSource(dims))
  }

  function PermuteSource(dims: seq<nat>): seq<nat> -> seq<nat> {
    (o: seq<nat>) => Unpermuted(o, dims)
  }

  lemma PermuteWithin(shape: seq<nat>, dims: seq<nat>)
    requires IsPermutation(dims, |shape|)
    ensures Within(PermutedShape(shape, dims), PermuteSource(dims), shape)
  {
    forall o | Inside(o, PermutedShape(shape, dims))
      ensures Inside(Unpermuted(o, dims), shape)
    {
      forall j | 0 <= j < |shape|
        ensures Unpermuted(o, dims)[j] < shape[j]
      {
        assert j in dims;
      }
    }
  }

  // ---------- Transposing a matrix ----------

  function Transpose(x: Tensor): Tensor
    requires |x.outer| == 1
  {
    Tensor([x.last], x.outer[0], (o: seq<nat>, k: nat) => if |o| == 1 then x.at([k], o[0]) else 0.0)
  }

  lemma TransposeSame(x: Tensor, y: Tensor)
    requires Same(x, y) && |x.outer| == 1
    ensures Same(Transpose(x), Transpose(y))
  {
    forall o, k: nat | Inside(o, [x.last]) && k < x.outer[0]
      ensures Transpose(x).at(o, k) == Transpose(y).at(o, k)
    {
      assert Inside([k], x.outer);
    }
  }

  // ---------- Scaling by a factor for each row ----------

  // A factor tensor whose last dimension is 1, aligned with the outer dimensions from the right; where two
  // dimensions differ, one of them is 1.
  predicate Broadcasts(factor: Tensor, outer: seq<nat>) {
    && |factor.outer| <= |outer| && factor.last == 1
    && forall i :: 0 <= i < |outer| ==> AlignedDim(factor, outer, i) == 1 || outer[i] == 1
                                        || AlignedDim(factor, outer, i) == outer[i]
  }

  // The dimension of the factor that meets dimension `i`, or 1 where it has none.
  function AlignedDim(factor: Tensor, outer: seq<nat>, i: nat): nat
    requires |factor.outer| <= |outer| && i < |outer|
  {
    var missing := |outer| - |factor.outer|;
    if i < missing then 1 else factor.outer[i - missing]
  }

  // Dimensions of size 1 grow to those of the factor.
  function BroadcastShape(factor: Tensor, outer: seq<nat>): seq<nat>
    requires |factor.outer| <= |outer|
  {
    seq(|outer|, i requires 0 <= i < |outer| =>
      if AlignedDim(factor, outer, i) == 1 then outer[i] else AlignedDim(factor, outer, i))
  }

  // A dimension of size 1 is read at its only position.
  function Clamped(outer: seq<nat>, o: seq<nat>): seq<nat> {
    seq(|outer|, i requires 0 <= i < |outer| => if outer[i] == 1 then 0 else Coordinate(o, i))
  }

  function FactorAt(factor: Tensor, o: seq<nat>): real {
    var n := |factor.outer|;
    var aligned := seq(n, i requires 0 <= i < n =>
      if factor.outer[i] == 1 || |o| < n then 0 else Coordinate(o, |o| - n + i));
    factor.at(aligned, 0)
  }

  function Scale(x: Tensor, factor: Tensor): Tensor
    requires Broadcasts(factor, x.outer)
  {
    Tensor(BroadcastShape(factor, x.outer), x.last,
      (o: seq<nat>, k: nat) => FactorAt(factor, o) * x.at(Clamped(x.outer, o), k))
  }

  lemma ScaleSame(x: Tensor, y: Tensor, factor: Tensor)
    requires Same(x, y) && Broadcasts(factor, x.outer)
    ensures Same(Scale(x, factor), Scale(y, factor))
  {
    hide FactorAt, Clamped, BroadcastShape;
    forall o | Inside(o, BroadcastShape(factor, x.outer))
      ensures Inside(Clamped(x.outer, o), x.outer)
    {
      ClampedInside(factor, x.outer, o);
    }
  }

  lemma ClampedInside(factor: Tensor, outer: seq<nat>, o: seq<nat>)
    requires Broadcasts(factor, outer) && Inside(o, BroadcastShape(factor, outer))
    ensures Inside(Clamped(outer, o), outer)
  {
    forall i | 0 <= i < |outer|
      ensures Clamped(outer, o)[i] < outer[i]
    {
      assert o[i] < BroadcastShape(factor, outer)[i];
    }
  }
}
