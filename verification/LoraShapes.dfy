/** Reshaping, permuting, splitting and scaling an adapter (convert_lora_to_gguf.py:136-219). */
module LoraShapes {
  import opened Outcomes
  import opened Tensors
  import opened LoraProduct
  import opened LoraIndexing

  // ---------- reshape ----------

  function Volume(shape: seq<int>): int {
    if shape == [] then 1
    else Volume(shape[..|shape| - 1]) * (if shape[|shape| - 1] == -1 then 1 else shape[|shape| - 1])
  }

  // Every -1 becomes what is missing to the number of elements.
  function FillIn(shape: seq<int>, elements: nat): Result<seq<int>> {
    if -1 !in shape then Ok(shape)
    else if Volume(shape) == 0 || elements % Volume(shape) != 0 then Error
    else Ok(seq(|shape|, i requires 0 <= i < |shape| => if shape[i] == -1 then elements / Volume(shape) else shape[i]))
  }

  // The outer dimensions that a new shape asks for, with the last dimension kept.
  function NewOuter(shape: seq<int>, was: seq<nat>): Result<seq<nat>>
    requires was != []
  {
    if |shape| < 2 then Error
    else
      match FillIn(shape, Size(was))
      case Error => Error
      case Ok(filled) =>
        var n := |shape| - 1;
        if filled[n] != was[|was| - 1] || exists i :: 0 <= i < n && filled[i] < 0 then Error
        else Ok(seq(n, i requires 0 <= i < n => Natural(filled[i])))
  }

  function Natural(n: int): nat {
    if n < 0 then 0 else n
  }

  // torch's reshape of all dimensions but the last.
  function ReshapeOuter(x: Tensor, outer: seq<nat>): Result<Tensor> {
    if Size(outer) * x.last == Size(x.outer) * x.last then Ok(Reshape(x, outer)) else Error
  }

  function Ones(n: nat): seq<nat> {
    seq(n, _ => 1)
  }

  function ReshapeLora(l: Lora, shape: seq<int>): Result<Lora>
    requires Valid(l)
  {
    match NewOuter(shape, Shape(l))
    case Error => Error
    case Ok(outer) =>
      match (ReshapeOuter(l.a, Ones(|outer| - 1) + [l.b.last]), ReshapeOuter(l.b, outer))
      case (Ok(a), Ok(b)) => MakeLora(a, b)
      case (_, _) => Error
  }

  lemma {:induction false} FlatZeros(shape: seq<nat>)
    requires AllOnes(shape)
    ensures Flat(Zeros(|shape|), shape) == 0 && Unflat(0, shape) == Zeros(|shape|)
    decreases |shape|
  {
    if shape != [] {
      var n := |shape| - 1;
      FlatZeros(shape[..n]);
      assert Zeros(n + 1)[..n] == Zeros(n) && Zeros(n) + [0] == Zeros(n + 1);
    }
  }

  // Reshaping unit dimensions around the rows leaves the rows as they were.
  lemma ReshapedRows(a: Tensor, n: nat, rank: nat)
    requires a.outer != [] && AllOnes(a.outer[..|a.outer| - 1]) && a.outer[|a.outer| - 1] == rank
    ensures SameRows(Reshape(a, Ones(n) + [rank]), a, All(a.last), rank)
  {
    hide Flat, Unflat, AllOnes;
    var outer := Ones(n) + [rank];
    forall t: nat | t < rank
      ensures Unflat(Flat(Zeros(n) + [t], outer), a.outer) == Zeros(|a.outer| - 1) + [t]
    {
      FlatRow(n, rank, t);
      UnflatRow(a.outer, t);
    }
  }

  lemma FlatRow(n: nat, rank: nat, t: nat)
    requires t < rank
    ensures Flat(Zeros(n) + [t], Ones(n) + [rank]) == t
  {
    FlatZeros(Ones(n));
    assert (Zeros(n) + [t])[..n] == Zeros(n) && (Ones(n) + [rank])[..n] == Ones(n);
    assert 0 * rank == 0;
  }

  lemma UnflatRow(shape: seq<nat>, t: nat)
    requires shape != [] && AllOnes(shape[..|shape| - 1]) && t < shape[|shape| - 1]
    ensures Unflat(t, shape) == Zeros(|shape| - 1) + [t]
  {
    var n := |shape| - 1;
    FlatZeros(shape[..n]);
    SmallQuotient(t, shape[n]);
  }

  lemma SmallQuotient(t: nat, w: nat)
    requires t < w
    ensures Quotient(t, w) == 0 && Remainder(t, w) == t
  {
  }

  // A reshape that keeps the last dimension reshapes the product.
  lemma ReshapeRefines(l: Lora, shape: seq<int>)
    requires UnitLead(l) && l.b.last > 0 && ReshapeLora(l, shape).Ok?
    ensures var l', outer := ReshapeLora(l, shape).value, NewOuter(shape, Shape(l)).value;
            UnitLead(l') && Size(outer) == Size(l.b.outer) && Same(Product(l'), Reshape(Product(l), outer))
  {
    hide NewOuter, Product, Size;
    var outer := NewOuter(shape, Shape(l)).value;
    var l' := ReshapeLora(l, shape).value;
    ReshapedRows(l.a, |outer| - 1, l.b.last);
    CancelSize(Size(outer), Size(l.b.outer), l.b.last);
    ProductShape(l);
    ProductIsReindexed(l, l', outer, ReshapeSource(outer, l.b.outer));
  }

  lemma CancelSize(x: nat, y: nat, r: nat)
    requires r > 0 && x * r == y * r
    ensures x == y
  {
    assert (x - y) * r == 0;
  }

  // ---------- permute and transpose ----------

  // The dimensions counted from the front.
  function FrontDims(dims: seq<int>, ndim: nat): Result<seq<nat>> {
    if |dims| == ndim && forall i :: 0 <= i < ndim ==> 0 - ndim <= dims[i] < ndim
    then Ok(seq(ndim, i requires 0 <= i < ndim => Natural(if dims[i] >= 0 then dims[i] else dims[i] + ndim)))
    else Error
  }

  function PermuteLora(l: Lora, dims: seq<int>): Result<Lora>
    requires Valid(l)
  {
    var ndim := |l.b.outer| + 1;
    match FrontDims(dims, ndim)
    case Error => Error
    case Ok(front) =>
      if front[ndim - 1] == ndim - 1 then
        if UnitLead(l) && IsPermutation(front[..ndim - 1], |l.b.outer|) then
          MakeLora(l.a, Permute(l.b, front[..ndim - 1]))
        else Error
      else if ndim == 2 && front == [1, 0] then MakeLora(Transpose(l.b), Transpose(l.a))
      else Error
  }

  // What permuting means for a dense tensor, for the permutations that are supported.
  function PermuteDense(x: Tensor, front: seq<nat>): Result<Tensor> {
    var n := |x.outer|;
    if |front| != n + 1 then Error
    else if front[n] == n && IsPermutation(front[..n], n) then Ok(Permute(x, front[..n]))
    else if n == 1 && front == [1, 0] then Ok(Transpose(x))
    else Error
  }

  lemma PermuteRefines(l: Lora, dims: seq<int>)
    requires UnitLead(l) && PermuteLora(l, dims).Ok?
    ensures FrontDims(dims, |Shape(l)|).Ok?
    ensures var l', dense := PermuteLora(l, dims).value, PermuteDense(Product(l), FrontDims(dims, |Shape(l)|).value);
            UnitLead(l') && dense.Ok? && Same(Product(l'), dense.value)
  {
    hide Product, IsPermutation;
    var n := |l.b.outer|;
    var front := FrontDims(dims, n + 1).value;
    ProductShape(l);
    if front[n] == n {
      SelfRows(l.a, l.b.last);
      ProductIsReindexed(l, PermuteLora(l, dims).value, PermutedShape(l.b.outer, front[..n]),
                         PermuteSource(front[..n]));
    } else {
      TransposeRefines(l);
    }
  }

  // (B A)^T == A^T B^T.
  lemma TransposeRefines(l: Lora)
    requires UnitLead(l) && |l.b.outer| == 1
    ensures var l' := Lora(Transpose(l.b), Transpose(l.a)); UnitLead(l') && Same(Product(l'), Transpose(Product(l)))
  {
    hide Term, RowOf;
    var l' := Lora(Transpose(l.b), Transpose(l.a));
    forall o, k: nat | Inside(o, [l.a.last]) && k < l.b.outer[0]
      ensures Product(l').at(o, k) == Product(l).at([k], o[0])
    {
      forall t: nat | t < l.b.last
        ensures Term(l', o, k, t) == Term(l, [k], o[0], t)
      {
        TransposedTerm(l, l', o, k, t);
      }
      SumSame(l.b.last, (t: nat) => Term(l', o, k, t), (t: nat) => Term(l, [k], o[0], t));
    }
  }

  lemma TransposedTerm(l: Lora, l': Lora, o: seq<nat>, k: nat, t: nat)
    requires UnitLead(l) && |l.b.outer| == 1 == |o| && l' == Lora(Transpose(l.b), Transpose(l.a))
    ensures Valid(l') && Term(l', o, k, t) == Term(l, [k], o[0], t)
  {
    assert Zeros(0) + [t] == [t];
    assert l.a.outer[..0] == [] && l'.a.outer[..0] == [];
    assert Row([], o, t) == [t] == Row([], [k], t);
    Commute(l.a.at([t], o[0]), l.b.at([k], t));
  }

  lemma Commute(x: real, y: real)
    ensures x * y == y * x
  {
  }

  // transpose(dim0, dim1) permutes the dimensions with two of them exchanged.
  function ExchangedDims(ndim: nat, dim0: int, dim1: int): Result<seq<int>> {
    match (NormIndex(dim0, ndim), NormIndex(dim1, ndim))
    case (Some(i), Some(j)) => Ok(seq(ndim, k requires 0 <= k < ndim => if k == i then j else if k == j then i else k))
    case (_, _) => Error
  }

  // ---------- split ----------

  // The positions of piece `which` of a dimension.
  function PiecePositions(sizes: seq<nat>, which: nat): seq<nat>
    requires which < |sizes|
  {
    var start := Total(sizes[..which]);
    seq(sizes[which], i requires 0 <= i < sizes[which] => start + i)
  }

  function Total(sizes: seq<nat>): nat {
    if sizes == [] then 0 else Total(sizes[..|sizes| - 1]) + sizes[|sizes| - 1]
  }

  lemma {:induction false} PieceBelow(sizes: seq<nat>, which: nat)
    requires which < |sizes|
    ensures Below(PiecePositions(sizes, which), Total(sizes))
    decreases |sizes|
  {
    var n := |sizes| - 1;
    if which < n {
      assert sizes[..n][..which] == sizes[..which];
      PieceBelow(sizes[..n], which);
    }
  }

  // How `split` is told what to do: pieces of one size, with what is left over as the last one, or a list of sizes.
  datatype Pieces = Every(size: nat) | Sizes(sizes: seq<nat>)

  function SizesOf(pieces: Pieces, n: nat): (r: Result<seq<nat>>)
    ensures r.Ok? ==> Total(r.value) == n
  {
    match pieces
    case Sizes(sizes) => if Total(sizes) == n then Ok(sizes) else Error
    case Every(size) => if size > 0 then Ok(EqualSizes(n, size)) else if n == 0 then Ok([0]) else Error
  }

  function EqualSizes(n: nat, size: nat): (r: seq<nat>)
    requires size > 0
    ensures Total(r) == n && r != [] && r[|r| - 1] <= size
    ensures forall i :: 0 <= i < |r| - 1 ==> r[i] == size
    decreases n
  {
    if n <= size then OneTotal(n); [n]
    else
      var rest := EqualSizes(n - size, size);
      TotalCons(size, rest);
      [size] + rest
  }

  lemma OneTotal(n: nat)
    ensures Total([n]) == n
  {
    assert [n][..0] == [];
  }

  lemma {:induction false} TotalCons(first: nat, rest: seq<nat>)
    ensures Total([first] + rest) == first + Total(rest)
    decreases |rest|
  {
    var n := |rest|;
    if n > 0 {
      TotalCons(first, rest[..n - 1]);
      assert ([first] + rest)[..n] == [first] + rest[..n - 1];
    } else {
      OneTotal(first);
      assert [first] + rest == [first];
    }
  }

  // Everything along all dimensions but `dim`.
  function AlongOnly(shape: seq<nat>, dim: nat, ps: seq<nat>): (sels: seq<Sel>)
    requires dim < |shape|
    ensures Below(ps, shape[dim]) ==> Selects(sels, shape)
  {
    Full(shape)[dim := Pick(ps)]
  }

  // One of the pieces that a dense tensor splits into.
  function PieceDense(x: Tensor, pieces: Pieces, dim: int, which: nat): Result<Tensor> {
    var ndim := |x.outer| + 1;
    match NormIndex(dim, ndim)
    case None => Error
    case Some(d) =>
      match SizesOf(pieces, (x.outer + [x.last])[d])
      case Error => Error
      case Ok(sizes) =>
        if which >= |sizes| then Error
        else if d == ndim - 1 then Ok(Columns(x, PiecePositions(sizes, which)))
        else Ok(Select(x, AlongOnly(x.outer, d, PiecePositions(sizes, which))))
  }

  // One of the pieces that an adapter splits into.
  function PieceLora(l: Lora, pieces: Pieces, dim: int, which: nat): Result<Lora>
    requires Valid(l)
  {
    var ndim := |l.b.outer| + 1;
    var d := if dim < 0 then dim + ndim else dim;
    if d == ndim - 1 then
      (match PieceDense(l.a, pieces, -1, which) case Error => Error case Ok(a) => MakeLora(a, l.b))
    else if d == ndim - 2 then
      (match PieceDense(l.b, pieces, -2, which) case Error => Error case Ok(b) => MakeLora(l.a, b))
    else
      match PieceDense(l.b, pieces, d, which)
      case Error => Error
      case Ok(b) =>
        if (l.a.outer + [l.a.last])[NormIndex(d, ndim).value] == 1 then MakeLora(l.a, b)
        else
          match PieceDense(l.a, pieces, d, which)
          case Error => Error
          case Ok(a) => MakeLora(a, b)
  }

  lemma {:induction false} AlongShape(shape: seq<nat>, dim: nat, ps: seq<nat>)
    requires dim < |shape|
    ensures PickedShape(AlongOnly(shape, dim, ps)) == shape[dim := |ps|]
    decreases |shape|
  {
    hide PickedShape;
    var n := |shape| - 1;
    PickedShapeLast(AlongOnly(shape, dim, ps));
    if dim < n {
      assert AlongOnly(shape, dim, ps)[..n] == AlongOnly(shape[..n], dim, ps);
      AlongShape(shape[..n], dim, ps);
      assert shape[dim := |ps|] == shape[..n][dim := |ps|] + [shape[n]];
    } else {
      assert AlongOnly(shape, dim, ps)[..n] == Full(shape[..n]);
      FullShape(shape[..n]);
      assert shape[dim := |ps|] == shape[..n] + [|ps|];
    }
  }

  lemma PickedShapeLast(sels: seq<Sel>)
    requires sels != [] && sels[|sels| - 1].Pick?
    ensures PickedShape(sels) == PickedShape(sels[..|sels| - 1]) + [|sels[|sels| - 1].ps|]
  {
  }

  // A piece of the adapter is the piece of the product.
  lemma PieceRefines(l: Lora, pieces: Pieces, dim: int, which: nat)
    requires UnitLead(l) && PieceLora(l, pieces, dim, which).Ok? && 0 - |Shape(l)| <= dim < |Shape(l)|
    ensures var l', dense := PieceLora(l, pieces, dim, which).value, PieceDense(Product(l), pieces, dim, which);
            UnitLead(l') && dense.Ok? && Same(Product(l'), dense.value)
  {
    hide Product, PiecePositions, AlongOnly, SizesOf;
    var n := |l.b.outer|;
    ProductShape(l);
    var d := if dim < 0 then dim + (n + 1) else dim;
    var sizes := SizesOf(pieces, Shape(l)[d]).value;
    if d == n {
      ColumnPiece(l, PiecePositions(sizes, which));
    } else {
      LeadIsUnit(l, d);
      OuterPiece(l, d, PiecePositions(sizes, which));
    }
  }

  lemma LeadIsUnit(l: Lora, d: int)
    requires UnitLead(l)
    ensures 0 <= d < |l.a.outer| - 1 ==> l.a.outer[d] == 1
  {
    if 0 <= d < |l.a.outer| - 1 {
      assert l.a.outer[..|l.a.outer| - 1][d] == 1;
    }
  }

  lemma OuterPiece(l: Lora, d: nat, ps: seq<nat>)
    requires UnitLead(l) && d < |l.b.outer|
    ensures var l' := Lora(l.a, Select(l.b, AlongOnly(l.b.outer, d, ps)));
            UnitLead(l') && Same(Product(l'), Select(Product(l), AlongOnly(l.b.outer, d, ps)))
  {
    hide Product, AlongOnly;
    var sels := AlongOnly(l.b.outer, d, ps);
    AlongShape(l.b.outer, d, ps);
    SelfRows(l.a, l.b.last);
    ProductIsReindexed(l, Lora(l.a, Select(l.b, sels)), PickedShape(sels), PickSource(sels));
  }

  lemma ColumnPiece(l: Lora, ps: seq<nat>)
    requires UnitLead(l)
    ensures var l' := Lora(Columns(l.a, ps), l.b); UnitLead(l') && Same(Product(l'), Columns(Product(l), ps))
  {
    hide Term;
    var l' := Lora(Columns(l.a, ps), l.b);
    forall o, k: nat | Inside(o, l.b.outer) && k < |ps|
      ensures Product(l').at(o, k) == Product(l).at(o, ps[k])
    {
      forall t: nat | t < l.b.last
        ensures Term(l', o, k, t) == Term(l, o, ps[k], t)
      {
        ColumnTerm(l, l', ps, o, k, t);
      }
      SumSame(l.b.last, (t: nat) => Term(l', o, k, t), (t: nat) => Term(l, o, ps[k], t));
    }
  }

  lemma ColumnTerm(l: Lora, l': Lora, ps: seq<nat>, o: seq<nat>, k: nat, t: nat)
    requires Valid(l) && l' == Lora(Columns(l.a, ps), l.b) && k < |ps|
    ensures Term(l', o, k, t) == Term(l, o, ps[k], t)
  {
  }

  // ---------- Multiplication on the output side ----------

  function ScaleLora(l: Lora, factor: Tensor): Result<Lora>
    requires Valid(l)
  {
    if Broadcasts(factor, l.b.outer) then MakeLora(l.a, Scale(l.b, factor)) else Error
  }

  // (M B) A == M (B A).
  lemma ScaleRefines(l: Lora, factor: Tensor)
    requires UnitLead(l) && ScaleLora(l, factor).Ok?
    ensures Broadcasts(factor, Product(l).outer) && UnitLead(ScaleLora(l, factor).value)
    ensures Same(Product(ScaleLora(l, factor).value), Scale(Product(l), factor))
  {
    hide Term, FactorAt, Clamped, BroadcastShape, Broadcasts;
    var l' := ScaleLora(l, factor).value;
    forall o, k: nat | Inside(o, l'.b.outer) && k < l.a.last
      ensures Product(l').at(o, k) == FactorAt(factor, o) * Product(l).at(Clamped(l.b.outer, o), k)
    {
      var o' := Clamped(l.b.outer, o);
      forall t: nat | t < l.b.last
        ensures Term(l', o, k, t) == FactorAt(factor, o) * Term(l, o', k, t)
      {
        TermUnit(l', o, k, t);
        TermUnit(l, o', k, t);
        Regroup(FactorAt(factor, o), l.b.at(o', t), RowOf(l.a, t, k));
      }
      SumScaled(l.b.last, FactorAt(factor, o), (t: nat) => Term(l, o', k, t), (t: nat) => Term(l', o, k, t));
    }
  }

  lemma Regroup(f: real, x: real, y: real)
    ensures (f * x) * y == f * (x * y)
  {
  }
}
