/** Any combination of supported operations on adapters, joining and stacking them included, means the same
    combination on their products (convert_lora_to_gguf.py:58-259). */
module LoraRuns {
  import opened Outcomes
  import opened Tensors
  import opened LoraProduct
  import opened LoraIndexing
  import opened LoraShapes
  import opened LoraJoining

  // ---------- One operation ----------

  datatype Op =
    | Item(j: int)
    | Sliced(s: Slice)
    | Tuple(inds: seq<Index>)
    | NewShape(shape: seq<int>)
    | Permuted(dims: seq<int>)
    | Exchanged(dim0: int, dim1: int)
    | Piece(pieces: Pieces, dim: int, which: nat)
    | Scaled(factor: Tensor)

  function ApplyLora(l: Lora, op: Op): Result<Lora>
    requires Valid(l)
  {
    match op
    case Item(j) => GetItem(l, j)
    case Sliced(s) => GetSlice(l, s)
    case Tuple(inds) => GetTuple(l, inds)
    case NewShape(shape) => ReshapeLora(l, shape)
    case Permuted(dims) => PermuteLora(l, dims)
    case Exchanged(i, j) =>
      (match ExchangedDims(|Shape(l)|, i, j) case Error => Error case Ok(dims) => PermuteLora(l, dims))
    case Piece(pieces, dim, which) => PieceLora(l, pieces, dim, which)
    case Scaled(factor) => ScaleLora(l, factor)
  }

  // The same operations on a dense tensor.
  function ApplyDense(x: Tensor, op: Op): Result<Tensor>
    requires x.outer != []
  {
    var ndim := |x.outer| + 1;
    match op
    case Item(j) =>
      if ndim == 2 then Error
      else (match NormIndex(j, x.outer[0]) case None => Error case Some(p) => Ok(Select(x, FirstOnly(x.outer, At(p)))))
    case Sliced(s) =>
      if s.step == 0 then Error else Ok(Select(x, FirstOnly(x.outer, Pick(Positions(s, x.outer[0])))))
    case Tuple(inds) =>
      (match Meaning(inds, ndim) case Error => Error case Ok(all) => IndexDense(x, all))
    case NewShape(shape) =>
      (match NewOuter(shape, x.outer + [x.last]) case Error => Error
       case Ok(outer) => if Size(outer) == Size(x.outer) then Ok(Reshape(x, outer)) else Error)
    case Permuted(dims) =>
      (match FrontDims(dims, ndim) case Error => Error case Ok(front) => PermuteDense(x, front))
    case Exchanged(i, j) =>
      (match ExchangedDims(ndim, i, j) case Error => Error case Ok(dims) =>
        match FrontDims(dims, ndim) case Error => Error case Ok(front) => PermuteDense(x, front))
    case Piece(pieces, dim, which) => PieceDense(x, pieces, dim, which)
    case Scaled(factor) => if Broadcasts(factor, x.outer) then Ok(Scale(x, factor)) else Error
  }

  // What the caller has to see to: slices of the first dimension keep the one position of the first
  // factor, tuples are understood and do not end in an integer, and the dimension to split along exists.
  predicate Supported(l: Lora, op: Op)
    requires Valid(l)
  {
    match op
    case Sliced(s) => |l.b.outer| == 1 || KeepsUnit(s)
    case Tuple(inds) =>
      && Understood(inds, |Shape(l)|)
      && (match Meaning(inds, |Shape(l)|) case Error => true case Ok(all) => all == [] || !all[|all| - 1].Int?)
    case Piece(_, dim, _) => 0 - |Shape(l)| <= dim < |Shape(l)|
    case _ => true
  }

  // One operation on the factors means the operation on the product, and keeps unit leading dimensions.
  ghost predicate Refines(l: Lora, op: Op)
    requires Valid(l) && ApplyLora(l, op).Ok?
  {
    var l', dense := ApplyLora(l, op).value, ApplyDense(Product(l), op);
    UnitLead(l') && dense.Ok? && Same(Product(l'), dense.value)
  }

  lemma ItemStep(l: Lora, j: int)
    requires UnitLead(l) && GetItem(l, j).Ok?
    ensures Refines(l, Item(j))
  {
    hide Product, Select, Same;
    ProductShape(l);
    LeadIsUnit(l, 0);
    GetItemExact(l, j);
  }

  lemma SliceStep(l: Lora, s: Slice)
    requires UnitLead(l) && Supported(l, Sliced(s)) && GetSlice(l, s).Ok?
    ensures Refines(l, Sliced(s))
  {
    hide Product, Select, Same, Positions;
    ProductShape(l);
    if |l.b.outer| == 1 {
      GetRowsRefines(l, s);
    } else {
      GetSliceExact(l, s);
      UnitIsCompatible(GetSlice(l, s).value);
    }
  }

  lemma TupleRank(l: Lora, inds: seq<Index>)
    requires UnitLead(l) && Supported(l, Tuple(inds)) && GetTuple(l, inds).Ok?
    ensures GetTuple(l, inds).value.b.last == l.b.last
  {
    hide Product, Select, Same, GetTuple, Understood, Meaning, SelsOf, LeadIndices;
    TupleMeans(l, inds);
    SelectLast(l.b);
  }

  lemma SelectLast(x: Tensor)
    ensures forall sels :: Select(x, sels).last == x.last
  {
  }

  // No supported operation changes the rank.
  lemma RankKept(l: Lora, op: Op)
    requires UnitLead(l) && Supported(l, op) && ApplyLora(l, op).Ok?
    ensures ApplyLora(l, op).value.b.last == l.b.last
  {
    if op.Tuple? {
      TupleRank(l, op.inds);
    } else {
      hide GetTuple, Understood, Meaning, NewOuter, FrontDims, ExchangedDims, Positions, PiecePositions, AlongOnly,
          FirstOnly, Picked, PickedShape, IsPermutation, Size;
    }
  }

  lemma TupleStep(l: Lora, inds: seq<Index>)
    requires UnitLead(l) && l.b.last > 0 && Supported(l, Tuple(inds)) && ApplyLora(l, Tuple(inds)).Ok?
    ensures Refines(l, Tuple(inds))
  {
    hide Product, Select, Same, Positions, Understood, Meaning, GetTuple, IndexDense;
    ProductShape(l);
    GetTupleRefines(l, inds);
  }

  lemma ShapeStep(l: Lora, shape: seq<int>)
    requires UnitLead(l) && l.b.last > 0 && Supported(l, NewShape(shape)) && ApplyLora(l, NewShape(shape)).Ok?
    ensures Refines(l, NewShape(shape))
  {
    hide Product, Select, Same, Positions, NewOuter;
    ProductShape(l);
    ReshapeRefines(l, shape);
  }

  lemma PermuteStep(l: Lora, dims: seq<int>)
    requires UnitLead(l) && l.b.last > 0 && Supported(l, Permuted(dims)) && ApplyLora(l, Permuted(dims)).Ok?
    ensures Refines(l, Permuted(dims))
  {
    hide Product, Select, Same, Positions, FrontDims, PermuteLora, PermuteDense;
    ProductShape(l);
    PermuteRefines(l, dims);
  }

  lemma ExchangeStep(l: Lora, i: int, j: int)
    requires UnitLead(l) && l.b.last > 0 && Supported(l, Exchanged(i, j)) && ApplyLora(l, Exchanged(i, j)).Ok?
    ensures Refines(l, Exchanged(i, j))
  {
    hide Product, Select, Same, Positions, FrontDims, PermuteLora, PermuteDense, ExchangedDims;
    ProductShape(l);
    PermuteRefines(l, ExchangedDims(|Shape(l)|, i, j).value);
  }

  lemma PieceStep(l: Lora, pieces: Pieces, dim: int, which: nat)
    requires UnitLead(l) && l.b.last > 0 && Supported(l, Piece(pieces, dim, which))
    requires ApplyLora(l, Piece(pieces, dim, which)).Ok?
    ensures Refines(l, Piece(pieces, dim, which))
  {
    hide Product, Select, Same, Positions, PieceLora, PieceDense;
    ProductShape(l);
    PieceRefines(l, pieces, dim, which);
  }

  lemma ScaleStep(l: Lora, factor: Tensor)
    requires UnitLead(l) && l.b.last > 0 && Supported(l, Scaled(factor)) && ApplyLora(l, Scaled(factor)).Ok?
    ensures Refines(l, Scaled(factor))
  {
    hide Product, Select, Same, Positions, Scale;
    ProductShape(l);
    ScaleRefines(l, factor);
  }

  lemma StepRefines(l: Lora, op: Op)
    requires UnitLead(l) && l.b.last > 0 && Supported(l, op) && ApplyLora(l, op).Ok?
    ensures Refines(l, op) && ApplyLora(l, op).value.b.last == l.b.last
  {
    RankKept(l, op);
    hide Product, UnitLead, Supported, ApplyLora, Refines;
    match op
    case Item(j) => ItemStep(l, j);
    case Sliced(s) => SliceStep(l, s);
    case Tuple(inds) => TupleStep(l, inds);
    case NewShape(shape) => ShapeStep(l, shape);
    case Permuted(dims) => PermuteStep(l, dims);
    case Exchanged(i, j) => ExchangeStep(l, i, j);
    case Piece(pieces, dim, which) => PieceStep(l, pieces, dim, which);
    case Scaled(factor) => ScaleStep(l, factor);
  }

  lemma AppliedValid(l: Lora, op: Op)
    requires Valid(l)
    ensures ApplyLora(l, op).Ok? ==> Valid(ApplyLora(l, op).value)
  {
    if op.Tuple? {
      TupleValid(l, op.inds);
    }
  }

  lemma {:induction false} TupleValid(l: Lora, inds: seq<Index>)
    requires Valid(l)
    ensures GetTuple(l, inds).Ok? ==> Valid(GetTuple(l, inds).value)
    decreases |inds|
  {
    if inds != [] && inds[|inds| - 1] == Ellipsis {
      TupleValid(l, inds[..|inds| - 1]);
    }
  }

  // Equal tensors stay equal.
  lemma DenseSame(x: Tensor, y: Tensor, op: Op)
    requires Same(x, y) && x.outer != [] && ApplyDense(x, op).Ok?
    ensures ApplyDense(y, op).Ok? && Same(ApplyDense(x, op).value, ApplyDense(y, op).value)
  {
    match op
    case Item(j) =>
      SelectSame(x, y, FirstOnly(x.outer, At(NormIndex(j, x.outer[0]).value)));
    case Sliced(s) =>
      SelectSame(x, y, FirstOnly(x.outer, Pick(Positions(s, x.outer[0]))));
    case Tuple(inds) =>
      IndexSame(x, y, Meaning(inds, |x.outer| + 1).value);
    case NewShape(shape) =>
      var outer := NewOuter(shape, x.outer + [x.last]).value;
      ReshapeWithin(outer, x.outer);
      ViewSame(x, y, outer, ReshapeSource(outer, x.outer));
    case Permuted(dims) =>
      PermuteSame(x, y, FrontDims(dims, |x.outer| + 1).value);
    case Exchanged(i, j) =>
      PermuteSame(x, y, FrontDims(ExchangedDims(|x.outer| + 1, i, j).value, |x.outer| + 1).value);
    case Piece(pieces, dim, which) =>
      PieceSame(x, y, pieces, dim, which);
    case Scaled(factor) =>
      ScaleSame(x, y, factor);
  }

  lemma SelectSame(x: Tensor, y: Tensor, sels: seq<Sel>)
    requires Same(x, y) && Selects(sels, x.outer)
    ensures Same(Select(x, sels), Select(y, sels))
  {
    SelectWithin(sels, x.outer);
    ViewSame(x, y, PickedShape(sels), PickSource(sels));
  }

  lemma IndexSame(x: Tensor, y: Tensor, inds: seq<Index>)
    requires Same(x, y) && IndexDense(x, inds).Ok?
    ensures IndexDense(y, inds).Ok? && Same(IndexDense(x, inds).value, IndexDense(y, inds).value)
  {
    hide Select, Positions;
    var sels := SelsOf(inds[..|inds| - 1], x.outer).value;
    SelectSame(x, y, sels);
    SelectLast(x);
    ColumnsSame(Select(x, sels), Select(y, sels), Positions(inds[|inds| - 1].s, x.last));
  }

  lemma PermuteSame(x: Tensor, y: Tensor, front: seq<nat>)
    requires Same(x, y) && PermuteDense(x, front).Ok?
    ensures PermuteDense(y, front).Ok? && Same(PermuteDense(x, front).value, PermuteDense(y, front).value)
  {
    var n := |x.outer|;
    if front[n] == n {
      PermuteWithin(x.outer, front[..n]);
      ViewSame(x, y, PermutedShape(x.outer, front[..n]), PermuteSource(front[..n]));
    } else {
      TransposeSame(x, y);
    }
  }

  lemma PieceSame(x: Tensor, y: Tensor, pieces: Pieces, dim: int, which: nat)
    requires Same(x, y) && PieceDense(x, pieces, dim, which).Ok?
    ensures PieceDense(y, pieces, dim, which).Ok?
    ensures Same(PieceDense(x, pieces, dim, which).value, PieceDense(y, pieces, dim, which).value)
  {
    hide PiecePositions, Select;
    var d := NormIndex(dim, |x.outer| + 1).value;
    var sizes := SizesOf(pieces, (x.outer + [x.last])[d]).value;
    PieceBelow(sizes, which);
    if d == |x.outer| {
      ColumnsSame(x, y, PiecePositions(sizes, which));
    } else {
      SelectSame(x, y, AlongOnly(x.outer, d, PiecePositions(sizes, which)));
    }
  }

  // ---------- Combinations of operations ----------

  // How a tensor comes about: adapters, operations on one of them, and torch.cat and torch.stack of several.
  datatype Tree = Leaf(adapter: Lora) | Applied(op: Op, of: Tree) | Joined(parts: seq<Tree>) | Stacked(parts: seq<Tree>)

  ghost function RunLora(t: Tree): (r: Result<Lora>)
    ensures r.Ok? ==> Valid(r.value)
    decreases t
  {
    hide ApplyLora, JoinLora, StackLora;
    match t
    case Leaf(l) => MakeLora(l.a, l.b)
    case Applied(op, of) =>
      (match RunLora(of) case Error => Error case Ok(m) => AppliedValid(m, op); ApplyLora(m, op))
    case Joined(parts) =>
      (match RunAll(parts) case Error => Error case Ok(ls) => JoinLora(ls))
    case Stacked(parts) =>
      match RunAll(parts) case Error => Error case Ok(ls) => StackedValid(ls); StackLora(ls)
  }

  ghost function RunAll(parts: seq<Tree>): (r: Result<seq<Lora>>)
    ensures r.Ok? ==> |r.value| == |parts| && AllValid(r.value)
    decreases parts
  {
    if parts == [] then Ok([])
    else
      match (RunLora(parts[0]), RunAll(parts[1..]))
      case (Ok(l), Ok(ls)) => Ok([l] + ls)
      case (_, _) => Error
  }

  lemma StackedValid(ls: seq<Lora>)
    ensures StackLora(ls).Ok? ==> Valid(StackLora(ls).value)
  {
  }

  // The same on the products.
  function RunDense(t: Tree): Result<Tensor>
    decreases t
  {
    hide ApplyDense, Product;
    match t
    case Leaf(l) => if Valid(l) then Ok(Product(l)) else Error
    case Applied(op, of) =>
      (match RunDense(of) case Error => Error case Ok(x) => if x.outer == [] then Error else ApplyDense(x, op))
    case Joined(parts) =>
      (match RunAllDense(parts) case Error => Error case Ok(xs) => JoinDense(xs))
    case Stacked(parts) =>
      match RunAllDense(parts) case Error => Error case Ok(xs) => StackDense(xs)
  }

  function RunAllDense(parts: seq<Tree>): (r: Result<seq<Tensor>>)
    ensures r.Ok? ==> |r.value| == |parts|
    decreases parts
  {
    if parts == [] then Ok([])
    else
      match (RunDense(parts[0]), RunAllDense(parts[1..]))
      case (Ok(x), Ok(xs)) => Ok([x] + xs)
      case (_, _) => Error
  }

  // What a caller has to see to: adapters have a positive rank, and what is operated on or put together has unit
  // leading dimensions in A; operations are supported, and joined adapters with leading dimensions have a single
  // entry along the first one.
  ghost predicate SupportedRun(t: Tree)
    decreases t
  {
    match t
    case Leaf(l) => UnitLead(l) && l.b.last > 0
    case Applied(op, of) =>
      SupportedRun(of) && (RunLora(of).Ok? ==> UnitLead(RunLora(of).value) && Supported(RunLora(of).value, op))
    case Joined(parts) =>
      SupportedAll(parts) && (RunAll(parts).Ok? ==> AllUnitLead(RunAll(parts).value) && Fitting(RunAll(parts).value))
    case Stacked(parts) => SupportedAll(parts) && (RunAll(parts).Ok? ==> AllUnitLead(RunAll(parts).value))
  }

  ghost predicate SupportedAll(parts: seq<Tree>)
    decreases parts
  {
    parts == [] || (SupportedRun(parts[0]) && SupportedAll(parts[1..]))
  }

  predicate AllUnitLead(ls: seq<Lora>) {
    forall i :: 0 <= i < |ls| ==> UnitLead(ls[i])
  }

  predicate Fitting(ls: seq<Lora>)
    requires AllValid(ls)
  {
    |ls| > 1 && |ls[0].b.outer| > 1 ==> Singles(ls)
  }

  // An adapter whose product is the tensor, with its shape.
  ghost predicate Stands(l: Lora, x: Tensor) {
    Compatible(l) && l.b.last > 0 && Same(Product(l), x) && Shape(l) == x.outer + [x.last]
  }

  ghost predicate StandsAll(ls: seq<Lora>, xs: seq<Tensor>) {
    |ls| == |xs| && forall i :: 0 <= i < |ls| ==> Stands(ls[i], xs[i])
  }

  // Only stacking, and joining several adapters along a leading dimension, give A a leading dimension over 1.
  ghost predicate StaysUnit(t: Tree) {
    match t
    case Leaf(_) => true
    case Applied(_, _) => true
    case Joined(parts) =>
      RunAll(parts).Ok? && RunAll(parts).value != [] && (|parts| == 1 || |RunAll(parts).value[0].b.outer| == 1)
    case Stacked(_) => false
  }

  lemma LeafRefines(l: Lora)
    requires UnitLead(l) && l.b.last > 0
    ensures Stands(l, Product(l))
  {
    SameReflexive(Product(l));
    ProductShape(l);
    UnitIsCompatible(l);
  }

  lemma AppliedRefines(l: Lora, x: Tensor, op: Op)
    requires UnitLead(l) && Stands(l, x) && Supported(l, op) && ApplyLora(l, op).Ok?
    ensures x.outer != [] && ApplyDense(x, op).Ok?
    ensures UnitLead(ApplyLora(l, op).value) && Stands(ApplyLora(l, op).value, ApplyDense(x, op).value)
  {
    hide Product, ApplyLora, ApplyDense, Supported, Same;
    StepRefines(l, op);
    var l' := ApplyLora(l, op).value;
    NonEmptyOuter(l, x);
    DenseSame(Product(l), x, op);
    SameTransitive(Product(l'), ApplyDense(Product(l), op).value, ApplyDense(x, op).value);
    SameShape(l', ApplyDense(x, op).value);
    UnitIsCompatible(l');
  }

  lemma JoinedRefines(ls: seq<Lora>, xs: seq<Tensor>)
    requires AllValid(ls) && AllUnitLead(ls) && Fitting(ls) && StandsAll(ls, xs) && JoinLora(ls).Ok?
    ensures JoinDense(xs).Ok? && Stands(JoinLora(ls).value, JoinDense(xs).value)
    ensures |ls| == 1 || |ls[0].b.outer| == 1 ==> UnitLead(JoinLora(ls).value)
  {
    hide Product, Same, Cat, Total;
    var l := JoinLora(ls).value;
    StandSame(ls, xs);
    if |ls[0].b.outer| == 1 {
      CatRefines(ls);
      UnitIsCompatible(l);
    } else {
      assert LeadJoinable(ls);
      CatLeadExact(ls);
      LeadCompatible(ls);
      if |ls| == 1 {
        AloneJoined(ls);
      } else {
        SinglesFit(ls);
      }
    }
    JoinSame(Products(ls), xs);
    SameTransitive(Product(l), Cat(Products(ls)), Cat(xs));
    SameShape(l, Cat(xs));
    JoinedRank(ls);
  }

  lemma SinglesFit(ls: seq<Lora>)
    requires LeadJoinable(ls) && Singles(ls)
    ensures Total(FirstDims(Seconds(ls))) == |ls|
  {
    OnesTotal(FirstDims(Seconds(ls)));
  }

  lemma StandSame(ls: seq<Lora>, xs: seq<Tensor>)
    requires AllValid(ls) && StandsAll(ls, xs)
    ensures forall i :: 0 <= i < |ls| ==> Same(Products(ls)[i], xs[i])
  {
    hide Product, Same;
    forall i | 0 <= i < |ls|
      ensures Same(Products(ls)[i], xs[i])
    {
      assert Stands(ls[i], xs[i]);
    }
  }

  lemma JoinedRank(ls: seq<Lora>)
    requires AllValid(ls) && JoinLora(ls).Ok?
    ensures ls != [] && JoinLora(ls).value.b.last == ls[0].b.last
  {
    hide Same, Total;
  }

  lemma StackedRefines(ls: seq<Lora>, xs: seq<Tensor>)
    requires AllValid(ls) && AllUnitLead(ls) && StandsAll(ls, xs) && StackLora(ls).Ok?
    ensures StackDense(xs).Ok? && Stands(StackLora(ls).value, StackDense(xs).value)
  {
    hide Product, Same, Stack;
    var l := StackLora(ls).value;
    StandSame(ls, xs);
    StackRefines(ls);
    StackSame(Products(ls), xs);
    SameTransitive(Product(l), Stack(Products(ls)), Stack(xs));
    SameShape(l, Stack(xs));
    StackedRank(ls);
  }

  lemma StackedRank(ls: seq<Lora>)
    requires StackLora(ls).Ok?
    ensures ls != [] && StackLora(ls).value.b.last == ls[0].b.last
  {
  }

  // Whatever is done with adapters, within those conditions, the result stands for what the same operations make
  // of the products, and it reports the shape of that.
  lemma {:induction false} RunRefines(t: Tree)
    requires SupportedRun(t) && RunLora(t).Ok?
    ensures RunDense(t).Ok? && Stands(RunLora(t).value, RunDense(t).value)
    ensures StaysUnit(t) ==> UnitLead(RunLora(t).value)
    decreases t
  {
    hide Product, ApplyLora, ApplyDense, Supported, Stands, JoinLora, JoinDense, StackLora, StackDense, UnitLead;
    match t
    case Leaf(l) => LeafRefines(l);
    case Applied(op, of) =>
      RunRefines(of);
      AppliedRefines(RunLora(of).value, RunDense(of).value, op);
    case Joined(parts) =>
      AllRefine(parts);
      JoinedRefines(RunAll(parts).value, RunAllDense(parts).value);
    case Stacked(parts) =>
      AllRefine(parts);
      StackedRefines(RunAll(parts).value, RunAllDense(parts).value);
  }

  lemma {:induction false} AllRefine(parts: seq<Tree>)
    requires SupportedAll(parts) && RunAll(parts).Ok?
    ensures RunAllDense(parts).Ok? && StandsAll(RunAll(parts).value, RunAllDense(parts).value)
    decreases parts
  {
    hide Stands, RunLora, RunDense, SupportedRun;
    if parts != [] {
      RunRefines(parts[0]);
      AllRefine(parts[1..]);
    }
  }

  lemma SameReflexive(x: Tensor)
    ensures Same(x, x)
  {
  }

  lemma NonEmptyOuter(l: Lora, x: Tensor)
    requires Valid(l) && Same(Product(l), x)
    ensures Product(l).outer == x.outer != []
  {
  }

  lemma SameShape(l: Lora, x: Tensor)
    requires Valid(l) && Same(Product(l), x)
    ensures Shape(l) == x.outer + [x.last]
  {
  }
}
