/** Indexing an adapter (convert_lora_to_gguf.py:58-114): tuples with and without an ellipsis, integers and
    slices, each with the exact condition under which indexing the factors is indexing the product. */
module LoraIndexing {
  import opened Outcomes
  import opened Wrappers
  import opened Tensors
  import opened LoraProduct

  // ---------- Python indices ----------

  datatype Slice = Slice(start: Option<int>, stop: Option<int>, step: nat)

  datatype Index = Int(j: int) | Range(s: Slice) | Ellipsis

  const ALL := Range(Slice(None, None, 1))

  // A bound of a slice over `n` positions: negative bounds count from the end, and all are clipped.
  function Bound(b: Option<int>, n: nat, absent: nat): (r: nat)
    requires absent <= n
    ensures r <= n
  {
    match b
    case None => absent
    case Some(v) => if v < 0 then (if v + n < 0 then 0 else v + n) else if v > n then n else v
  }

  function Steps(start: nat, stop: nat, step: nat): (ps: seq<nat>)
    requires step > 0
    ensures Below(ps, stop)
    decreases stop - start
  {
    if start >= stop then [] else [start] + Steps(start + step, stop, step)
  }

  // The positions that a slice keeps; torch wants a positive step.
  function Positions(s: Slice, n: nat): (ps: seq<nat>)
    requires s.step > 0
    ensures Below(ps, n)
  {
    Steps(Bound(s.start, n, 0), Bound(s.stop, n, n), s.step)
  }

  function All(n: nat): (ps: seq<nat>)
    ensures |ps| == n && Below(ps, n)
  {
    seq(n, i requires 0 <= i < n => i)
  }

  function NormIndex(j: int, n: nat): Option<nat> {
    if 0 <= j < n then Some(j) else if 0 - n <= j < 0 then Some(j + n) else None
  }

  // The selection that an index makes over `n` positions, or torch's error.
  function SelOf(i: Index, n: nat): Result<Sel> {
    match i
    case Int(j) => (match NormIndex(j, n) case None => Error case Some(p) => Ok(At(p)))
    case Range(s) => if s.step > 0 then Ok(Pick(Positions(s, n))) else Error
    case Ellipsis => Error
  }

  function SelsOf(inds: seq<Index>, shape: seq<nat>): (r: Result<seq<Sel>>)
    ensures r.Ok? ==> Selects(r.value, shape)
  {
    if |inds| != |shape| then Error
    else if inds == [] then Ok([])
    else
      var n := |inds| - 1;
      match SelsOf(inds[..n], shape[..n])
      case Error => Error
      case Ok(init) =>
        match SelOf(inds[n], shape[n])
        case Error => Error
        case Ok(s) => Ok(init + [s])
  }

  // Indexing a dense tensor with one index for each dimension; the last one is a slice, as a vector is
  // not a tensor here.
  function IndexDense(x: Tensor, inds: seq<Index>): Result<Tensor> {
    if |inds| != |x.outer| + 1 || !inds[|inds| - 1].Range? || inds[|inds| - 1].s.step == 0 then Error
    else
      match SelsOf(inds[..|inds| - 1], x.outer)
      case Error => Error
      case Ok(sels) => Ok(Columns(Select(x, sels), Positions(inds[|inds| - 1].s, x.last)))
  }

  // ---------- __getitem__ with a tuple ----------

  function Repeat(i: Index, n: nat): (r: seq<Index>)
    ensures |r| == n
  {
    seq(n, _ => i)
  }

  // Every ellipsis becomes as many full slices as `n`.
  function Expand(inds: seq<Index>, n: nat): seq<Index> {
    if inds == [] then []
    else (if inds[0] == Ellipsis then Repeat(ALL, n) else [inds[0]]) + Expand(inds[1..], n)
  }

  function Padded(inds: seq<Index>, n: nat): seq<Index> {
    if |inds| < n then inds + Repeat(ALL, n - |inds|) else inds
  }

  // The code's way to one index for each dimension.
  function Expanded(inds: seq<Index>, ndim: nat): seq<Index>
    requires inds != []
  {
    Padded(Expand(inds, |inds| - 1), ndim)
  }

  // The dimensions that `pre` and `post` leave are kept whole.
  function Whole(pre: seq<Index>, post: seq<Index>, ndim: nat): seq<Index>
    requires |pre| + |post| <= ndim
  {
    pre + Repeat(ALL, ndim - |pre| - |post|) + post
  }

  // The first factor is indexed by integers taken modulo its dimension, and by full slices otherwise.
  function LeadIndices(inds: seq<Index>, lead: seq<nat>): Result<seq<Sel>>
    requires |inds| == |lead|
  {
    if inds == [] then Ok([])
    else
      var n := |inds| - 1;
      match LeadIndices(inds[..n], lead[..n])
      case Error => Error
      case Ok(init) =>
        if inds[n].Int? then (if lead[n] == 0 then Error else Ok(init + [At(Modulo(inds[n].j, lead[n]))]))
        else Ok(init + [Pick(All(lead[n]))])
  }

  function Modulo(j: int, n: nat): (r: nat)
    requires n > 0
    ensures r < n
  {
    ModuloBound(j, n);
    j % n
  }

  lemma ModuloBound(j: int, n: nat)
    requires n > 0
    ensures 0 <= j % n < n
  {
  }

  // With integers for both of the last dimensions, each factor loses one, and the rank becomes the last
  // dimension of both.
  function IndexTwoIntegers(l: Lora, inds: seq<Index>): Result<Lora>
    requires Valid(l) && |inds| == |l.b.outer| + 1
    requires var n := |l.b.outer|; inds[n].Int? && inds[n - 1].Int?
  {
    var n := |l.b.outer|;
    match LeadIndices(inds[..n - 1], l.a.outer[..n - 1])
    case Error => Error
    case Ok(lead) =>
      match NormIndex(inds[n].j, l.a.last)
      case None => Error
      case Some(k) =>
        match SelsOf(inds[..n], l.b.outer)
        case Error => Error
        case Ok(sels) =>
          MakeLora(Tensor(PickedShape(lead), l.b.last, (o: seq<nat>, t: nat) => l.a.at(Picked(lead, o) + [t], k)),
                   Select(l.b, sels))
  }

  // Indexing both factors with one index for each dimension.
  function IndexFactors(l: Lora, inds: seq<Index>): Result<Lora>
    requires Valid(l)
  {
    var n := |l.b.outer|;
    if |inds| != n + 1 || inds[n].Ellipsis? || inds[n - 1].Ellipsis? then Error
    else if inds[n].Int? && inds[n - 1].Int? then IndexTwoIntegers(l, inds)
    else if inds[n].Int? || inds[n - 1].Int? then Error
    else if inds[n].s.step == 0 then Error
    else
      match LeadIndices(inds[..n - 1], l.a.outer[..n - 1])
      case Error => Error
      case Ok(lead) =>
        match SelsOf(inds[..n], l.b.outer)
        case Error => Error
        case Ok(sels) =>
          MakeLora(Columns(Select(l.a, lead + [Pick(All(l.a.outer[n - 1]))]), Positions(inds[n].s, l.a.last)),
                   Select(l.b, sels))
  }

  function GetTuple(l: Lora, inds: seq<Index>): Result<Lora>
    requires Valid(l)
  {
    if inds == [] then Error
    else if inds[|inds| - 1] == Ellipsis then GetTuple(l, inds[..|inds| - 1])
    else IndexFactors(l, Expanded(inds, |l.b.outer| + 1))
  }

  // ---------- Unit leading dimensions ----------

  // Selections over unit dimensions.
  ghost predicate UnitSels(sels: seq<Sel>) {
    forall i :: 0 <= i < |sels| ==> sels[i] == At(0) || sels[i] == Pick([0])
  }

  lemma {:induction false} LeadUnitSels(inds: seq<Index>, lead: seq<nat>)
    requires |inds| == |lead| && AllOnes(lead)
    ensures LeadIndices(inds, lead).Ok? && |LeadIndices(inds, lead).value| == |lead|
    ensures UnitSels(LeadIndices(inds, lead).value)
    decreases |inds|
  {
    if inds != [] {
      LeadUnitSels(inds[..|inds| - 1], lead[..|inds| - 1]);
      assert All(1) == [0];
    }
  }

  lemma {:induction false} UnitPicked(sels: seq<Sel>)
    requires UnitSels(sels)
    ensures AllOnes(PickedShape(sels)) && Picked(sels, Zeros(|PickedShape(sels)|)) == Zeros(|sels|)
    decreases |sels|
  {
    if sels != [] {
      var n := |sels| - 1;
      UnitPicked(sels[..n]);
      var m := |PickedShape(sels[..n])|;
      assert Zeros(m + 1)[..m] == Zeros(m);
      assert Zeros(n) + [0] == Zeros(n + 1);
    }
  }

  // Selecting over unit dimensions and choosing columns leaves the rows as they were.
  lemma UnitSelection(a: Tensor, lead: seq<Sel>, ps: seq<nat>)
    requires a.outer != [] && UnitSels(lead) && |lead| == |a.outer| - 1
    ensures var r := a.outer[|a.outer| - 1]; var a' := Columns(Select(a, lead + [Pick(All(r))]), ps);
            && a'.outer == PickedShape(lead) + [r] && AllOnes(PickedShape(lead)) && SameRows(a', a, ps, r)
  {
    hide PickedShape, Picked;
    var r := a.outer[|a.outer| - 1];
    var sels := lead + [Pick(All(r))];
    var a' := Columns(Select(a, sels), ps);
    UnitPicked(lead);
    PickedSnoc(lead, All(r));
    var m := |PickedShape(lead)|;
    forall t: nat, k: nat | t < r && k < |ps|
      ensures RowOf(a', t, k) == RowOf(a, t, ps[k])
    {
      PickedSnocAt(lead, All(r), Zeros(m), t);
    }
  }

  lemma PickedSnoc(lead: seq<Sel>, ps: seq<nat>)
    ensures PickedShape(lead + [Pick(ps)]) == PickedShape(lead) + [|ps|]
  {
    assert (lead + [Pick(ps)])[..|lead|] == lead;
  }

  lemma PickedSnocAt(lead: seq<Sel>, ps: seq<nat>, o: seq<nat>, t: nat)
    requires t < |ps|
    ensures Picked(lead + [Pick(ps)], o + [t]) == Picked(lead, o) + [ps[t]]
  {
    assert (lead + [Pick(ps)])[..|lead|] == lead && (o + [t])[..|o|] == o;
  }

  // Indexing the factors is indexing the product.
  lemma IndexFactorsRefines(l: Lora, inds: seq<Index>)
    requires UnitLead(l) && IndexFactors(l, inds).Ok? && !inds[|inds| - 1].Int?
    ensures var l' := IndexFactors(l, inds).value;
            UnitLead(l') && IndexDense(Product(l), inds).Ok? && Same(Product(l'), IndexDense(Product(l), inds).value)
  {
    hide SelsOf, LeadIndices, Positions, PickedShape, Picked;
    var n := |l.b.outer|;
    var l' := IndexFactors(l, inds).value;
    var ps := Positions(inds[n].s, l.a.last);
    LeadUnitSels(inds[..n - 1], l.a.outer[..n - 1]);
    UnitSelection(l.a, LeadIndices(inds[..n - 1], l.a.outer[..n - 1]).value, ps);
    var sels := SelsOf(inds[..n], l.b.outer).value;
    ProductReindexed(l, l', PickedShape(sels), PickSource(sels), ps);
  }

  predicate AllIntegers(inds: seq<Index>) {
    forall i :: 0 <= i < |inds| ==> inds[i].Int?
  }

  lemma LeadStep(inds: seq<Index>, lead: seq<nat>)
    requires inds != [] && |inds| == |lead| && LeadIndices(inds, lead).Ok?
    ensures var n := |inds| - 1; var sels := LeadIndices(inds, lead).value;
            && LeadIndices(inds[..n], lead[..n]) == Ok(sels[..|sels| - 1]) && sels != []
            && (sels[|sels| - 1].At? <==> inds[n].Int?)
  {
    hide All;
  }

  lemma SelsStep(inds: seq<Index>, shape: seq<nat>)
    requires inds != [] && SelsOf(inds, shape).Ok?
    ensures var n := |inds| - 1; var sels := SelsOf(inds, shape).value;
            && |shape| == |inds| && SelsOf(inds[..n], shape[..n]) == Ok(sels[..|sels| - 1]) && sels != []
            && (sels[|sels| - 1].At? <==> inds[n].Int?)
  {
    hide Positions;
  }

  // Both factors keep a leading dimension for each index that is not an integer.
  lemma {:induction false} LeadsKept(inds: seq<Index>, lead: seq<nat>, shape: seq<nat>)
    requires |inds| == |lead| == |shape| && LeadIndices(inds, lead).Ok? && SelsOf(inds, shape).Ok?
    ensures |PickedShape(LeadIndices(inds, lead).value)| == |PickedShape(SelsOf(inds, shape).value)|
    ensures PickedShape(SelsOf(inds, shape).value) == [] <==> AllIntegers(inds)
    decreases |inds|
  {
    hide LeadIndices, SelsOf, PickedShape, AllIntegers;
    if inds == [] {
      NoIndices();
    } else {
      var n := |inds| - 1;
      LeadStep(inds, lead);
      SelsStep(inds, shape);
      LeadsKept(inds[..n], lead[..n], shape[..n]);
      IntegersLast(inds);
      PickedLast(LeadIndices(inds, lead).value);
      PickedLast(SelsOf(inds, shape).value);
    }
  }

  lemma NoIndices()
    ensures LeadIndices([], []) == Ok([]) && SelsOf([], []) == Ok([]) && PickedShape([]) == [] && AllIntegers([])
  {
  }

  lemma IntegersLast(inds: seq<Index>)
    requires inds != []
    ensures AllIntegers(inds) <==> AllIntegers(inds[..|inds| - 1]) && inds[|inds| - 1].Int?
  {
  }

  lemma PickedLast(sels: seq<Sel>)
    requires sels != []
    ensures |PickedShape(sels)| == |PickedShape(sels[..|sels| - 1])| + (if sels[|sels| - 1].At? then 0 else 1)
  {
  }

  // The two indexed factors, and when they make an adapter.
  lemma TwoIntegersMade(l: Lora, inds: seq<Index>)
    requires UnitLead(l) && |inds| == |l.b.outer| + 1 && inds[|inds| - 1].Int? && inds[|inds| - 2].Int?
    ensures var n := |l.b.outer|;
            var lead, sels := LeadIndices(inds[..n - 1], l.a.outer[..n - 1]), SelsOf(inds[..n], l.b.outer);
            && lead.Ok?
            && (IndexFactors(l, inds).Ok? <==>
                  && l.b.last == 1 && sels.Ok? && NormIndex(inds[n].j, l.a.last).Some?
                  && |PickedShape(lead.value)| == |PickedShape(sels.value)| >= 1)
            && (IndexFactors(l, inds).Ok? ==>
                  |Shape(IndexFactors(l, inds).value)| == |PickedShape(sels.value)| + 1)
  {
    hide SelsOf, Picked, LeadIndices, NormIndex, PickedShape;
    var n := |l.b.outer|;
    LeadUnitSels(inds[..n - 1], l.a.outer[..n - 1]);
    UnitPicked(LeadIndices(inds[..n - 1], l.a.outer[..n - 1]).value);
  }

  // Two trailing integers are let through exactly for rank 1, with all indices in range and not only integers in
  // front; and then wrongly: the result has a dimension more than indexing the product leaves, which is one for each
  // index that is not an integer.
  lemma TwoIntegersWrong(l: Lora, inds: seq<Index>)
    requires UnitLead(l) && |inds| == |l.b.outer| + 1 && inds[|inds| - 1].Int? && inds[|inds| - 2].Int?
    ensures var n := |l.b.outer|;
            IndexFactors(l, inds).Ok? <==>
              && l.b.last == 1 && SelsOf(inds[..n], l.b.outer).Ok? && NormIndex(inds[n].j, l.a.last).Some?
              && !AllIntegers(inds[..n - 1])
    ensures IndexFactors(l, inds).Ok? ==>
              |Shape(IndexFactors(l, inds).value)| == |PickedShape(SelsOf(inds[..|inds| - 1], l.b.outer).value)| + 1
  {
    hide SelsOf, Picked, LeadIndices, AllIntegers, NormIndex, PickedShape;
    var n := |l.b.outer|;
    TwoIntegersMade(l, inds);
    hide IndexFactors;
    if SelsOf(inds[..n], l.b.outer).Ok? {
      SelsStep(inds[..n], l.b.outer);
      PickedLast(SelsOf(inds[..n], l.b.outer).value);
      assert inds[..n][..n - 1] == inds[..n - 1];
      LeadsKept(inds[..n - 1], l.a.outer[..n - 1], l.b.outer[..n - 1]);
    }
  }

  // ---------- Ellipsis ----------

  predicate NoEllipsis(inds: seq<Index>) {
    forall i :: 0 <= i < |inds| ==> inds[i] != Ellipsis
  }

  lemma {:induction false} ExpandNone(inds: seq<Index>, n: nat)
    requires NoEllipsis(inds)
    ensures Expand(inds, n) == inds
    decreases |inds|
  {
    if inds != [] {
      ExpandNone(inds[1..], n);
      assert inds == [inds[0]] + inds[1..];
    }
  }

  lemma ExpandCons(i: Index, rest: seq<Index>, n: nat)
    ensures Expand([i] + rest, n) == (if i == Ellipsis then Repeat(ALL, n) else [i]) + Expand(rest, n)
  {
    assert ([i] + rest)[1..] == rest;
  }

  lemma {:induction false} ExpandOne(pre: seq<Index>, post: seq<Index>, n: nat)
    requires NoEllipsis(pre) && NoEllipsis(post)
    ensures Expand(pre + [Ellipsis] + post, n) == pre + Repeat(ALL, n) + post
    decreases |pre|
  {
    hide Expand, Repeat;
    if pre == [] {
      assert pre + [Ellipsis] + post == [Ellipsis] + post && pre + Repeat(ALL, n) + post == Repeat(ALL, n) + post;
      ExpandCons(Ellipsis, post, n);
      ExpandNone(post, n);
    } else {
      var rest := pre[1..] + [Ellipsis] + post;
      assert pre + [Ellipsis] + post == [pre[0]] + rest;
      ExpandCons(pre[0], rest, n);
      ExpandOne(pre[1..], post, n);
      assert [pre[0]] + (pre[1..] + Repeat(ALL, n) + post) == pre + Repeat(ALL, n) + post;
    }
  }

  // An ellipsis stands for the dimensions that no other index takes. The code expands it to as many full
  // slices as there are other indices, and fills up at the end: that comes to the same exactly when the
  // other indices are half of the dimensions, or fewer and all of those behind it full slices.
  lemma EllipsisExact(pre: seq<Index>, post: seq<Index>, ndim: nat)
    requires NoEllipsis(pre) && NoEllipsis(post) && post != [] && |pre| + |post| <= ndim
    ensures Expanded(pre + [Ellipsis] + post, ndim) == Whole(pre, post, ndim) <==> Halved(|pre| + |post|, post, ndim)
  {
    hide Expand, Repeat, NoEllipsis, Padded;
    var e := |pre| + |post|;
    ExpandOne(pre, post, e);
    assert |pre + [Ellipsis] + post| - 1 == e;
    if 2 * e < ndim {
      FewOthers(pre, post, e, ndim);
    } else {
      ManyOthers(pre, post, e, ndim);
    }
  }

  predicate Halved(others: nat, post: seq<Index>, ndim: nat) {
    2 * others == ndim || (2 * others < ndim && post == Repeat(ALL, |post|))
  }

  lemma FewOthers(pre: seq<Index>, post: seq<Index>, e: nat, ndim: nat)
    requires e == |pre| + |post| && 2 * e < ndim
    ensures Padded(pre + Repeat(ALL, e) + post, ndim) == Whole(pre, post, ndim) <==> post == Repeat(ALL, |post|)
  {
    hide Padded, Repeat;
    var k := ndim - 2 * e;
    SplitExpansion(pre, post, e, k);
    SameFront(pre + Repeat(ALL, e), post + Repeat(ALL, k), Repeat(ALL, k) + post);
    CommutesExactly(post, k);
  }

  lemma ManyOthers(pre: seq<Index>, post: seq<Index>, e: nat, ndim: nat)
    requires e == |pre| + |post| <= ndim <= 2 * e
    ensures Padded(pre + Repeat(ALL, e) + post, ndim) == Whole(pre, post, ndim) <==> 2 * e == ndim
  {
    hide Repeat;
    assert |pre + Repeat(ALL, e) + post| == 2 * e && |Whole(pre, post, ndim)| == ndim;
  }

  lemma SplitExpansion(pre: seq<Index>, post: seq<Index>, e: nat, k: nat)
    requires e == |pre| + |post|
    ensures Padded(pre + Repeat(ALL, e) + post, 2 * e + k) == (pre + Repeat(ALL, e)) + (post + Repeat(ALL, k))
    ensures pre + Repeat(ALL, e + k) + post == (pre + Repeat(ALL, e)) + (Repeat(ALL, k) + post)
  {
    assert Repeat(ALL, e + k) == Repeat(ALL, e) + Repeat(ALL, k);
    var x := pre + Repeat(ALL, e) + post;
    if k == 0 {
      assert post + Repeat(ALL, 0) == post;
    } else {
      assert x + Repeat(ALL, k) == (pre + Repeat(ALL, e)) + (post + Repeat(ALL, k));
    }
  }

  lemma SameFront(front: seq<Index>, x: seq<Index>, y: seq<Index>)
    ensures front + x == front + y <==> x == y
  {
    if front + x == front + y {
      assert x == (front + x)[|front|..] == (front + y)[|front|..] == y;
    }
  }

  lemma CommutesExactly(post: seq<Index>, k: nat)
    requires k > 0
    ensures post + Repeat(ALL, k) == Repeat(ALL, k) + post <==> post == Repeat(ALL, |post|)
  {
    if post + Repeat(ALL, k) == Repeat(ALL, k) + post {
      Commutes(post, k);
    }
  }

  lemma Commutes(post: seq<Index>, k: nat)
    requires k > 0 && post + Repeat(ALL, k) == Repeat(ALL, k) + post
    ensures post == Repeat(ALL, |post|)
  {
    forall i | 0 <= i < |post|
      ensures post[i] == ALL
    {
      CommutesAt(post, k, i);
    }
  }

  lemma {:induction false} CommutesAt(post: seq<Index>, k: nat, i: nat)
    requires k > 0 && post + Repeat(ALL, k) == Repeat(ALL, k) + post && i < |post|
    ensures post[i] == ALL
    decreases i
  {
    assert post[i] == (post + Repeat(ALL, k))[i] == (Repeat(ALL, k) + post)[i];
    if i >= k {
      CommutesAt(post, k, i - k);
    }
  }

  // What a tuple of indices means: an ellipsis, or the end, takes the dimensions that are left.
  function Meaning(inds: seq<Index>, ndim: nat): Result<seq<Index>> {
    if NoEllipsis(inds) then (if |inds| <= ndim then Ok(inds + Repeat(ALL, ndim - |inds|)) else Error)
    else
      var p := FirstEllipsis(inds);
      var pre, post := inds[..p], inds[p + 1..];
      if NoEllipsis(post) && |pre| + |post| <= ndim then Ok(Whole(pre, post, ndim)) else Error
  }

  function FirstEllipsis(inds: seq<Index>): (p: nat)
    requires !NoEllipsis(inds)
    ensures p < |inds| && inds[p] == Ellipsis && NoEllipsis(inds[..p])
  {
    if inds[0] == Ellipsis then 0
    else
      assert inds == [inds[0]] + inds[1..];
      var p := FirstEllipsis(inds[1..]);
      assert inds[..p + 1] == [inds[0]] + inds[1..][..p];
      p + 1
  }

  // When the code finds what a tuple means.
  predicate Understood(inds: seq<Index>, ndim: nat) {
    || NoEllipsis(inds)
    || var p := FirstEllipsis(inds);
       var e := |inds| - 1;
       && NoEllipsis(inds[p + 1..])
       && (p == e || Halved(e, inds[p + 1..], ndim))
  }

  // Indexing the factors with a tuple that is understood is indexing the product.
  lemma GetTupleRefines(l: Lora, inds: seq<Index>)
    requires UnitLead(l) && Understood(inds, |Shape(l)|) && GetTuple(l, inds).Ok?
    ensures Meaning(inds, |Shape(l)|).Ok?
    ensures var l', all := GetTuple(l, inds).value, Meaning(inds, |Shape(l)|).value;
            |all| == |Shape(l)| && (!all[|all| - 1].Int? ==>
              UnitLead(l') && IndexDense(Product(l), all).Ok? && Same(Product(l'), IndexDense(Product(l), all).value))
  {
    hide IndexFactors, IndexDense, Product;
    TupleMeans(l, inds);
    var all := Meaning(inds, |Shape(l)|).value;
    if !all[|all| - 1].Int? {
      IndexFactorsRefines(l, all);
    }
  }

  lemma TupleMeans(l: Lora, inds: seq<Index>)
    requires Valid(l) && Understood(inds, |Shape(l)|) && GetTuple(l, inds).Ok?
    ensures Meaning(inds, |Shape(l)|).Ok? && |Meaning(inds, |Shape(l)|).value| == |Shape(l)|
    ensures GetTuple(l, inds) == IndexFactors(l, Meaning(inds, |Shape(l)|).value)
  {
    hide IndexFactors, Expand, Repeat, GetTuple;
    if NoEllipsis(inds) {
      PlainTuple(l, inds);
    } else {
      var p := FirstEllipsis(inds);
      var pre, post := inds[..p], inds[p + 1..];
      assert inds == pre + [Ellipsis] + post;
      if post == [] {
        assert inds[..|inds| - 1] == pre;
        GetTupleStep(l, inds);
        PlainTuple(l, pre);
        assert Whole(pre, post, |Shape(l)|) == pre + Repeat(ALL, |Shape(l)| - |pre|);
      } else {
        MiddleEllipsis(l, pre, post);
      }
    }
  }

  lemma MiddleEllipsis(l: Lora, pre: seq<Index>, post: seq<Index>)
    requires Valid(l) && NoEllipsis(pre) && NoEllipsis(post) && post != [] && Halved(|pre| + |post|, post, |Shape(l)|)
    ensures GetTuple(l, pre + [Ellipsis] + post) == IndexFactors(l, Whole(pre, post, |Shape(l)|))
  {
    hide IndexFactors, Expanded, Whole, GetTuple, NoEllipsis;
    EllipsisExact(pre, post, |Shape(l)|);
    EndsWith(pre + [Ellipsis], post);
    GetTupleStep(l, pre + [Ellipsis] + post);
  }

  lemma EndsWith(front: seq<Index>, post: seq<Index>)
    requires post != [] && NoEllipsis(post)
    ensures (front + post)[|front| + |post| - 1] != Ellipsis
  {
  }

  lemma GetTupleStep(l: Lora, inds: seq<Index>)
    requires Valid(l) && inds != []
    ensures inds[|inds| - 1] != Ellipsis ==> GetTuple(l, inds) == IndexFactors(l, Expanded(inds, |Shape(l)|))
    ensures inds[|inds| - 1] == Ellipsis ==> GetTuple(l, inds) == GetTuple(l, inds[..|inds| - 1])
  {
    hide IndexFactors, Expanded;
  }

  lemma PlainTuple(l: Lora, inds: seq<Index>)
    requires Valid(l) && NoEllipsis(inds) && GetTuple(l, inds).Ok?
    ensures |inds| <= |Shape(l)| && GetTuple(l, inds) == IndexFactors(l, inds + Repeat(ALL, |Shape(l)| - |inds|))
  {
    hide IndexFactors, Expand, Repeat;
    ExpandNone(inds, |inds| - 1);
    TupleLength(l, inds);
    assert inds + Repeat(ALL, 0) == inds;
  }

  lemma TupleLength(l: Lora, inds: seq<Index>)
    requires Valid(l) && IndexFactors(l, Padded(inds, |Shape(l)|)).Ok?
    ensures |inds| <= |Shape(l)|
  {
    hide SelsOf, LeadIndices;
  }

  // ---------- __getitem__ with an integer or a slice ----------

  function Full(shape: seq<nat>): (sels: seq<Sel>)
    ensures Selects(sels, shape)
  {
    seq(|shape|, i requires 0 <= i < |shape| => Pick(All(shape[i])))
  }

  // The selection `first` along the first dimension, everything along the others.
  function FirstOnly(shape: seq<nat>, first: Sel): seq<Sel>
    requires shape != []
  {
    [first] + Full(shape[1..])
  }

  // Integers index both factors, also along a first dimension of size 1.
  function GetItem(l: Lora, j: int): Result<Lora>
    requires Valid(l)
  {
    if |l.b.outer| < 2 then Error
    else
      match (NormIndex(j, l.a.outer[0]), NormIndex(j, l.b.outer[0]))
      case (Some(ja), Some(jb)) =>
        MakeLora(Select(l.a, FirstOnly(l.a.outer, At(ja))), Select(l.b, FirstOnly(l.b.outer, At(jb))))
      case (_, _) => Error
  }

  // A slice indexes both factors, unless they are matrices.
  function GetSlice(l: Lora, s: Slice): Result<Lora>
    requires Valid(l)
  {
    if s.step == 0 then Error
    else
      var b := Select(l.b, FirstOnly(l.b.outer, Pick(Positions(s, l.b.outer[0]))));
      if |l.b.outer| < 2 then MakeLora(l.a, b)
      else MakeLora(Select(l.a, FirstOnly(l.a.outer, Pick(Positions(s, l.a.outer[0])))), b)
  }

  // Whether a slice keeps the one position of a dimension of size 1.
  predicate KeepsUnit(s: Slice) {
    (s.start.None? || s.start.value <= 0) && (s.stop.None? || s.stop.value >= 1)
  }

  lemma UnitPositions(s: Slice)
    requires s.step > 0
    ensures Positions(s, 1) == if KeepsUnit(s) then [0] else []
  {
    var start, stop := Bound(s.start, 1, 0), Bound(s.stop, 1, 1);
    assert start == 0 && stop == 1 <==> KeepsUnit(s);
    assert Steps(start + s.step, stop, s.step) == [];
  }

  // The leading dimensions of the factors can be broadcast against each other.
  predicate Compatible(l: Lora) {
    Valid(l) && forall i :: 0 <= i < |l.a.outer| - 1 ==> l.a.outer[i] == 1 || l.a.outer[i] == l.b.outer[i]
  }

  // The selection for the first factor, as unit dimensions followed by its rows.
  lemma FirstUnit(a: Tensor, first: Sel)
    requires |a.outer| >= 2 && AllOnes(a.outer[..|a.outer| - 1]) && UnitSels([first])
    ensures var a' := Select(a, FirstOnly(a.outer, first));
            && a'.outer != [] && AllOnes(a'.outer[..|a'.outer| - 1])
            && a'.outer[|a'.outer| - 1] == a.outer[|a.outer| - 1]
            && |a'.outer| == |a.outer| - (if first.At? then 1 else 0)
            && SameRows(a', a, All(a.last), a.outer[|a.outer| - 1])
  {
    hide PickedShape, Picked;
    var n := |a.outer| - 1;
    var lead := [first] + Full(a.outer[1..n]);
    var a' := Select(a, FirstOnly(a.outer, first));
    assert All(1) == [0];
    forall i | 0 <= i < |lead|
      ensures lead[i] == At(0) || lead[i] == Pick([0])
    {
      assert i > 0 ==> lead[i] == Pick(All(a.outer[..n][i]));
    }
    assert FirstOnly(a.outer, first) == lead + [Pick(All(a.outer[n]))];
    UnitSelection(a, lead, All(a.last));
    ShapeOfFirst(first, a.outer[1..n]);
    SameColumns(a', a, All(a.last), a.outer[n]);
  }

  // Choosing all columns changes nothing in the rows.
  lemma SameColumns(a': Tensor, a: Tensor, ps: seq<nat>, rank: nat)
    requires a'.outer != [] && a.outer != [] && a'.last == a.last && ps == All(a.last)
    requires SameRows(Columns(a', ps), a, ps, rank)
    ensures SameRows(a', a, ps, rank)
  {
    forall t: nat, k: nat | t < rank && k < |ps|
      ensures RowOf(a', t, k) == RowOf(a, t, ps[k])
    {
      assert RowOf(Columns(a', ps), t, k) == RowOf(a, t, ps[k]);
    }
  }

  lemma {:induction false} FullShape(shape: seq<nat>)
    ensures PickedShape(Full(shape)) == shape
    decreases |shape|
  {
    if shape != [] {
      var n := |shape| - 1;
      assert Full(shape)[..n] == Full(shape[..n]);
      FullShape(shape[..n]);
    }
  }

  lemma {:induction false} ShapeOfFirst(first: Sel, rest: seq<nat>)
    ensures PickedShape([first] + Full(rest)) == (if first.At? then [] else [|first.ps|]) + rest
    decreases |rest|
  {
    var sels := [first] + Full(rest);
    if rest == [] {
      assert sels[..0] == [];
      assert PickedShape(sels[..0]) == [];
    } else {
      var n := |rest| - 1;
      assert Full(rest)[..n] == Full(rest[..n]);
      assert sels[..n + 1] == [first] + Full(rest[..n]);
      ShapeOfFirst(first, rest[..n]);
    }
  }

  // Choosing all columns is choosing nothing.
  lemma AllColumns(x: Tensor)
    ensures Same(Columns(x, All(x.last)), x)
  {
  }

  lemma SameTransitive(x: Tensor, y: Tensor, z: Tensor)
    requires Same(x, y) && Same(y, z)
    ensures Same(x, z)
  {
  }

  // What both forms have in common: both factors selected along the first dimension.
  lemma FirstRefines(l: Lora, l': Lora, fa: Sel, fb: Sel)
    requires UnitLead(l) && |l.b.outer| >= 2 && UnitSels([fa]) && fa.At? == fb.At?
    requires l' == Lora(Select(l.a, FirstOnly(l.a.outer, fa)), Select(l.b, FirstOnly(l.b.outer, fb)))
    ensures UnitLead(l') && Same(Product(l'), Select(Product(l), FirstOnly(l.b.outer, fb)))
  {
    hide PickedShape, Picked, Full, Product;
    var sels := FirstOnly(l.b.outer, fb);
    FirstUnit(l.a, fa);
    ShapeOfFirst(fb, l.b.outer[1..]);
    ProductIsReindexed(l, l', PickedShape(sels), PickSource(sels));
  }

  // Re-indexing the second factor alone.
  lemma ProductIsReindexed(l: Lora, l': Lora, outer: seq<nat>, source: seq<nat> -> seq<nat>)
    requires UnitLead(l) && UnitLead(l') && l'.b == View(l.b, outer, source)
    requires l'.a.last == l.a.last && SameRows(l'.a, l.a, All(l.a.last), l.b.last)
    ensures Same(Product(l'), View(Product(l), outer, source))
  {
    ProductReindexed(l, l', outer, source, All(l.a.last));
    AllColumns(View(Product(l), outer, source));
    SameTransitive(Product(l'), Columns(View(Product(l), outer, source), All(l.a.last)),
                   View(Product(l), outer, source));
  }

  lemma SelfRows(a: Tensor, rank: nat)
    requires a.outer != []
    ensures SameRows(a, a, All(a.last), rank)
  {
  }

  // An integer index works for the first and the last position only; there it indexes the product.
  lemma GetItemExact(l: Lora, j: int)
    requires UnitLead(l) && |l.b.outer| >= 2 && l.b.outer[0] > 0
    ensures GetItem(l, j).Ok? <==> j == 0 || j == -1
    ensures GetItem(l, j).Ok? ==>
              var l' := GetItem(l, j).value;
              var sels := FirstOnly(l.b.outer, At(if j == 0 then 0 else l.b.outer[0] - 1));
              UnitLead(l') && Same(Product(l'), Select(Product(l), sels))
  {
    hide PickedShape, Picked, Full, Product;
    assert l.a.outer[..|l.a.outer| - 1][0] == l.a.outer[0] == 1;
    if j == 0 || j == -1 {
      var jb := if j == 0 then 0 else l.b.outer[0] - 1;
      var l' := Lora(Select(l.a, FirstOnly(l.a.outer, At(0))), Select(l.b, FirstOnly(l.b.outer, At(jb))));
      FirstRefines(l, l', At(0), At(jb));
    }
  }

  // A slice of an adapter with leading dimensions is right exactly when it keeps the one position of the
  // first factor, or none of the second; otherwise the factors no longer fit together.
  lemma GetSliceExact(l: Lora, s: Slice)
    requires UnitLead(l) && |l.b.outer| >= 2 && s.step > 0
    ensures GetSlice(l, s).Ok?
    ensures Compatible(GetSlice(l, s).value) <==> KeepsUnit(s) || Positions(s, l.b.outer[0]) == []
    ensures Compatible(GetSlice(l, s).value) ==>
              Same(Product(GetSlice(l, s).value),
                   Select(Product(l), FirstOnly(l.b.outer, Pick(Positions(s, l.b.outer[0])))))
    ensures KeepsUnit(s) ==> UnitLead(GetSlice(l, s).value)
  {
    hide PickedShape, Picked, Full, Product, Positions;
    assert l.a.outer[..|l.a.outer| - 1][0] == l.a.outer[0] == 1;
    UnitPositions(s);
    var fa, fb := Pick(Positions(s, 1)), Pick(Positions(s, l.b.outer[0]));
    var l' := Lora(Select(l.a, FirstOnly(l.a.outer, fa)), Select(l.b, FirstOnly(l.b.outer, fb)));
    ShapeOfFirst(fa, l.a.outer[1..]);
    ShapeOfFirst(fb, l.b.outer[1..]);
    LaterDimensions(l);
    assert l'.a.outer == [|fa.ps|] + l.a.outer[1..] && l'.b.outer == [|fb.ps|] + l.b.outer[1..];
    if KeepsUnit(s) {
      FirstRefines(l, l', fa, fb);
      UnitIsCompatible(l');
    } else {
      assert l'.a.outer[0] == 0 && l'.b.outer[0] == |fb.ps|;
      ProductShape(l);
      ProductShape(l');
      if fb.ps == [] {
        NothingInside(Product(l'), Select(Product(l), FirstOnly(l.b.outer, fb)));
      }
    }
  }

  // The shape property is the shape of the product.
  lemma ProductShape(l: Lora)
    requires Valid(l)
    ensures Product(l).outer == l.b.outer && Product(l).last == l.a.last
    ensures Product(l).outer + [Product(l).last] == Shape(l)
  {
  }

  lemma UnitIsCompatible(l: Lora)
    requires UnitLead(l)
    ensures Compatible(l)
  {
    forall i | 0 <= i < |l.a.outer| - 1
      ensures l.a.outer[i] == 1
    {
      assert l.a.outer[..|l.a.outer| - 1][i] == 1;
    }
  }

  lemma NothingInside(x: Tensor, y: Tensor)
    requires x.outer == y.outer != [] && x.outer[0] == 0 && x.last == y.last
    ensures Same(x, y)
  {
  }

  lemma LaterDimensions(l: Lora)
    requires UnitLead(l) && |l.b.outer| >= 2
    ensures forall i :: 1 <= i < |l.a.outer| - 1 ==> l.a.outer[i] == 1
    ensures l.a.outer[|l.a.outer| - 1] == l.b.last
  {
    forall i | 1 <= i < |l.a.outer| - 1
      ensures l.a.outer[i] == 1
    {
      assert l.a.outer[..|l.a.outer| - 1][i] == 1;
    }
  }

  // For matrices a slice takes rows.
  lemma GetRowsRefines(l: Lora, s: Slice)
    requires UnitLead(l) && |l.b.outer| == 1 && s.step > 0
    ensures GetSlice(l, s).Ok? && UnitLead(GetSlice(l, s).value)
    ensures Same(Product(GetSlice(l, s).value),
                 Select(Product(l), FirstOnly(l.b.outer, Pick(Positions(s, l.b.outer[0])))))
  {
    hide PickedShape, Picked, Full, Product, Positions;
    var sels := FirstOnly(l.b.outer, Pick(Positions(s, l.b.outer[0])));
    ShapeOfFirst(Pick(Positions(s, l.b.outer[0])), l.b.outer[1..]);
    SelfRows(l.a, l.b.last);
    ProductIsReindexed(l, Lora(l.a, Select(l.b, sels)), PickedShape(sels), PickSource(sels));
  }

  // ---------- Inputs on which indexing goes wrong ----------

  // An adapter of zeros with unit leading dimensions in A.
  function Blank(lead: seq<nat>, rows: nat, rank: nat, columns: nat): (l: Lora)
    ensures UnitLead(l) && l.b.outer == lead + [rows] && l.b.last == rank && l.a.last == columns
  {
    var zero := (o: seq<nat>, k: nat) => 0.0;
    Lora(Tensor(seq(|lead|, _ => 1) + [rank], columns, zero), Tensor(lead + [rows], rank, zero))
  }

  // On four dimensions `[..., i]` indexes the second one instead of the last.
  lemma InnerEllipsisExample(l: Lora, i: Index)
    requires Valid(l) && |Shape(l)| == 4 && i != Ellipsis && i != ALL
    ensures Meaning([Ellipsis, i], 4) == Ok([ALL, ALL, ALL, i])
    ensures GetTuple(l, [Ellipsis, i]) == IndexFactors(l, [ALL, i, ALL, ALL])
  {
    hide IndexFactors;
    ExpandOne([], [i], 1);
    assert [] + [Ellipsis] + [i] == [Ellipsis, i];
    assert Expanded([Ellipsis, i], 4) == [ALL, i, ALL, ALL];
    var p := FirstEllipsis([Ellipsis, i]);
    assert p == 0 && Whole([], [i], 4) == [ALL, ALL, ALL, i];
  }

  // `[:, 0, 0]` on an adapter of shape 1 x 1 x 1 and rank 1 has two dimensions, where it should have one.
  lemma TwoIntegersExample(l: Lora)
    requires l.a.outer == l.b.outer == [1, 1] && l.a.last == l.b.last == 1
    ensures var inds := [ALL, Int(0), Int(0)];
            && IndexFactors(l, inds).Ok? && |Shape(IndexFactors(l, inds).value)| == 2
            && SelsOf([ALL, Int(0)], [1, 1]).Ok? && |PickedShape(SelsOf([ALL, Int(0)], [1, 1]).value)| == 1
  {
    var inds := [ALL, Int(0), Int(0)];
    FirstKept();
    FirstShape();
    hide SelsOf, LeadIndices, Positions, Picked, PickedShape;
    assert inds[..1] == [ALL] && l.a.outer[..1] == [1] && inds[..2] == [ALL, Int(0)];
  }

  lemma FirstShape()
    ensures PickedShape([Pick([0])]) == [1] == PickedShape([Pick([0]), At(0)])
  {
    PickedSnoc([], [0]);
    assert [] + [Pick([0])] == [Pick([0])] && [Pick([0]), At(0)][..1] == [Pick([0])];
  }

  lemma FirstKept()
    ensures LeadIndices([ALL], [1]) == Ok([Pick([0])])
    ensures SelsOf([ALL, Int(0)], [1, 1]) == Ok([Pick([0]), At(0)])
  {
    FirstSels();
    NoIndices();
    hide LeadIndices, SelsOf, Positions, SelOf;
    LeadSnoc([], [], ALL, 1, []);
    SelsSnoc([], [], ALL, 1, []);
    assert [] + [ALL] == [ALL] && [] + [1] == [1] && [] + [Pick([0])] == [Pick([0])];
    SelsSnoc([ALL], [1], Int(0), 1, [Pick([0])]);
    assert [ALL] + [Int(0)] == [ALL, Int(0)] && [1] + [1] == [1, 1];
    assert [Pick([0])] + [At(0)] == [Pick([0]), At(0)];
  }

  lemma FirstSels()
    ensures SelOf(ALL, 1) == Ok(Pick([0])) && SelOf(Int(0), 1) == Ok(At(0)) && All(1) == [0]
  {
    UnitPositions(ALL.s);
  }

  lemma LeadSnoc(inds: seq<Index>, lead: seq<nat>, i: Index, n: nat, sels: seq<Sel>)
    requires |inds| == |lead| && LeadIndices(inds, lead) == Ok(sels) && !i.Int?
    ensures LeadIndices(inds + [i], lead + [n]) == Ok(sels + [Pick(All(n))])
  {
    assert (inds + [i])[..|inds|] == inds && (lead + [n])[..|inds|] == lead;
  }

  lemma SelsSnoc(inds: seq<Index>, shape: seq<nat>, i: Index, n: nat, sels: seq<Sel>)
    requires SelsOf(inds, shape) == Ok(sels) && SelOf(i, n).Ok?
    ensures SelsOf(inds + [i], shape + [n]) == Ok(sels + [SelOf(i, n).value])
  {
    hide SelOf;
    assert (inds + [i])[..|inds|] == inds;
    assert |inds| == |shape| ==> (shape + [n])[..|inds|] == shape;
  }

  // Of three leading positions neither the middle one nor the last, counted from the front, can be taken, and the
  // last two cannot be sliced.
  lemma LeadIndexExamples(rows: nat, rank: nat, columns: nat)
    ensures var l := Blank([3], rows, rank, columns);
            && GetItem(l, 1) == Error && GetItem(l, 2) == Error && GetItem(l, -1).Ok?
            && GetSlice(l, Slice(Some(1), Some(3), 1)).Ok?
            && !Compatible(GetSlice(l, Slice(Some(1), Some(3), 1)).value)
  {
    hide PickedShape, Picked, Product, Select, Full;
    var l := Blank([3], rows, rank, columns);
    GetItemExact(l, 1);
    GetItemExact(l, 2);
    GetItemExact(l, -1);
    GetSliceExact(l, Slice(Some(1), Some(3), 1));
  }
}
