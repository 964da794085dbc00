/** Concatenating and stacking adapters (convert_lora_to_gguf.py:234-259). */
module LoraJoining {
  import opened Outcomes
  import opened Tensors
  import opened LoraProduct
  import opened LoraIndexing
  import opened LoraShapes

  // ---------- torch.cat and torch.stack along the first dimension ----------

  predicate Dimensioned(xs: seq<Tensor>) {
    forall i :: 0 <= i < |xs| ==> |xs[i].outer| >= 1
  }

  predicate AllValid(ls: seq<Lora>) {
    forall i :: 0 <= i < |ls| ==> Valid(ls[i])
  }

  function FirstDims(xs: seq<Tensor>): seq<nat>
    requires Dimensioned(xs)
  {
    seq(|xs|, i requires 0 <= i < |xs| => xs[i].outer[0])
  }

  function CatAt(xs: seq<Tensor>, o: seq<nat>, k: nat): real
    requires Dimensioned(xs)
    decreases |xs|
  {
    if xs == [] || o == [] then 0.0
    else if o[0] < xs[0].outer[0] then xs[0].at(o, k)
    else CatAt(xs[1..], [o[0] - xs[0].outer[0]] + o[1..], k)
  }

  // One tensor after the other, along the first dimension.
  function Cat(xs: seq<Tensor>): Tensor
    requires xs != [] && Dimensioned(xs)
  {
    Tensor([Total(FirstDims(xs))] + xs[0].outer[1..], xs[0].last, (o: seq<nat>, k: nat) => CatAt(xs, o, k))
  }

  // What torch asks for: equal dimensions except for the first.
  predicate Joinable(xs: seq<Tensor>) {
    && xs != [] && Dimensioned(xs)
    && forall i :: 0 <= i < |xs| ==> xs[i].outer[1..] == xs[0].outer[1..] && xs[i].last == xs[0].last
  }

  function JoinDense(xs: seq<Tensor>): Result<Tensor> {
    if Joinable(xs) then Ok(Cat(xs)) else Error
  }

  // Tensors that are the same one by one are the same joined.
  lemma {:induction false} CatAtSame(xs: seq<Tensor>, ys: seq<Tensor>, tail: seq<nat>, last: nat, o: seq<nat>, k: nat)
    requires Dimensioned(xs) && Dimensioned(ys) && |xs| == |ys| && o != [] && Inside(o[1..], tail) && k < last
    requires forall i :: 0 <= i < |xs| ==> Same(xs[i], ys[i]) && xs[i].outer[1..] == tail && xs[i].last == last
    ensures CatAt(xs, o, k) == CatAt(ys, o, k)
    decreases |xs|
  {
    if xs != [] {
      assert Same(xs[0], ys[0]) && xs[0].outer[1..] == tail;
      if o[0] < xs[0].outer[0] {
        InsideCons(o, xs[0].outer);
      } else {
        var o' := [o[0] - xs[0].outer[0]] + o[1..];
        assert o'[1..] == o[1..];
        CatAtSame(xs[1..], ys[1..], tail, last, o', k);
      }
    }
  }

  lemma InsideCons(o: seq<nat>, shape: seq<nat>)
    requires o != [] && shape != []
    ensures Inside(o, shape) <==> o[0] < shape[0] && Inside(o[1..], shape[1..])
  {
    assert |o| == |shape| ==> o == [o[0]] + o[1..] && shape == [shape[0]] + shape[1..];
  }

  lemma JoinSame(xs: seq<Tensor>, ys: seq<Tensor>)
    requires |xs| == |ys| && Joinable(xs) && forall i :: 0 <= i < |xs| ==> Same(xs[i], ys[i])
    ensures Joinable(ys) && Same(Cat(xs), Cat(ys))
  {
    hide CatAt, Total;
    JoinableSame(xs, ys);
    forall o, k: nat | Inside(o, Cat(xs).outer) && k < xs[0].last
      ensures CatAt(xs, o, k) == CatAt(ys, o, k)
    {
      InsideCons(o, Cat(xs).outer);
      CatAtSame(xs, ys, xs[0].outer[1..], xs[0].last, o, k);
    }
  }

  lemma JoinableSame(xs: seq<Tensor>, ys: seq<Tensor>)
    requires |xs| == |ys| && Joinable(xs) && forall i :: 0 <= i < |xs| ==> Same(xs[i], ys[i])
    ensures Joinable(ys) && FirstDims(xs) == FirstDims(ys)
  {
    assert Same(xs[0], ys[0]);
  }

  // Where every first dimension is 1, the position along the first dimension is the tensor.
  lemma {:induction false} CatAtOnes(xs: seq<Tensor>, o: seq<nat>, k: nat)
    requires Dimensioned(xs) && (forall i :: 0 <= i < |xs| ==> xs[i].outer[0] == 1) && o != [] && o[0] < |xs|
    ensures CatAt(xs, o, k) == xs[o[0]].at([0] + o[1..], k)
    decreases |xs|
  {
    if o[0] == 0 {
      assert o == [0] + o[1..];
    } else {
      var o' := [o[0] - 1] + o[1..];
      CatAtOnes(xs[1..], o', k);
      assert o'[1..] == o[1..];
    }
  }

  function Firsts(ls: seq<Lora>): (r: seq<Tensor>)
    ensures |r| == |ls| && forall i :: 0 <= i < |ls| ==> r[i] == ls[i].a
    ensures AllValid(ls) ==> Dimensioned(r)
  {
    seq(|ls|, i requires 0 <= i < |ls| => ls[i].a)
  }

  function Seconds(ls: seq<Lora>): (r: seq<Tensor>)
    ensures |r| == |ls| && forall i :: 0 <= i < |ls| ==> r[i] == ls[i].b
    ensures AllValid(ls) ==> Dimensioned(r)
  {
    seq(|ls|, i requires 0 <= i < |ls| => ls[i].b)
  }

  function Products(ls: seq<Lora>): (r: seq<Tensor>)
    requires AllValid(ls)
    ensures |r| == |ls| && Dimensioned(r) && forall i :: 0 <= i < |ls| ==> r[i] == Product(ls[i])
  {
    seq(|ls|, i requires 0 <= i < |ls| => Product(ls[i]))
  }

  // With leading dimensions both lists of factors are joined; matrices must share the first factor.
  ghost function JoinLora(ls: seq<Lora>): (r: Result<Lora>)
    requires AllValid(ls)
    ensures r.Ok? ==> Valid(r.value)
  {
    if ls == [] then Error
    else if |Shape(ls[0])| > 2 then
      match (JoinDense(Firsts(ls)), JoinDense(Seconds(ls)))
      case (Ok(a), Ok(b)) => MakeLora(a, b)
      case (_, _) => Error
    else if forall i :: 0 <= i < |ls| ==> Same(ls[i].a, ls[0].a) then
      match JoinDense(Seconds(ls))
      case Ok(b) => MakeLora(ls[0].a, b)
      case Error => Error
    else Error
  }

  // Matrices whose first factors are all equal.
  ghost predicate EqualFirsts(ls: seq<Lora>) {
    && ls != [] && AllValid(ls)
    && forall i :: 0 <= i < |ls| ==> UnitLead(ls[i]) && |ls[i].b.outer| == 1 && Same(ls[i].a, ls[0].a)
  }

  lemma {:induction false} CatColumn(l: Lora, ls: seq<Lora>, i: nat, k: nat)
    requires UnitLead(l) && |l.b.outer| == 1 && k < l.a.last
    requires AllValid(ls) && forall n :: 0 <= n < |ls| ==> UnitLead(ls[n]) && |ls[n].b.outer| == 1 && Same(ls[n].a, l.a)
    ensures CatAt(Products(ls), [i], k) == Sum(l.b.last, (t: nat) => CatAt(Seconds(ls), [i], t) * RowOf(l.a, t, k))
    decreases |ls|
  {
    hide RowOf;
    if ls == [] {
      SumZero(l.b.last, (t: nat) => CatAt(Seconds(ls), [i], t) * RowOf(l.a, t, k));
    } else if i < ls[0].b.outer[0] {
      CatHere(l, ls, i, k);
    } else {
      var j := i - ls[0].b.outer[0];
      CatColumn(l, ls[1..], j, k);
      assert Products(ls)[1..] == Products(ls[1..]) && Seconds(ls)[1..] == Seconds(ls[1..]);
      assert [j] + [i][1..] == [j];
      SumSame(l.b.last, (t: nat) => CatAt(Seconds(ls), [i], t) * RowOf(l.a, t, k),
              (t: nat) => CatAt(Seconds(ls[1..]), [j], t) * RowOf(l.a, t, k));
    }
  }

  lemma {:induction false} SumZero(n: nat, f: nat -> real)
    requires forall t :: 0 <= t < n ==> f(t) == 0.0
    ensures Sum(n, f) == 0.0
  {
    if n > 0 {
      SumZero(n - 1, f);
    }
  }

  // The rows of the first adapter of the list.
  lemma CatHere(l: Lora, ls: seq<Lora>, i: nat, k: nat)
    requires UnitLead(l) && |l.b.outer| == 1 && k < l.a.last
    requires ls != [] && UnitLead(ls[0]) && |ls[0].b.outer| == 1 && Same(ls[0].a, l.a) && i < ls[0].b.outer[0]
    requires AllValid(ls)
    ensures CatAt(Products(ls), [i], k) == Sum(l.b.last, (t: nat) => CatAt(Seconds(ls), [i], t) * RowOf(l.a, t, k))
  {
    hide Term;
    forall t: nat | t < l.b.last
      ensures Term(ls[0], [i], k, t) == CatAt(Seconds(ls), [i], t) * RowOf(l.a, t, k)
    {
      TermUnit(ls[0], [i], k, t);
      assert Inside(Zeros(0) + [t], l.a.outer);
    }
    SumSame(l.b.last, (t: nat) => Term(ls[0], [i], k, t), (t: nat) => CatAt(Seconds(ls), [i], t) * RowOf(l.a, t, k));
  }

  // Matrix adapters are joined exactly when they share the first factor, and then their products are joined.
  lemma CatRefines(ls: seq<Lora>)
    requires ls != [] && AllValid(ls) && |ls[0].b.outer| == 1
    ensures JoinLora(ls).Ok? <==> EqualFirsts(ls)
    ensures JoinLora(ls).Ok? ==>
              UnitLead(JoinLora(ls).value) && Joinable(Products(ls))
                  && Same(Product(JoinLora(ls).value), Cat(Products(ls)))
  {
    hide Product, Cat;
    SharedFirsts(ls);
    if JoinLora(ls).Ok? {
      SharedProduct(ls);
    }
  }

  lemma SharedFirsts(ls: seq<Lora>)
    requires ls != [] && AllValid(ls) && |ls[0].b.outer| == 1
    ensures JoinLora(ls).Ok? <==> EqualFirsts(ls)
    ensures EqualFirsts(ls) ==> JoinLora(ls).value == Lora(ls[0].a, Cat(Seconds(ls)))
    ensures EqualFirsts(ls) ==> Joinable(Products(ls))
  {
    hide Same, CatAt, Total, Term;
    assert ls[0].b.outer[1..] == [];
    if EqualFirsts(ls) {
      SameLast(ls);
      forall i | 0 <= i < |ls|
        ensures ls[i].b.outer[1..] == []
      {
      }
      assert Joinable(Seconds(ls));
    }
    if JoinLora(ls).Ok? {
      forall i | 0 <= i < |ls|
        ensures UnitLead(ls[i]) && |ls[i].b.outer| == 1
      {
        assert Seconds(ls)[i].outer[1..] == [];
      }
    }
  }

  lemma SameLast(ls: seq<Lora>)
    requires EqualFirsts(ls)
    ensures forall i :: 0 <= i < |ls| ==> ls[i].a.last == ls[0].a.last && ls[i].b.last == ls[0].b.last
  {
  }

  lemma SharedProduct(ls: seq<Lora>)
    requires EqualFirsts(ls)
    ensures var l := Lora(ls[0].a, Cat(Seconds(ls))); UnitLead(l) && Same(Product(l), Cat(Products(ls)))
  {
    hide RowOf, Term, CatAt;
    var l := Lora(ls[0].a, Cat(Seconds(ls)));
    assert FirstDims(Products(ls)) == FirstDims(Seconds(ls));
    forall o, k: nat | Inside(o, l.b.outer) && k < l.a.last
      ensures Product(l).at(o, k) == CatAt(Products(ls), o, k)
    {
      assert o == [o[0]];
      CatColumn(ls[0], ls, o[0], k);
      forall t: nat | t < l.b.last
        ensures Term(l, o, k, t) == CatAt(Seconds(ls), [o[0]], t) * RowOf(ls[0].a, t, k)
      {
        TermUnit(l, o, k, t);
      }
      SumSame(l.b.last, (t: nat) => Term(l, o, k, t),
              (t: nat) => CatAt(Seconds(ls), [o[0]], t) * RowOf(ls[0].a, t, k));
    }
  }

  // ---------- Leading dimensions ----------

  // Adapters with leading dimensions, of one shape but for the first dimension.
  predicate LeadJoinable(ls: seq<Lora>) {
    && ls != [] && AllValid(ls) && (forall i :: 0 <= i < |ls| ==> UnitLead(ls[i])) && |ls[0].b.outer| >= 2
    && Joinable(Firsts(ls)) && Joinable(Seconds(ls))
  }

  predicate Singles(ls: seq<Lora>)
    requires AllValid(ls)
  {
    forall i :: 0 <= i < |ls| ==> ls[i].b.outer[0] == 1
  }

  // The factors of two or more such adapters fit together again exactly when there are as many positions along
  // the first dimension as adapters, which for adapters that are not empty means one each; then, and for an
  // adapter on its own, the products are joined.
  lemma CatLeadExact(ls: seq<Lora>)
    requires LeadJoinable(ls)
    ensures JoinLora(ls).Ok? && Joinable(Products(ls))
    ensures Compatible(JoinLora(ls).value) <==> |ls| == 1 || Total(FirstDims(Seconds(ls))) == |ls|
    ensures |ls| > 1 && (forall i :: 0 <= i < |ls| ==> ls[i].b.outer[0] >= 1) ==>
              (Compatible(JoinLora(ls).value) <==> Singles(ls))
    ensures |ls| == 1 || Singles(ls) ==> Same(Product(JoinLora(ls).value), Cat(Products(ls)))
  {
    hide Product, Cat, Total, Compatible;
    LeadJoined(ls);
    LeadCompatible(ls);
    var bs := FirstDims(Seconds(ls));
    OnesTotal(bs);
    assert forall i :: 0 <= i < |ls| ==> bs[i] == ls[i].b.outer[0];
    if |ls| == 1 {
      AloneJoined(ls);
    } else if Singles(ls) {
      SinglesJoined(ls);
    }
  }

  lemma LeadJoined(ls: seq<Lora>)
    requires LeadJoinable(ls)
    ensures JoinLora(ls) == Ok(Lora(Cat(Firsts(ls)), Cat(Seconds(ls)))) && Joinable(Products(ls))
  {
    hide CatAt, Total, Term;
    var l := Lora(Cat(Firsts(ls)), Cat(Seconds(ls)));
    var n := |ls[0].a.outer| - 1;
    assert l.a.outer[n] == ls[0].a.outer[1..][n - 1] == ls[0].a.outer[n];
    forall i | 0 <= i < |ls|
      ensures Products(ls)[i].outer[1..] == Products(ls)[0].outer[1..] && Products(ls)[i].last == Products(ls)[0].last
    {
      assert Seconds(ls)[i].outer[1..] == Seconds(ls)[0].outer[1..] && Firsts(ls)[i].last == Firsts(ls)[0].last;
    }
  }

  lemma LeadCompatible(ls: seq<Lora>)
    requires LeadJoinable(ls)
    ensures JoinLora(ls).Ok?
    ensures Compatible(JoinLora(ls).value) <==> |ls| == 1 || Total(FirstDims(Seconds(ls))) == |ls|
  {
    hide Total, UnitLead, JoinLora, Joinable;
    LeadJoined(ls);
    var l := JoinLora(ls).value;
    UnitTotals(ls);
    forall i | 1 <= i < |l.a.outer| - 1
      ensures l.a.outer[i] == 1
    {
      LeadIsUnit(ls[0], i);
      assert l.a.outer[i] == ls[0].a.outer[1..][i - 1];
    }
    DeepEnough(ls, 0);
    assert |l.a.outer| == |ls[0].a.outer|;
    assert l.a.outer[0] == |ls| && l.b.outer[0] == Total(FirstDims(Seconds(ls)));
    LeadFits(l);
  }

  lemma LeadFits(l: Lora)
    requires Valid(l) && |l.a.outer| >= 2 && forall i :: 1 <= i < |l.a.outer| - 1 ==> l.a.outer[i] == 1
    ensures Compatible(l) <==> l.a.outer[0] == 1 || l.a.outer[0] == l.b.outer[0]
  {
  }

  lemma UnitTotals(ls: seq<Lora>)
    requires LeadJoinable(ls)
    ensures Total(FirstDims(Firsts(ls))) == |ls|
  {
    hide Total, UnitLead;
    var as_ := FirstDims(Firsts(ls));
    forall i | 0 <= i < |ls|
      ensures as_[i] == 1
    {
      DeepEnough(ls, i);
      LeadIsUnit(ls[i], 0);
    }
    OnesTotal(as_);
  }

  lemma DeepEnough(ls: seq<Lora>, i: nat)
    requires LeadJoinable(ls) && i < |ls|
    ensures UnitLead(ls[i]) && |ls[i].a.outer| == |ls[0].a.outer| >= 2
  {
    assert |Firsts(ls)[i].outer[1..]| == |Firsts(ls)[0].outer[1..]|;
  }

  lemma {:induction false} OnesTotal(sizes: seq<nat>)
    ensures AllOnes(sizes) ==> Total(sizes) == |sizes|
    ensures (forall i :: 0 <= i < |sizes| ==> sizes[i] >= 1) ==> Total(sizes) >= |sizes|
    ensures (forall i :: 0 <= i < |sizes| ==> sizes[i] >= 1) && Total(sizes) == |sizes| ==> AllOnes(sizes)
    decreases |sizes|
  {
    if sizes != [] {
      var n := |sizes| - 1;
      OnesTotal(sizes[..n]);
      assert AllOnes(sizes) <==> AllOnes(sizes[..n]) && sizes[n] == 1 by {
        assert sizes == sizes[..n] + [sizes[n]];
      }
    }
  }

  // One entry each: position `i` of the joined adapter is adapter `i`.
  lemma SinglesJoined(ls: seq<Lora>)
    requires LeadJoinable(ls) && Singles(ls) && |ls| > 1
    ensures JoinLora(ls).Ok? && Same(Product(JoinLora(ls).value), Cat(Products(ls)))
  {
    hide Term, CatAt, JoinLora, Total, Joinable;
    LeadJoined(ls);
    SinglesShapes(ls);
    var l := JoinLora(ls).value;
    forall o, k: nat | Inside(o, l.b.outer) && k < l.a.last
      ensures Product(l).at(o, k) == CatAt(Products(ls), o, k)
    {
      var m, o' := ls[o[0]], [0] + o[1..];
      CatAtOnes(Products(ls), o, k);
      forall t: nat | t < l.b.last
        ensures Term(l, o, k, t) == Term(m, o', k, t)
      {
        SingleTerm(ls, o, k, t);
      }
      SumSame(l.b.last, (t: nat) => Term(l, o, k, t), (t: nat) => Term(m, o', k, t));
    }
  }

  lemma SinglesShapes(ls: seq<Lora>)
    requires LeadJoinable(ls) && Singles(ls)
    ensures FirstDims(Products(ls)) == FirstDims(Seconds(ls)) && Total(FirstDims(Seconds(ls))) == |ls|
    ensures forall i :: 0 <= i < |ls| ==> ls[i].b.last == ls[0].b.last && ls[i].a.last == ls[0].a.last
    ensures forall i :: 0 <= i < |ls| ==> ls[i].b.outer[1..] == ls[0].b.outer[1..]
    ensures forall i :: 0 <= i < |ls| ==> Products(ls)[i].outer[0] == 1
  {
    hide Total, UnitLead, Term;
    OnesTotal(FirstDims(Seconds(ls)));
    assert Firsts(ls)[0] == ls[0].a && Seconds(ls)[0] == ls[0].b;
    forall i | 0 <= i < |ls|
      ensures ls[i].b.last == ls[0].b.last && ls[i].a.last == ls[0].a.last && ls[i].b.outer[1..] == ls[0].b.outer[1..]
    {
      assert Firsts(ls)[i] == ls[i].a && Seconds(ls)[i] == ls[i].b;
    }
  }

  lemma SingleTerm(ls: seq<Lora>, o: seq<nat>, k: nat, t: nat)
    requires LeadJoinable(ls) && Singles(ls) && |ls| > 1 && o != [] && o[0] < |ls|
    ensures JoinLora(ls).Ok? && Term(JoinLora(ls).value, o, k, t) == Term(ls[o[0]], [0] + o[1..], k, t)
  {
    hide CatAt, Joinable, Total, JoinLora;
    LeadJoined(ls);
    UnitTotals(ls);
    DeepEnough(ls, o[0]);
    var l, m, o' := JoinLora(ls).value, ls[o[0]], [0] + o[1..];
    var n := |l.a.outer| - 1;
    assert l.a.outer[..n] == [|ls|] + ls[0].a.outer[1..n];
    assert AllOnes(ls[0].a.outer[1..n]) by {
      forall i | 0 <= i < n - 1
        ensures ls[0].a.outer[1..n][i] == 1
      {
        LeadIsUnit(ls[0], i + 1);
      }
    }
    UnitRow(ls[0].a.outer[1..n], o[1..], t);
    UnitRow(m.a.outer[..n], o', t);
    SingleRow(|ls|, ls[0].a.outer[1..n], o, t);
    assert Zeros(n) == [0] + Zeros(n - 1);
    forall i | 0 <= i < |ls|
      ensures Firsts(ls)[i].outer[0] == 1
    {
      DeepEnough(ls, i);
      LeadIsUnit(ls[i], 0);
    }
    CatAtOnes(Firsts(ls), [o[0]] + Zeros(n - 1) + [t], k);
    CatAtOnes(Seconds(ls), o, t);
    assert ([o[0]] + Zeros(n - 1) + [t])[1..] == Zeros(n - 1) + [t];
    assert [0] + (Zeros(n - 1) + [t]) == Zeros(n) + [t];
  }

  lemma SingleRow(count: nat, ones: seq<nat>, o: seq<nat>, t: nat)
    requires count > 1 && AllOnes(ones) && o != []
    ensures Row([count] + ones, o, t) == [o[0]] + Zeros(|ones|) + [t]
  {
  }

  // An adapter on its own stays what it is.
  lemma AloneJoined(ls: seq<Lora>)
    requires LeadJoinable(ls) && |ls| == 1
    ensures JoinLora(ls).Ok? && UnitLead(JoinLora(ls).value) && Same(Product(JoinLora(ls).value), Cat(Products(ls)))
  {
    hide Term, JoinLora, Joinable;
    LeadJoined(ls);
    LeadIsUnit(ls[0], 0);
    var l, m := JoinLora(ls).value, ls[0];
    OneTotal(m.a.outer[0]);
    OneTotal(m.b.outer[0]);
    assert FirstDims(Firsts(ls)) == [m.a.outer[0]]
        && FirstDims(Seconds(ls)) == [m.b.outer[0]] == FirstDims(Products(ls));
    assert l.a.outer == m.a.outer && l.b.outer == m.b.outer;
    forall o, k: nat | Inside(o, l.b.outer) && k < l.a.last
      ensures Product(l).at(o, k) == CatAt(Products(ls), o, k)
    {
      forall t: nat | t < l.b.last
        ensures Term(l, o, k, t) == Term(m, o, k, t)
      {
        TermUnit(l, o, k, t);
        TermUnit(m, o, k, t);
        assert Firsts(ls) == [m.a];
        AloneRow(l.a, m.a, t, k);
      }
      SumSame(l.b.last, (t: nat) => Term(l, o, k, t), (t: nat) => Term(m, o, k, t));
    }
  }

  lemma AloneRow(joined: Tensor, a: Tensor, t: nat, k: nat)
    requires |a.outer| >= 2 && a.outer[0] == 1 && joined == Cat([a])
    ensures RowOf(joined, t, k) == RowOf(a, t, k)
  {
    assert FirstDims([a]) == [1];
    assert (Zeros(|a.outer| - 1) + [t])[0] == 0;
  }

  // Two adapters of two experts each: B has four leading positions after joining, A only two.
  lemma LeadJoinExample(rows: nat, rank: nat, columns: nat)
    ensures var ls := [Blank([2], rows, rank, columns), Blank([2], rows, rank, columns)];
            JoinLora(ls).Ok? && !Compatible(JoinLora(ls).value)
  {
    hide JoinLora, Compatible, Total;
    var l := Blank([2], rows, rank, columns);
    var ls := [l, l];
    assert forall i :: 0 <= i < 2 ==> Firsts(ls)[i] == l.a && Seconds(ls)[i] == l.b;
    CatLeadExact(ls);
  }

  // An adapter with one row and one column for each expert, rank 1 and the same number everywhere in a factor.
  function Constant(experts: nat, a: real, b: real): Lora {
    Lora(Tensor([1, 1], 1, (o: seq<nat>, k: nat) => a), Tensor([experts, 1], 1, (o: seq<nat>, k: nat) => b))
  }

  // An adapter without experts in front of one with two: there are as many positions as adapters, so the factors
  // fit, but the first position of B now meets the A of the empty adapter.
  lemma EmptyAdapterExample()
    ensures var ls := [Constant(0, 0.0, 0.0), Constant(2, 1.0, 1.0)];
            && LeadJoinable(ls) && Compatible(JoinLora(ls).value)
            && !Same(Product(JoinLora(ls).value), Cat(Products(ls)))
  {
    var ls := [Constant(0, 0.0, 0.0), Constant(2, 1.0, 1.0)];
    EmptyFits(ls);
    LeadJoined(ls);
    EmptyProducts(ls);
    hide Product, Cat, JoinLora, LeadJoinable;
    var l, o: seq<nat> := JoinLora(ls).value, [0, 0];
    assert Inside(o, Product(l).outer);
  }

  lemma EmptyFits(ls: seq<Lora>)
    requires ls == [Constant(0, 0.0, 0.0), Constant(2, 1.0, 1.0)]
    ensures LeadJoinable(ls) && Compatible(JoinLora(ls).value)
  {
    assert Firsts(ls) == [ls[0].a, ls[1].a] && Seconds(ls) == [ls[0].b, ls[1].b];
    assert FirstDims(Seconds(ls)) == [0, 2];
    assert [0, 2][..1] == [0] && [0][..0] == [] && Total([0, 2]) == 2;
    LeadCompatible(ls);
  }

  lemma EmptyProducts(ls: seq<Lora>)
    requires ls == [Constant(0, 0.0, 0.0), Constant(2, 1.0, 1.0)]
    requires LeadJoinable(ls) && JoinLora(ls) == Ok(Lora(Cat(Firsts(ls)), Cat(Seconds(ls))))
    ensures var l, o: seq<nat> := JoinLora(ls).value, [0, 0];
            && Inside(o, Product(l).outer) && Product(l).last == 1
            && Product(l).at(o, 0) == 0.0 && Cat(Products(ls)).at(o, 0) == 1.0
  {
    hide LeadJoinable, JoinLora, Total;
    var l, y, o: seq<nat> := JoinLora(ls).value, ls[1], [0, 0];
    EmptyJoinedTerm(ls, l, o);
    assert FirstDims(Seconds(ls)) == [0, 2];
    PositionTotal();
    assert Inside(o, [2, 1]) && l.b.outer == [2, 1];
    assert Term(y, o, 0, 0) == 1.0;
    OneTerm(l, o, 0);
    OneTerm(y, o, 0);
    assert Products(ls)[0].outer[0] == 0 && Products(ls)[1].outer[0] == 2;
    hide Product, Term;
    SecondOnly(Products(ls), o, 0);
  }

  // An empty first tensor has no positions.
  lemma SecondOnly(xs: seq<Tensor>, o: seq<nat>, k: nat)
    requires |xs| == 2 && Dimensioned(xs) && xs[0].outer[0] == 0 && o != [] && o[0] < xs[1].outer[0]
    ensures CatAt(xs, o, k) == xs[1].at(o, k)
  {
    assert [o[0] - 0] + o[1..] == o;
  }

  lemma PositionTotal()
    ensures Total([0, 2]) == 2
  {
    assert [0, 2][..1] == [0] && [0][..0] == [];
  }

  lemma EmptyJoinedTerm(ls: seq<Lora>, l: Lora, o: seq<nat>)
    requires ls == [Constant(0, 0.0, 0.0), Constant(2, 1.0, 1.0)] && o == [0, 0]
    requires l == Lora(Cat(Firsts(ls)), Cat(Seconds(ls))) && Valid(l)
    ensures Term(l, o, 0, 0) == 0.0
  {
    var row := Row(l.a.outer[..|l.a.outer| - 1], o, 0);
    assert row[0] == 0;
    assert Firsts(ls)[0].outer[0] == 1;
    assert CatAt(Firsts(ls), row, 0) == Firsts(ls)[0].at(row, 0) == 0.0;
  }

  lemma OneTerm(l: Lora, o: seq<nat>, k: nat)
    requires Valid(l) && l.b.last == 1
    ensures Product(l).at(o, k) == Term(l, o, k, 0)
  {
    hide Term;
  }

  // ---------- Stacking ----------

  // Tensors of one shape under a new first dimension.
  function Stack(xs: seq<Tensor>): Tensor
    requires xs != []
  {
    Tensor([|xs|] + xs[0].outer, xs[0].last,
      (o: seq<nat>, k: nat) => if o != [] && o[0] < |xs| then xs[o[0]].at(o[1..], k) else 0.0)
  }

  predicate OneShape(xs: seq<Tensor>) {
    xs != [] && forall i :: 0 <= i < |xs| ==> xs[i].outer == xs[0].outer && xs[i].last == xs[0].last
  }

  function StackDense(xs: seq<Tensor>): Result<Tensor> {
    if OneShape(xs) then Ok(Stack(xs)) else Error
  }

  function StackLora(ls: seq<Lora>): Result<Lora> {
    match (StackDense(Firsts(ls)), StackDense(Seconds(ls)))
    case (Ok(a), Ok(b)) => MakeLora(a, b)
    case (_, _) => Error
  }

  lemma StackSame(xs: seq<Tensor>, ys: seq<Tensor>)
    requires |xs| == |ys| && OneShape(xs) && forall i :: 0 <= i < |xs| ==> Same(xs[i], ys[i])
    ensures OneShape(ys) && Same(Stack(xs), Stack(ys))
  {
    assert Same(xs[0], ys[0]);
    forall o, k: nat | Inside(o, [|xs|] + xs[0].outer) && k < xs[0].last
      ensures xs[o[0]].at(o[1..], k) == ys[o[0]].at(o[1..], k)
    {
      InsideCons(o, [|xs|] + xs[0].outer);
      assert Inside(o[1..], xs[o[0]].outer);
    }
  }

  // Stacking adapters stacks their products.
  lemma StackRefines(ls: seq<Lora>)
    requires AllValid(ls) && (forall i :: 0 <= i < |ls| ==> UnitLead(ls[i])) && StackLora(ls).Ok?
    ensures Compatible(StackLora(ls).value) && OneShape(Products(ls))
    ensures Same(Product(StackLora(ls).value), Stack(Products(ls)))
  {
    hide Term;
    var l := StackLora(ls).value;
    StackShapes(ls);
    forall i | 1 <= i < |l.a.outer| - 1
      ensures l.a.outer[i] == 1
    {
      LeadIsUnit(ls[0], i - 1);
    }
    forall o, k: nat | Inside(o, l.b.outer) && k < l.a.last
      ensures Product(l).at(o, k) == Product(ls[o[0]]).at(o[1..], k)
    {
      forall t: nat | t < l.b.last
        ensures Term(l, o, k, t) == Term(ls[o[0]], o[1..], k, t)
      {
        StackedTerm(ls, o, k, t);
      }
      SumSame(l.b.last, (t: nat) => Term(l, o, k, t), (t: nat) => Term(ls[o[0]], o[1..], k, t));
    }
  }

  lemma StackShapes(ls: seq<Lora>)
    requires AllValid(ls) && StackLora(ls).Ok?
    ensures ls != [] && OneShape(Products(ls))
    ensures forall i :: 0 <= i < |ls| ==> ls[i].a.outer == ls[0].a.outer && ls[i].b.outer == ls[0].b.outer
    ensures forall i :: 0 <= i < |ls| ==> ls[i].a.last == ls[0].a.last && ls[i].b.last == ls[0].b.last
  {
    hide Term;
    forall i | 0 <= i < |ls|
      ensures ls[i].a.outer == ls[0].a.outer && ls[i].b.outer == ls[0].b.outer
      ensures ls[i].a.last == ls[0].a.last && ls[i].b.last == ls[0].b.last
    {
      assert Firsts(ls)[i].outer == Firsts(ls)[0].outer && Seconds(ls)[i].outer == Seconds(ls)[0].outer;
    }
  }

  lemma StackedTerm(ls: seq<Lora>, o: seq<nat>, k: nat, t: nat)
    requires AllValid(ls) && (forall i :: 0 <= i < |ls| ==> UnitLead(ls[i])) && StackLora(ls).Ok?
    requires o != [] && o[0] < |ls|
    ensures Term(StackLora(ls).value, o, k, t) == Term(ls[o[0]], o[1..], k, t)
  {
    StackShapes(ls);
    var l, m := StackLora(ls).value, ls[o[0]];
    var lead := m.a.outer[..|m.a.outer| - 1];
    assert l.a.outer[..|l.a.outer| - 1] == [|ls|] + lead;
    UnitRow(lead, o[1..], t);
    assert Row([|ls|] + lead, o, t) == [o[0]] + (Zeros(|lead|) + [t]);
    assert (o + [t])[1..] == o[1..] + [t];
  }
}
