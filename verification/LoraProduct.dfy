/** An adapter kept as two factors, standing for their product (LoraTorchTensor,
    convert_lora_to_gguf.py:34-53, 121-124), and why re-indexing the second factor re-indexes the product. */
module LoraProduct {
  import opened Outcomes
  import opened Tensors

  datatype Lora = Lora(a: Tensor, b: Tensor)

  // What the constructor asserts.
  predicate Valid(l: Lora) {
    |l.a.outer| == |l.b.outer| >= 1 && l.a.outer[|l.a.outer| - 1] == l.b.last
  }

  function MakeLora(a: Tensor, b: Tensor): Result<Lora> {
    if Valid(Lora(a, b)) then Ok(Lora(a, b)) else Error
  }

  // Every leading dimension of the first factor is 1.
  predicate UnitLead(l: Lora) {
    Valid(l) && AllOnes(l.a.outer[..|l.a.outer| - 1])
  }

  predicate AllOnes(shape: seq<nat>) {
    forall i :: 0 <= i < |shape| ==> shape[i] == 1
  }

  // ---------- The product ----------

  function Sum(n: nat, f: nat -> real): real {
    if n == 0 then 0.0 else Sum(n - 1, f) + f(n - 1)
  }

  lemma {:induction false} SumSame(n: nat, f: nat -> real, g: nat -> real)
    requires forall t :: 0 <= t < n ==> f(t) == g(t)
    ensures Sum(n, f) == Sum(n, g)
  {
    if n > 0 {
      SumSame(n - 1, f, g);
    }
  }

  lemma {:induction false} SumScaled(n: nat, c: real, f: nat -> real, g: nat -> real)
    requires forall t :: 0 <= t < n ==> g(t) == c * f(t)
    ensures Sum(n, g) == c * Sum(n, f)
  {
    if n > 0 {
      SumScaled(n - 1, c, f, g);
      assert c * (Sum(n - 1, f) + f(n - 1)) == c * Sum(n - 1, f) + c * f(n - 1);
    } else {
      assert c * 0.0 == 0.0;
    }
  }

  // What makes it the sum: it adds up, and of a single number it is that number.
  lemma {:induction false} SumAdded(n: nat, f: nat -> real, g: nat -> real, h: nat -> real)
    requires forall t :: 0 <= t < n ==> h(t) == f(t) + g(t)
    ensures Sum(n, h) == Sum(n, f) + Sum(n, g)
  {
    if n > 0 {
      SumAdded(n - 1, f, g, h);
    }
  }

  lemma {:induction false} SumOnly(n: nat, f: nat -> real, j: nat)
    requires j < n && forall t :: 0 <= t < n && t != j ==> f(t) == 0.0
    ensures Sum(n, f) == f(j)
  {
    if j < n - 1 {
      SumOnly(n - 1, f, j);
    } else {
      SumNone(n - 1, f);
    }
  }

  lemma {:induction false} SumNone(n: nat, f: nat -> real)
    requires forall t :: 0 <= t < n ==> f(t) == 0.0
    ensures Sum(n, f) == 0.0
  {
    if n > 0 {
      SumNone(n - 1, f);
    }
  }

  function Zeros(n: nat): seq<nat> {
    seq(n, _ => 0)
  }

  // Row `t` of the first factor for index `o` of the second: leading dimensions of size 1 are broadcast.
  function Row(lead: seq<nat>, o: seq<nat>, t: nat): seq<nat> {
    seq(|lead|, i requires 0 <= i < |lead| => if lead[i] == 1 then 0 else Coordinate(o, i)) + [t]
  }

  function Term(l: Lora, o: seq<nat>, k: nat, t: nat): real
    requires Valid(l)
  {
    l.b.at(o, t) * l.a.at(Row(l.a.outer[..|l.a.outer| - 1], o, t), k)
  }

  // B @ A.
  function Product(l: Lora): Tensor
    requires Valid(l)
  {
    Tensor(l.b.outer, l.a.last, (o: seq<nat>, k: nat) => Sum(l.b.last, (t: nat) => Term(l, o, k, t)))
  }

  // An element of the product: row `o` of the second factor times column `k` of the first, whose leading
  // dimensions of size 1 are broadcast.
  lemma ProductElement(l: Lora, o: seq<nat>, k: nat, lead: seq<nat>, terms: nat -> real)
    requires Valid(l) && |o| == |l.b.outer| && Inside(lead, l.a.outer[..|o| - 1])
    requires forall i :: 0 <= i < |lead| ==> lead[i] == o[i] || l.a.outer[i] == 1
    requires forall t :: 0 <= t < l.b.last ==> terms(t) == l.b.at(o, t) * l.a.at(lead + [t], k)
    ensures Product(l).at(o, k) == Sum(l.b.last, terms)
  {
    var n := |o| - 1;
    forall t: nat | t < l.b.last
      ensures Term(l, o, k, t) == terms(t)
    {
      assert Row(l.a.outer[..n], o, t) == lead + [t];
    }
    SumSame(l.b.last, (t: nat) => Term(l, o, k, t), terms);
  }

  // The shape property.
  function Shape(l: Lora): seq<nat>
    requires Valid(l)
  {
    l.b.outer + [l.a.last]
  }

  lemma UnitRow(lead: seq<nat>, o: seq<nat>, t: nat)
    requires AllOnes(lead)
    ensures Row(lead, o, t) == Zeros(|lead|) + [t]
  {
  }

  // The rows of the first factor that its unit leading dimensions leave.
  function RowOf(a: Tensor, t: nat, k: nat): real
    requires a.outer != []
  {
    a.at(Zeros(|a.outer| - 1) + [t], k)
  }

  lemma TermUnit(l: Lora, o: seq<nat>, k: nat, t: nat)
    requires UnitLead(l)
    ensures Term(l, o, k, t) == l.b.at(o, t) * RowOf(l.a, t, k)
  {
    UnitRow(l.a.outer[..|l.a.outer| - 1], o, t);
  }

  // ---------- Re-indexing ----------

  // `a'` holds the columns `ps` of the rows of `a`, behind unit dimensions.
  ghost predicate SameRows(a': Tensor, a: Tensor, ps: seq<nat>, rank: nat)
    requires a'.outer != [] && a.outer != []
  {
    a'.last == |ps| && forall t: nat, k: nat :: t < rank && k < |ps| ==> RowOf(a', t, k) == RowOf(a, t, ps[k])
  }

  // Re-indexing the second factor, and choosing columns of the first, does the same to the product.
  lemma ProductReindexed(l: Lora, l': Lora, outer: seq<nat>, source: seq<nat> -> seq<nat>, ps: seq<nat>)
    requires UnitLead(l) && UnitLead(l') && l'.b == View(l.b, outer, source)
    requires SameRows(l'.a, l.a, ps, l.b.last)
    ensures Same(Product(l'), Columns(View(Product(l), outer, source), ps))
  {
    hide Term, RowOf, Valid;
    forall o, k: nat | Inside(o, outer) && k < |ps|
      ensures Product(l').at(o, k) == Product(l).at(source(o), ps[k])
    {
      forall t: nat | t < l.b.last
        ensures Term(l', o, k, t) == Term(l, source(o), ps[k], t)
      {
        TermUnit(l', o, k, t);
        TermUnit(l, source(o), ps[k], t);
      }
      SumSame(l.b.last, (t: nat) => Term(l', o, k, t), (t: nat) => Term(l, source(o), ps[k], t));
    }
  }
}
