/** common_chat_peg_builder::permute (common/chat-peg-parser.cpp:241-276): one rule for each set of parsers
    still to come, kept in a table, so that together they take the parsers in every order. */
module ArgumentOrders {

  // More parsers than this are taken in the given order only (common/chat-peg-parser.h).
  const MAX_PERMUTE := 6

  // What is built: nothing, one parser and then the rest, alternatives, or a named rule.
  datatype Grammar =
    | Eps
    | Then(parser: nat, rest: Grammar)
    | Choice(alternatives: seq<Grammar>)
    | Rule(remaining: set<nat>, body: Grammar)

  // The orders in which a grammar can take its parsers.
  ghost predicate Takes(g: Grammar, order: seq<nat>) {
    match g
    case Eps => order == []
    case Then(p, rest) => order != [] && order[0] == p && Takes(rest, order[1..])
    case Choice(gs) => exists i :: 0 <= i < |gs| && Takes(gs[i], order)
    case Rule(_, body) => Takes(body, order)
  }

  // Every element of the set, once.
  predicate IsOrder(order: seq<nat>, elements: set<nat>) {
    if order == [] then elements == {}
    else order[0] in elements && IsOrder(order[1..], elements - {order[0]})
  }

  predicate Distinct(order: seq<nat>) {
    forall i, j :: 0 <= i < j < |order| ==> order[i] != order[j]
  }

  ghost predicate Lists(order: seq<nat>, elements: set<nat>) {
    forall x: nat :: x in order <==> x in elements
  }

  // An order lists the set without repetition.
  lemma {:induction false} OrderLists(order: seq<nat>, elements: set<nat>)
    ensures IsOrder(order, elements) <==> Distinct(order) && Lists(order, elements)
    decreases |order|
  {
    if order == [] {
      assert elements == {} <==> Lists([], elements);
    } else {
      OrderLists(order[1..], elements - {order[0]});
      FirstApart(order[0], order[1..], elements);
      assert order == [order[0]] + order[1..];
    }
  }

  lemma FirstApart(first: nat, rest: seq<nat>, elements: set<nat>)
    ensures Distinct([first] + rest) && Lists([first] + rest, elements)
       <==> first in elements && Distinct(rest) && Lists(rest, elements - {first})
  {
    var order := [first] + rest;
    assert forall i :: 0 <= i < |rest| ==> rest[i] == order[i + 1];
    assert forall x :: x in order <==> x == first || x in rest;
    DistinctFirst(first, rest);
  }

  lemma DistinctFirst(first: nat, rest: seq<nat>)
    ensures Distinct([first] + rest) <==> Distinct(rest) && first !in rest
  {
    var order := [first] + rest;
    if Distinct(order) {
      forall i, j | 0 <= i < j < |rest|
        ensures rest[i] != rest[j]
      {
        assert order[i + 1] != order[j + 1];
      }
      forall k | 0 <= k < |rest|
        ensures rest[k] != first
      {
        assert order[0] != order[k + 1];
      }
    }
    if Distinct(rest) && first !in rest {
      forall i, j | 0 <= i < j < |order|
        ensures order[i] != order[j]
      {
        assert order[j] == rest[j - 1];
      }
    }
  }

  ghost predicate TakesOrdersOf(g: Grammar, elements: set<nat>) {
    forall order :: Takes(g, order) <==> IsOrder(order, elements)
  }

  // Alternatives for the parsers below `n`.
  ghost predicate TakesOrdersBelow(g: Grammar, elements: set<nat>, n: nat) {
    forall order :: Takes(g, order) <==> IsOrder(order, elements) && order != [] && order[0] < n
  }

  lemma OneMore(gs: seq<Grammar>, elements: set<nat>, n: nat, rest: Grammar)
    requires TakesOrdersBelow(Choice(gs), elements, n) && n in elements && TakesOrdersOf(rest, elements - {n})
    ensures TakesOrdersBelow(Choice(gs + [Then(n, rest)]), elements, n + 1)
  {
    forall order
      ensures Takes(Choice(gs + [Then(n, rest)]), order)
              <==> IsOrder(order, elements) && order != [] && order[0] < n + 1
    {
      TakesMore(gs, Then(n, rest), order);
      assert order != [] ==> (Takes(rest, order[1..]) <==> IsOrder(order[1..], elements - {n}));
      assert Takes(Choice(gs), order) <==> IsOrder(order, elements) && order != [] && order[0] < n;
    }
  }

  lemma TakesMore(gs: seq<Grammar>, g: Grammar, order: seq<nat>)
    ensures Takes(Choice(gs + [g]), order) <==> Takes(Choice(gs), order) || Takes(g, order)
  {
    var all := gs + [g];
    if i :| 0 <= i < |gs| && Takes(gs[i], order) {
      assert Takes(all[i], order);
    }
    if Takes(g, order) {
      assert Takes(all[|gs|], order);
    }
  }

  lemma NoMore(g: Grammar, elements: set<nat>, n: nat)
    requires TakesOrdersBelow(g, elements, n) && n !in elements
    ensures TakesOrdersBelow(g, elements, n + 1)
  {
  }

  lemma Complete(g: Grammar, elements: set<nat>, n: nat)
    requires TakesOrdersBelow(g, elements, n) && elements != {} && forall x :: x in elements ==> x < n
    ensures TakesOrdersOf(Rule(elements, g), elements)
  {
  }

  class RuleTable {
    var rules: map<set<nat>, Grammar>

    constructor ()
      ensures rules == map[]
    {
      rules := map[];
    }

    ghost predicate Valid()
      reads this
    {
      forall r :: r in rules ==> TakesOrdersOf(rules[r], r)
    }

    // The rule for the parsers still to come, from the table or built and entered there.
    method RemainingOf(remaining: set<nat>, count: nat) returns (g: Grammar)
      requires Valid() && forall x :: x in remaining ==> x < count
      modifies this
      ensures Valid() && TakesOrdersOf(g, remaining)
      ensures forall r :: r in old(rules) ==> r in rules && rules[r] == old(rules)[r]
      decreases |remaining|
    {
      if remaining == {} {
        NothingRemains();
        return Eps;
      }
      if remaining in rules {
        return rules[remaining];
      }
      var alternatives: seq<Grammar> := [];
      for i := 0 to count
        invariant Valid() && TakesOrdersBelow(Choice(alternatives), remaining, i)
        invariant forall r :: r in old(rules) ==> r in rules && rules[r] == old(rules)[r]
      {
        if i in remaining {
          var rest := RemainingOf(remaining - {i}, count);
          OneMore(alternatives, remaining, i, rest);
          alternatives := alternatives + [Then(i, rest)];
        } else {
          NoMore(Choice(alternatives), remaining, i);
        }
      }
      g := Rule(remaining, Choice(alternatives));
      Complete(Choice(alternatives), remaining, count);
      if remaining !in rules {
        rules := rules[remaining := g];
      }
      g := rules[remaining];
    }
  }

  lemma NothingRemains()
    ensures TakesOrdersOf(Eps, {})
  {
  }

  // The parsers one after the other.
  function Sequence(from: nat, count: nat): Grammar
    requires from <= count
    decreases count - from
  {
    if from == count then Eps else Then(from, Sequence(from + 1, count))
  }

  function Counting(from: nat, count: nat): (r: seq<nat>)
    requires from <= count
    ensures |r| == count - from
  {
    seq(count - from, i requires 0 <= i < count - from => from + i)
  }

  lemma {:induction false} SequenceTakes(from: nat, count: nat, order: seq<nat>)
    requires from <= count
    ensures Takes(Sequence(from, count), order) <==> order == Counting(from, count)
    decreases count - from
  {
    if from < count {
      assert Counting(from, count) == [from] + Counting(from + 1, count);
      if order != [] {
        SequenceTakes(from + 1, count, order[1..]);
        assert order == [order[0]] + order[1..];
      }
    }
  }

  function Below(n: nat): (r: set<nat>)
    ensures forall x: nat :: x in r <==> x < n
  {
    if n == 0 then {} else Below(n - 1) + {n - 1}
  }

  ghost predicate TakesOnly(g: Grammar, order: seq<nat>) {
    forall o :: Takes(g, o) <==> o == order
  }

  // Up to six parsers are taken in every order, and each exactly once; more of them in the given order.
  method Permute(count: nat) returns (g: Grammar)
    ensures count <= MAX_PERMUTE ==> TakesOrdersOf(g, Below(count))
    ensures count > MAX_PERMUTE ==> TakesOnly(g, Counting(0, count))
  {
    hide Takes, IsOrder;
    if count == 0 {
      NothingRemains();
      return Eps;
    }
    if count == 1 || count > MAX_PERMUTE {
      forall order
        ensures Takes(Sequence(0, count), order) <==> order == Counting(0, count)
      {
        SequenceTakes(0, count, order);
      }
      if count == 1 {
        OnlyOne(Sequence(0, 1));
      }
      return Sequence(0, count);
    }
    var table := new RuleTable();
    g := table.RemainingOf(Below(count), count);
  }

  lemma OnlyOne(g: Grammar)
    requires TakesOnly(g, Counting(0, 1))
    ensures TakesOrdersOf(g, Below(1))
  {
    hide Takes;
    assert Counting(0, 1) == [0] && Below(1) == {0};
    forall order
      ensures order == [0] <==> IsOrder(order, {0})
    {
      OnlyOrder(order);
    }
  }

  lemma OnlyOrder(order: seq<nat>)
    ensures order == [0] <==> IsOrder(order, {0})
  {
    if order != [] {
      assert {0} - {0} == {};
      assert order == [order[0]] + order[1..];
    }
  }
}
