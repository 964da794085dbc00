/** Reordering of tool results by the order of the calls they answer. */
module ToolResultOrder {

  // A chat message: its role, the ids of the calls an assistant makes, the call a tool result
  // answers, and the rest of it.
  datatype Message = Message(role: string, callIds: seq<string>, toolCallId: string, content: string)

  type CallOrder = map<string, nat>

  predicate IsTool(m: Message) {
    m.role == "tool"
  }

  // The roles that make up a block, whose tool results are sorted together.
  predicate InBlock(m: Message) {
    m.role == "user" || m.role == "tool"
  }

  predicate MakesCalls(m: Message) {
    m.role == "assistant" && m.callIds != []
  }

  // The index of every call by its id; empty ids are skipped and a repeated id has its last index.
  function OrderOf(ids: seq<string>): CallOrder {
    if ids == [] then map[]
    else
      var last := |ids| - 1;
      if ids[last] == "" then OrderOf(ids[..last]) else OrderOf(ids[..last])[ids[last] := last]
  }

  // The last index of every id that is not empty, and nothing else.
  ghost predicate LastIndices(order: CallOrder, ids: seq<string>) {
    && (forall id :: id in order <==> id != "" && id in ids)
    && (forall id :: id in order ==> LastIndex(order[id], id, ids))
  }

  predicate LastIndex(i: nat, id: string, ids: seq<string>) {
    i < |ids| && ids[i] == id && forall j :: i < j < |ids| ==> ids[j] != id
  }

  lemma {:induction false} OrderOfLast(ids: seq<string>)
    ensures LastIndices(OrderOf(ids), ids)
    decreases |ids|
  {
    if ids != [] {
      var init, last := ids[..|ids| - 1], ids[|ids| - 1];
      OrderOfLast(init);
      assert ids == init + [last];
      forall id | id in OrderOf(ids)
        ensures LastIndex(OrderOf(ids)[id], id, ids)
      {
        assert id != last ==> LastIndex(OrderOf(init)[id], id, init);
      }
    }
  }

  function NextOrder(order: CallOrder, m: Message): CallOrder {
    if MakesCalls(m) then OrderOf(m.callIds) else order
  }

  function Key(order: CallOrder, m: Message): nat {
    if m.toolCallId in order then order[m.toolCallId] else 0
  }

  // ---------- Stable sorting ----------

  function Insert(order: CallOrder, x: Message, ms: seq<Message>): seq<Message> {
    if ms == [] then [x]
    else if Key(order, x) <= Key(order, ms[0]) then [x] + ms
    else [ms[0]] + Insert(order, x, ms[1..])
  }

  function StableSort(order: CallOrder, ms: seq<Message>): seq<Message> {
    if ms == [] then [] else Insert(order, ms[0], StableSort(order, ms[1..]))
  }

  predicate Sorted(order: CallOrder, ms: seq<Message>) {
    forall i, j :: 0 <= i < j < |ms| ==> Key(order, ms[i]) <= Key(order, ms[j])
  }

  // The messages with a given key, in order.
  function WithKey(order: CallOrder, k: nat, ms: seq<Message>): seq<Message> {
    if ms == [] then []
    else (if Key(order, ms[0]) == k then [ms[0]] else []) + WithKey(order, k, ms[1..])
  }

  lemma {:induction false} InsertMultiset(order: CallOrder, x: Message, ms: seq<Message>)
    ensures multiset(Insert(order, x, ms)) == multiset(ms) + multiset{x}
  {
    hide Key;
    if ms != [] {
      InsertMultiset(order, x, ms[1..]);
      assert ms == [ms[0]] + ms[1..];
    }
  }

  lemma SortedCons(order: CallOrder, x: Message, ms: seq<Message>)
    requires Sorted(order, ms) && forall m :: m in ms ==> Key(order, x) <= Key(order, m)
    ensures Sorted(order, [x] + ms)
  {
    hide Key;
  }

  lemma InsertCases(order: CallOrder, x: Message, ms: seq<Message>)
    ensures Insert(order, x, ms)
         == if ms == [] then [x]
            else if Key(order, x) <= Key(order, ms[0]) then [x] + ms
            else [ms[0]] + Insert(order, x, ms[1..])
  {
  }

  lemma {:induction false} InsertSorted(order: CallOrder, x: Message, ms: seq<Message>)
    requires Sorted(order, ms)
    ensures Sorted(order, Insert(order, x, ms))
  {
    hide Key, Insert;
    InsertCases(order, x, ms);
    if ms == [] {
    } else {
      assert forall m :: m in ms ==> Key(order, ms[0]) <= Key(order, m);
      if Key(order, x) <= Key(order, ms[0]) {
        SortedCons(order, x, ms);
      } else {
        InsertSorted(order, x, ms[1..]);
        InsertMultiset(order, x, ms[1..]);
        var r := Insert(order, x, ms[1..]);
        assert forall m :: m in r ==> m in multiset(r) && (m == x || m in multiset(ms[1..]));
        SortedCons(order, ms[0], r);
      }
    }
  }

  lemma WithKeyCons(order: CallOrder, k: nat, m: Message, ms: seq<Message>)
    ensures WithKey(order, k, [m] + ms) == (if Key(order, m) == k then [m] else []) + WithKey(order, k, ms)
  {
    hide Key;
    assert ([m] + ms)[1..] == ms;
  }

  lemma {:induction false} InsertWithKey(order: CallOrder, x: Message, ms: seq<Message>, k: nat)
    requires Sorted(order, ms)
    ensures WithKey(order, k, Insert(order, x, ms)) == (if Key(order, x) == k then [x] else []) + WithKey(order, k, ms)
    decreases |ms|
  {
    hide Key, WithKey, Insert;
    InsertCases(order, x, ms);
    if ms == [] || Key(order, x) <= Key(order, ms[0]) {
      assert [x] + [] == [x];
      WithKeyCons(order, k, x, ms);
    } else {
      var m, tail := ms[0], ms[1..];
      InsertWithKey(order, x, tail, k);
      WithKeyCons(order, k, m, Insert(order, x, tail));
      WithKeyCons(order, k, m, tail);
      assert ms == [m] + tail;
      var first, second := if Key(order, m) == k then [m] else [], if Key(order, x) == k then [x] else [];
      assert first == [] || second == [];
      assert first + (second + WithKey(order, k, tail)) == second + (first + WithKey(order, k, tail));
    }
  }

  // Sorting is by key, keeps the messages, and keeps the order of messages with equal keys.
  lemma {:induction false} StableSortCorrect(order: CallOrder, ms: seq<Message>)
    ensures Sorted(order, StableSort(order, ms))
    ensures multiset(StableSort(order, ms)) == multiset(ms)
    ensures |StableSort(order, ms)| == |ms|
    ensures forall k :: WithKey(order, k, StableSort(order, ms)) == WithKey(order, k, ms)
  {
    if ms != [] {
      StableSortCorrect(order, ms[1..]);
      var r := StableSort(order, ms[1..]);
      InsertSorted(order, ms[0], r);
      InsertMultiset(order, ms[0], r);
      assert ms == [ms[0]] + ms[1..];
      forall k
        ensures WithKey(order, k, StableSort(order, ms)) == WithKey(order, k, ms)
      {
        InsertWithKey(order, ms[0], r, k);
      }
      assert |multiset(StableSort(order, ms))| == |multiset(ms)|;
    }
  }

  // A sorted list is left alone.
  lemma {:induction false} StableSortSorted(order: CallOrder, ms: seq<Message>)
    requires Sorted(order, ms)
    ensures StableSort(order, ms) == ms
  {
    if ms != [] {
      StableSortSorted(order, ms[1..]);
      assert ms == [ms[0]] + ms[1..];
      assert |ms| > 1 ==> Key(order, ms[0]) <= Key(order, ms[1]);
    }
  }

  // ---------- One block ----------

  function Tools(ms: seq<Message>): seq<Message> {
    if ms == [] then [] else (if IsTool(ms[0]) then [ms[0]] else []) + Tools(ms[1..])
  }

  // The block with its tool results replaced, in order, by the given ones.
  function Refill(ms: seq<Message>, tools: seq<Message>): (r: seq<Message>)
    requires |tools| == |Tools(ms)|
    ensures |r| == |ms|
  {
    if ms == [] then []
    else if IsTool(ms[0]) then [tools[0]] + Refill(ms[1..], tools[1..])
    else [ms[0]] + Refill(ms[1..], tools)
  }

  function SortBlock(order: CallOrder, block: seq<Message>): (r: seq<Message>)
    ensures |r| == |block|
  {
    StableSortCorrect(order, Tools(block));
    Refill(block, Results(order, block))
  }

  lemma {:induction false} ToolsAreTools(ms: seq<Message>)
    ensures forall m :: m in Tools(ms) ==> IsTool(m)
  {
    if ms != [] {
      ToolsAreTools(ms[1..]);
    }
  }

  // Refilling touches tool positions only, and puts there exactly the given results.
  lemma {:induction false} RefillCorrect(ms: seq<Message>, tools: seq<Message>)
    requires |tools| == |Tools(ms)| && forall m :: m in tools ==> IsTool(m)
    ensures forall i :: 0 <= i < |ms| ==>
            if IsTool(ms[i]) then IsTool(Refill(ms, tools)[i]) else Refill(ms, tools)[i] == ms[i]
    ensures Tools(Refill(ms, tools)) == tools
  {
    if ms != [] {
      var r := Refill(ms, tools);
      if IsTool(ms[0]) {
        assert forall m :: m in tools[1..] ==> m in tools;
        RefillCorrect(ms[1..], tools[1..]);
        assert r[1..] == Refill(ms[1..], tools[1..]);
        assert tools == [tools[0]] + tools[1..] && tools[0] in tools;
      } else {
        RefillCorrect(ms[1..], tools);
        assert r[1..] == Refill(ms[1..], tools);
      }
    }
  }

  lemma {:induction false} RefillSame(ms: seq<Message>)
    ensures Refill(ms, Tools(ms)) == ms
  {
    if ms != [] {
      RefillSame(ms[1..]);
      assert ms == [ms[0]] + ms[1..];
      if IsTool(ms[0]) {
        assert Tools(ms)[1..] == Tools(ms[1..]);
      } else {
        assert Tools(ms) == Tools(ms[1..]);
      }
    }
  }

  lemma RefillTool(ms: seq<Message>, tools: seq<Message>)
    requires ms != [] && IsTool(ms[0]) && |tools| == |Tools(ms)|
    ensures Tools(ms) == [ms[0]] + Tools(ms[1..])
    ensures Refill(ms, tools) == [tools[0]] + Refill(ms[1..], tools[1..])
  {
  }

  lemma RefillOther(ms: seq<Message>, tools: seq<Message>)
    requires ms != [] && !IsTool(ms[0]) && |tools| == |Tools(ms)|
    ensures Tools(ms) == Tools(ms[1..])
    ensures Refill(ms, tools) == [ms[0]] + Refill(ms[1..], tools)
  {
  }

  lemma {:induction false} RefillMultiset(ms: seq<Message>, tools: seq<Message>)
    requires |tools| == |Tools(ms)|
    ensures multiset(Refill(ms, tools)) + multiset(Tools(ms)) == multiset(ms) + multiset(tools)
  {
    assert Tools([]) == [];
    hide Tools, Refill;
    if ms != [] {
      assert ms == [ms[0]] + ms[1..];
      if IsTool(ms[0]) {
        RefillTool(ms, tools);
        RefillMultiset(ms[1..], tools[1..]);
        assert tools == [tools[0]] + tools[1..];
        AddBoth(multiset(Refill(ms[1..], tools[1..])), multiset(Tools(ms[1..])), multiset(ms[1..]),
                multiset(tools[1..]), multiset{tools[0]}, multiset{ms[0]});
      } else {
        RefillOther(ms, tools);
        RefillMultiset(ms[1..], tools);
        AddBoth(multiset(Refill(ms[1..], tools)), multiset(Tools(ms[1..])), multiset(ms[1..]), multiset(tools),
                multiset{ms[0]}, multiset{});
      }
    }
  }

  lemma AddBoth(a: multiset<Message>, b: multiset<Message>, c: multiset<Message>, d: multiset<Message>,
                x: multiset<Message>, y: multiset<Message>)
    requires a + b == c + d
    ensures (x + a) + (y + b) == (y + c) + (x + d)
    ensures y == multiset{} ==> (x + a) + b == (x + c) + d
  {
    assert (x + a) + (y + b) == (x + y) + (a + b);
    assert (y + c) + (x + d) == (x + y) + (c + d);
    assert (x + a) + b == x + (a + b);
    assert (x + c) + d == x + (c + d);
  }

  lemma Cancel(x: multiset<Message>, y: multiset<Message>, t: multiset<Message>)
    requires x + t == y + t
    ensures x == y
  {
    assert x == (x + t) - t;
  }

  ghost predicate SameRoles(x: seq<Message>, y: seq<Message>) {
    |x| == |y| && forall i :: 0 <= i < |x| ==> x[i].role == y[i].role
  }

  // The results of a block in their new order.
  function Results(order: CallOrder, block: seq<Message>): seq<Message> {
    if order == map[] then Tools(block) else StableSort(order, Tools(block))
  }

  lemma ResultsCorrect(order: CallOrder, block: seq<Message>)
    ensures multiset(Results(order, block)) == multiset(Tools(block)) && |Results(order, block)| == |Tools(block)|
    ensures forall m :: m in Results(order, block) ==> IsTool(m)
  {
    hide IsTool, StableSort;
    var tools := Tools(block);
    StableSortCorrect(order, tools);
    ToolsAreTools(block);
    forall m | m in Results(order, block)
      ensures IsTool(m)
    {
      assert m in multiset(Results(order, block));
      assert m in multiset(tools);
    }
  }

  // One block: roles and other messages stay where they are, and the results are the same ones,
  // stably sorted.
  lemma SortBlockCorrect(order: CallOrder, block: seq<Message>)
    ensures var r := SortBlock(order, block);
            && SameRoles(r, block)
            && (forall i :: 0 <= i < |block| && !IsTool(block[i]) ==> r[i] == block[i])
            && multiset(r) == multiset(block)
            && Tools(r) == Results(order, block)
  {
    hide Tools, StableSort, Refill;
    ResultsCorrect(order, block);
    RefillCorrect(block, Results(order, block));
    RefillMultiset(block, Results(order, block));
    Cancel(multiset(SortBlock(order, block)), multiset(block), multiset(Tools(block)));
  }

  lemma SortBlockTwice(order: CallOrder, block: seq<Message>)
    ensures SortBlock(order, SortBlock(order, block)) == SortBlock(order, block)
  {
    hide Tools, StableSort, Refill;
    var r := SortBlock(order, block);
    SortBlockCorrect(order, block);
    StableSortCorrect(order, Tools(block));
    StableSortSorted(order, StableSort(order, Tools(block)));
    RefillSame(r);
  }

  // ---------- Positions of the results in a block ----------

  function ToolPositions(ms: seq<Message>): (ps: seq<nat>)
    ensures forall k :: 0 <= k < |ps| ==> ps[k] < |ms| && IsTool(ms[ps[k]])
    ensures forall j, k :: 0 <= j < k < |ps| ==> ps[j] < ps[k]
  {
    if ms == [] then []
    else
      var last := |ms| - 1;
      ToolPositions(ms[..last]) + if IsTool(ms[last]) then [last] else []
  }

  lemma ToolsFirst(m: Message, rest: seq<Message>)
    ensures Tools([m] + rest) == (if IsTool(m) then [m] else []) + Tools(rest)
  {
    assert ([m] + rest)[1..] == rest;
  }

  lemma {:induction false} ToolsSnoc(ms: seq<Message>, m: Message)
    ensures Tools(ms + [m]) == Tools(ms) + if IsTool(m) then [m] else []
  {
    assert Tools([]) == [];
    hide Tools, IsTool;
    if ms == [] {
      assert ms + [m] == [m] + [];
      ToolsFirst(m, []);
    } else {
      assert ms + [m] == [ms[0]] + (ms[1..] + [m]) && ms == [ms[0]] + ms[1..];
      ToolsFirst(ms[0], ms[1..] + [m]);
      ToolsFirst(ms[0], ms[1..]);
      ToolsSnoc(ms[1..], m);
    }
  }

  lemma {:induction false} ToolsByPositions(ms: seq<Message>)
    ensures |Tools(ms)| == |ToolPositions(ms)|
    ensures forall k :: 0 <= k < |ToolPositions(ms)| ==> Tools(ms)[k] == ms[ToolPositions(ms)[k]]
    decreases |ms|
  {
    hide IsTool;
    if ms != [] {
      var last := |ms| - 1;
      assert ms == ms[..last] + [ms[last]];
      ToolsSnoc(ms[..last], ms[last]);
      ToolsByPositions(ms[..last]);
    }
  }

  lemma {:induction false} PositionsByRole(x: seq<Message>, y: seq<Message>)
    requires SameRoles(x, y)
    ensures ToolPositions(x) == ToolPositions(y)
    decreases |x|
  {
    if x != [] {
      PositionsByRole(x[..|x| - 1], y[..|y| - 1]);
    }
  }

  // A block is determined by its other messages and its results in order.
  lemma {:induction false} RefillUnique(ms: seq<Message>, r: seq<Message>)
    requires SameRoles(r, ms) && forall i :: 0 <= i < |ms| && !IsTool(ms[i]) ==> r[i] == ms[i]
    ensures |Tools(r)| == |Tools(ms)|
    ensures r == Refill(ms, Tools(r))
  {
    if ms != [] {
      RefillUnique(ms[1..], r[1..]);
      assert r == [r[0]] + r[1..];
      assert IsTool(r[0]) <==> IsTool(ms[0]);
      if IsTool(ms[0]) {
        assert Tools(r)[1..] == Tools(r[1..]);
      } else {
        assert Tools(r) == Tools(r[1..]);
      }
    }
  }

  // ---------- A whole conversation ----------

  // The length of the block in front of `ms`.
  function BlockLength(ms: seq<Message>): (n: nat)
    ensures n <= |ms|
    ensures forall i :: 0 <= i < n ==> InBlock(ms[i])
    ensures n < |ms| ==> !InBlock(ms[n])
  {
    if ms == [] || !InBlock(ms[0]) then 0 else 1 + BlockLength(ms[1..])
  }

  // Reference form: block after block, each by the calls of the last assistant before it.
  function Reordered(order: CallOrder, ms: seq<Message>): (r: seq<Message>)
    ensures |r| == |ms|
    decreases |ms|
  {
    if ms == [] then []
    else if InBlock(ms[0]) then
      var n := BlockLength(ms);
      SortBlock(order, ms[..n]) + Reordered(order, ms[n..])
    else [ms[0]] + Reordered(NextOrder(order, ms[0]), ms[1..])
  }

  method BuildOrder(ids: seq<string>) returns (order: CallOrder)
    ensures order == OrderOf(ids) && LastIndices(order, ids)
  {
    order := map[];
    for idx := 0 to |ids|
      invariant order == OrderOf(ids[..idx])
    {
      assert ids[..idx + 1][..idx] == ids[..idx];
      if ids[idx] != "" {
        order := order[ids[idx] := idx];
      }
    }
    assert ids[..|ids|] == ids;
    OrderOfLast(ids);
  }

  // `ms` with the first `k` of the values written to their positions, in turn.
  function Overwritten(ms: seq<Message>, ps: seq<nat>, vs: seq<Message>, k: nat): (r: seq<Message>)
    requires k <= |ps| == |vs| && forall j :: 0 <= j < |ps| ==> ps[j] < |ms|
    ensures |r| == |ms|
  {
    if k == 0 then ms else Overwritten(ms, ps, vs, k - 1)[ps[k - 1] := vs[k - 1]]
  }

  ghost predicate Increasing(ps: seq<nat>, n: nat) {
    (forall j :: 0 <= j < |ps| ==> ps[j] < n) && forall i, j :: 0 <= i < j < |ps| ==> ps[i] < ps[j]
  }

  lemma {:induction false} OverwrittenAt(ms: seq<Message>, ps: seq<nat>, vs: seq<Message>, k: nat, i: nat)
    requires Increasing(ps, |ms|) && k <= |ps| == |vs| && i < |ms|
    ensures forall j :: 0 <= j < k && ps[j] == i ==> Overwritten(ms, ps, vs, k)[i] == vs[j]
    ensures (forall j :: 0 <= j < k ==> ps[j] != i) ==> Overwritten(ms, ps, vs, k)[i] == ms[i]
  {
    if k > 0 {
      OverwrittenAt(ms, ps, vs, k - 1, i);
    }
  }

  // Rewrites the results of the block [start, end) of `messages`.
  method RewriteBlock(messages: seq<Message>, start: nat, end: nat, toolPositions: seq<nat>, order: CallOrder)
    returns (adjusted: seq<Message>)
    requires start <= end <= |messages| && PositionsIn(messages, start, end, toolPositions)
    requires order != map[]
    ensures adjusted == messages[..start] + SortBlock(order, messages[start..end]) + messages[end..]
  {
    hide StableSort, SortBlock, ToolPositions, Tools, Increasing, PositionsIn;
    PositionsBounds(messages, start, end, toolPositions);
    var results: seq<Message> := [];
    for k := 0 to |toolPositions|
      invariant |results| == k && forall j :: 0 <= j < k ==> results[j] == messages[toolPositions[j]]
    {
      results := results + [messages[toolPositions[k]]];
    }
    ResultsGathered(messages, start, end, toolPositions, results);
    results := StableSort(order, results);
    StableSortCorrect(order, Tools(messages[start..end]));
    adjusted := messages;
    for k := 0 to |toolPositions|
      invariant |results| == |toolPositions| && adjusted == Overwritten(messages, toolPositions, results, k)
    {
      adjusted := adjusted[toolPositions[k] := results[k]];
    }
    Rewritten(messages, start, end, toolPositions, order);
  }

  // The positions, in the whole list, of the results of a block.
  ghost predicate PositionsIn(ms: seq<Message>, start: nat, end: nat, positions: seq<nat>)
    requires start <= end <= |ms|
  {
    var ps := ToolPositions(ms[start..end]);
    |positions| == |ps| && forall k :: 0 <= k < |ps| ==> positions[k] == start + ps[k]
  }

  lemma PositionsBounds(ms: seq<Message>, start: nat, end: nat, positions: seq<nat>)
    requires start <= end <= |ms| && PositionsIn(ms, start, end, positions)
    ensures Increasing(positions, |ms|) && forall j :: 0 <= j < |positions| ==> start <= positions[j] < end
    ensures |positions| == |Tools(ms[start..end])|
  {
    hide ToolPositions;
    ToolsByPositions(ms[start..end]);
  }

  lemma ResultsGathered(ms: seq<Message>, start: nat, end: nat, positions: seq<nat>, results: seq<Message>)
    requires start <= end <= |ms| && PositionsIn(ms, start, end, positions)
    requires forall j :: 0 <= j < |positions| ==> positions[j] < |ms|
    requires |results| == |positions| && forall j :: 0 <= j < |positions| ==> results[j] == ms[positions[j]]
    ensures results == Tools(ms[start..end])
  {
    hide ToolPositions, Tools;
    ToolsByPositions(ms[start..end]);
  }

  lemma Rewritten(ms: seq<Message>, start: nat, end: nat, positions: seq<nat>, order: CallOrder)
    requires start <= end <= |ms| && PositionsIn(ms, start, end, positions) && order != map[]
    requires |positions| == |Results(order, ms[start..end])| && Increasing(positions, |ms|)
    requires forall j :: 0 <= j < |positions| ==> start <= positions[j] < end
    ensures Overwritten(ms, positions, Results(order, ms[start..end]), |positions|)
         == ms[..start] + SortBlock(order, ms[start..end]) + ms[end..]
  {
    hide Results, Tools, ToolPositions, Overwritten, SortBlock, Increasing, PositionsIn;
    var block, sorted := ms[start..end], Results(order, ms[start..end]);
    var adjusted := Overwritten(ms, positions, sorted, |positions|);
    forall i | 0 <= i < |ms| && !(start <= i < end)
      ensures adjusted[i] == ms[i]
    {
      OverwrittenAt(ms, positions, sorted, |positions|, i);
    }
    var r := adjusted[start..end];
    assert adjusted == adjusted[..start] + r + adjusted[end..];
    assert adjusted[..start] == ms[..start] && adjusted[end..] == ms[end..];
    BlockRewritten(ms, start, end, positions, order);
  }

  lemma BlockRewritten(ms: seq<Message>, start: nat, end: nat, positions: seq<nat>, order: CallOrder)
    requires start <= end <= |ms| && PositionsIn(ms, start, end, positions) && order != map[]
    requires |positions| == |Results(order, ms[start..end])| && Increasing(positions, |ms|)
    requires forall j :: 0 <= j < |positions| ==> start <= positions[j] < end
    ensures Overwritten(ms, positions, Results(order, ms[start..end]), |positions|)[start..end]
            == SortBlock(order, ms[start..end])
  {
    hide Results, Tools, ToolPositions, Overwritten, SortBlock, Increasing, IsTool;
    var block, sorted := ms[start..end], Results(order, ms[start..end]);
    var r := Overwritten(ms, positions, sorted, |positions|)[start..end];
    var ps := ToolPositions(block);
    forall k | 0 <= k < |ps|
      ensures r[ps[k]] == sorted[k] && IsTool(r[ps[k]])
    {
      OverwrittenAt(ms, positions, sorted, |positions|, positions[k]);
      ResultIsTool(order, block, k);
    }
    forall i | 0 <= i < |block| && !IsTool(block[i])
      ensures r[i] == block[i]
    {
      OverwrittenAt(ms, positions, sorted, |positions|, start + i);
    }
    hide PositionsIn;
    RolesKept(block, r);
    SettledBlock(order, block, r);
  }

  lemma ResultIsTool(order: CallOrder, block: seq<Message>, k: nat)
    requires k < |Results(order, block)|
    ensures IsTool(Results(order, block)[k])
  {
    hide Results, Tools, IsTool;
    ResultsCorrect(order, block);
    assert Results(order, block)[k] in Results(order, block);
  }

  lemma RolesKept(block: seq<Message>, r: seq<Message>)
    requires |r| == |block| && forall i :: 0 <= i < |block| && !IsTool(block[i]) ==> r[i] == block[i]
    requires forall k :: 0 <= k < |ToolPositions(block)| ==> IsTool(r[ToolPositions(block)[k]])
    ensures SameRoles(r, block)
  {
    hide ToolPositions;
    forall i | 0 <= i < |block| && IsTool(block[i])
      ensures IsTool(r[i])
    {
      ToolHasPosition(block, i);
    }
  }

  lemma {:induction false} ToolHasPosition(ms: seq<Message>, i: nat)
    requires i < |ms| && IsTool(ms[i])
    ensures exists k :: 0 <= k < |ToolPositions(ms)| && ToolPositions(ms)[k] == i
    decreases |ms|
  {
    var last := |ms| - 1;
    if i < last {
      ToolHasPosition(ms[..last], i);
      var k :| 0 <= k < |ToolPositions(ms[..last])| && ToolPositions(ms[..last])[k] == i;
      assert ToolPositions(ms)[k] == i;
    } else {
      assert ToolPositions(ms)[|ToolPositions(ms)| - 1] == i;
    }
  }

  lemma SettledBlock(order: CallOrder, block: seq<Message>, r: seq<Message>)
    requires SameRoles(r, block) && (forall i :: 0 <= i < |block| && !IsTool(block[i]) ==> r[i] == block[i])
    requires |Results(order, block)| == |ToolPositions(block)|
    requires forall k :: 0 <= k < |ToolPositions(block)| ==> r[ToolPositions(block)[k]] == Results(order, block)[k]
    ensures r == SortBlock(order, block)
  {
    hide Results, Tools, ToolPositions, Refill;
    PositionsByRole(r, block);
    ToolsByPositions(r);
    assert Tools(r) == Results(order, block);
    RefillUnique(block, r);
  }

  lemma ReorderedOther(order: CallOrder, ms: seq<Message>)
    requires ms != [] && !InBlock(ms[0])
    ensures Reordered(order, ms) == [ms[0]] + Reordered(NextOrder(order, ms[0]), ms[1..])
  {
  }

  lemma ReorderedBlock(order: CallOrder, ms: seq<Message>)
    requires ms != [] && InBlock(ms[0])
    ensures Reordered(order, ms) == SortBlock(order, ms[..BlockLength(ms)]) + Reordered(order, ms[BlockLength(ms)..])
    ensures BlockLength(ms) > 0
  {
    hide SortBlock;
  }

  lemma BlockLengthIs(ms: seq<Message>, n: nat)
    requires n <= |ms| && (forall i :: 0 <= i < n ==> InBlock(ms[i])) && (n < |ms| ==> !InBlock(ms[n]))
    ensures BlockLength(ms) == n
  {
    hide BlockLength, InBlock;
  }

  lemma PositionsSnoc(ms: seq<Message>, start: nat, end: nat)
    requires start <= end < |ms|
    ensures ToolPositions(ms[start..end + 1])
         == ToolPositions(ms[start..end]) + if IsTool(ms[end]) then [end - start] else []
  {
    assert ms[start..end + 1][..end - start] == ms[start..end];
  }

  lemma BlockFound(order: CallOrder, ms: seq<Message>, start: nat, end: nat)
    requires start < end <= |ms| && (forall k :: start <= k < end ==> InBlock(ms[k]))
    requires end < |ms| ==> !InBlock(ms[end])
    ensures Reordered(order, ms[start..]) == SortBlock(order, ms[start..end]) + Reordered(order, ms[end..])
  {
    hide SortBlock, Reordered;
    var rest := ms[start..];
    BlockLengthIs(rest, end - start);
    ReorderedBlock(order, rest);
    assert rest[..end - start] == ms[start..end] && rest[end - start..] == ms[end..];
  }

  // Nothing to sort: no known calls, or at most one result.
  lemma FewResults(order: CallOrder, block: seq<Message>)
    requires |ToolPositions(block)| <= 1 || order == map[]
    ensures SortBlock(order, block) == block
  {
    hide ToolPositions;
    ToolsByPositions(block);
    RefillSame(block);
    if order != map[] {
      StableSortSorted(order, Tools(block));
    }
  }

  // The end of the block that begins at `start`, and the positions of its results.
  method CollectBlock(messages: seq<Message>, start: nat) returns (runEnd: nat, toolPositions: seq<nat>)
    requires start < |messages| && InBlock(messages[start])
    ensures start < runEnd <= |messages| && PositionsIn(messages, start, runEnd, toolPositions)
    ensures forall k :: start <= k < runEnd ==> InBlock(messages[k])
    ensures runEnd < |messages| ==> !InBlock(messages[runEnd])
  {
    assert ToolPositions(messages[start..start]) == [];
    hide ToolPositions, InBlock, IsTool;
    toolPositions := [];
    runEnd := start;
    while runEnd < |messages| && InBlock(messages[runEnd])
      invariant start <= runEnd <= |messages| && PositionsIn(messages, start, runEnd, toolPositions)
      invariant runEnd > start || InBlock(messages[runEnd])
      invariant forall k :: start <= k < runEnd ==> InBlock(messages[k])
    {
      PositionsSnoc(messages, start, runEnd);
      if IsTool(messages[runEnd]) {
        toolPositions := toolPositions + [runEnd];
      }
      runEnd := runEnd + 1;
    }
  }

  // The first `i` messages are in place; the rest is as it was.
  ghost predicate Progress(messages: seq<Message>, adjusted: seq<Message>, order: CallOrder, i: nat) {
    && i <= |messages| == |adjusted| && adjusted[i..] == messages[i..]
    && Reordered(map[], messages) == adjusted[..i] + Reordered(order, adjusted[i..])
  }

  lemma ProgressOther(messages: seq<Message>, adjusted: seq<Message>, order: CallOrder, i: nat)
    requires Progress(messages, adjusted, order, i) && i < |messages| && !InBlock(adjusted[i])
    ensures Progress(messages, adjusted, NextOrder(order, adjusted[i]), i + 1)
  {
    hide Reordered, NextOrder;
    ReorderedOther(order, adjusted[i..]);
    assert adjusted[i..][1..] == adjusted[i + 1..] && adjusted[..i + 1] == adjusted[..i] + [adjusted[i]];
    assert messages[i + 1..] == messages[i..][1..];
  }

  lemma ProgressBlock(messages: seq<Message>, before: seq<Message>, after: seq<Message>, order: CallOrder, i: nat,
                      end: nat)
    requires Progress(messages, before, order, i) && i < end <= |before|
    requires forall k :: i <= k < end ==> InBlock(before[k])
    requires end < |before| ==> !InBlock(before[end])
    requires after == before[..i] + SortBlock(order, before[i..end]) + before[end..]
    ensures Progress(messages, after, order, end)
  {
    hide Reordered, SortBlock;
    BlockFound(order, before, i, end);
    BlockDone(before, after, i, end, SortBlock(order, before[i..end]), messages);
  }

  lemma ProgressEnds(messages: seq<Message>, adjusted: seq<Message>, order: CallOrder, i: nat)
    requires Progress(messages, adjusted, order, i) && i == |adjusted|
    ensures adjusted == Reordered(map[], messages)
  {
    assert Reordered(order, []) == [];
  }

  lemma PositionsCount(messages: seq<Message>, start: nat, end: nat, positions: seq<nat>)
    requires start <= end <= |messages| && PositionsIn(messages, start, end, positions)
    ensures |ToolPositions(messages[start..end])| == |positions|
  {
  }

  method SortToolResults(messages: seq<Message>) returns (adjusted: seq<Message>)
    ensures adjusted == Reordered(map[], messages) && ByCalls(messages, adjusted)
  {
    hide Reordered, SortBlock, OrderOf;
    assert messages[0..] == messages;
    assert Progress(messages, messages, map[], 0);
    hide ToolPositions, PositionsIn, Progress;
    adjusted := messages;
    var callOrder: CallOrder := map[];
    var i := 0;
    while i < |adjusted|
      invariant i <= |adjusted| == |messages| && Progress(messages, adjusted, callOrder, i)
    {
      var msg := adjusted[i];
      if InBlock(msg) {
        // neighbouring "user" and "tool" messages form the block to be sorted
        var runEnd, toolPositions := CollectBlock(adjusted, i);
        ghost var before := adjusted;
        if |toolPositions| > 1 && callOrder != map[] {
          adjusted := RewriteBlock(adjusted, i, runEnd, toolPositions, callOrder);
        } else {
          PositionsCount(adjusted, i, runEnd, toolPositions);
          FewResults(callOrder, adjusted[i..runEnd]);
          assert adjusted == adjusted[..i] + adjusted[i..runEnd] + adjusted[runEnd..];
        }
        ProgressBlock(messages, before, adjusted, callOrder, i, runEnd);
        i := runEnd;
      } else {
        ProgressOther(messages, adjusted, callOrder, i);
        if MakesCalls(msg) {
          callOrder := BuildOrder(msg.callIds);
        }
        i := i + 1;
      }
    }
    ProgressEnds(messages, adjusted, callOrder, i);
    ReorderedByCalls(messages);
    hide ByCalls;
  }

  lemma BlockDone(before: seq<Message>, after: seq<Message>, start: nat, end: nat, block: seq<Message>,
                  messages: seq<Message>)
    requires start <= end <= |before| == |messages| && |block| == end - start
    requires after == before[..start] + block + before[end..] && before[start..] == messages[start..]
    ensures |after| == |before| && after[..end] == before[..start] + block
    ensures after[end..] == before[end..] == messages[end..]
  {
    assert before[end..] == before[start..][end - start..] == messages[start..][end - start..] == messages[end..];
  }

  // ---------- What the reordering does ----------

  // The calls known after reading `ms`.
  function OrderAfter(order: CallOrder, ms: seq<Message>): CallOrder
    decreases |ms|
  {
    if ms == [] then order else OrderAfter(NextOrder(order, ms[0]), ms[1..])
  }

  lemma {:induction false} OrderAfterBlock(order: CallOrder, ms: seq<Message>, n: nat, k: nat)
    requires n <= k <= |ms| && forall i :: 0 <= i < n ==> InBlock(ms[i])
    ensures OrderAfter(order, ms[..k]) == OrderAfter(order, ms[n..k])
    decreases n
  {
    if n > 0 {
      assert ms[..k][1..] == ms[1..][..k - 1];
      assert NextOrder(order, ms[0]) == order;
      OrderAfterBlock(order, ms[1..], n - 1, k - 1);
      assert ms[1..][n - 1..k - 1] == ms[n..k];
    } else {
      assert ms[0..k] == ms[..k];
    }
  }

  // A longest stretch of user and tool messages.
  ghost predicate IsBlock(ms: seq<Message>, start: nat, end: nat) {
    && start < end <= |ms|
    && (forall i :: start <= i < end ==> InBlock(ms[i]))
    && (start > 0 ==> !InBlock(ms[start - 1])) && (end < |ms| ==> !InBlock(ms[end]))
  }

  // Every message keeps its role's place, others than tool results stay where they are, and
  // the messages are the same ones.
  ghost predicate Keeps(r: seq<Message>, ms: seq<Message>) {
    && SameRoles(r, ms)
    && (forall i :: 0 <= i < |ms| && !IsTool(ms[i]) ==> r[i] == ms[i])
    && multiset(r) == multiset(ms)
  }

  lemma KeepsConcat(r: seq<Message>, ms: seq<Message>, r1: seq<Message>, ms1: seq<Message>)
    requires Keeps(r, ms) && Keeps(r1, ms1)
    ensures Keeps(r + r1, ms + ms1)
  {
    hide IsTool;
  }

  lemma BlockKeeps(order: CallOrder, block: seq<Message>)
    ensures Keeps(SortBlock(order, block), block)
  {
    hide SortBlock;
    SortBlockCorrect(order, block);
  }

  lemma SameKeeps(ms: seq<Message>)
    ensures Keeps(ms, ms)
  {
  }

  lemma ReorderedNothing(order: CallOrder)
    ensures Reordered(order, []) == []
  {
  }

  lemma {:induction false} ReorderedKeeps(order: CallOrder, ms: seq<Message>)
    ensures Keeps(Reordered(order, ms), ms)
    decreases |ms|
  {
    hide SortBlock, NextOrder, Keeps, Reordered, BlockLength;
    if ms == [] {
      SameKeeps([]);
      ReorderedNothing(order);
    } else if InBlock(ms[0]) {
      var n := BlockLength(ms);
      ReorderedBlock(order, ms);
      BlockKeeps(order, ms[..n]);
      ReorderedKeeps(order, ms[n..]);
      KeepsConcat(SortBlock(order, ms[..n]), ms[..n], Reordered(order, ms[n..]), ms[n..]);
      assert ms == ms[..n] + ms[n..];
    } else {
      ReorderedOther(order, ms);
      ReorderedKeeps(NextOrder(order, ms[0]), ms[1..]);
      SameKeeps([ms[0]]);
      KeepsConcat([ms[0]], [ms[0]], Reordered(NextOrder(order, ms[0]), ms[1..]), ms[1..]);
      assert ms == [ms[0]] + ms[1..];
    }
  }

  // Each block is sorted by the calls known where it begins.
  lemma {:induction false} ReorderedAt(order: CallOrder, ms: seq<Message>, start: nat, end: nat)
    requires IsBlock(ms, start, end)
    ensures Reordered(order, ms)[start..end] == SortBlock(OrderAfter(order, ms[..start]), ms[start..end])
    decreases |ms|, 0
  {
    hide SortBlock, NextOrder, BlockLength, Reordered, OrderAfter, InBlock, IsBlock;
    BlockBounds(ms, start, end);
    if start == 0 {
      ReorderedAtFirst(order, ms, end);
    } else if InBlock(ms[0]) {
      var n := BlockLength(ms);
      ReorderedBlock(order, ms);
      BlockBefore(ms, start, end);
      OrderAfterBlock(order, ms, n, start);
      ReorderedAtLater(order, order, ms, SortBlock(order, ms[..n]), start, end);
    } else {
      ReorderedOther(order, ms);
      OrderAfterOther(order, ms, start);
      ReorderedAtLater(order, NextOrder(order, ms[0]), ms, [ms[0]], start, end);
    }
  }

  lemma ReorderedAtFirst(order: CallOrder, ms: seq<Message>, end: nat)
    requires IsBlock(ms, 0, end)
    ensures Reordered(order, ms)[0..end] == SortBlock(OrderAfter(order, ms[..0]), ms[0..end])
  {
    hide SortBlock, BlockLength, Reordered;
    FirstBlock(ms, end);
    ReorderedBlock(order, ms);
    assert ms[0..end] == ms[..end];
    assert OrderAfter(order, ms[..0]) == order;
  }

  // A block found again behind an already reordered front `x`.
  lemma ReorderedAtLater(order: CallOrder, order1: CallOrder, ms: seq<Message>, x: seq<Message>, start: nat, end: nat)
    requires IsBlock(ms, start, end) && 0 < |x| <= start <= |ms|
    requires Reordered(order, ms) == x + Reordered(order1, ms[|x|..])
    requires OrderAfter(order, ms[..start]) == OrderAfter(order1, ms[|x|..start])
    ensures Reordered(order, ms)[start..end] == SortBlock(OrderAfter(order, ms[..start]), ms[start..end])
    decreases |ms[|x|..]|, 1
  {
    hide SortBlock, Reordered, OrderAfter, IsBlock;
    BlockBounds(ms, start, end);
    LaterBlock(ms, start, end, |x|);
    ReorderedAt(order1, ms[|x|..], start - |x|, end - |x|);
    SliceLater(x, Reordered(order1, ms[|x|..]), start, end);
  }

  lemma OrderAfterOther(order: CallOrder, ms: seq<Message>, k: nat)
    requires 0 < k <= |ms|
    ensures OrderAfter(order, ms[..k]) == OrderAfter(NextOrder(order, ms[0]), ms[1..k])
  {
    hide NextOrder;
    assert ms[..k][1..] == ms[1..k];
  }

  lemma BlockBounds(ms: seq<Message>, start: nat, end: nat)
    requires IsBlock(ms, start, end)
    ensures start < end <= |ms|
  {
  }

  lemma FirstBlock(ms: seq<Message>, end: nat)
    requires IsBlock(ms, 0, end)
    ensures BlockLength(ms) == end && InBlock(ms[0])
  {
    BlockLengthIs(ms, end);
  }

  lemma LaterBlock(ms: seq<Message>, start: nat, end: nat, n: nat)
    requires IsBlock(ms, start, end) && n <= start
    ensures IsBlock(ms[n..], start - n, end - n)
    ensures ms[n..][start - n..end - n] == ms[start..end]
    ensures ms[n..][..start - n] == ms[n..start]
  {
    hide InBlock;
    var rest := ms[n..];
    forall i | start - n <= i < end - n
      ensures InBlock(rest[i])
    {
      assert rest[i] == ms[n + i];
    }
    assert start > n ==> rest[start - n - 1] == ms[start - 1];
    assert end < |ms| ==> rest[end - n] == ms[end];
    LaterSlices(ms, start, end, n);
  }

  lemma LaterSlices(ms: seq<Message>, start: nat, end: nat, n: nat)
    requires n <= start <= end <= |ms|
    ensures ms[n..][start - n..end - n] == ms[start..end]
    ensures ms[n..][..start - n] == ms[n..start]
  {
  }

  lemma SliceLater(x: seq<Message>, y: seq<Message>, start: nat, end: nat)
    requires |x| <= start <= end <= |x| + |y|
    ensures (x + y)[start..end] == y[start - |x|..end - |x|]
  {
  }

  // A block behind the first one begins after the first one ends.
  lemma BlockBefore(ms: seq<Message>, start: nat, end: nat)
    requires IsBlock(ms, start, end) && start > 0 && InBlock(ms[0])
    ensures 0 < BlockLength(ms) < start
  {
    hide BlockLength;
  }

  // Reordering a reordered conversation changes nothing.
  lemma {:induction false} ReorderedTwice(order: CallOrder, ms: seq<Message>)
    ensures Reordered(order, Reordered(order, ms)) == Reordered(order, ms)
    decreases |ms|
  {
    hide SortBlock, NextOrder, BlockLength, Reordered;
    if ms == [] {
      ReorderedNothing(order);
    } else if InBlock(ms[0]) {
      var n := BlockLength(ms);
      ReorderedBlock(order, ms);
      var block, rest := SortBlock(order, ms[..n]), Reordered(order, ms[n..]);
      SortBlockCorrect(order, ms[..n]);
      SortBlockTwice(order, ms[..n]);
      ReorderedKeeps(order, ms[n..]);
      assert SameRoles(rest, ms[n..]);
      ReorderedTwice(order, ms[n..]);
      var r := block + rest;
      assert r[..n] == block && r[n..] == rest;
      forall i | 0 <= i < n
        ensures InBlock(r[i])
      {
        assert r[i].role == ms[..n][i].role;
      }
      assert n < |ms| ==> r[n].role == ms[n..][0].role;
      BlockLengthIs(r, n);
      ReorderedBlock(order, r);
    } else {
      ReorderedOther(order, ms);
      var r := Reordered(order, ms);
      ReorderedTwice(NextOrder(order, ms[0]), ms[1..]);
      assert r[0] == ms[0] && r[1..] == Reordered(NextOrder(order, ms[0]), ms[1..]);
      ReorderedOther(order, r);
    }
  }

  // The results of every block, in order, after reordering: untouched while no call is known,
  // otherwise sorted by call index, results of the same call in their old order.
  lemma BlockSorted(ms: seq<Message>, start: nat, end: nat)
    requires IsBlock(ms, start, end)
    ensures var order := OrderAfter(map[], ms[..start]);
            var before, after := Tools(ms[start..end]), Tools(Reordered(map[], ms)[start..end]);
            && multiset(after) == multiset(before)
            && if order == map[] then after == before
               else Sorted(order, after) && forall k :: WithKey(order, k, after) == WithKey(order, k, before)
  {
    hide Tools, Reordered, OrderAfter, WithKey, StableSort, Sorted, SortBlock;
    var order := OrderAfter(map[], ms[..start]);
    ReorderedAt(map[], ms, start, end);
    SortBlockCorrect(order, ms[start..end]);
    StableSortCorrect(order, Tools(ms[start..end]));
    ResultsCorrect(order, ms[start..end]);
  }

  // ---------- The same on the messages alone ----------

  // The calls that the nearest assistant message makes, of those that make any.
  function CallsBefore(ms: seq<Message>): seq<string> {
    if ms == [] then []
    else
      var last := |ms| - 1;
      if ms[last].role == "assistant" && ms[last].callIds != [] then ms[last].callIds else CallsBefore(ms[..last])
  }

  // The last index of an id among the calls; 0 for an id that is empty or not among them.
  function CallIndex(ids: seq<string>, id: string): nat {
    if ids == [] || id == "" then 0
    else
      var last := |ids| - 1;
      if ids[last] == id then last else CallIndex(ids[..last], id)
  }

  lemma {:induction false} CallIndexLast(ids: seq<string>, id: string)
    ensures if id != "" && id in ids then LastIndex(CallIndex(ids, id), id, ids) else CallIndex(ids, id) == 0
    decreases |ids|
  {
    if ids != [] {
      var last := |ids| - 1;
      var init := ids[..last];
      CallIndexLast(init, id);
      assert ids == init + [ids[last]];
      assert id in init ==> id in ids;
      if id != "" && ids[last] != id && id in ids {
        assert id in init && LastIndex(CallIndex(init, id), id, init);
        assert forall j :: CallIndex(init, id) < j < |ids| ==> ids[j] != id;
      }
    }
  }

  // The results that answer call `k`, in order.
  function Answers(ids: seq<string>, k: nat, ms: seq<Message>): seq<Message> {
    if ms == [] then []
    else
      var m := ms[0];
      (if m.role == "tool" && CallIndex(ids, m.toolCallId) == k then [m] else []) + Answers(ids, k, ms[1..])
  }

  // A longest stretch of messages of these two roles.
  ghost predicate Stretch(ms: seq<Message>, start: nat, end: nat) {
    && start < end <= |ms|
    && (forall i :: start <= i < end ==> ms[i].role == "user" || ms[i].role == "tool")
    && (start > 0 ==> ms[start - 1].role != "user" && ms[start - 1].role != "tool")
    && (end < |ms| ==> ms[end].role != "user" && ms[end].role != "tool")
  }

  // In every stretch the results stand in the order of the calls that the nearest assistant before it made, and
  // results that answer the same call in the order in which they came.
  ghost predicate ByCalls(ms: seq<Message>, r: seq<Message>) {
    |r| == |ms| && forall start, end :: Stretch(ms, start, end) ==> StretchByCalls(ms, r, start, end)
  }

  ghost predicate StretchByCalls(ms: seq<Message>, r: seq<Message>, start: nat, end: nat)
    requires start < end <= |ms| == |r|
  {
    var ids := CallsBefore(ms[..start]);
    && (forall i, j :: start <= i < j < end && r[i].role == "tool" && r[j].role == "tool" ==>
          CallIndex(ids, r[i].toolCallId) <= CallIndex(ids, r[j].toolCallId))
    && (forall k :: Answers(ids, k, r[start..end]) == Answers(ids, k, ms[start..end]))
  }

  lemma {:induction false} OrderAfterSnoc(order: CallOrder, ms: seq<Message>, m: Message)
    ensures OrderAfter(order, ms + [m]) == NextOrder(OrderAfter(order, ms), m)
    decreases |ms|
  {
    hide NextOrder;
    if ms == [] {
      assert ms + [m] == [m] && [m][1..] == [];
      assert OrderAfter(NextOrder(order, m), []) == NextOrder(order, m);
    } else {
      assert (ms + [m])[0] == ms[0] && (ms + [m])[1..] == ms[1..] + [m];
      OrderAfterSnoc(NextOrder(order, ms[0]), ms[1..], m);
    }
  }

  lemma {:induction false} OrderAfterIs(ms: seq<Message>)
    ensures OrderAfter(map[], ms) == OrderOf(CallsBefore(ms))
    decreases |ms|
  {
    hide OrderOf;
    if ms == [] {
      NoCalls();
    } else {
      var last := |ms| - 1;
      assert ms == ms[..last] + [ms[last]];
      OrderAfterSnoc(map[], ms[..last], ms[last]);
      OrderAfterIs(ms[..last]);
      hide OrderAfter;
    }
  }

  lemma NoCalls()
    ensures OrderOf([]) == map[] && OrderAfter(map[], []) == map[]
  {
  }

  lemma {:induction false} KeyIsIndex(ids: seq<string>, m: Message)
    ensures Key(OrderOf(ids), m) == CallIndex(ids, m.toolCallId)
    decreases |ids|
  {
    if ids != [] {
      KeyIsIndex(ids[..|ids| - 1], m);
      EmptyUnknown(ids);
    }
  }

  lemma {:induction false} EmptyUnknown(ids: seq<string>)
    ensures "" !in OrderOf(ids)
    decreases |ids|
  {
    if ids != [] {
      EmptyUnknown(ids[..|ids| - 1]);
    }
  }

  lemma {:induction false} AnswersWithKey(ids: seq<string>, k: nat, ms: seq<Message>)
    ensures WithKey(OrderOf(ids), k, Tools(ms)) == Answers(ids, k, ms)
  {
    assert Tools([]) == [] && WithKey(OrderOf(ids), k, []) == [];
    hide Key, OrderOf, Tools, WithKey, CallIndex;
    if ms != [] {
      var m := ms[0];
      KeyIsIndex(ids, m);
      AnswersWithKey(ids, k, ms[1..]);
      assert ms == [m] + ms[1..];
      ToolsFirst(m, ms[1..]);
      WithKeyCons(OrderOf(ids), k, m, Tools(ms[1..]));
      assert [] + Tools(ms[1..]) == Tools(ms[1..]);
    }
  }

  lemma SortedByIndex(ids: seq<string>, ms: seq<Message>)
    requires Sorted(OrderOf(ids), Tools(ms))
    ensures forall i, j :: 0 <= i < j < |ms| && ms[i].role == "tool" && ms[j].role == "tool" ==>
              CallIndex(ids, ms[i].toolCallId) <= CallIndex(ids, ms[j].toolCallId)
  {
    hide Tools, ToolPositions, Key, OrderOf, CallIndex;
    forall i, j | 0 <= i < j < |ms| && ms[i].role == "tool" && ms[j].role == "tool"
      ensures CallIndex(ids, ms[i].toolCallId) <= CallIndex(ids, ms[j].toolCallId)
    {
      ToolHasPosition(ms, i);
      ToolHasPosition(ms, j);
      var a :| 0 <= a < |ToolPositions(ms)| && ToolPositions(ms)[a] == i;
      var b :| 0 <= b < |ToolPositions(ms)| && ToolPositions(ms)[b] == j;
      ToolsByPositions(ms);
      assert a < b;
      KeyIsIndex(ids, ms[i]);
      KeyIsIndex(ids, ms[j]);
    }
  }

  lemma UnknownSorted(ms: seq<Message>)
    ensures Sorted(map[], ms)
  {
  }

  lemma StretchIsBlock(ms: seq<Message>, start: nat, end: nat)
    requires Stretch(ms, start, end)
    ensures start < end <= |ms| && IsBlock(ms, start, end)
  {
  }

  lemma BlockInOrder(ms: seq<Message>, start: nat, end: nat)
    requires IsBlock(ms, start, end)
    ensures var order := OrderOf(CallsBefore(ms[..start]));
            var before, after := Tools(ms[start..end]), Tools(Reordered(map[], ms)[start..end]);
            Sorted(order, after) && forall k :: WithKey(order, k, after) == WithKey(order, k, before)
  {
    OrderAfterIs(ms[..start]);
    UnknownSorted(Tools(ms[start..end]));
    hide IsBlock, Tools, Reordered, OrderAfter, OrderOf, CallsBefore, WithKey, Sorted;
    BlockSorted(ms, start, end);
  }

  lemma BlockByCalls(ms: seq<Message>, start: nat, end: nat)
    requires Stretch(ms, start, end)
    ensures StretchByCalls(ms, Reordered(map[], ms), start, end)
  {
    StretchIsBlock(ms, start, end);
    hide Stretch, IsBlock, Tools, Reordered, OrderOf, CallsBefore, WithKey, Sorted, Answers, CallIndex;
    var ids := CallsBefore(ms[..start]);
    var r := Reordered(map[], ms);
    BlockInOrder(ms, start, end);
    SortedByIndex(ids, r[start..end]);
    IndicesShifted(ids, r, start, end);
    forall k
      ensures Answers(ids, k, r[start..end]) == Answers(ids, k, ms[start..end])
    {
      AnswersWithKey(ids, k, r[start..end]);
      AnswersWithKey(ids, k, ms[start..end]);
    }
  }

  lemma IndicesShifted(ids: seq<string>, r: seq<Message>, start: nat, end: nat)
    requires start < end <= |r|
    requires var b := r[start..end];
             forall i, j :: 0 <= i < j < |b| && b[i].role == "tool" && b[j].role == "tool" ==>
               CallIndex(ids, b[i].toolCallId) <= CallIndex(ids, b[j].toolCallId)
    ensures forall i, j :: start <= i < j < end && r[i].role == "tool" && r[j].role == "tool" ==>
              CallIndex(ids, r[i].toolCallId) <= CallIndex(ids, r[j].toolCallId)
  {
    hide CallIndex;
    var b := r[start..end];
    forall i, j | start <= i < j < end && r[i].role == "tool" && r[j].role == "tool"
      ensures CallIndex(ids, r[i].toolCallId) <= CallIndex(ids, r[j].toolCallId)
    {
      assert r[i] == b[i - start] && r[j] == b[j - start];
    }
  }

  lemma ReorderedByCalls(ms: seq<Message>)
    ensures ByCalls(ms, Reordered(map[], ms))
  {
    hide Reordered, StretchByCalls;
    forall start, end | Stretch(ms, start, end)
      ensures StretchByCalls(ms, Reordered(map[], ms), start, end)
    {
      BlockByCalls(ms, start, end);
    }
  }

  // Two results that arrive in the wrong order.
  lemma SwappedExample(call: Message, a: Message, b: Message)
    requires call.role == "assistant" && call.callIds == ["a", "b"]
    requires a.role == b.role == "tool" && a.toolCallId == "a" && b.toolCallId == "b"
    ensures Reordered(map[], [call, b, a]) == [call, a, b]
  {
    var ms := [call, b, a];
    var r := Reordered(map[], ms);
    SwappedOrder(call, a, b);
    ReorderedKeeps(map[], ms);
    TwoIndices();
    hide Reordered, CallIndex;
    assert r == [call, r[1], r[2]];
    SameTwo(call, r[1], r[2], b, a);
  }

  lemma SwappedOrder(call: Message, a: Message, b: Message)
    requires call.role == "assistant" && call.callIds == ["a", "b"] && a.role == b.role == "tool"
    ensures var r := Reordered(map[], [call, b, a]);
            r[1].role == "tool" && r[2].role == "tool" ==>
              CallIndex(["a", "b"], r[1].toolCallId) <= CallIndex(["a", "b"], r[2].toolCallId)
  {
    var ms := [call, b, a];
    assert Stretch(ms, 1, 3);
    BlockByCalls(ms, 1, 3);
    assert ms[..1] == [call] && CallsBefore([call]) == ["a", "b"];
    hide Reordered, CallIndex, CallsBefore, Stretch, Answers;
  }

  lemma SameTwo<T>(m: T, x: T, y: T, x': T, y': T)
    requires multiset([m, x, y]) == multiset([m, x', y'])
    ensures (x == x' && y == y') || (x == y' && y == x')
  {
    SameThree(m, x, y);
    SameThree(m, x', y');
    SamePair(x, y, x', y');
  }

  lemma SamePair<T>(x: T, y: T, x': T, y': T)
    requires multiset{x, y} == multiset{x', y'}
    ensures (x == x' && y == y') || (x == y' && y == x')
  {
    assert x in multiset{x', y'};
    assert multiset{x, y} - multiset{x} == multiset{y};
    if x == x' {
      assert multiset{x', y'} - multiset{x'} == multiset{y'};
    } else {
      assert multiset{x', y'} - multiset{y'} == multiset{x'};
    }
    assert y in multiset{y};
  }

  lemma SameThree<T>(m: T, x: T, y: T)
    ensures multiset([m, x, y]) - multiset{m} == multiset{x, y}
  {
    assert multiset([m, x, y]) == multiset{m, x, y} == multiset{m} + multiset{x, y};
  }

  lemma TwoIndices()
    ensures CallIndex(["a", "b"], "a") == 0 && CallIndex(["a", "b"], "b") == 1
  {
    assert ["a", "b"][..1] == ["a"];
  }
}
