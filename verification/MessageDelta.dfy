/** The deltas sent to a client while a message is being parsed, and the client that folds them. */
module MessageDelta {
  import opened Wrappers
  import opened ToolCallMapper

  datatype Computation<+T> = Computed(value: T) | Thrown(message: string)

  datatype Message = Message(reasoning: string, content: string, toolCalls: seq<ToolCall>)

  const EMPTY := Message("", "", [])

  // A piece of text to append, and possibly a piece of the tool call at an index.
  datatype Delta = Delta(reasoning: string, content: string, index: Option<nat>, call: ToolCall)

  const NO_DELTA := Delta("", "", None, NO_CALL)

  // ---------- Computing deltas ----------

  function StringDiff(last: string, current: string): Computation<string> {
    if last == "" then Computed(current)
    else if last <= current then Computed(current[|last|..])
    else if current <= last then Computed("")  // a partial stop word that has been erased since
    else Thrown("Invalid diff")
  }

  // The names of a call in two successive messages do not contradict each other.
  predicate NameGrows(last: string, current: string) {
    last == "" || current == "" || last <= current
  }

  function CallDeltas(index: nat, last: ToolCall, current: ToolCall): Computation<seq<Delta>> {
    if !NameGrows(last.name, current.name) then Thrown("Invalid diff: tool call mismatch!")
    else
      match StringDiff(last.arguments, current.arguments)
      case Thrown(e) => Thrown(e)
      case Computed(args) =>
        if last.id != current.id || last.name != current.name then
          Computed([NO_DELTA.(index := Some(index), call := ToolCall(current.name, args, current.id))])
        else if args != "" then Computed([NO_DELTA.(index := Some(index), call := ToolCall("", args, ""))])
        else Computed([])
  }

  function NewCallDeltas(calls: seq<ToolCall>, from: nat): (r: seq<Delta>)
    requires from <= |calls|
    ensures |r| == |calls| - from
    ensures forall i :: 0 <= i < |r| ==> r[i] == NO_DELTA.(index := Some(from + i), call := calls[from + i])
  {
    seq(|calls| - from, i requires 0 <= i < |calls| - from =>
        NO_DELTA.(index := Some(from + i), call := calls[from + i]))
  }

  function Append(x: Computation<seq<Delta>>, y: Computation<seq<Delta>>): Computation<seq<Delta>> {
    if x.Thrown? then x else if y.Thrown? then y else Computed(x.value + y.value)
  }

  function TextDeltas(prv: Message, new_: Message): Computation<seq<Delta>> {
    Append(
      if prv.reasoning == new_.reasoning then Computed([])
      else
        match StringDiff(prv.reasoning, new_.reasoning)
        case Thrown(e) => Thrown(e)
        case Computed(d) => Computed([NO_DELTA.(reasoning := d)]),
      if prv.content == new_.content then Computed([])
      else
        match StringDiff(prv.content, new_.content)
        case Thrown(e) => Thrown(e)
        case Computed(d) => Computed([NO_DELTA.(content := d)]))
  }

  function LastCallDeltas(prv: Message, new_: Message): Computation<seq<Delta>>
    requires |prv.toolCalls| <= |new_.toolCalls|
  {
    if prv.toolCalls == [] then Computed([])
    else
      var i := |prv.toolCalls| - 1;
      CallDeltas(i, prv.toolCalls[i], new_.toolCalls[i])
  }

  function Diffs(prv: Message, new_: Message): Computation<seq<Delta>> {
    var text := TextDeltas(prv, new_);
    if text.Thrown? then text
    else if |new_.toolCalls| < |prv.toolCalls| then Thrown("Invalid diff: now finding less tool calls!")
    else Append(Append(text, LastCallDeltas(prv, new_)), Computed(NewCallDeltas(new_.toolCalls, |prv.toolCalls|)))
  }

  // ---------- When it throws ----------

  // Neither text is a beginning of the other.
  predicate Clash(last: string, current: string) {
    !(last <= current) && !(current <= last)
  }

  // Why no deltas take a client from one message to the next, the first reason that the code meets.
  function Refusal(prv: Message, new_: Message): Option<string> {
    var i := |prv.toolCalls| - 1;
    if Clash(prv.reasoning, new_.reasoning) || Clash(prv.content, new_.content) then Some("Invalid diff")
    else if |new_.toolCalls| < |prv.toolCalls| then Some("Invalid diff: now finding less tool calls!")
    else if i < 0 then None
    else
      var last, current := prv.toolCalls[i], new_.toolCalls[i];
      if last.name != "" && current.name != "" && !(last.name <= current.name)
      then Some("Invalid diff: tool call mismatch!")
      else if Clash(last.arguments, current.arguments) then Some("Invalid diff")
      else None
  }

  lemma DiffsThrow(prv: Message, new_: Message)
    ensures Diffs(prv, new_).Thrown? <==> Refusal(prv, new_).Some?
    ensures Refusal(prv, new_).Some? ==> Diffs(prv, new_) == Thrown(Refusal(prv, new_).value)
  {
  }

  // The part of a text that a client does not have yet; nothing when some was taken back.
  function News(last: string, current: string): string {
    if last <= current then current[|last|..] else ""
  }

  // Exactly what is sent: a text only if it changed, the last call only if its name, its id or its arguments bring
  // something new, with name and id only if one of them changed, and every new call as it is.
  function Sent(prv: Message, new_: Message): seq<Delta>
    requires |prv.toolCalls| <= |new_.toolCalls|
  {
    var n := |prv.toolCalls|;
    (if prv.reasoning == new_.reasoning then [] else [Delta(News(prv.reasoning, new_.reasoning), "", None, NO_CALL)])
    + (if prv.content == new_.content then [] else [Delta("", News(prv.content, new_.content), None, NO_CALL)])
    + (if n == 0 then []
       else
         var last, current := prv.toolCalls[n - 1], new_.toolCalls[n - 1];
         var args := News(last.arguments, current.arguments);
         if last.name == current.name && last.id == current.id then
           if args == "" then [] else [Delta("", "", Some(n - 1), ToolCall("", args, ""))]
         else [Delta("", "", Some(n - 1), ToolCall(current.name, args, current.id))])
    + seq(|new_.toolCalls| - n, i requires 0 <= i < |new_.toolCalls| - n =>
          Delta("", "", Some(n + i), new_.toolCalls[n + i]))
  }

  lemma StringDiffNews(last: string, current: string)
    requires StringDiff(last, current).Computed?
    ensures StringDiff(last, current).value == News(last, current)
  {
  }

  lemma DeltasSent(prv: Message, new_: Message)
    requires Diffs(prv, new_).Computed?
    ensures |prv.toolCalls| <= |new_.toolCalls| && Diffs(prv, new_).value == Sent(prv, new_)
    ensures prv == new_ ==> Diffs(prv, new_).value == []
  {
    var n := |prv.toolCalls|;
    StringDiffNews(prv.reasoning, new_.reasoning);
    StringDiffNews(prv.content, new_.content);
    if n > 0 {
      StringDiffNews(prv.toolCalls[n - 1].arguments, new_.toolCalls[n - 1].arguments);
    }
    hide StringDiff, News;
    assert NewCallDeltas(new_.toolCalls, n)
        == seq(|new_.toolCalls| - n, i requires 0 <= i < |new_.toolCalls| - n =>
               Delta("", "", Some(n + i), new_.toolCalls[n + i]));
  }

  method ComputeTextDiff(last: string, current: string, isContent: bool) returns (r: Computation<seq<Delta>>)
    ensures r == if last == current then Computed([])
                 else
                   match StringDiff(last, current)
                   case Thrown(e) => Thrown(e)
                   case Computed(d) =>
                     Computed([if isContent then NO_DELTA.(content := d) else NO_DELTA.(reasoning := d)])
  {
    if last == current {
      return Computed([]);
    }
    var d := StringDiff(last, current);
    if d.Thrown? {
      return Thrown(d.message);
    }
    return Computed([if isContent then NO_DELTA.(content := d.value) else NO_DELTA.(reasoning := d.value)]);
  }

  // What has changed in the call that was the last one.
  method ComputeCallDiff(idx: nat, pref: ToolCall, newf: ToolCall) returns (r: Computation<seq<Delta>>)
    ensures r == CallDeltas(idx, pref, newf)
  {
    hide StringDiff;
    // a name may appear or become longer, nothing else
    if pref.name != newf.name && pref.name != "" && newf.name != "" && !(pref.name <= newf.name) {
      return Thrown("Invalid diff: tool call mismatch!");
    }
    var argsDiff := StringDiff(pref.arguments, newf.arguments);
    if argsDiff.Thrown? {
      return Thrown(argsDiff.message);
    }
    if argsDiff.value == "" && pref.id == newf.id && pref.name == newf.name {
      return Computed([]);
    }
    var delta := NO_DELTA.(index := Some(idx));
    if pref.id != newf.id || pref.name != newf.name {
      delta := delta.(call := ToolCall(newf.name, "", newf.id));
    }
    delta := delta.(call := delta.call.(arguments := argsDiff.value));
    r := Computed([delta]);
  }

  method ComputeDiffs(prv: Message, new_: Message) returns (r: Computation<seq<Delta>>)
    ensures r == Diffs(prv, new_)
    ensures r.Thrown? <==> Refusal(prv, new_).Some?
    ensures r.Thrown? ==> r.message == Refusal(prv, new_).value
  {
    hide Diffs, Refusal;
    r := DiffsInTurn(prv, new_);
    DiffsThrow(prv, new_);
  }

  // Texts first, then the call that was the last one, then the new calls; the first failure ends it.
  method DiffsInTurn(prv: Message, new_: Message) returns (r: Computation<seq<Delta>>)
    ensures r == Diffs(prv, new_)
  {
    var reasoning := ComputeTextDiff(prv.reasoning, new_.reasoning, false);
    if reasoning.Thrown? {
      return reasoning;
    }
    var content := ComputeTextDiff(prv.content, new_.content, true);
    if content.Thrown? {
      return content;
    }
    var diffs := reasoning.value + content.value;
    assert TextDeltas(prv, new_) == Computed(diffs);
    hide TextDeltas, StringDiff;

    if |new_.toolCalls| < |prv.toolCalls| {
      return Thrown("Invalid diff: now finding less tool calls!");
    }

    if prv.toolCalls != [] {
      var idx := |prv.toolCalls| - 1;
      var last := ComputeCallDiff(idx, prv.toolCalls[idx], new_.toolCalls[idx]);
      if last.Thrown? {
        return last;
      }
      diffs := diffs + last.value;
    } else {
      assert diffs + [] == diffs;
    }
    hide LastCallDeltas, CallDeltas;

    ghost var known, added := diffs, NewCallDeltas(new_.toolCalls, |prv.toolCalls|);
    assert known + added[..0] == known;
    for idx := |prv.toolCalls| to |new_.toolCalls|
      invariant diffs == known + added[..idx - |prv.toolCalls|]
    {
      assert added[..idx + 1 - |prv.toolCalls|] == added[..idx - |prv.toolCalls|] + [added[idx - |prv.toolCalls|]];
      diffs := diffs + [NO_DELTA.(index := Some(idx), call := new_.toolCalls[idx])];
    }
    assert added[..|added|] == added;
    return Computed(diffs);
  }

  // ---------- The client ----------

  function OrKeep(update: string, old_: string): string {
    if update != "" then update else old_
  }

  // Calls up to the index, the missing ones without name, arguments and id.
  function Padded(calls: seq<ToolCall>, size: nat): (r: seq<ToolCall>)
    ensures |r| == if size > |calls| then size else |calls|
    ensures r[..|calls|] == calls
  {
    calls + seq(if size > |calls| then size - |calls| else 0, _ => NO_CALL)
  }

  function Apply(m: Message, d: Delta): Message {
    var text := m.(reasoning := m.reasoning + d.reasoning, content := m.content + d.content);
    match d.index
    case None => text
    case Some(i) =>
      var calls := Padded(m.toolCalls, i + 1);
      var call := calls[i];
      var named := ToolCall(OrKeep(d.call.name, call.name), call.arguments + d.call.arguments,
                            OrKeep(d.call.id, call.id));
      text.(toolCalls := calls[i := named])
  }

  function ApplyAll(m: Message, ds: seq<Delta>): Message
    decreases |ds|
  {
    if ds == [] then m else ApplyAll(Apply(m, ds[0]), ds[1..])
  }

  lemma {:induction false} ApplyAllAppend(m: Message, x: seq<Delta>, y: seq<Delta>)
    ensures ApplyAll(m, x + y) == ApplyAll(ApplyAll(m, x), y)
    decreases |x|
  {
    hide Apply;
    if x == [] {
      assert x + y == y;
    } else {
      assert (x + y)[1..] == x[1..] + y;
      ApplyAllAppend(Apply(m, x[0]), x[1..], y);
    }
  }

  lemma ApplyOne(m: Message, d: Delta)
    ensures ApplyAll(m, [d]) == Apply(m, d)
  {
    assert [d][1..] == [];
  }

  // ---------- One step ----------

  // The last known call only grows, and neither its name nor its id is lost.
  predicate CallExtends(last: ToolCall, current: ToolCall) {
    && last.arguments <= current.arguments
    && (last.name == "" || (current.name != "" && last.name <= current.name))
    && (last.id == "" || current.id != "")
  }

  predicate Extends(prv: Message, new_: Message) {
    && prv.reasoning <= new_.reasoning && prv.content <= new_.content
    && |prv.toolCalls| <= |new_.toolCalls|
    && (prv.toolCalls != [] ==>
          var i := |prv.toolCalls| - 1;
          prv.toolCalls[..i] == new_.toolCalls[..i] && CallExtends(prv.toolCalls[i], new_.toolCalls[i]))
  }

  // What text deltas do to the client's text.
  function Grown(last: string, current: string): string {
    if last <= current then current else last
  }

  lemma StringDiffGrows(last: string, current: string)
    requires StringDiff(last, current).Computed?
    ensures last + StringDiff(last, current).value == Grown(last, current)
  {
  }

  lemma ApplyNothing(m: Message)
    ensures ApplyAll(m, []) == m
  {
  }

  lemma TextDeltasApplied(prv: Message, new_: Message)
    requires TextDeltas(prv, new_).Computed?
    ensures ApplyAll(prv, TextDeltas(prv, new_).value)
         == prv.(reasoning := Grown(prv.reasoning, new_.reasoning), content := Grown(prv.content, new_.content))
  {
    hide StringDiff, ApplyAll;
    var dr, dc := StringDiff(prv.reasoning, new_.reasoning), StringDiff(prv.content, new_.content);
    var x := if prv.reasoning == new_.reasoning then [] else [NO_DELTA.(reasoning := dr.value)];
    var y := if prv.content == new_.content then [] else [NO_DELTA.(content := dc.value)];
    assert TextDeltas(prv, new_).value == x + y;
    ApplyAllAppend(prv, x, y);
    ApplyNothing(prv);
    if prv.reasoning != new_.reasoning {
      StringDiffGrows(prv.reasoning, new_.reasoning);
      ApplyOne(prv, x[0]);
    }
    var m := prv.(reasoning := Grown(prv.reasoning, new_.reasoning));
    assert ApplyAll(prv, x) == m;
    ApplyNothing(m);
    if prv.content != new_.content {
      StringDiffGrows(prv.content, new_.content);
      ApplyOne(m, y[0]);
    }
  }

  // What the client makes of the last known call.
  function GrownCall(last: ToolCall, current: ToolCall): ToolCall {
    ToolCall(OrKeep(current.name, last.name), Grown(last.arguments, current.arguments), OrKeep(current.id, last.id))
  }

  lemma CallDeltasApplied(m: Message, last: ToolCall, current: ToolCall)
    requires m.toolCalls != [] && m.toolCalls[|m.toolCalls| - 1] == last
    requires CallDeltas(|m.toolCalls| - 1, last, current).Computed?
    ensures ApplyAll(m, CallDeltas(|m.toolCalls| - 1, last, current).value)
         == m.(toolCalls := m.toolCalls[|m.toolCalls| - 1 := GrownCall(last, current)])
  {
    hide StringDiff, ApplyAll;
    var i := |m.toolCalls| - 1;
    var ds := CallDeltas(i, last, current).value;
    StringDiffGrows(last.arguments, current.arguments);
    assert Padded(m.toolCalls, i + 1) == m.toolCalls;
    if ds == [] {
      ApplyNothing(m);
      assert last.arguments + "" == last.arguments;
      assert m.toolCalls[i := last] == m.toolCalls;
    } else {
      ApplyOne(m, ds[0]);
      assert ds == [ds[0]];
    }
  }

  lemma {:induction false} NewCallsApplied(m: Message, calls: seq<ToolCall>)
    requires |m.toolCalls| <= |calls|
    ensures ApplyAll(m, NewCallDeltas(calls, |m.toolCalls|)) == m.(toolCalls := m.toolCalls + calls[|m.toolCalls|..])
    decreases |calls| - |m.toolCalls|
  {
    var n := |m.toolCalls|;
    var ds := NewCallDeltas(calls, n);
    if n == |calls| {
      assert m.toolCalls + calls[n..] == m.toolCalls;
    } else {
      var m1 := m.(toolCalls := m.toolCalls + [calls[n]]);
      assert Padded(m.toolCalls, n + 1) == m.toolCalls + [NO_CALL];
      assert (m.toolCalls + [NO_CALL])[n := calls[n]] == m.toolCalls + [calls[n]];
      assert "" + calls[n].arguments == calls[n].arguments;
      assert m.reasoning + "" == m.reasoning && m.content + "" == m.content;
      assert Apply(m, ds[0]) == m1;
      assert ds[1..] == NewCallDeltas(calls, n + 1);
      NewCallsApplied(m1, calls);
      assert m.toolCalls + calls[n..] == m1.toolCalls + calls[n + 1..];
    }
  }

  // The message the client holds after folding the deltas of one step.
  function Folded(prv: Message, new_: Message): Message
    requires |prv.toolCalls| <= |new_.toolCalls|
  {
    var n := |prv.toolCalls|;
    var known := if n == 0 then [] else prv.toolCalls[n - 1 := GrownCall(prv.toolCalls[n - 1], new_.toolCalls[n - 1])];
    Message(Grown(prv.reasoning, new_.reasoning), Grown(prv.content, new_.content), known + new_.toolCalls[n..])
  }

  lemma DiffsFolded(prv: Message, new_: Message)
    requires Diffs(prv, new_).Computed?
    ensures |prv.toolCalls| <= |new_.toolCalls|
    ensures ApplyAll(prv, Diffs(prv, new_).value) == Folded(prv, new_)
  {
    hide ApplyAll, TextDeltas, CallDeltas, NewCallDeltas, GrownCall, Grown;
    var x, y, z := TextDeltas(prv, new_).value, LastCallDeltas(prv, new_).value,
        NewCallDeltas(new_.toolCalls, |prv.toolCalls|);
    TextDeltasApplied(prv, new_);
    var m := ApplyAll(prv, x);
    ApplyAllAppend(prv, x + y, z);
    ApplyAllAppend(prv, x, y);
    if prv.toolCalls == [] {
      ApplyNothing(m);
    } else {
      var i := |prv.toolCalls| - 1;
      CallDeltasApplied(m, prv.toolCalls[i], new_.toolCalls[i]);
    }
    NewCallsApplied(ApplyAll(m, y), new_.toolCalls);
  }

  // The deltas carry the client from one message to the next exactly when texts and calls only extend.
  lemma StepReconstructs(prv: Message, new_: Message)
    ensures Diffs(prv, new_).Computed? && ApplyAll(prv, Diffs(prv, new_).value) == new_ <==> Extends(prv, new_)
  {
    hide ApplyAll;
    if Diffs(prv, new_).Computed? {
      DiffsFolded(prv, new_);
      FoldedExact(prv, new_);
    }
    if Extends(prv, new_) {
      ExtendsSucceeds(prv, new_);
    }
  }

  lemma ExtendsSucceeds(prv: Message, new_: Message)
    requires Extends(prv, new_)
    ensures Diffs(prv, new_).Computed?
  {
  }

  lemma FoldedExact(prv: Message, new_: Message)
    requires Diffs(prv, new_).Computed? && |prv.toolCalls| <= |new_.toolCalls|
    ensures Folded(prv, new_) == new_ <==> Extends(prv, new_)
  {
    hide NewCallDeltas, TextDeltas;
    var n := |prv.toolCalls|;
    if n > 0 {
      var last, current := prv.toolCalls[n - 1], new_.toolCalls[n - 1];
      assert NameGrows(last.name, current.name);
      assert GrownCall(last, current) == current <==> CallExtends(last, current);
      var known := prv.toolCalls[n - 1 := GrownCall(last, current)];
      assert (known + new_.toolCalls[n..])[..n] == known;
      assert known == prv.toolCalls[..n - 1] + [GrownCall(last, current)];
      assert new_.toolCalls == new_.toolCalls[..n - 1] + [current] + new_.toolCalls[n..];
      assert known + new_.toolCalls[n..] == new_.toolCalls
        <==> prv.toolCalls[..n - 1] == new_.toolCalls[..n - 1] && GrownCall(last, current) == current by {
        if known + new_.toolCalls[n..] == new_.toolCalls {
          assert known == new_.toolCalls[..n];
          assert known[n - 1] == new_.toolCalls[n - 1];
          assert known[..n - 1] == new_.toolCalls[..n][..n - 1] == new_.toolCalls[..n - 1];
          assert known[..n - 1] == prv.toolCalls[..n - 1];
        }
      }
    } else {
      assert [] + new_.toolCalls[0..] == new_.toolCalls;
    }
  }

  // ---------- Whole runs ----------

  predicate GrowingRun(run: seq<Message>) {
    (run != [] ==> Extends(EMPTY, run[0]))
    && forall i :: 0 < i < |run| ==> Extends(run[i - 1], run[i])
  }

  // All the deltas of a run, one step after the other.
  function RunDeltas(run: seq<Message>): Computation<seq<Delta>> {
    if run == [] then Computed([])
    else
      var last := |run| - 1;
      Append(RunDeltas(run[..last]), Diffs(if last == 0 then EMPTY else run[last - 1], run[last]))
  }

  // No step of a growing run fails, and the client, starting from nothing, holds every message
  // of the run in turn.
  lemma {:induction false} RunReconstructs(run: seq<Message>, k: nat)
    requires GrowingRun(run) && k <= |run|
    ensures RunDeltas(run[..k]).Computed?
    ensures ApplyAll(EMPTY, RunDeltas(run[..k]).value) == if k == 0 then EMPTY else run[k - 1]
    decreases k
  {
    hide Diffs, Extends, Apply;
    if k > 0 {
      RunReconstructs(run, k - 1);
      assert run[..k][..k - 1] == run[..k - 1];
      var prv := if k == 1 then EMPTY else run[k - 2];
      assert Extends(prv, run[k - 1]) by {
        assert run[k - 1] == run[k - 1];
      }
      StepReconstructs(prv, run[k - 1]);
      ApplyAllAppend(EMPTY, RunDeltas(run[..k - 1]).value, Diffs(prv, run[k - 1]).value);
    }
  }

  // A step that only takes back the end of a text sends deltas that change nothing: the client
  // keeps the longer text.
  lemma ShrinkingTextIgnored(prv: Message, new_: Message)
    requires new_.reasoning <= prv.reasoning && new_.content <= prv.content && new_.toolCalls == prv.toolCalls
    ensures Diffs(prv, new_).Computed? && ApplyAll(prv, Diffs(prv, new_).value) == prv
  {
    hide ApplyAll;
    var n := |prv.toolCalls|;
    assert Diffs(prv, new_).Computed?;
    DiffsFolded(prv, new_);
    if n > 0 {
      assert GrownCall(prv.toolCalls[n - 1], prv.toolCalls[n - 1]) == prv.toolCalls[n - 1];
      assert prv.toolCalls[n - 1 := prv.toolCalls[n - 1]] == prv.toolCalls;
    }
    assert prv.toolCalls + [] == prv.toolCalls;
  }
}
