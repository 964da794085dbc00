/** What the mapper assembles while a message arrives, as the client receives it: the events of a parse
    (common/chat-peg-parser.cpp:317-458) give a message after each of them, and the deltas (common/chat.cpp:266-332)
    bring the client from one to the next exactly when no event takes anything back. */
module MessageStreams {
  import opened Wrappers
  import opened JsonText
  import opened ToolCallMapper
  import opened ToolCallRuns
  import opened MessageDelta
  import QuoteNormalizer

  function Msg(st: State): Message {
    Message(st.reasoning, st.content, st.toolCalls)
  }

  // Every call of the message has a name, and what comes for the last one is written into it.
  ghost predicate Named(st: State) {
    && st.Valid() && (forall i :: 0 <= i < |st.toolCalls| ==> st.toolCalls[i].name != "")
    && (st.current == LastCall ==> st.argsBuffer == "")
  }

  predicate NameGiven(e: Event) {
    e.ToolName? ==> TrimTrailing(e.text) != ""
  }

  // The event takes nothing back from the last call: a second name goes on from the first one, an id is not lost,
  // and whole arguments go on from those that are there.
  predicate Orderly(st: State, e: Event)
    requires st.Valid()
  {
    st.current == LastCall ==>
      match e
      case ToolName(text) => st.CurrentCall().name <= TrimTrailing(text)
      case ToolId(text) => st.CurrentCall().id == "" || IdOf(text) != ""
      case ToolArgs(text) =>
        var args := TrimTrailing(text);
        args != "" && args[0] == '{' ==> st.CurrentCall().arguments <= args
      case _ => true
  }

  // ---------- One event ----------

  lemma NamedStep(st: State, e: Event)
    requires Named(st) && NameGiven(e)
    ensures Named(Next(st, e))
  {
    hide TrimTrailing, Trim, Quote, StringPiece, QuoteNormalizer.Normalized, StripQuotes, Braces, ScanText;
  }

  // What a change of the last call means for the client.
  lemma LastChanged(m: Message, call: ToolCall)
    requires m.toolCalls != []
    ensures var i := |m.toolCalls| - 1;
            Extends(m, m.(toolCalls := m.toolCalls[i := call])) <==> CallExtends(m.toolCalls[i], call)
  {
    var i := |m.toolCalls| - 1;
    assert m.toolCalls[i := call][..i] == m.toolCalls[..i];
  }

  lemma SameCall(call: ToolCall)
    ensures CallExtends(call, call)
  {
  }

  lemma CallAdded(m: Message, call: ToolCall)
    ensures Extends(m, m.(toolCalls := m.toolCalls + [call]))
  {
    if m.toolCalls != [] {
      var i := |m.toolCalls| - 1;
      assert (m.toolCalls + [call])[..i] == m.toolCalls[..i];
    }
  }

  lemma ExtendsItself(m: Message)
    ensures Extends(m, m)
  {
  }

  // What the last call becomes.
  function Changed(st: State, e: Event): ToolCall
    requires st.Valid() && st.current == LastCall && st.CurrentCall().name != "" && NameGiven(e)
  {
    Next(st, e).toolCalls[|st.toolCalls| - 1]
  }

  lemma ChangedOnly(st: State, e: Event)
    requires Named(st) && NameGiven(e) && st.current == LastCall && !e.Reasoning? && !e.Content?
    ensures |Next(st, e).toolCalls| == |st.toolCalls|
    ensures Msg(Next(st, e)) == Msg(st).(toolCalls := st.toolCalls[|st.toolCalls| - 1 := Changed(st, e)])
  {
    hide TrimTrailing, Trim, Quote, StringPiece, QuoteNormalizer.Normalized, StripQuotes, Braces, ScanText;
    var i := |st.toolCalls| - 1;
    assert st.toolCalls[i := st.toolCalls[i]] == st.toolCalls;
  }

  lemma ChangedExtends(st: State, e: Event)
    requires Named(st) && NameGiven(e) && st.current == LastCall
    ensures CallExtends(st.CurrentCall(), Changed(st, e)) <==> Orderly(st, e)
  {
    hide TrimTrailing, Trim, Quote, StringPiece, QuoteNormalizer.Normalized, StripQuotes, Braces, ScanText;
  }

  lemma ElsewhereExtends(st: State, e: Event)
    requires Named(st) && NameGiven(e) && (st.current != LastCall || e.Reasoning? || e.Content?)
    ensures Extends(Msg(st), Msg(Next(st, e))) && Orderly(st, e)
  {
    hide TrimTrailing, Trim, Quote, StringPiece, QuoteNormalizer.Normalized, StripQuotes, Braces, ScanText, Extends;
    ExtendsItself(Msg(st));
    if e.Reasoning? || e.Content? {
      TextLonger(Msg(st), e.text);
    } else if e.ToolName? && st.current == PendingCall {
      CallAdded(Msg(st), Next(st, e).toolCalls[|st.toolCalls|]);
    }
  }

  lemma TextLonger(m: Message, text: string)
    ensures Extends(m, m.(reasoning := m.reasoning + text)) && Extends(m, m.(content := m.content + text))
  {
  }

  // The client can follow an event exactly when it takes nothing back.
  lemma StepExtends(st: State, e: Event)
    requires Named(st) && NameGiven(e)
    ensures Named(Next(st, e))
    ensures Extends(Msg(st), Msg(Next(st, e))) <==> Orderly(st, e)
  {
    NamedStep(st, e);
    hide Next, Extends, Orderly, NameGiven;
    if st.current == LastCall && !e.Reasoning? && !e.Content? {
      ChangedOnly(st, e);
      ChangedExtends(st, e);
      LastChanged(Msg(st), Changed(st, e));
    } else {
      ElsewhereExtends(st, e);
    }
  }

  // ---------- All events of a parse ----------

  // The message after each event.
  function Messages(st: State, events: seq<Event>): (r: seq<Message>)
    requires st.Valid()
    ensures |r| == |events|
    decreases |events|
  {
    if events == [] then [] else [Msg(Next(st, events[0]))] + Messages(Next(st, events[0]), events[1..])
  }

  predicate OrderlyRun(st: State, events: seq<Event>)
    requires st.Valid()
    decreases |events|
  {
    events == [] || (Orderly(st, events[0]) && OrderlyRun(Next(st, events[0]), events[1..]))
  }

  predicate GrowsFrom(m: Message, run: seq<Message>) {
    (run != [] ==> Extends(m, run[0])) && forall i :: 0 < i < |run| ==> Extends(run[i - 1], run[i])
  }

  lemma GrowsFirst(m: Message, first: Message, run: seq<Message>)
    ensures GrowsFrom(m, [first] + run) <==> Extends(m, first) && GrowsFrom(first, run)
  {
    hide Extends;
    var all := [first] + run;
    if GrowsFrom(m, all) {
      assert run != [] ==> Extends(all[1 - 1], all[1]);
      forall i | 0 < i < |run|
        ensures Extends(run[i - 1], run[i])
      {
        assert Extends(all[(i + 1) - 1], all[i + 1]);
      }
    }
  }

  predicate NamesGiven(events: seq<Event>) {
    forall i :: 0 <= i < |events| ==> NameGiven(events[i])
  }

  // The messages of a parse grow exactly when every event is orderly: then, and only then, every delta can be
  // computed and leaves the client with the message.
  lemma {:induction false} RunGrows(st: State, events: seq<Event>)
    requires Named(st) && NamesGiven(events)
    ensures GrowsFrom(Msg(st), Messages(st, events)) <==> OrderlyRun(st, events)
    decreases |events|
  {
    if events != [] {
      assert NameGiven(events[0]);
      hide Next, Extends, Orderly, NameGiven, Named, GrowsFrom;
      StepExtends(st, events[0]);
      RunGrows(Next(st, events[0]), events[1..]);
      GrowsFirst(Msg(st), Msg(Next(st, events[0])), Messages(Next(st, events[0]), events[1..]));
    }
  }

  // A call that is named twice: the second name does not go on from the first one, and the delta throws.
  lemma RenamedExample()
    ensures var events := [ToolOpen, ToolName("f"), ToolName("g")];
            var run := Messages(START, events);
            && Named(START) && NamesGiven(events) && !OrderlyRun(START, events)
            && Diffs(run[1], run[2]) == Thrown("Invalid diff: tool call mismatch!")
  {
    var events := [ToolOpen, ToolName("f"), ToolName("g")];
    assert events[1..] == [ToolName("f"), ToolName("g")] && events[1..][1..] == [ToolName("g")];
    NamedTwice();
    NamedStart([]);
    var st, named := Next(START, ToolOpen), Next(Next(START, ToolOpen), ToolName("f"));
    hide Next, Orderly, TrimTrailing, Diffs, NameGiven, Msg, Named;
    assert Messages(named, [ToolName("g")])[0] == Msg(Next(named, ToolName("g")));
    assert Messages(st, events[1..]) == [Msg(named)] + Messages(named, [ToolName("g")]);
  }

  lemma NamedTwice()
    ensures var named := Next(Next(START, ToolOpen), ToolName("f"));
            var message := Msg(Next(named, ToolName("g")));
            && NameGiven(ToolOpen) && NameGiven(ToolName("f")) && NameGiven(ToolName("g"))
            && !Orderly(named, ToolName("g"))
            && Diffs(Msg(named), message) == Thrown("Invalid diff: tool call mismatch!")
  {
    var named := START.(toolCalls := [ToolCall("f", "{", "")], current := LastCall);
    assert TrimTrailing("f") == "f" && TrimTrailing("g") == "g";
    hide TrimTrailing;
    assert Next(Next(START, ToolOpen), ToolName("f")) == named;
    assert Next(named, ToolName("g")) == named.(toolCalls := [ToolCall("g", "{", "")]);
    hide Next;
    assert !("f" <= "g") by { assert "f"[0] != "g"[0]; }
  }

  // ---------- A message that is polled while it arrives ----------

  // What a node can look like before it is complete. Ids may lose a quote but are not lost, a later string node is
  // not empty, and raw text is not cut where normalisation would take it back.
  predicate Cut(st: State, part: Event, whole: Event) {
    match whole
    case Reasoning(text) => part.Reasoning? && part.text <= text
    case Content(text) => part.Content? && part.text <= text
    case ToolName(text) => part.ToolName? && part.text <= text
    case ToolId(text) => part.ToolId? && (IdOf(part.text) == "" || IdOf(text) != "")
    case ToolArgs(text) => part.ToolArgs? && part.text <= text
    case ArgStringValue(text) =>
      part.ArgStringValue? && part.text <= text && (st.closingQuotePending && part.text == "" ==> text == "")
    case ArgValue(text) =>
      part.ArgValue? && part.text <= text
      && QuoteNormalizer.Harmless(QuoteNormalizer.CutAt(QuoteNormalizer.Outside, text, |part.text|))
    case _ => part == whole
  }

  // Trimming the end keeps the order of beginnings.
  lemma TrimPrefix(x: string, y: string)
    requires x <= y
    ensures TrimTrailing(x) <= TrimTrailing(y)
  {
    var a, b := TrimTrailing(x), TrimTrailing(y);
    hide TrimTrailing;
    assert a <= y;
    assert a != [] ==> y[|a| - 1] == a[|a| - 1];
    assert |a| - 1 < |b|;
  }

  lemma CutExtends(st: State, part: Event, whole: Event)
    requires Named(st) && NameGiven(part) && NameGiven(whole) && Cut(st, part, whole)
    requires Orderly(st, part) && Orderly(st, whole)
    ensures Extends(Msg(Next(st, part)), Msg(Next(st, whole)))
  {
    match whole {
      case Reasoning(_) => TextCut(st, part, whole);
      case Content(_) => TextCut(st, part, whole);
      case ToolName(_) => NameCut(st, part, whole);
      case ToolId(_) => IdCut(st, part, whole);
      case ToolArgs(_) => ObjectCut(st, part, whole);
      case ArgStringValue(_) => ValueCut(st, part, whole);
      case ArgValue(_) => ValueCut(st, part, whole);
      case _ => ExtendsItself(Msg(Next(st, whole)));
    }
  }

  lemma TextCut(st: State, part: Event, whole: Event)
    requires st.Valid() && Cut(st, part, whole) && (whole.Reasoning? || whole.Content?)
    ensures Extends(Msg(Next(st, part)), Msg(Next(st, whole)))
  {
    assert whole.text == part.text + whole.text[|part.text|..];
    assert st.reasoning + whole.text == st.reasoning + part.text + whole.text[|part.text|..];
    assert st.content + whole.text == st.content + part.text + whole.text[|part.text|..];
  }

  // Two messages that differ in their last call only.
  lemma LastDiffers(m: Message, calls: seq<ToolCall>, last: ToolCall, call: ToolCall)
    requires CallExtends(last, call)
    ensures Extends(m.(toolCalls := calls + [last]), m.(toolCalls := calls + [call]))
  {
    assert (calls + [last])[..|calls|] == calls == (calls + [call])[..|calls|];
  }

  lemma LastSet(calls: seq<ToolCall>, call: ToolCall)
    requires calls != []
    ensures calls[|calls| - 1 := call] == calls[..|calls| - 1] + [call]
  {
  }

  // What the events that concern the last call make of it.
  lemma ChangedTo(st: State, e: Event)
    requires Named(st) && NameGiven(e) && st.current == LastCall
    ensures var call := st.CurrentCall();
            match e
            case ToolName(text) =>
              var arguments := if call.arguments == "" then "{" else call.arguments;
              Changed(st, e) == call.(name := TrimTrailing(text), arguments := arguments)
            case ToolId(text) => Changed(st, e) == call.(id := IdOf(text))
            case ToolArgs(text) =>
              var args := TrimTrailing(text);
              Changed(st, e) == if args != "" && args[0] == '{' then call.(arguments := args) else call
            case ArgStringValue(text) =>
              Changed(st, e) == call.(arguments := call.arguments + StringPiece(text, st.closingQuotePending))
            case ArgValue(text) =>
              Changed(st, e) == call.(arguments := call.arguments + QuoteNormalizer.Normalized(text))
            case _ => true
  {
    hide TrimTrailing, Trim, Quote, StringPiece, QuoteNormalizer.Normalized, StripQuotes, Braces, ScanText;
  }

  lemma CutLast(st: State, part: Event, whole: Event)
    requires Named(st) && NameGiven(part) && NameGiven(whole) && st.current == LastCall
    requires !part.Reasoning? && !part.Content? && !whole.Reasoning? && !whole.Content?
    requires CallExtends(Changed(st, part), Changed(st, whole))
    ensures Extends(Msg(Next(st, part)), Msg(Next(st, whole)))
  {
    hide Next, Extends, CallExtends, Changed, NameGiven;
    ChangedOnly(st, part);
    ChangedOnly(st, whole);
    LastSet(st.toolCalls, Changed(st, part));
    LastSet(st.toolCalls, Changed(st, whole));
    LastDiffers(Msg(st), st.toolCalls[..|st.toolCalls| - 1], Changed(st, part), Changed(st, whole));
  }

  // Outside a named call, events other than names leave the calls of the message alone.
  lemma CallsKept(st: State, e: Event)
    requires Named(st) && st.current != LastCall && !e.ToolName? && !e.Reasoning? && !e.Content?
    ensures Msg(Next(st, e)) == Msg(st)
  {
    hide TrimTrailing, Trim, Quote, StringPiece, QuoteNormalizer.Normalized, StripQuotes, Braces, ScanText;
  }

  lemma NameCut(st: State, part: Event, whole: Event)
    requires Named(st) && NameGiven(part) && NameGiven(whole) && Cut(st, part, whole) && whole.ToolName?
    ensures Extends(Msg(Next(st, part)), Msg(Next(st, whole)))
  {
    TrimPrefix(part.text, whole.text);
    if st.current == LastCall {
      ChangedTo(st, part);
      ChangedTo(st, whole);
      hide Next, Changed, TrimTrailing, Extends;
      CutLast(st, part, whole);
    } else if st.current == PendingCall {
      NewlyNamed(st, part, whole);
    } else {
      hide TrimTrailing, Extends;
      ExtendsItself(Msg(st));
    }
  }

  lemma NewlyNamed(st: State, part: Event, whole: Event)
    requires Named(st) && st.current == PendingCall && part.ToolName? && whole.ToolName?
    requires TrimTrailing(part.text) != "" && TrimTrailing(part.text) <= TrimTrailing(whole.text)
    ensures Extends(Msg(Next(st, part)), Msg(Next(st, whole)))
  {
    hide TrimTrailing, Extends;
    var last, call := Next(st, part).toolCalls[|st.toolCalls|], Next(st, whole).toolCalls[|st.toolCalls|];
    LastDiffers(Msg(st), st.toolCalls, last, call);
  }

  lemma IdCut(st: State, part: Event, whole: Event)
    requires Named(st) && Cut(st, part, whole) && whole.ToolId?
    ensures Extends(Msg(Next(st, part)), Msg(Next(st, whole)))
  {
    hide Next, Changed, TrimTrailing, StripQuotes, IdOf, Extends;
    if st.current == LastCall {
      ChangedTo(st, part);
      ChangedTo(st, whole);
      CutLast(st, part, whole);
    } else {
      CallsKept(st, part);
      CallsKept(st, whole);
      ExtendsItself(Msg(st));
    }
  }

  lemma ObjectCut(st: State, part: Event, whole: Event)
    requires Named(st) && Cut(st, part, whole) && whole.ToolArgs? && Orderly(st, whole)
    ensures Extends(Msg(Next(st, part)), Msg(Next(st, whole)))
  {
    hide Next, Changed, TrimTrailing, Extends;
    TrimPrefix(part.text, whole.text);
    if st.current == LastCall {
      ChangedTo(st, part);
      ChangedTo(st, whole);
      SameCall(st.CurrentCall());
      CutLast(st, part, whole);
    } else {
      CallsKept(st, part);
      CallsKept(st, whole);
      ExtendsItself(Msg(st));
    }
  }

  // The text that a value adds, whole and in part.
  lemma PiecePrefix(st: State, part: Event, whole: Event)
    requires st.Valid() && Cut(st, part, whole)
    ensures whole.ArgStringValue? ==>
              StringPiece(part.text, st.closingQuotePending) <= StringPiece(whole.text, st.closingQuotePending)
    ensures whole.ArgValue? ==> QuoteNormalizer.Normalized(part.text) <= QuoteNormalizer.Normalized(whole.text)
  {
    EscapeNothing();
    hide EscapeInner, QuoteNormalizer.Normalized, QuoteNormalizer.Harmless, QuoteNormalizer.CutAt;
    if whole.ArgStringValue? {
      EscapePrefix(part.text, whole.text);
    } else if whole.ArgValue? {
      assert part.text == whole.text[..|part.text|];
      QuoteNormalizer.NormalizedPrefix(whole.text, |part.text|);
    }
  }

  lemma AppendedPrefix(text: string, x: string, y: string)
    requires x <= y
    ensures text + x <= text + y
  {
    assert text + y == text + x + y[|x|..];
  }

  lemma ValueCut(st: State, part: Event, whole: Event)
    requires Named(st) && Cut(st, part, whole) && (whole.ArgStringValue? || whole.ArgValue?)
    ensures Extends(Msg(Next(st, part)), Msg(Next(st, whole)))
  {
    PiecePrefix(st, part, whole);
    hide Next, Changed, StringPiece, QuoteNormalizer.Normalized, QuoteNormalizer.Harmless, QuoteNormalizer.CutAt,
         Extends;
    if st.current == LastCall {
      var text := st.CurrentCall().arguments;
      if whole.ArgValue? {
        AppendedPrefix(text, QuoteNormalizer.Normalized(part.text), QuoteNormalizer.Normalized(whole.text));
      } else {
        AppendedPrefix(text, StringPiece(part.text, st.closingQuotePending),
                       StringPiece(whole.text, st.closingQuotePending));
      }
      ChangedTo(st, part);
      ChangedTo(st, whole);
      CutLast(st, part, whole);
    } else {
      CallsKept(st, part);
      CallsKept(st, whole);
      ExtendsItself(Msg(st));
    }
  }

  lemma ExtendsFurther(x: Message, y: Message, z: Message)
    requires Extends(x, y) && Extends(y, z)
    ensures Extends(x, z)
  {
    if x.toolCalls != [] {
      var i := |x.toolCalls| - 1;
      assert x.toolCalls[..i] == y.toolCalls[..i] == z.toolCalls[..i] by {
        assert y.toolCalls[..i] == y.toolCalls[..|y.toolCalls| - 1][..i];
        assert z.toolCalls[..i] == z.toolCalls[..|y.toolCalls| - 1][..i];
      }
      if i < |y.toolCalls| - 1 {
        assert y.toolCalls[i] == y.toolCalls[..|y.toolCalls| - 1][i] == z.toolCalls[i];
      }
    }
  }

  // A look at the message: so many nodes are complete, and perhaps a part of the next one is there.
  datatype Poll = Poll(seen: nat, part: Option<Event>)

  function StateAt(events: seq<Event>, p: Poll): (st: State)
    requires p.seen <= |events|
    ensures st.Valid()
  {
    var st := Run(START, events[..p.seen]);
    match p.part
    case None => st
    case Some(part) => Next(st, part)
  }

  predicate ValidPoll(events: seq<Event>, p: Poll) {
    && p.seen <= |events|
    && (p.part.Some? ==>
          && p.seen < |events| && NameGiven(p.part.value)
          && var st := Run(START, events[..p.seen]);
             Orderly(st, p.part.value) && Cut(st, p.part.value, events[p.seen]))
  }

  // More has arrived: more nodes, or more of the same node.
  predicate Later(events: seq<Event>, p: Poll, q: Poll)
    requires p.seen <= |events|
  {
    || p.seen < q.seen
    || (p.seen == q.seen
        && (p.part.None? || (q.part.Some? && Cut(Run(START, events[..p.seen]), p.part.value, q.part.value))))
  }

  lemma RunMore(events: seq<Event>, n: nat)
    requires n < |events|
    ensures Run(START, events[..n + 1]) == Next(Run(START, events[..n]), events[n])
  {
    assert events[..n + 1] == events[..n] + [events[n]];
    RunAppend(START, events[..n], [events[n]]);
    RunOne(Run(START, events[..n]), events[n]);
  }

  lemma {:induction false} OrderlyAt(st: State, events: seq<Event>, n: nat)
    requires st.Valid() && OrderlyRun(st, events) && n < |events|
    ensures Orderly(Run(st, events[..n]), events[n])
    decreases n
  {
    hide Next, Orderly;
    if n == 0 {
      assert events[..0] == [];
    } else {
      assert events[..n][0] == events[0] && events[..n][1..] == events[1..][..n - 1];
      OrderlyAt(Next(st, events[0]), events[1..], n - 1);
    }
  }

  // Messages of complete nodes only grow.
  lemma {:induction false} NodesExtend(events: seq<Event>, m: nat, n: nat)
    requires NamesGiven(events) && OrderlyRun(START, events) && m <= n <= |events|
    ensures Named(Run(START, events[..n])) && Named(Run(START, events[..m]))
    ensures Extends(Msg(Run(START, events[..m])), Msg(Run(START, events[..n])))
    decreases n
  {
    hide Next, Extends, Orderly, OrderlyRun, NameGiven, Run;
    if n == 0 {
      NamedStart(events);
    } else {
      var k := n - 1;
      NodesExtend(events, if m < n then m else k, k);
      RunMore(events, k);
      OrderlyAt(START, events, k);
      StepExtends(Run(START, events[..k]), events[k]);
      if m < n {
        ExtendsFurther(Msg(Run(START, events[..m])), Msg(Run(START, events[..k])), Msg(Run(START, events[..n])));
      } else {
        ExtendsItself(Msg(Run(START, events[..n])));
      }
    }
  }

  lemma NamedStart(events: seq<Event>)
    ensures events[..0] == [] && Run(START, []) == START && Named(START) && Msg(START) == EMPTY
    ensures Extends(Msg(START), Msg(START))
  {
  }

  lemma PollExtends(events: seq<Event>, p: Poll, q: Poll)
    requires NamesGiven(events) && OrderlyRun(START, events) && ValidPoll(events, p) && ValidPoll(events, q)
    requires Later(events, p, q)
    ensures Extends(Msg(StateAt(events, p)), Msg(StateAt(events, q)))
  {
    hide Next, Extends, Orderly, OrderlyRun, NameGiven, Run, Cut;
    var st := Run(START, events[..q.seen]);
    NodesExtend(events, p.seen, q.seen);
    if q.part.Some? {
      StepExtends(st, q.part.value);
    } else {
      ExtendsItself(Msg(st));
    }
    if p.seen < q.seen {
      NodeReached(events, p);
      NodesExtend(events, p.seen + 1, q.seen);
      ExtendsFurther(Msg(StateAt(events, p)), Msg(Run(START, events[..p.seen + 1])), Msg(st));
      ExtendsFurther(Msg(StateAt(events, p)), Msg(st), Msg(StateAt(events, q)));
    } else if p.part.Some? {
      CutExtends(st, p.part.value, q.part.value);
    }
  }

  // From a look into a node to the complete node.
  lemma NodeReached(events: seq<Event>, p: Poll)
    requires NamesGiven(events) && OrderlyRun(START, events) && ValidPoll(events, p) && p.seen < |events|
    ensures Extends(Msg(StateAt(events, p)), Msg(Run(START, events[..p.seen + 1])))
  {
    hide Next, Extends, Orderly, OrderlyRun, Run, Cut, NameGiven;
    var st, e := Run(START, events[..p.seen]), events[p.seen];
    NodesExtend(events, p.seen, p.seen);
    RunMore(events, p.seen);
    OrderlyAt(START, events, p.seen);
    assert NameGiven(e);
    match p.part {
      case None => StepExtends(st, e);
      case Some(part) => CutExtends(st, part, e);
    }
  }

  ghost predicate ValidPolls(events: seq<Event>, polls: seq<Poll>) {
    && (forall i :: 0 <= i < |polls| ==> ValidPoll(events, polls[i]))
    && forall i :: 0 < i < |polls| ==> Later(events, polls[i - 1], polls[i])
  }

  function PollMessages(events: seq<Event>, polls: seq<Poll>): (r: seq<Message>)
    requires forall i :: 0 <= i < |polls| ==> polls[i].seen <= |events|
    ensures |r| == |polls|
  {
    seq(|polls|, i requires 0 <= i < |polls| => Msg(StateAt(events, polls[i])))
  }

  // However often the client asks while a message arrives, whatever node is incomplete at the time: no delta fails,
  // and after every one the client holds the message as it was parsed then.
  lemma PollsReconstruct(events: seq<Event>, polls: seq<Poll>, k: nat)
    requires NamesGiven(events) && OrderlyRun(START, events) && ValidPolls(events, polls) && k <= |polls|
    ensures forall i :: 0 <= i < |polls| ==> polls[i].seen <= |events|
    ensures var run := PollMessages(events, polls);
            && RunDeltas(run[..k]).Computed?
            && ApplyAll(EMPTY, RunDeltas(run[..k]).value) == if k == 0 then EMPTY else run[k - 1]
  {
    assert forall i :: 0 <= i < |polls| ==> ValidPoll(events, polls[i]);
    var run := PollMessages(events, polls);
    hide Extends, OrderlyRun, ValidPoll, Later, RunDeltas, ApplyAll;
    if polls != [] {
      FirstPoll(events, polls[0]);
    }
    forall i | 0 < i < |run|
      ensures Extends(run[i - 1], run[i])
    {
      assert Later(events, polls[i - 1], polls[i]);
      PollExtends(events, polls[i - 1], polls[i]);
    }
    RunReconstructs(run, k);
  }

  lemma FirstPoll(events: seq<Event>, p: Poll)
    requires NamesGiven(events) && OrderlyRun(START, events) && ValidPoll(events, p)
    ensures Extends(EMPTY, Msg(StateAt(events, p)))
  {
    NamedStart(events);
    hide Extends, OrderlyRun;
    PollExtends(events, Poll(0, None), p);
  }

  // ---------- Whole messages ----------

  // The same as `Orderly`, in terms of what has come of the call.
  predicate Steady(d: Draft, e: Event) {
    d.name != "" ==>
      match e
      case ToolName(text) => d.name <= TrimTrailing(text)
      case ToolId(text) => d.id == "" || IdOf(text) != ""
      case ToolArgs(text) =>
        var args := TrimTrailing(text);
        args != "" && args[0] == '{' ==> d.text.text <= args
      case _ => true
  }

  predicate SteadyCall(d: Draft, events: seq<Event>)
    decreases |events|
  {
    events == [] || (Steady(d, events[0]) && SteadyCall(Advance(d, events[0]), events[1..]))
  }

  lemma SteadyOrderly(st: State, base: State, d: Draft, e: Event)
    requires InCall(st, base, d)
    ensures Orderly(st, e) <==> Steady(d, e)
  {
    hide TrimTrailing, IdOf;
  }

  lemma {:induction false} CallOrderly(st: State, base: State, d: Draft, events: seq<Event>)
    requires InCall(st, base, d) && CallStream(d, events)
    ensures OrderlyRun(st, events) <==> SteadyCall(d, events)
    decreases |events|
  {
    assert st.Valid();
    if events != [] {
      var e := events[0];
      InCallStep(st, base, d, e);
      hide InCall, Next, Advance, Orderly, Steady, Allowed;
      SteadyOrderly(st, base, d, e);
      CallOrderly(Next(st, e), base, Advance(d, e), events[1..]);
    }
  }

  lemma InCallStep(st: State, base: State, d: Draft, e: Event)
    requires InCall(st, base, d) && Allowed(d, e)
    ensures InCall(Next(st, e), base, Advance(d, e))
  {
    hide InCall, Next, Advance;
    match e
    case ToolName(text) => NameInCall(st, base, d, text);
    case ToolId(text) => IdInCall(st, base, d, text);
    case _ => TextInCall(st, base, d, e);
  }

  lemma {:induction false} OrderlyAppend(st: State, x: seq<Event>, y: seq<Event>)
    requires st.Valid()
    ensures OrderlyRun(st, x + y) <==> OrderlyRun(st, x) && OrderlyRun(Run(st, x), y)
    decreases |x|
  {
    hide Next, Orderly;
    if x == [] {
      assert x + y == y;
    } else {
      assert (x + y)[1..] == x[1..] + y;
      OrderlyAppend(Next(st, x[0]), x[1..], y);
    }
  }

  lemma OrderlyOne(st: State, e: Event)
    requires st.Valid() && !e.ToolName? && !e.ToolId? && !e.ToolArgs?
    ensures OrderlyRun(st, [e])
  {
    hide Next;
    assert [e][1..] == [];
  }

  predicate SteadyPart(p: Part) {
    p.Call? ==> SteadyCall(NO_DRAFT, p.events)
  }

  lemma PartOrderly(base: State, p: Part)
    requires base.Valid() && WellFormed(p)
    ensures OrderlyRun(base, PartEvents(p)) <==> SteadyPart(p)
  {
    hide Next, OrderlyRun, CallStream, SteadyCall, InCall;
    if p.Call? {
      var st := Next(base, ToolOpen);
      OpenInCall(base);
      OrderlyOne(base, ToolOpen);
      OrderlyOne(Run(base, ToolEvents(p.events)), ToolClose);
      OrderlyAppend(base, ToolEvents(p.events), [ToolClose]);
      OrderlyAppend(base, [ToolOpen], p.events);
      RunOne(base, ToolOpen);
      CallOrderly(st, base, NO_DRAFT, p.events);
    } else {
      OrderlyOne(base, PartEvents(p)[0]);
    }
  }

  // The events of a message are orderly exactly when those of each of its calls take nothing back from it.
  lemma {:induction false} MessageOrderly(base: State, parts: seq<Part>)
    requires base.Valid() && forall i :: 0 <= i < |parts| ==> WellFormed(parts[i])
    ensures OrderlyRun(base, MessageEvents(parts)) <==> forall i :: 0 <= i < |parts| ==> SteadyPart(parts[i])
    decreases |parts|
  {
    if parts != [] {
      hide Run, PartEvents, WellFormed, OrderlyRun, SteadyPart, MessageEvents;
      var first, rest := parts[0], parts[1..];
      PartsFirst(parts);
      PartOrderly(base, first);
      OrderlyAppend(base, PartEvents(first), MessageEvents(rest));
      MessageOrderly(Run(base, PartEvents(first)), rest);
      assert forall i :: 0 < i < |parts| ==> parts[i] == rest[i - 1];
      assert (forall i :: 0 <= i < |parts| ==> SteadyPart(parts[i]))
        <==> SteadyPart(first) && forall i :: 0 <= i < |rest| ==> SteadyPart(rest[i]);
    }
  }

  lemma {:induction false} StreamNames(d: Draft, events: seq<Event>)
    requires CallStream(d, events)
    ensures NamesGiven(events)
    decreases |events|
  {
    hide Advance, TrimTrailing;
    if events != [] {
      StreamNames(Advance(d, events[0]), events[1..]);
      forall i | 0 <= i < |events|
        ensures NameGiven(events[i])
      {
        assert i > 0 ==> events[i] == events[1..][i - 1];
      }
    }
  }

  lemma NamesAppend(x: seq<Event>, y: seq<Event>)
    requires NamesGiven(x) && NamesGiven(y)
    ensures NamesGiven(x + y)
  {
    hide NameGiven;
  }

  lemma {:induction false} MessageNames(parts: seq<Part>)
    requires forall i :: 0 <= i < |parts| ==> WellFormed(parts[i])
    ensures NamesGiven(MessageEvents(parts))
    decreases |parts|
  {
    if parts != [] {
      var p := parts[0];
      assert WellFormed(p);
      hide CallStream;
      if p.Call? {
        StreamNames(NO_DRAFT, p.events);
        NamesAppend([ToolOpen], p.events);
        NamesAppend(ToolEvents(p.events), [ToolClose]);
      }
      MessageNames(parts[1..]);
      NamesAppend(PartEvents(p), MessageEvents(parts[1..]));
    }
  }

  // From the events of a message to the client: after the last look the client holds the thoughts, the words and
  // the calls of the message, however it was polled on the way.
  lemma MessageDelivered(parts: seq<Part>, polls: seq<Poll>)
    requires forall i :: 0 <= i < |parts| ==> WellFormed(parts[i]) && SteadyPart(parts[i])
    requires ValidPolls(MessageEvents(parts), polls)
    requires polls != [] && polls[|polls| - 1] == Poll(|MessageEvents(parts)|, None)
    ensures forall i :: 0 <= i < |polls| ==> polls[i].seen <= |MessageEvents(parts)|
    ensures var deltas := RunDeltas(PollMessages(MessageEvents(parts), polls));
            deltas.Computed?
            && ApplyAll(EMPTY, deltas.value) == Message(Thoughts(parts), Words(parts), MessageCalls(parts))
  {
    hide WellFormed, SteadyPart, ValidPolls, RunDeltas, ApplyAll, Run, MessageEvents, OrderlyRun, NameGiven;
    var events := MessageEvents(parts);
    MessageOrderly(START, parts);
    MessageNames(parts);
    PollsReconstruct(events, polls, |polls|);
    var run := PollMessages(events, polls);
    assert run[..|polls|] == run && events[..|events|] == events;
    MessageAssembled(START, parts);
    StartsEmpty(parts);
  }

  lemma StartsEmpty(parts: seq<Part>)
    ensures START.reasoning + Thoughts(parts) == Thoughts(parts) && START.content + Words(parts) == Words(parts)
    ensures START.toolCalls + MessageCalls(parts) == MessageCalls(parts)
  {
  }

  // A call with one name and no empty id takes nothing back.
  lemma {:induction false} TaggedSteady(d: Draft, events: seq<Event>)
    requires Tagged(events) && |NamesOf(events)| <= (if d.name == "" then 1 else 0)
    requires forall i :: 0 <= i < |IdsOf(events)| ==> IdsOf(events)[i] != ""
    ensures SteadyCall(d, events)
    decreases |events|
  {
    hide TrimTrailing, IdOf;
    if events != [] {
      TaggedRest(events);
      var front := if events[0].ToolId? then [IdOf(events[0].text)] else [];
      assert IdsOf(events) == front + IdsOf(events[1..]);
      assert forall i :: 0 <= i < |IdsOf(events[1..])| ==> IdsOf(events[1..])[i] == IdsOf(events)[|front| + i];
      assert front != [] ==> IdsOf(events)[0] == front[0];
      TaggedSteady(Advance(d, events[0]), events[1..]);
    }
  }
}
