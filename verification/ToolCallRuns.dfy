/** Whole runs of the mapper over the events of one tool call. */
module ToolCallRuns {
  import opened Wrappers
  import opened JsonText
  import opened ToolCallMapper
  import QuoteNormalizer

  function Run(st: State, events: seq<Event>): (r: State)
    requires st.Valid()
    ensures r.Valid()
    decreases |events|
  {
    if events == [] then st else Run(Next(st, events[0]), events[1..])
  }

  lemma {:induction false} RunAppend(st: State, x: seq<Event>, y: seq<Event>)
    requires st.Valid()
    ensures Run(st, x + y) == Run(Run(st, x), y)
    decreases |x|
  {
    hide Next;
    if x == [] {
      assert x + y == y;
    } else {
      assert (x + y)[1..] == x[1..] + y;
      RunAppend(Next(st, x[0]), x[1..], y);
    }
  }

  lemma RunOne(st: State, e: Event)
    requires st.Valid()
    ensures Run(st, [e]) == Next(st, e)
  {
    assert Run(Next(st, e), []) == Next(st, e);
  }

  // A call that waits for its name never has one, in any run: flushing a named waiting call at
  // the end of a parse adds nothing.
  lemma WaitingCallUnnamed(events: seq<Event>)
    ensures var st := Run(START, events);
            st.pending.Some? ==> st.pending.value.name == "" && st.current == PendingCall
  {
  }

  // ---------- The arguments of a call ----------

  // A value is a literal string, or raw text in Python or JSON notation; it arrives as one or more nodes.
  datatype Value = StringValue(text: string, more: seq<string>) | RawValue(nodes: seq<string>)

  datatype Argument = Argument(name: string, value: Value)

  function StringEvents(nodes: seq<string>): seq<Event> {
    if nodes == [] then [] else [ArgStringValue(nodes[0])] + StringEvents(nodes[1..])
  }

  function RawEvents(nodes: seq<string>): seq<Event> {
    if nodes == [] then [] else [ArgValue(nodes[0])] + RawEvents(nodes[1..])
  }

  function ValueEvents(v: Value): seq<Event> {
    match v
    case StringValue(text, more) => [ArgStringValue(text)] + StringEvents(more)
    case RawValue(nodes) => RawEvents(nodes)
  }

  function ArgumentEvents(a: Argument): seq<Event> {
    [ArgOpen] + ([ArgName(a.name)] + (ValueEvents(a.value) + [ArgClose]))
  }

  function Events(args: seq<Argument>): seq<Event> {
    if args == [] then [] else Events(args[..|args| - 1]) + ArgumentEvents(args[|args| - 1])
  }

  // What the nodes behind the first one of a string come out as: an empty one becomes a quote.
  function MoreText(nodes: seq<string>): string {
    if nodes == [] then "" else StringPiece(nodes[0], true) + MoreText(nodes[1..])
  }

  function RawText(nodes: seq<string>): string {
    if nodes == [] then "" else QuoteNormalizer.Normalized(nodes[0]) + RawText(nodes[1..])
  }

  // What a value comes out as.
  function ValueText(v: Value): string {
    match v
    case StringValue(text, more) => "\"" + EscapeInner(text) + (MoreText(more) + "\"")
    case RawValue(nodes) => RawText(nodes)
  }

  function Joined(nodes: seq<string>): string {
    if nodes == [] then "" else nodes[0] + Joined(nodes[1..])
  }

  // The JSON text of a value.
  function ValueJson(v: Value): string {
    match v
    case StringValue(text, more) => Quote(text + Joined(more))
    case RawValue(nodes) => RawText(nodes)
  }

  function MemberText(a: Argument): string {
    Quote(Trim(a.name)) + ":" + ValueText(a.value)
  }

  function MemberJson(a: Argument): string {
    Quote(Trim(a.name)) + ":" + ValueJson(a.value)
  }

  function MembersText(args: seq<Argument>): string {
    if args == [] then ""
    else MembersText(args[..|args| - 1]) + (if |args| > 1 then "," else "") + MemberText(args[|args| - 1])
  }

  function MembersJson(args: seq<Argument>): string {
    if args == [] then ""
    else MembersJson(args[..|args| - 1]) + (if |args| > 1 then "," else "") + MemberJson(args[|args| - 1])
  }

  // The JSON object the arguments stand for.
  function ObjectJson(args: seq<Argument>): string {
    "{" + MembersJson(args) + "}"
  }

  // What has been written when all arguments have arrived.
  function Opened(args: seq<Argument>): string {
    "{" + MembersText(args)
  }

  // How many braces the code finds open before it closes the call.
  function Unclosed(args: seq<Argument>): int {
    ScanText(OUTSIDE, Opened(args)).depth
  }

  // What the arguments of a finished call are.
  function ClosedArguments(args: seq<Argument>): string {
    Opened(args) + Braces(Unclosed(args))
  }

  // ---------- Empty nodes ----------

  function Empties(nodes: seq<string>): nat {
    if nodes == [] then 0 else (if nodes[0] == "" then 1 else 0) + Empties(nodes[1..])
  }

  function Strays(v: Value): nat {
    match v
    case StringValue(_, more) => Empties(more)
    case RawValue(_) => 0
  }

  function AllStrays(args: seq<Argument>): nat {
    if args == [] then 0 else AllStrays(args[..|args| - 1]) + Strays(args[|args| - 1].value)
  }

  function Quotes(s: string): nat {
    if s == "" then 0 else (if s[0] == '"' then 1 else 0) + Quotes(s[1..])
  }

  lemma {:induction false} QuotesAppend(x: string, y: string)
    ensures Quotes(x + y) == Quotes(x) + Quotes(y)
    decreases |x|
  {
    if x == "" {
      assert x + y == y;
    } else {
      assert (x + y)[1..] == x[1..] + y;
      QuotesAppend(x[1..], y);
    }
  }

  // Every empty node adds a quote; without them the nodes come out as their text.
  lemma {:induction false} MoreStrays(nodes: seq<string>)
    ensures Quotes(MoreText(nodes)) == Quotes(EscapeInner(Joined(nodes))) + Empties(nodes)
    ensures Empties(nodes) == 0 ==> MoreText(nodes) == EscapeInner(Joined(nodes))
    decreases |nodes|
  {
    EscapeNothing();
    assert Quotes("\"") == 1 + Quotes("") == 1;
    hide EscapeInner, Quotes;
    if nodes != [] {
      MoreStrays(nodes[1..]);
      EscapeAppend(nodes[0], Joined(nodes[1..]));
      QuotesAppend(EscapeInner(nodes[0]), EscapeInner(Joined(nodes[1..])));
      QuotesAppend(StringPiece(nodes[0], true), MoreText(nodes[1..]));
      NoQuotes();
      assert StringPiece(nodes[0], true) == if nodes[0] == "" then "\"" else EscapeInner(nodes[0]);
    }
  }

  lemma NoQuotes()
    ensures Quotes("") == 0
  {
  }

  lemma ValueStrays(v: Value)
    ensures Quotes(ValueText(v)) == Quotes(ValueJson(v)) + Strays(v)
    ensures Strays(v) == 0 ==> ValueText(v) == ValueJson(v)
  {
    hide EscapeInner, Quotes, MoreText, RawText, Joined;
    if v.StringValue? {
      var inner, whole := EscapeInner(v.text), EscapeInner(Joined(v.more));
      MoreStrays(v.more);
      EscapeAppend(v.text, Joined(v.more));
      assert Quote(v.text + Joined(v.more)) == "\"" + inner + (whole + "\"");
      QuotesAppend("\"" + inner, MoreText(v.more) + "\"");
      QuotesAppend("\"" + inner, whole + "\"");
      QuotesAppend(MoreText(v.more), "\"");
      QuotesAppend(whole, "\"");
    }
  }

  lemma {:induction false} MembersStrays(args: seq<Argument>)
    ensures Quotes(MembersText(args)) == Quotes(MembersJson(args)) + AllStrays(args)
    ensures AllStrays(args) == 0 ==> MembersText(args) == MembersJson(args)
    decreases |args|
  {
    hide Quotes, ValueText, ValueJson, Strays, Trim, Quote;
    if args != [] {
      var init, last := args[..|args| - 1], args[|args| - 1];
      var sep, key := if |args| > 1 then "," else "", Quote(Trim(last.name)) + ":";
      MembersStrays(init);
      ValueStrays(last.value);
      QuotesAppend(MembersText(init) + sep, MemberText(last));
      QuotesAppend(MembersJson(init) + sep, MemberJson(last));
      QuotesAppend(MembersText(init), sep);
      QuotesAppend(MembersJson(init), sep);
      QuotesAppend(key, ValueText(last.value));
      QuotesAppend(key, ValueJson(last.value));
    }
  }

  // ---------- Balanced raw values ----------

  // Raw text that leaves the brace count and the string state as they were.
  predicate Balanced(text: string) {
    ScanText(OUTSIDE, text) == OUTSIDE
  }

  predicate RawBalanced(args: seq<Argument>) {
    forall i :: 0 <= i < |args| ==> args[i].value.RawValue? ==> Balanced(ValueJson(args[i].value))
  }

  // ---------- The text machine ----------

  // The argument text as if the opening brace had been written from the start.
  datatype Text = Text(text: string, count: nat, quoteOwed: bool)

  const NO_TEXT := Text("{", 0, false)

  predicate IsArgEvent(e: Event) {
    e.ArgOpen? || e.ArgName? || e.ArgValue? || e.ArgStringValue? || e.ArgClose?
  }

  function Extend(t: Text, e: Event): Text {
    match e
    case ArgOpen => t.(quoteOwed := false)
    case ArgName(name) =>
      Text(t.text + ((if t.count > 0 then "," else "") + Quote(Trim(name)) + ":"), t.count + 1, t.quoteOwed)
    case ArgStringValue(text) => Text(t.text + StringPiece(text, t.quoteOwed), t.count, true)
    case ArgValue(text) => t.(text := t.text + QuoteNormalizer.Normalized(text))
    case ArgClose => if t.quoteOwed then Text(t.text + "\"", t.count, false) else t
    case ToolArgs(text) =>
      var args := TrimTrailing(text);
      if args != "" && args[0] == '{' then t.(text := args) else t
    case _ => t
  }

  function ExtendAll(t: Text, events: seq<Event>): Text
    decreases |events|
  {
    if events == [] then t else ExtendAll(Extend(t, events[0]), events[1..])
  }

  predicate IsValueEvent(e: Event) {
    e.ArgValue? || e.ArgStringValue?
  }

  // Argument events only, with no value before the first name.
  predicate ArgStream(t: Text, events: seq<Event>)
    decreases |events|
  {
    events == [] ||
    (&& IsArgEvent(events[0])
     && (IsValueEvent(events[0]) ==> t.count > 0)
     && ArgStream(Extend(t, events[0]), events[1..]))
  }

  lemma {:induction false} ExtendAllAppend(t: Text, x: seq<Event>, y: seq<Event>)
    ensures ExtendAll(t, x + y) == ExtendAll(ExtendAll(t, x), y)
    decreases |x|
  {
    hide Extend;
    if x == [] {
      assert x + y == y;
    } else {
      assert (x + y)[1..] == x[1..] + y;
      ExtendAllAppend(Extend(t, x[0]), x[1..], y);
    }
  }

  lemma {:induction false} ArgStreamSplit(t: Text, x: seq<Event>, y: seq<Event>)
    ensures ArgStream(t, x + y) <==> ArgStream(t, x) && ArgStream(ExtendAll(t, x), y)
    decreases |x|
  {
    hide Trim, StringPiece, QuoteNormalizer.Normalized;
    if x == [] {
      assert x + y == y;
    } else {
      assert (x + y)[1..] == x[1..] + y;
      ArgStreamSplit(Extend(t, x[0]), x[1..], y);
    }
  }

  // Argument events only append text.
  lemma {:induction false} ExtendAllGrows(t: Text, events: seq<Event>)
    requires ArgStream(t, events)
    ensures t.text <= ExtendAll(t, events).text
    decreases |events|
  {
    hide Trim, StringPiece, Quote, QuoteNormalizer.Normalized;
    if events != [] {
      ExtendAllGrows(Extend(t, events[0]), events[1..]);
    }
  }

  lemma ExtendFirst(t: Text, e: Event, rest: seq<Event>)
    ensures ExtendAll(t, [e] + rest) == ExtendAll(Extend(t, e), rest)
  {
    hide Extend;
    assert ([e] + rest)[1..] == rest;
  }

  lemma NameText(t: Text, name: string)
    ensures Extend(Extend(t, ArgOpen), ArgName(name))
         == Text(t.text + ((if t.count > 0 then "," else "") + (Quote(Trim(name)) + ":")), t.count + 1, false)
  {
    hide Quote, Trim;
    var sep := if t.count > 0 then "," else "";
    assert sep + Quote(Trim(name)) + ":" == sep + (Quote(Trim(name)) + ":");
  }

  lemma Assoc(w: string, x: string, y: string, z: string)
    ensures w + (x + y) + z == w + x + (y + z)
  {
  }

  lemma ArgumentText(t: Text, a: Argument)
    ensures ExtendAll(t, ArgumentEvents(a))
            == Text(t.text + (if t.count > 0 then "," else "") + MemberText(a), t.count + 1, false)
  {
    hide ExtendAll, Extend, ValueText, ValueEvents, Trim, Quote;
    ExtendFirst(t, ArgOpen, [ArgName(a.name)] + (ValueEvents(a.value) + [ArgClose]));
    ExtendFirst(Extend(t, ArgOpen), ArgName(a.name), ValueEvents(a.value) + [ArgClose]);
    NameText(t, a.name);
    var sep, key := if t.count > 0 then "," else "", Quote(Trim(a.name)) + ":";
    ValueWritten(Text(t.text + (sep + key), t.count + 1, false), a.value);
    Assoc(t.text, sep, key, ValueText(a.value));
  }

  lemma {:induction false} MoreWritten(t: Text, nodes: seq<string>)
    requires t.quoteOwed
    ensures ExtendAll(t, StringEvents(nodes) + [ArgClose]) == Text(t.text + (MoreText(nodes) + "\""), t.count, false)
    decreases |nodes|
  {
    hide Extend, StringPiece, ExtendAll;
    if nodes == [] {
      assert StringEvents(nodes) + [ArgClose] == [ArgClose];
      CloseWritten(t);
      assert MoreText(nodes) + "\"" == "\"";
    } else {
      var piece := StringPiece(nodes[0], true);
      assert StringEvents(nodes) + [ArgClose] == [ArgStringValue(nodes[0])] + (StringEvents(nodes[1..]) + [ArgClose]);
      ExtendFirst(t, ArgStringValue(nodes[0]), StringEvents(nodes[1..]) + [ArgClose]);
      PieceWritten(t, nodes[0]);
      MoreWritten(Text(t.text + piece, t.count, true), nodes[1..]);
      assert t.text + piece + (MoreText(nodes[1..]) + "\"") == t.text + (piece + MoreText(nodes[1..]) + "\"");
    }
  }

  lemma PieceWritten(t: Text, text: string)
    ensures Extend(t, ArgStringValue(text)) == Text(t.text + StringPiece(text, t.quoteOwed), t.count, true)
  {
  }

  lemma CloseWritten(t: Text)
    ensures ExtendAll(t, [ArgClose]) == if t.quoteOwed then Text(t.text + "\"", t.count, false) else t
  {
    ExtendOne(t, ArgClose);
  }

  lemma ExtendOne(t: Text, e: Event)
    ensures ExtendAll(t, [e]) == Extend(t, e)
  {
    hide Extend;
    assert [e][1..] == [];
  }

  lemma {:induction false} RawWritten(t: Text, nodes: seq<string>)
    requires !t.quoteOwed
    ensures ExtendAll(t, RawEvents(nodes) + [ArgClose]) == t.(text := t.text + RawText(nodes))
    decreases |nodes|
  {
    hide ExtendAll, QuoteNormalizer.Normalized;
    if nodes == [] {
      assert RawEvents(nodes) + [ArgClose] == [ArgClose];
      CloseWritten(t);
    } else {
      var text := QuoteNormalizer.Normalized(nodes[0]);
      assert RawEvents(nodes) + [ArgClose] == [ArgValue(nodes[0])] + (RawEvents(nodes[1..]) + [ArgClose]);
      ExtendFirst(t, ArgValue(nodes[0]), RawEvents(nodes[1..]) + [ArgClose]);
      RawWritten(t.(text := t.text + text), nodes[1..]);
      assert t.text + text + RawText(nodes[1..]) == t.text + (text + RawText(nodes[1..]));
    }
  }

  // The nodes of a value and the closing of its argument.
  lemma ValueWritten(t: Text, v: Value)
    requires !t.quoteOwed
    ensures ExtendAll(t, ValueEvents(v) + [ArgClose]) == Text(t.text + ValueText(v), t.count, false)
  {
    EscapeNothing();
    hide ExtendAll, Extend, EscapeInner, MoreText, RawText;
    match v
    case RawValue(nodes) => RawWritten(t, nodes);
    case StringValue(text, more) =>
      var first, rest := "\"" + EscapeInner(text), MoreText(more) + "\"";
      assert ValueEvents(v) + [ArgClose] == [ArgStringValue(text)] + (StringEvents(more) + [ArgClose]);
      ExtendFirst(t, ArgStringValue(text), StringEvents(more) + [ArgClose]);
      PieceWritten(t, text);
      assert StringPiece(text, false) == first;
      MoreWritten(Text(t.text + first, t.count, true), more);
      assert t.text + first + rest == t.text + (first + rest);
  }

  lemma ArgStreamFirst(t: Text, e: Event, rest: seq<Event>)
    requires IsArgEvent(e) && (IsValueEvent(e) ==> t.count > 0)
    requires ArgStream(Extend(t, e), rest)
    ensures ArgStream(t, [e] + rest)
  {
    hide Extend;
    assert ([e] + rest)[1..] == rest;
  }

  // Once there is a name, argument events are a stream.
  lemma {:induction false} NamedStream(t: Text, events: seq<Event>)
    requires t.count > 0 && forall i :: 0 <= i < |events| ==> IsArgEvent(events[i])
    ensures ArgStream(t, events)
    decreases |events|
  {
    if events != [] {
      assert IsArgEvent(events[0]);
      CountKept(t, events[0]);
      hide Extend;
      NamedStream(Extend(t, events[0]), events[1..]);
    }
  }

  lemma CountKept(t: Text, e: Event)
    ensures Extend(t, e).count >= t.count && (e.ArgName? ==> Extend(t, e).count > 0)
  {
    hide Trim, Quote, StringPiece, QuoteNormalizer.Normalized;
  }

  lemma {:induction false} StringEventsKind(nodes: seq<string>)
    ensures forall i :: 0 <= i < |StringEvents(nodes)| ==> IsArgEvent(StringEvents(nodes)[i])
    decreases |nodes|
  {
    if nodes != [] {
      StringEventsKind(nodes[1..]);
    }
  }

  lemma {:induction false} RawEventsKind(nodes: seq<string>)
    ensures forall i :: 0 <= i < |RawEvents(nodes)| ==> IsArgEvent(RawEvents(nodes)[i])
    decreases |nodes|
  {
    if nodes != [] {
      RawEventsKind(nodes[1..]);
    }
  }

  lemma ArgumentStream(t: Text, a: Argument)
    ensures ArgStream(t, ArgumentEvents(a))
  {
    hide Extend, ArgStream;
    var t1 := Extend(t, ArgOpen);
    var t2 := Extend(t1, ArgName(a.name));
    var values := ValueEvents(a.value) + [ArgClose];
    if a.value.StringValue? {
      StringEventsKind(a.value.more);
    } else {
      RawEventsKind(a.value.nodes);
    }
    CountKept(t1, ArgName(a.name));
    NamedStream(t2, values);
    ArgStreamFirst(t1, ArgName(a.name), values);
    ArgStreamFirst(t, ArgOpen, [ArgName(a.name)] + values);
  }

  lemma NoEvents(t: Text)
    ensures ArgStream(t, []) && ExtendAll(t, []) == t
  {
  }

  // The events of the arguments spell the object, up to its closing brace.
  lemma {:induction false} ArgumentsText(args: seq<Argument>)
    ensures ExtendAll(NO_TEXT, Events(args)) == Text(Opened(args), |args|, false)
    ensures ArgStream(NO_TEXT, Events(args))
    decreases |args|
  {
    hide MemberText, ArgumentEvents, Extend, ArgStream, ExtendAll;
    if args == [] {
      NoEvents(NO_TEXT);
      assert "{" + MembersText([]) == "{";
    } else {
      var init, last := args[..|args| - 1], args[|args| - 1];
      ArgumentsText(init);
      ExtendAllAppend(NO_TEXT, Events(init), ArgumentEvents(last));
      ArgumentText(Text(Opened(init), |init|, false), last);
      ArgumentStream(Text(Opened(init), |init|, false), last);
      ArgStreamSplit(NO_TEXT, Events(init), ArgumentEvents(last));
      var sep := if |init| > 0 then "," else "";
      assert Opened(init) + sep + MemberText(last) == "{" + (MembersText(init) + sep + MemberText(last));
    }
  }

  // ---------- Brace depth ----------

  lemma {:induction false} ScanShift(t: Scan, d: int, s: string)
    ensures ScanText(t.(depth := t.depth + d), s) == var r := ScanText(t, s); r.(depth := r.depth + d)
    decreases |s|
  {
    if s != "" {
      ScanShift(ScanChar(t, s[0]), d, s[1..]);
    }
  }

  lemma BalancedAt(depth: int, text: string)
    requires Balanced(text)
    ensures ScanText(Scan(depth, false, false), text) == Scan(depth, false, false)
  {
    ScanShift(OUTSIDE, depth, text);
  }

  lemma QuoteBalanced(s: string)
    ensures Balanced(Quote(s))
  {
    QuoteScans(0, s);
  }

  lemma BalancedAppend(x: string, y: string)
    requires Balanced(x) && Balanced(y)
    ensures Balanced(x + y)
  {
    ScanAppend(OUTSIDE, x, y);
  }

  lemma {:induction false} MembersBalanced(args: seq<Argument>)
    requires RawBalanced(args)
    ensures Balanced(MembersJson(args))
    decreases |args|
  {
    assert Balanced("") && Balanced(",") && Balanced(":");
    hide Balanced, Quote, Trim, RawText, Joined;
    if args != [] {
      var init, last := args[..|args| - 1], args[|args| - 1];
      MembersBalanced(init);
      QuoteBalanced(Trim(last.name));
      BalancedAppend(Quote(Trim(last.name)), ":");
      if last.value.StringValue? {
        QuoteBalanced(last.value.text + Joined(last.value.more));
      }
      BalancedAppend(Quote(Trim(last.name)) + ":", ValueJson(last.value));
      BalancedAppend(MembersJson(init), if |args| > 1 then "," else "");
      BalancedAppend(MembersJson(init) + (if |args| > 1 then "," else ""), MemberJson(last));
    }
  }

  lemma {:induction false} BracesLength(n: int)
    ensures |Braces(n)| == if n <= 0 then 0 else n
    decreases n
  {
    if n > 0 {
      BracesLength(n - 1);
    }
  }

  // The arguments of a finished call are the JSON object exactly when no node behind the first one of a string is
  // empty and one brace is found open, as it is when the braces of every raw value are balanced.
  lemma ClosedIsObject(args: seq<Argument>)
    ensures ClosedArguments(args) == ObjectJson(args) <==> AllStrays(args) == 0 && Unclosed(args) == 1
    ensures RawBalanced(args) && AllStrays(args) == 0 ==> Unclosed(args) == 1
  {
    hide MembersText, MembersJson, RawBalanced, ScanText, Quotes, AllStrays, Braces;
    MembersStrays(args);
    BracesLength(Unclosed(args));
    OneBrace();
    QuotesAppend(Opened(args), Braces(Unclosed(args)));
    QuotesAppend("{", MembersText(args));
    QuotesAppend("{" + MembersJson(args), "}");
    QuotesAppend("{", MembersJson(args));
    BracesNoQuotes(Unclosed(args));
    if RawBalanced(args) && AllStrays(args) == 0 {
      ObjectBalanced(args);
    }
  }

  // A string whose second node is empty, and a raw value that closes a brace it did not open.
  lemma NotObjectExamples()
    ensures var a := [Argument("a", StringValue("x", [""]))]; ClosedArguments(a) != ObjectJson(a)
    ensures var a := [Argument("a", RawValue(["}"]))]; ClosedArguments(a) != ObjectJson(a)
  {
    var strings, raws := [Argument("a", StringValue("x", [""]))], [Argument("a", RawValue(["}"]))];
    hide ClosedArguments, ObjectJson, Unclosed;
    assert strings[..0] == [] && AllStrays([]) == 0 && Empties([""][1..]) == 0;
    assert AllStrays(strings) == 0 + Strays(strings[0].value) == 1;
    ClosedIsObject(strings);
    BraceClosed(raws[0]);
    ClosedIsObject(raws);
  }

  // One brace is opened for the object, and closed by the value.
  lemma BraceClosed(a: Argument)
    requires a.value == RawValue(["}"])
    ensures Unclosed([a]) == 0
  {
    var key := Quote(Trim(a.name)) + ":";
    assert "}"[1..] == "" && ["}"][1..] == [];
    assert QuoteNormalizer.Norm(QuoteNormalizer.Outside, false, "") == "";
    assert RawText(["}"]) == "}" + RawText([]) == "}";
    assert [a][..0] == [] && MembersText([a]) == "" + "" + (key + "}") == key + "}";
    assert Balanced(":");
    hide Trim, Quote, QuoteNormalizer.Norm;
    QuoteBalanced(Trim(a.name));
    BalancedAppend(Quote(Trim(a.name)), ":");
    assert Opened([a]) == "{" + key + "}";
    ScanAppend(OUTSIDE, "{" + key, "}");
    ScanAppend(OUTSIDE, "{", key);
    assert ScanText(OUTSIDE, "{") == Scan(1, false, false);
    BalancedAt(1, key);
    assert ScanText(Scan(1, false, false), "}") == OUTSIDE;
  }

  lemma OneBrace()
    ensures Braces(1) == "}" && Quotes("}") == 0
  {
    assert Braces(0) == "";
    assert "}"[1..] == "";
  }

  lemma {:induction false} BracesNoQuotes(n: int)
    ensures Quotes(Braces(n)) == 0
    decreases n
  {
    hide Quotes;
    NoQuotes();
    if n > 0 {
      OneBrace();
      BracesNoQuotes(n - 1);
      QuotesAppend(Braces(n - 1), "}");
    }
  }

  // The object text is balanced, and one brace short of it exactly one brace is open.
  lemma ObjectBalanced(args: seq<Argument>)
    requires RawBalanced(args)
    ensures ScanText(OUTSIDE, "{" + MembersJson(args)) == Scan(1, false, false)
    ensures Balanced(ObjectJson(args))
  {
    hide MembersJson;
    MembersBalanced(args);
    ScanAppend(OUTSIDE, "{", MembersJson(args));
    assert ScanText(OUTSIDE, "{") == Scan(1, false, false);
    BalancedAt(1, MembersJson(args));
    ScanAppend(OUTSIDE, "{" + MembersJson(args), "}");
    assert ScanText(Scan(1, false, false), "}") == OUTSIDE;
  }

  // ---------- The mapper follows the text machine ----------

  // A call as far as its events have come.
  datatype Draft = Draft(name: string, id: string, text: Text)

  const NO_DRAFT := Draft("", "", NO_TEXT)

  function IdOf(text: string): string {
    StripQuotes(TrimTrailing(text))
  }

  function Advance(d: Draft, e: Event): Draft {
    match e
    case ToolName(text) => d.(name := TrimTrailing(text))
    case ToolId(text) => d.(id := IdOf(text))
    case _ => d.(text := Extend(d.text, e))
  }

  function AdvanceAll(d: Draft, events: seq<Event>): Draft
    decreases |events|
  {
    if events == [] then d else AdvanceAll(Advance(d, events[0]), events[1..])
  }

  // The events of a call: names are not empty, and no value comes before the first argument name.
  predicate Allowed(d: Draft, e: Event) {
    match e
    case ToolName(text) => TrimTrailing(text) != ""
    case ToolId(_) => true
    case ToolArgs(_) => true
    case _ => IsArgEvent(e) && (IsValueEvent(e) ==> d.text.count > 0)
  }

  predicate CallStream(d: Draft, events: seq<Event>)
    decreases |events|
  {
    events == [] || (Allowed(d, events[0]) && CallStream(Advance(d, events[0]), events[1..]))
  }

  // Inside a call opened after `base`: before the name the text is in the buffer, which may still be empty; after
  // it, in the arguments of the last call.
  ghost predicate InCall(st: State, base: State, d: Draft) {
    && st.Valid() && d.text.text != ""
    && st.reasoning == base.reasoning && st.content == base.content
    && st.argCount == d.text.count && st.closingQuotePending == d.text.quoteOwed
    && if d.name == "" then
         && st.current == PendingCall && st.pending == Some(NO_CALL.(id := d.id)) && st.toolCalls == base.toolCalls
         && (st.argsBuffer == d.text.text || (st.argsBuffer == "" && d.text == NO_TEXT))
       else
         && st.current == LastCall && st.pending == None && st.argsBuffer == ""
         && st.toolCalls == base.toolCalls + [ToolCall(d.name, d.text.text, d.id)]
  }

  lemma OpenInCall(base: State)
    requires base.Valid()
    ensures InCall(Next(base, ToolOpen), base, NO_DRAFT)
  {
  }

  lemma NameInCall(st: State, base: State, d: Draft, text: string)
    requires InCall(st, base, d) && TrimTrailing(text) != ""
    ensures InCall(Next(st, ToolName(text)), base, Advance(d, ToolName(text)))
  {
    hide TrimTrailing;
    LastReplaced(base.toolCalls, ToolCall(d.name, d.text.text, d.id), ToolCall(TrimTrailing(text), d.text.text, d.id));
  }

  lemma LastReplaced(calls: seq<ToolCall>, last: ToolCall, call: ToolCall)
    ensures (calls + [last])[|calls + [last]| - 1 := call] == calls + [call]
  {
  }

  lemma IdInCall(st: State, base: State, d: Draft, text: string)
    requires InCall(st, base, d)
    ensures InCall(Next(st, ToolId(text)), base, Advance(d, ToolId(text)))
  {
    hide TrimTrailing, StripQuotes;
    LastReplaced(base.toolCalls, ToolCall(d.name, d.text.text, d.id), ToolCall(d.name, d.text.text, IdOf(text)));
  }

  lemma TextInCall(st: State, base: State, d: Draft, e: Event)
    requires InCall(st, base, d)
    requires (IsArgEvent(e) || e.ToolArgs?) && (IsValueEvent(e) ==> d.text.count > 0)
    ensures InCall(Next(st, e), base, Advance(d, e))
  {
    hide Trim, Quote, StringPiece, QuoteNormalizer.Normalized, TrimTrailing;
    LastReplaced(base.toolCalls, ToolCall(d.name, d.text.text, d.id),
                 ToolCall(d.name, Extend(d.text, e).text, d.id));
    assert d.name != "" ==> st.CurrentCall() == ToolCall(d.name, d.text.text, d.id);
  }

  lemma {:induction false} AllInCall(st: State, base: State, d: Draft, events: seq<Event>)
    requires InCall(st, base, d) && CallStream(d, events)
    ensures InCall(Run(st, events), base, AdvanceAll(d, events))
    decreases |events|
  {
    assert st.Valid();
    hide InCall, Next, Advance, TrimTrailing;
    if events != [] {
      var e := events[0];
      match e {
        case ToolName(text) => NameInCall(st, base, d, text);
        case ToolId(text) => IdInCall(st, base, d, text);
        case _ => TextInCall(st, base, d, e);
      }
      AllInCall(Next(st, e), base, Advance(d, e), events[1..]);
    }
  }

  // ---------- One call ----------

  function ToolEvents(events: seq<Event>): seq<Event> {
    [ToolOpen] + events
  }

  lemma OpenedCall(base: State, events: seq<Event>)
    requires base.Valid() && CallStream(NO_DRAFT, events)
    ensures InCall(Run(base, ToolEvents(events)), base, AdvanceAll(NO_DRAFT, events))
  {
    hide InCall, Next, Advance;
    RunAppend(base, [ToolOpen], events);
    RunOne(base, ToolOpen);
    OpenInCall(base);
    AllInCall(Next(base, ToolOpen), base, NO_DRAFT, events);
  }

  // The text of a call that is closed: the quote it owes, and a brace for each one counted open.
  function Shut(t: Text): string {
    var quoted := if t.quoteOwed then t.text + "\"" else t.text;
    quoted + Braces(ScanText(OUTSIDE, quoted).depth)
  }

  // What a call adds to the message; one without a name is dropped.
  function CallsOf(d: Draft): seq<ToolCall> {
    if d.name == "" then [] else [ToolCall(d.name, Shut(d.text), d.id)]
  }

  lemma CloseInCall(st: State, base: State, d: Draft)
    requires InCall(st, base, d)
    ensures var r := Next(st, ToolClose);
            && r.reasoning == base.reasoning && r.content == base.content && r.pending == None
            && r.toolCalls == base.toolCalls + CallsOf(d)
  {
    hide ScanText, Braces;
    assert base.toolCalls + [] == base.toolCalls;
    LastReplaced(base.toolCalls, ToolCall(d.name, d.text.text, d.id), ToolCall(d.name, Shut(d.text), d.id));
  }

  // Whatever order the name, the id and the argument events of a call come in, it adds exactly that call.
  lemma CallBuilt(base: State, events: seq<Event>)
    requires base.Valid() && CallStream(NO_DRAFT, events)
    ensures var r := Run(base, ToolEvents(events) + [ToolClose]);
            && r.reasoning == base.reasoning && r.content == base.content && r.pending == None
            && r.toolCalls == base.toolCalls + CallsOf(AdvanceAll(NO_DRAFT, events))
  {
    hide InCall, Next, AdvanceAll, CallsOf, ToolEvents;
    OpenedCall(base, events);
    var st := Run(base, ToolEvents(events));
    RunAppend(base, ToolEvents(events), [ToolClose]);
    RunOne(st, ToolClose);
    CloseInCall(st, base, AdvanceAll(NO_DRAFT, events));
  }

  // ---------- Names, ids and arguments apart ----------

  function ArgPart(events: seq<Event>): seq<Event> {
    if events == [] then []
    else (if IsArgEvent(events[0]) then [events[0]] else []) + ArgPart(events[1..])
  }

  function NamesOf(events: seq<Event>): seq<string> {
    if events == [] then []
    else (if events[0].ToolName? then [TrimTrailing(events[0].text)] else []) + NamesOf(events[1..])
  }

  function IdsOf(events: seq<Event>): seq<string> {
    if events == [] then []
    else (if events[0].ToolId? then [IdOf(events[0].text)] else []) + IdsOf(events[1..])
  }

  // Argument texts that come as a whole; what is not an object is passed over.
  function ObjectsOf(events: seq<Event>): seq<string> {
    if events == [] then []
    else
      (match events[0]
       case ToolArgs(text) =>
         var args := TrimTrailing(text);
         if args != "" && args[0] == '{' then [args] else []
       case _ => [])
      + ObjectsOf(events[1..])
  }

  function LastOr(xs: seq<string>, otherwise: string): string {
    if xs == [] then otherwise else xs[|xs| - 1]
  }

  lemma LastOrCons(x: string, xs: seq<string>, otherwise: string)
    ensures LastOr([x] + xs, otherwise) == LastOr(xs, x)
    ensures LastOr([] + xs, otherwise) == LastOr(xs, otherwise)
  {
    assert [] + xs == xs;
  }

  // A call whose arguments come one by one, with names and ids anywhere among them.
  predicate Tagged(events: seq<Event>) {
    && (forall i :: 0 <= i < |events| ==> IsArgEvent(events[i]) || events[i].ToolId? || events[i].ToolName?)
    && forall i :: 0 <= i < |events| ==> events[i].ToolName? ==> TrimTrailing(events[i].text) != ""
  }

  // A call whose arguments come as a whole.
  predicate Untagged(events: seq<Event>) {
    && (forall i :: 0 <= i < |events| ==> events[i].ToolArgs? || events[i].ToolId? || events[i].ToolName?)
    && forall i :: 0 <= i < |events| ==> events[i].ToolName? ==> TrimTrailing(events[i].text) != ""
  }

  lemma {:induction false} TaggedApart(d: Draft, events: seq<Event>)
    requires Tagged(events) && ArgStream(d.text, ArgPart(events))
    ensures CallStream(d, events)
    ensures AdvanceAll(d, events)
            == Draft(LastOr(NamesOf(events), d.name), LastOr(IdsOf(events), d.id), ExtendAll(d.text, ArgPart(events)))
    decreases |events|
  {
    hide TrimTrailing, IdOf, Extend;
    if events != [] {
      var e, rest := events[0], events[1..];
      TaggedRest(events);
      LastOrCons(if e.ToolName? then TrimTrailing(e.text) else "", NamesOf(rest), d.name);
      LastOrCons(if e.ToolId? then IdOf(e.text) else "", IdsOf(rest), d.id);
      if IsArgEvent(e) {
        assert ArgPart(events)[1..] == ArgPart(rest);
      } else {
        assert ArgPart(events) == ArgPart(rest);
      }
      TaggedApart(Advance(d, e), rest);
    }
  }

  lemma TaggedRest(events: seq<Event>)
    requires events != []
    ensures Tagged(events) ==> Tagged(events[1..])
    ensures Untagged(events) ==> Untagged(events[1..])
  {
    hide TrimTrailing;
  }

  lemma {:induction false} UntaggedApart(d: Draft, events: seq<Event>)
    requires Untagged(events)
    ensures CallStream(d, events)
    ensures AdvanceAll(d, events)
            == Draft(LastOr(NamesOf(events), d.name), LastOr(IdsOf(events), d.id),
                     d.text.(text := LastOr(ObjectsOf(events), d.text.text)))
    decreases |events|
  {
    hide TrimTrailing, IdOf;
    if events != [] {
      var e, rest := events[0], events[1..];
      TaggedRest(events);
      LastOrCons(if e.ToolName? then TrimTrailing(e.text) else "", NamesOf(rest), d.name);
      LastOrCons(if e.ToolId? then IdOf(e.text) else "", IdsOf(rest), d.id);
      LastOrCons(if e.ToolArgs? then TrimTrailing(e.text) else "", ObjectsOf(rest), d.text.text);
      UntaggedApart(Advance(d, e), rest);
    }
  }

  // The stream of a whole call adds one call to the message, wherever among the argument events its name and id are
  // delivered; its arguments are the JSON object of the arguments exactly when no string has an empty node behind
  // its first one and one brace is found open at the end.
  lemma CallAssembled(base: State, events: seq<Event>, args: seq<Argument>)
    requires base.Valid() && Tagged(events) && ArgPart(events) == Events(args) && NamesOf(events) != []
    ensures var r := Run(base, ToolEvents(events) + [ToolClose]);
            var call := ToolCall(LastOr(NamesOf(events), ""), ClosedArguments(args), LastOr(IdsOf(events), ""));
            && r.toolCalls == base.toolCalls + [call]
            && r.reasoning == base.reasoning && r.content == base.content && r.pending == None
    ensures ClosedArguments(args) == ObjectJson(args) <==> AllStrays(args) == 0 && Unclosed(args) == 1
    ensures RawBalanced(args) && AllStrays(args) == 0 ==> ClosedArguments(args) == ObjectJson(args)
  {
    NamesGiven(events);
    hide Run, Events, MembersText, RawBalanced, ObjectJson, AllStrays, ToolEvents, Tagged, NamesOf, IdsOf, ArgPart,
         ScanText;
    ArgumentsText(args);
    TaggedApart(NO_DRAFT, events);
    hide AdvanceAll, CallStream, ArgStream, ExtendAll;
    CallBuilt(base, events);
    ClosedIsObject(args);
  }

  lemma {:induction false} NamesGiven(events: seq<Event>)
    requires Tagged(events) || Untagged(events)
    ensures forall i :: 0 <= i < |NamesOf(events)| ==> NamesOf(events)[i] != ""
    ensures NamesOf(events) != [] ==> LastOr(NamesOf(events), "") != ""
    decreases |events|
  {
    hide TrimTrailing;
    if events != [] {
      TaggedRest(events);
      NamesGiven(events[1..]);
    }
  }

  // Arguments that come as a whole are passed on, with a brace for each one that they leave open.
  lemma WholeCallAssembled(base: State, events: seq<Event>)
    requires base.Valid() && Untagged(events) && NamesOf(events) != []
    ensures var r := Run(base, ToolEvents(events) + [ToolClose]);
            var text := LastOr(ObjectsOf(events), "{");
            var arguments := text + Braces(ScanText(OUTSIDE, text).depth);
            && r.toolCalls == base.toolCalls
                              + [ToolCall(LastOr(NamesOf(events), ""), arguments, LastOr(IdsOf(events), ""))]
            && r.reasoning == base.reasoning && r.content == base.content && r.pending == None
            && (arguments == text <==> ScanText(OUTSIDE, text).depth <= 0)
  {
    NamesGiven(events);
    hide Run, ToolEvents, Untagged, NamesOf, IdsOf, ObjectsOf, ScanText;
    UntaggedApart(NO_DRAFT, events);
    hide AdvanceAll, CallStream;
    CallBuilt(base, events);
    var text := LastOr(ObjectsOf(events), "{");
    BracesLength(ScanText(OUTSIDE, text).depth);
    assert ScanText(OUTSIDE, text).depth <= 0 ==> text + "" == text;
  }

  // ---------- Streaming ----------

  // The same value event, of whose text only the first `k` characters have arrived. Raw text
  // must not be cut where normalisation would take it back.
  predicate CutValue(part: Event, whole: Event, k: nat) {
    match whole
    case ArgStringValue(text) => k <= |text| && part == ArgStringValue(text[..k])
    case ArgValue(text) =>
      k <= |text| && part == ArgValue(text[..k])
      && QuoteNormalizer.Harmless(QuoteNormalizer.CutAt(QuoteNormalizer.Outside, text, k))
    case _ => false
  }

  // An empty beginning of a later string node is not one: it comes out as a quote.
  predicate Begun(t: Text, part: Event, whole: Event) {
    t.quoteOwed && part == ArgStringValue("") ==> whole == part
  }

  lemma CutValueText(t: Text, part: Event, whole: Event, k: nat)
    requires CutValue(part, whole, k) && Begun(t, part, whole)
    ensures Extend(t, part).text <= Extend(t, whole).text
  {
    EscapeNothing();
    hide QuoteNormalizer.Normalized, QuoteNormalizer.Harmless, QuoteNormalizer.CutAt, EscapeInner;
    match whole
    case ArgStringValue(text) =>
      EscapePrefix(text[..k], text);
    case ArgValue(text) =>
      QuoteNormalizer.NormalizedPrefix(text, k);
  }

  lemma ArgPartFirst(events: seq<Event>)
    requires events != []
    ensures ArgPart(events) == (if IsArgEvent(events[0]) then [events[0]] else []) + ArgPart(events[1..])
  {
    hide IsArgEvent;
  }

  lemma ArgPartOne(e: Event)
    ensures ArgPart([]) == [] && ArgPart([e]) == if IsArgEvent(e) then [e] else []
  {
    hide IsArgEvent;
    assert [e][1..] == [];
  }

  lemma {:induction false} ArgPartAppend(x: seq<Event>, y: seq<Event>)
    ensures ArgPart(x + y) == ArgPart(x) + ArgPart(y)
    decreases |x|
  {
    hide ArgPart, IsArgEvent;
    if x == [] {
      ArgPartOne(ArgOpen);
      assert x + y == y && [] + ArgPart(y) == ArgPart(y);
    } else {
      var front := if IsArgEvent(x[0]) then [x[0]] else [];
      assert (x + y)[1..] == x[1..] + y;
      ArgPartFirst(x);
      ArgPartFirst(x + y);
      ArgPartAppend(x[1..], y);
      assert front + (ArgPart(x[1..]) + ArgPart(y)) == (front + ArgPart(x[1..])) + ArgPart(y);
    }
  }

  // The text after the first `n` events.
  function TextAfter(events: seq<Event>, n: nat): Text
    requires n <= |events|
  {
    ExtendAll(NO_TEXT, ArgPart(events[..n]))
  }

  lemma TextGrows(events: seq<Event>, args: seq<Argument>, n: nat)
    requires ArgPart(events) == Events(args) && n <= |events|
    ensures ArgStream(NO_TEXT, ArgPart(events[..n])) && TextAfter(events, n).text <= Opened(args)
  {
    hide Events, Opened, ArgStream, ExtendAll, ArgPart;
    ArgumentsText(args);
    assert events == events[..n] + events[n..];
    ArgPartAppend(events[..n], events[n..]);
    ArgStreamSplit(NO_TEXT, ArgPart(events[..n]), ArgPart(events[n..]));
    ExtendAllAppend(NO_TEXT, ArgPart(events[..n]), ArgPart(events[n..]));
    ExtendAllGrows(TextAfter(events, n), ArgPart(events[n..]));
  }

  // Once the name is known, the arguments of the last call only grow towards the final ones: after every further
  // event, and also while a value is still arriving.
  lemma ArgumentsStream(base: State, events: seq<Event>, args: seq<Argument>, n: nat)
    requires base.Valid() && Tagged(events) && ArgPart(events) == Events(args)
    requires n <= |events| && NamesOf(events[..n]) != []
    ensures var r := Run(base, ToolEvents(events[..n]));
            var call := ToolCall(LastOr(NamesOf(events[..n]), ""), TextAfter(events, n).text,
                                 LastOr(IdsOf(events[..n]), ""));
            r.toolCalls == base.toolCalls + [call] && call.arguments <= ClosedArguments(args)
  {
    TextGrows(events, args, n);
    StreamedCall(base, events[..n]);
    PrefixOfLonger(TextAfter(events, n).text, Opened(args), Braces(Unclosed(args)));
  }

  lemma StreamedCall(base: State, events: seq<Event>)
    requires base.Valid() && Tagged(events) && ArgStream(NO_TEXT, ArgPart(events)) && NamesOf(events) != []
    ensures var r := Run(base, ToolEvents(events));
            var t := ExtendAll(NO_TEXT, ArgPart(events));
            && r.toolCalls == base.toolCalls
                              + [ToolCall(LastOr(NamesOf(events), ""), t.text, LastOr(IdsOf(events), ""))]
            && r.closingQuotePending == t.quoteOwed
  {
    NamesGiven(events);
    hide Run, ToolEvents, Tagged, NamesOf, IdsOf, ArgPart;
    TaggedApart(NO_DRAFT, events);
    hide AdvanceAll, CallStream, ArgStream, ExtendAll;
    OpenedCall(base, events);
  }

  // The text while a value node is arriving.
  lemma CutText(events: seq<Event>, args: seq<Argument>, n: nat, part: Event, k: nat)
    requires ArgPart(events) == Events(args) && n < |events| && CutValue(part, events[n], k)
    requires Begun(TextAfter(events, n), part, events[n])
    ensures ArgStream(NO_TEXT, ArgPart(events[..n] + [part]))
    ensures ExtendAll(NO_TEXT, ArgPart(events[..n] + [part])).text <= Opened(args)
  {
    hide Events, Opened, ArgPart, Extend, ExtendAll, ArgStream, CutValue, Begun;
    var t, whole := TextAfter(events, n), events[n];
    CutValueKind(part, whole, k);
    TextGrows(events, args, n);
    TextGrows(events, args, n + 1);
    assert events[..n + 1] == events[..n] + [whole];
    AppendedText(events[..n], whole);
    AppendedText(events[..n], part);
    ValueAllowed(t, whole, part);
    CutValueText(t, part, whole, k);
  }

  lemma AppendedText(events: seq<Event>, e: Event)
    requires IsArgEvent(e)
    ensures var t := ExtendAll(NO_TEXT, ArgPart(events));
            && ExtendAll(NO_TEXT, ArgPart(events + [e])) == Extend(t, e)
            && (ArgStream(NO_TEXT, ArgPart(events + [e]))
                <==> ArgStream(NO_TEXT, ArgPart(events)) && ArgStream(t, [e]))
  {
    hide ArgPart, Extend, ExtendAll, ArgStream;
    ArgPartAppend(events, [e]);
    ArgPartOne(e);
    ArgStreamSplit(NO_TEXT, ArgPart(events), [e]);
    ExtendAllAppend(NO_TEXT, ArgPart(events), [e]);
    ExtendOne(ExtendAll(NO_TEXT, ArgPart(events)), e);
  }

  // A value event is allowed wherever the value it is a beginning of is.
  lemma ValueAllowed(t: Text, whole: Event, part: Event)
    requires ArgStream(t, [whole]) && IsValueEvent(whole) && IsValueEvent(part)
    ensures ArgStream(t, [part])
  {
    hide Extend;
    assert [whole][0] == whole && [part][1..] == [];
  }

  lemma CutValueKind(part: Event, whole: Event, k: nat)
    requires CutValue(part, whole, k)
    ensures IsValueEvent(part) && IsValueEvent(whole) && IsArgEvent(part) && IsArgEvent(whole)
  {
  }

  lemma ArgumentsStreamInValue(base: State, events: seq<Event>, args: seq<Argument>, n: nat, part: Event, k: nat)
    requires base.Valid() && Tagged(events) && ArgPart(events) == Events(args)
    requires n < |events| && NamesOf(events[..n]) != [] && CutValue(part, events[n], k)
    requires Run(base, ToolEvents(events[..n])).closingQuotePending && part == ArgStringValue("") ==> events[n] == part
    ensures var r := Run(base, ToolEvents(events[..n] + [part]));
            var text := ExtendAll(NO_TEXT, ArgPart(events[..n] + [part])).text;
            var call := ToolCall(LastOr(NamesOf(events[..n]), ""), text, LastOr(IdsOf(events[..n]), ""));
            r.toolCalls == base.toolCalls + [call] && call.arguments <= ClosedArguments(args)
  {
    hide Events, Opened, ArgPart, Extend, ExtendAll, ArgStream, CutValue, Run, Tagged, NamesOf, IdsOf, ToolEvents;
    TextGrows(events, args, n);
    TaggedPart(events, n, part, k);
    StreamedCall(base, events[..n]);
    CutText(events, args, n, part, k);
    StreamedCall(base, events[..n] + [part]);
    PrefixOfLonger(ExtendAll(NO_TEXT, ArgPart(events[..n] + [part])).text, Opened(args), Braces(Unclosed(args)));
  }

  lemma TaggedPart(events: seq<Event>, n: nat, part: Event, k: nat)
    requires Tagged(events) && n < |events| && CutValue(part, events[n], k)
    ensures Tagged(events[..n]) && Tagged(events[..n] + [part])
    ensures NamesOf(events[..n] + [part]) == NamesOf(events[..n]) && IdsOf(events[..n] + [part]) == IdsOf(events[..n])
  {
    CutValueKind(part, events[n], k);
    hide TrimTrailing, CutValue;
    NothingNamed(events[..n], part);
  }

  lemma {:induction false} NothingNamed(events: seq<Event>, e: Event)
    requires !e.ToolName? && !e.ToolId?
    ensures NamesOf(events + [e]) == NamesOf(events) && IdsOf(events + [e]) == IdsOf(events)
    decreases |events|
  {
    if events == [] {
      assert events + [e] == [e] && [e][1..] == [];
    } else {
      assert (events + [e])[1..] == events[1..] + [e];
      NothingNamed(events[1..], e);
    }
  }

  lemma PrefixOfLonger(x: string, y: string, z: string)
    requires x <= y
    ensures x <= y + z
  {
  }

  // ---------- A whole message ----------

  datatype Part = Thought(text: string) | Said(text: string) | Call(events: seq<Event>)

  predicate WellFormed(p: Part) {
    p.Call? ==> CallStream(NO_DRAFT, p.events)
  }

  function PartEvents(p: Part): seq<Event> {
    match p
    case Thought(text) => [Reasoning(text)]
    case Said(text) => [Content(text)]
    case Call(events) => ToolEvents(events) + [ToolClose]
  }

  function MessageEvents(parts: seq<Part>): seq<Event> {
    if parts == [] then [] else PartEvents(parts[0]) + MessageEvents(parts[1..])
  }

  function Thoughts(parts: seq<Part>): string {
    if parts == [] then "" else (if parts[0].Thought? then parts[0].text else "") + Thoughts(parts[1..])
  }

  function Words(parts: seq<Part>): string {
    if parts == [] then "" else (if parts[0].Said? then parts[0].text else "") + Words(parts[1..])
  }

  function MessageCalls(parts: seq<Part>): seq<ToolCall> {
    if parts == [] then []
    else
      (if parts[0].Call? then CallsOf(AdvanceAll(NO_DRAFT, parts[0].events)) else []) + MessageCalls(parts[1..])
  }

  lemma PartAssembled(base: State, p: Part)
    requires base.Valid() && WellFormed(p)
    ensures var r := Run(base, PartEvents(p));
            && r.reasoning == base.reasoning + (if p.Thought? then p.text else "")
            && r.content == base.content + (if p.Said? then p.text else "")
            && r.toolCalls == base.toolCalls + (if p.Call? then CallsOf(AdvanceAll(NO_DRAFT, p.events)) else [])
  {
    hide AdvanceAll, CallsOf, ToolEvents, CallStream;
    if p.Call? {
      hide Run;
      CallBuilt(base, p.events);
    } else {
      RunOne(base, PartEvents(p)[0]);
    }
  }

  lemma PartsFirst(parts: seq<Part>)
    requires parts != []
    ensures var p := parts[0];
            && MessageEvents(parts) == PartEvents(p) + MessageEvents(parts[1..])
            && Thoughts(parts) == (if p.Thought? then p.text else "") + Thoughts(parts[1..])
            && Words(parts) == (if p.Said? then p.text else "") + Words(parts[1..])
            && MessageCalls(parts)
               == (if p.Call? then CallsOf(AdvanceAll(NO_DRAFT, p.events)) else []) + MessageCalls(parts[1..])
  {
    hide PartEvents, AdvanceAll, CallsOf;
  }

  lemma NoParts(base: State)
    requires base.Valid()
    ensures var r := Run(base, MessageEvents([]));
            && r.reasoning == base.reasoning + Thoughts([]) && r.content == base.content + Words([])
            && r.toolCalls == base.toolCalls + MessageCalls([])
  {
    assert base.toolCalls + [] == base.toolCalls;
  }

  // A message comes out as its thoughts, its words and its calls, each in order.
  lemma {:induction false} MessageAssembled(base: State, parts: seq<Part>)
    requires base.Valid() && forall i :: 0 <= i < |parts| ==> WellFormed(parts[i])
    ensures var r := Run(base, MessageEvents(parts));
            && r.reasoning == base.reasoning + Thoughts(parts) && r.content == base.content + Words(parts)
            && r.toolCalls == base.toolCalls + MessageCalls(parts)
    decreases |parts|
  {
    hide Run, PartEvents, WellFormed, AdvanceAll, CallsOf, MessageEvents, Thoughts, Words, MessageCalls;
    if parts == [] {
      NoParts(base);
    } else {
      PartsFirst(parts);
      PartAssembled(base, parts[0]);
      RunAppend(base, PartEvents(parts[0]), MessageEvents(parts[1..]));
      MessageAssembled(Run(base, PartEvents(parts[0])), parts[1..]);
    }
  }
}
