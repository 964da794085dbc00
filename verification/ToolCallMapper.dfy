/** The mapper that assembles tool calls, and their JSON arguments, from the events of a parsed message. */
module ToolCallMapper {
  import opened Wrappers
  import opened JsonText
  import QuoteNormalizer

  // The tagged nodes of a parsed message, in the order they are visited, with their text.
  datatype Event =
    | Reasoning(text: string)
    | Content(text: string)
    | ToolOpen
    | ToolClose
    | ToolId(text: string)
    | ToolName(text: string)
    | ToolArgs(text: string)
    | ArgOpen
    | ArgClose
    | ArgName(text: string)
    | ArgValue(text: string)
    | ArgStringValue(text: string)

  datatype ToolCall = ToolCall(name: string, arguments: string, id: string)

  const NO_CALL := ToolCall("", "", "")

  // What the mapper's tool pointer refers to: nothing, the call waiting for its name, the last
  // call of the result, or a call that has been discarded.
  datatype Current = NoTool | PendingCall | LastCall | Discarded

  datatype State = State(
    reasoning: string,
    content: string,
    toolCalls: seq<ToolCall>,
    pending: Option<ToolCall>,
    current: Current,
    argCount: nat,
    closingQuotePending: bool,
    argsBuffer: string)
  {
    ghost predicate Valid() {
      && (current == PendingCall ==> pending.Some?)
      && (current == LastCall ==> toolCalls != [])
      && (pending.Some? ==> current == PendingCall && pending.value.name == "")
    }

    predicate HasCurrent() {
      current == PendingCall || current == LastCall
    }

    function CurrentCall(): ToolCall
      requires Valid() && HasCurrent()
    {
      if current == PendingCall then pending.value else toolCalls[|toolCalls| - 1]
    }

    function WithCurrent(call: ToolCall): State
      requires Valid() && HasCurrent()
    {
      if current == PendingCall then this.(pending := Some(call))
      else this.(toolCalls := toolCalls[|toolCalls| - 1 := call])
    }

    // Before the name is known, argument text goes to the buffer.
    predicate ToArguments()
      requires Valid()
    {
      HasCurrent() && CurrentCall().name != ""
    }

    function Target(): string
      requires Valid()
    {
      if ToArguments() then CurrentCall().arguments else argsBuffer
    }

    function WithTarget(text: string): State
      requires Valid()
    {
      if ToArguments() then WithCurrent(CurrentCall().(arguments := text)) else this.(argsBuffer := text)
    }
  }

  const START := State("", "", [], None, NoTool, 0, false, "")

  // ---------- Whitespace ----------

  predicate IsSpace(c: char) {
    c == ' ' || 9 <= c as nat <= 13
  }

  function TrimTrailing(s: string): (r: string)
    ensures r <= s && (r != "" ==> !IsSpace(r[|r| - 1]))
    ensures forall i :: |r| <= i < |s| ==> IsSpace(s[i])
  {
    if s == "" || !IsSpace(s[|s| - 1]) then s else TrimTrailing(s[..|s| - 1])
  }

  // At most one leading space goes, and all trailing ones.
  function Trim(s: string): string {
    TrimTrailing(if s != "" && IsSpace(s[0]) then s[1..] else s)
  }

  // What is left of a name: a leading space goes, one only, and every trailing one.
  lemma TrimIs(s: string)
    ensures var n := if s != "" && IsSpace(s[0]) then 1 else 0; var end := n + |Trim(s)|;
            && end <= |s| && Trim(s) == s[n..end] && (Trim(s) != "" ==> !IsSpace(s[end - 1]))
            && forall i :: end <= i < |s| ==> IsSpace(s[i])
  {
    hide TrimTrailing, IsSpace;
    var n := if s != "" && IsSpace(s[0]) then 1 else 0;
    var t := s[n..];
    assert Trim(s) <= t;
    assert forall i :: n <= i < |s| ==> s[i] == t[i - n];
  }

  method TrimTrailingSpace(s: string) returns (r: string)
    ensures r == TrimTrailing(s)
    ensures r <= s && (r != "" ==> !IsSpace(r[|r| - 1])) && forall i :: |r| <= i < |s| ==> IsSpace(s[i])
  {
    r := s;
    while r != "" && IsSpace(r[|r| - 1])
      invariant TrimTrailing(r) == TrimTrailing(s)
      decreases |r|
    {
      r := r[..|r| - 1];
    }
  }

  // ---------- One event ----------

  function StripQuotes(s: string): (r: string)
    ensures r == s || s == "\"" + r + "\""
  {
    if |s| >= 2 && s[0] == '"' && s[|s| - 1] == '"' then s[1..|s| - 1] else s
  }

  // One pair of quotes around a text goes; a text without a pair stays (the contract above).
  lemma Unquoted(t: string)
    ensures StripQuotes("\"" + t + "\"") == t
  {
  }

  function Braces(n: int): string
    decreases n
  {
    if n <= 0 then "" else Braces(n - 1) + "}"
  }

  // The value text of a string event, and whether its closing quote is still owed.
  function StringPiece(text: string, closingQuotePending: bool): string {
    if text == "" then "\"" else (if closingQuotePending then "" else "\"") + EscapeInner(text)
  }

  function OnName(st: State, text: string): State
    requires st.Valid() && st.HasCurrent()
  {
    var call := st.CurrentCall().(name := TrimTrailing(text));
    var named := if st.argsBuffer != "" then call.(arguments := st.argsBuffer)
                 else if call.arguments == "" then call.(arguments := "{") else call;
    var st1 := st.(argsBuffer := "");
    if st.pending.Some? then st1.(toolCalls := st.toolCalls + [named], pending := None, current := LastCall)
    else st1.WithCurrent(named)
  }

  function OnClose(st: State): State
    requires st.Valid() && st.HasCurrent()
  {
    var call := st.CurrentCall();
    var flush := call.name == "" && st.argsBuffer != "";
    var args0 := if flush then st.argsBuffer else call.arguments;
    var args1 := if st.closingQuotePending then args0 + "\"" else args0;
    var args2 := args1 + Braces(ScanText(OUTSIDE, args1).depth);
    var st1 := st.(argsBuffer := if flush then "" else st.argsBuffer, closingQuotePending := false);
    // a pending call has no name, so it is dropped
    if st.pending.Some? then st1.(pending := None, current := Discarded)
    else st1.WithCurrent(call.(arguments := args2))
  }

  function OnArgName(st: State, text: string): State
    requires st.Valid() && st.HasCurrent()
  {
    var target := if st.Target() == "" then "{" else st.Target();
    var entry := (if st.argCount > 0 then "," else "") + Quote(Trim(text)) + ":";
    st.WithTarget(target + entry).(argCount := st.argCount + 1)
  }

  // The events that concern the current tool call.
  function OnTool(st: State, e: Event): (r: State)
    requires st.Valid() && st.HasCurrent()
    ensures r.Valid()
  {
    match e
    case ToolId(text) => st.WithCurrent(st.CurrentCall().(id := StripQuotes(TrimTrailing(text))))
    case ToolName(text) => OnName(st, text)
    case ToolArgs(text) =>
      var args := TrimTrailing(text);
      if args != "" && args[0] == '{' then st.WithTarget(args) else st
    case ArgName(text) => OnArgName(st, text)
    case ArgStringValue(text) =>
      st.WithTarget(st.Target() + StringPiece(text, st.closingQuotePending)).(closingQuotePending := true)
    case ArgValue(text) => st.WithTarget(st.Target() + QuoteNormalizer.Normalized(text))
    case ArgClose =>
      if st.closingQuotePending then st.WithTarget(st.Target() + "\"").(closingQuotePending := false) else st
    case ToolClose => OnClose(st)
    case _ => st
  }

  function Next(st: State, e: Event): (r: State)
    requires st.Valid()
    ensures r.Valid()
  {
    match e
    case Reasoning(text) => st.(reasoning := st.reasoning + text)
    case Content(text) => st.(content := st.content + text)
    case ToolOpen =>
      st.(pending := Some(NO_CALL), current := PendingCall, argCount := 0, argsBuffer := "",
          closingQuotePending := false)
    case ArgOpen => st.(closingQuotePending := false)
    case _ => if st.HasCurrent() then OnTool(st, e) else st
  }

  // What changes nothing: tool events outside a tool call, whole arguments that are no object, and the end of an
  // argument that owes no quote.
  lemma Ignored(st: State, e: Event)
    requires st.Valid() && !e.Reasoning? && !e.Content? && !e.ToolOpen? && !e.ArgOpen?
    requires || !st.HasCurrent()
             || (e.ToolArgs? && (e.text == "" || e.text[0] != '{'))
             || (e.ArgClose? && !st.closingQuotePending)
    ensures Next(st, e) == st
  {
  }

  // ---------- The mapper ----------

  class PegMapper {
    var reasoning: string
    var content: string
    var toolCalls: seq<ToolCall>
    var pendingToolCall: Option<ToolCall>
    var currentTool: Current
    var argCount: nat
    var closingQuotePending: bool
    var argsBuffer: string

    function Snapshot(): State
      reads this
    {
      State(reasoning, content, toolCalls, pendingToolCall, currentTool, argCount, closingQuotePending, argsBuffer)
    }

    ghost predicate Valid()
      reads this
    {
      Snapshot().Valid()
    }

    constructor ()
      ensures Valid() && Snapshot() == START
    {
      reasoning, content, toolCalls := "", "", [];
      pendingToolCall, currentTool := None, NoTool;
      argCount, closingQuotePending, argsBuffer := 0, false, "";
    }

    method SetCurrent(call: ToolCall)
      requires Valid() && Snapshot().HasCurrent()
      requires currentTool == PendingCall ==> call.name == ""
      modifies this`pendingToolCall, this`toolCalls
      ensures Valid() && Snapshot() == old(Snapshot()).WithCurrent(call)
    {
      if currentTool == PendingCall {
        pendingToolCall := Some(call);
      } else {
        toolCalls := toolCalls[|toolCalls| - 1 := call];
      }
    }

    method SetTarget(text: string)
      requires Valid()
      modifies this`pendingToolCall, this`toolCalls, this`argsBuffer
      ensures Valid() && Snapshot() == old(Snapshot()).WithTarget(text)
    {
      if Snapshot().ToArguments() {
        SetCurrent(Snapshot().CurrentCall().(arguments := text));
      } else {
        argsBuffer := text;
      }
    }

    method NameTool(text: string)
      requires Valid() && Snapshot().HasCurrent()
      modifies this
      ensures Valid() && Snapshot() == OnName(old(Snapshot()), text)
    {
      var name := TrimTrailingSpace(text);
      var call := Snapshot().CurrentCall().(name := name);
      // Text that came before the name, or else the opening brace, begins the arguments.
      if argsBuffer != "" {
        call := call.(arguments := argsBuffer);
        argsBuffer := "";
      } else if call.arguments == "" {
        call := call.(arguments := "{");
      }
      // From here on `currentTool` is the last call of the message.
      if pendingToolCall.Some? {
        toolCalls := toolCalls + [call];
        pendingToolCall := None;
        currentTool := LastCall;
      } else {
        SetCurrent(call);
      }
    }

    method NameArgument(text: string)
      requires Valid() && Snapshot().HasCurrent()
      modifies this
      ensures Valid() && Snapshot() == OnArgName(old(Snapshot()), text)
    {
      hide Trim, Quote;
      CountApart(Snapshot(), argCount + 1);
      var entry := if argCount > 0 then "," else "";
      entry := entry + Quote(Trim(text)) + ":";
      argCount := argCount + 1;
      var target := Snapshot().Target();
      if target == "" {
        target := "{";
      }
      SetTarget(target + entry);
    }

    method CloseTool()
      requires Valid() && Snapshot().HasCurrent()
      modifies this
      ensures Valid() && Snapshot() == OnClose(old(Snapshot()))
    {
      var call := Snapshot().CurrentCall();
      // Only a call without a name still has text in the buffer.
      if call.name == "" && argsBuffer != "" {
        call := call.(arguments := argsBuffer);
        argsBuffer := "";
      }
      if closingQuotePending {
        call := call.(arguments := call.arguments + "\"");
        closingQuotePending := false;
      }
      var d := JsonBraceDepth(call.arguments);
      ghost var unclosed, depth := call.arguments, d;
      while d > 0
        modifies {}
        invariant call.name == old(Snapshot().CurrentCall()).name && call.id == old(Snapshot().CurrentCall()).id
        invariant call.arguments + Braces(d) == unclosed + Braces(depth)
      {
        BracesFront(d);
        assert call.arguments + ("}" + Braces(d - 1)) == call.arguments + "}" + Braces(d - 1);
        call := call.(arguments := call.arguments + "}");
        d := d - 1;
      }
      assert call.arguments + Braces(d) == call.arguments;
      // A waiting call has no name here, so nothing is added to the message.
      if pendingToolCall.Some? {
        assert call.name == "";
        pendingToolCall := None;
        currentTool := Discarded;
      } else {
        SetCurrent(call);
      }
    }

    method StringNode(text: string)
      requires Valid() && Snapshot().HasCurrent()
      modifies this
      ensures Valid() && Snapshot() == OnTool(old(Snapshot()), ArgStringValue(text))
    {
      hide EscapeInner;
      var piece := "";
      if text == "" {
        piece := "\"";
        closingQuotePending := true;
      } else {
        if !closingQuotePending {
          piece := "\"";
          closingQuotePending := true;
        }
        piece := piece + EscapeInner(text);
      }
      SetTarget(Snapshot().Target() + piece);
    }

    method CloseArgument()
      requires Valid() && Snapshot().HasCurrent()
      modifies this
      ensures Valid() && Snapshot() == OnTool(old(Snapshot()), ArgClose)
    {
      if closingQuotePending {
        SetTarget(Snapshot().Target() + "\"");
        closingQuotePending := false;
      }
    }

    // A discarded call is gone: until the next tool is opened nothing may refer to it.
    method Map(e: Event)
      requires Valid()
      requires currentTool == Discarded ==> e.ToolOpen? || e.Reasoning? || e.Content? || e.ArgOpen?
      modifies this
      ensures Valid() && Snapshot() == Next(old(Snapshot()), e)
    {
      match e
      case Reasoning(text) =>
        reasoning := reasoning + text;
      case Content(text) =>
        content := content + text;
      case ToolOpen =>
        pendingToolCall := Some(NO_CALL);
        currentTool := PendingCall;
        argCount := 0;
        argsBuffer := "";
        closingQuotePending := false;
      case ArgOpen =>
        closingQuotePending := false;
      case _ =>
        if currentTool != NoTool {
          MapTool(e);
        }
    }

    method MapTool(e: Event)
      requires Valid() && Snapshot().HasCurrent()
      modifies this
      ensures Valid() && Snapshot() == OnTool(old(Snapshot()), e)
    {
      match e
      case ToolId(text) =>
        var id := TrimTrailingSpace(text);
        SetCurrent(Snapshot().CurrentCall().(id := StripQuotes(id)));
      case ToolName(text) =>
        NameTool(text);
      case ToolArgs(text) =>
        var args := TrimTrailingSpace(text);
        if args != "" && args[0] == '{' {
          SetTarget(args);
        }
      case ArgName(text) =>
        NameArgument(text);
      case ArgStringValue(text) =>
        StringNode(text);
      case ArgValue(text) =>
        var value := QuoteNormalizer.NormalizeQuotesToJson(text);
        SetTarget(Snapshot().Target() + value);
      case ArgClose =>
        CloseArgument();
      case ToolClose =>
        CloseTool();
      case _ =>
    }
  }

  // The argument counter plays no part in where text goes.
  lemma CountApart(st: State, n: nat)
    requires st.Valid()
    ensures var st1 := st.(argCount := n);
            st1.Valid() && st1.Target() == st.Target()
            && forall text :: st1.WithTarget(text) == st.WithTarget(text).(argCount := n)
  {
  }

  lemma {:induction false} BracesFront(n: int)
    requires n > 0
    ensures Braces(n) == "}" + Braces(n - 1)
    decreases n
  {
    if n > 1 {
      BracesFront(n - 1);
    }
  }
}
