/** Printing of MiniMax M3 argument trees as JSON, complete or cut off while still arriving. */
module MinimaxM3Printer {
  import opened Wrappers
  import opened JsonText
  import V = JsonValues

  datatype Tag =
    | ToolArg
    | ToolArgName
    | ToolArgValue
    | ToolArgStringValue
    | ToolArgObject
    | ToolArgArray
    | ToolArgItem
    | NoTag

  datatype Node = Node(tag: Tag, text: string, children: seq<Node>, isPartial: bool)

  // ---------- Size, the measure of the recursion ----------

  function Size(n: Node): nat
    decreases n, 0
  {
    1 + SizeAll(n.children)
  }

  function SizeAll(ns: seq<Node>): nat
    decreases ns, 1
  {
    if ns == [] then 0 else Size(ns[0]) + SizeAll(ns[1..])
  }

  lemma {:induction false} SizeAppend(x: seq<Node>, y: seq<Node>)
    ensures SizeAll(x + y) == SizeAll(x) + SizeAll(y)
    decreases |x|
  {
    hide Size;
    if x == [] {
      assert x + y == y;
    } else {
      assert (x + y)[1..] == x[1..] + y;
      SizeAppend(x[1..], y);
    }
  }

  lemma SizeSnoc(ns: seq<Node>)
    requires ns != []
    ensures SizeAll(ns) == SizeAll(ns[..|ns| - 1]) + Size(ns[|ns| - 1])
  {
    var last := ns[|ns| - 1];
    SizeAppend(ns[..|ns| - 1], [last]);
    assert ns == ns[..|ns| - 1] + [last];
    assert [last][1..] == [] && SizeAll([last]) == Size(last);
  }

  // ---------- Searching the tree ----------

  // The first node with the tag among the nodes and, down to `depth` levels, their descendants.
  function FindByTag(ns: seq<Node>, tag: Tag, depth: nat): (r: Option<Node>)
    ensures r.Some? ==> r.value.tag == tag
    decreases depth, |ns|
  {
    if ns == [] then None
    else if ns[0].tag == tag then Some(ns[0])
    else
      var inside := if depth > 1 then FindByTag(ns[0].children, tag, depth - 1) else None;
      if inside.Some? then inside else FindByTag(ns[1..], tag, depth)
  }

  // The topmost nodes with the tag, in order.
  function Collect(ns: seq<Node>, tag: Tag): (r: seq<Node>)
    ensures SizeAll(r) <= SizeAll(ns)
    decreases SizeAll(ns)
  {
    if ns == [] then []
    else
      assert ns[0].tag == tag ==> [ns[0]][1..] == [] && SizeAll([ns[0]]) == Size(ns[0]);
      var first := if ns[0].tag == tag then [ns[0]] else Collect(ns[0].children, tag);
      var rest := Collect(ns[1..], tag);
      SizeAppend(first, rest);
      first + rest
  }

  predicate IsValueTag(tag: Tag) {
    tag == ToolArgValue || tag == ToolArgStringValue || tag == ToolArgObject || tag == ToolArgArray
  }

  function ValueAmong(ns: seq<Node>): (r: Option<Node>)
    ensures r.Some? ==> Size(r.value) <= SizeAll(ns) && IsValueTag(r.value.tag)
  {
    if ns == [] then None
    else if IsValueTag(ns[0].tag) then Some(ns[0])
    else ValueAmong(ns[1..])
  }

  // ---------- Printing ----------

  const NAME_DEPTH := 3

  function ValueToJson(v: Option<Node>, closed: bool): string
    decreases if v.Some? then Size(v.value) else 0, 2
  {
    if v == None then ""
    else
      var n := v.value;
      if n.tag == ToolArgObject then ContainerToJson(n, true, closed)
      else if n.tag == ToolArgArray then ContainerToJson(n, false, closed)
      else if n.tag == ToolArgStringValue then "\"" + EscapeInner(n.text) + if closed then "\"" else ""
      else n.text
  }

  function ContainerToJson(n: Node, isObject: bool, closed: bool): string
    decreases Size(n), 1
  {
    (if isObject then "{" else "[")
    + Entries(Collect(n.children, if isObject then ToolArg else ToolArgItem), isObject)
    + (if !closed then "" else if isObject then "}" else "]")
  }

  function EntryToJson(e: Node, isObject: bool): string
    decreases Size(e), 1
  {
    if isObject then
      var name := FindByTag(e.children, ToolArgName, NAME_DEPTH);
      if name == None then ""
      else Quote(name.value.text) + ":" + ValueToJson(ValueAmong(e.children), !e.isPartial)
    else ValueToJson(ValueAmong(e.children), !e.isPartial)
  }

  // The texts of the entries; entries without text are left out, commas and all.
  function Entries(es: seq<Node>, isObject: bool): string
    decreases SizeAll(es), 2
  {
    if es == [] then ""
    else
      SizeSnoc(es);
      var last := |es| - 1;
      AddEntry(Entries(es[..last], isObject), EntryToJson(es[last], isObject))
  }

  function AddEntry(front: string, text: string): string {
    if text == "" then front else front + (if front == "" then "" else ",") + text
  }

  // ---------- Trees that are still arriving ----------

  // `c` is `n` cut along its rightmost spine. Names are parsed whole or not at all.
  ghost predicate CutOf(c: Node, n: Node)
    decreases c, 0
  {
    c == n ||
    (c.isPartial && c.tag == n.tag && c.tag != ToolArgName && c.text <= n.text && CutList(c.children, n.children))
  }

  ghost predicate CutList(cs: seq<Node>, ns: seq<Node>)
    decreases cs, 1
  {
    |cs| <= |ns|
    && (cs != [] ==> var last := |cs| - 1;
                     cs[..last] == ns[..last] && CutOf(cs[last], ns[last]))
  }

  lemma CutListTail(cs: seq<Node>, ns: seq<Node>)
    requires CutList(cs, ns) && |cs| > 1
    ensures cs[0] == ns[0] && CutList(cs[1..], ns[1..])
  {
    hide CutOf;
    var last := |cs| - 1;
    assert cs[0] == cs[..last][0] == ns[..last][0] == ns[0];
    assert cs[1..][..last - 1] == cs[..last][1..] == ns[..last][1..] == ns[1..][..last - 1];
  }

  lemma CutListCons(front: seq<Node>, cs: seq<Node>, ns: seq<Node>)
    requires CutList(cs, ns)
    ensures CutList(front + cs, front + ns)
  {
    hide CutOf;
    if cs == [] {
      CutListEqual(front, ns);
      assert front + cs == front;
    } else {
      var last := |cs| - 1;
      assert (front + cs)[..|front| + last] == front + cs[..last];
      assert (front + ns)[..|front| + last] == front + ns[..last];
    }
  }

  lemma CutListEqual(cs: seq<Node>, more: seq<Node>)
    ensures CutList(cs, cs + more)
  {
    if cs != [] {
      assert CutOf(cs[|cs| - 1], cs[|cs| - 1]);
    }
  }

  lemma CutListMore(cs: seq<Node>, ns: seq<Node>, more: seq<Node>)
    requires CutList(cs, ns)
    ensures CutList(cs, ns + more)
  {
    hide CutOf;
  }

  // Collecting from a cut list gives a cut list.
  lemma {:induction false} CollectCut(cs: seq<Node>, ns: seq<Node>, tag: Tag)
    requires CutList(cs, ns)
    ensures CutList(Collect(cs, tag), Collect(ns, tag))
    decreases SizeAll(cs), 1
  {
    assert cs != [] ==> |ns| >= |cs| && (|cs| == 1 ==> CutOf(cs[0], ns[0]));
    assert CutList([], Collect(ns, tag));
    hide CutList;
    if |cs| == 1 {
      assert cs == [cs[0]] && cs[1..] == [] && SizeAll(cs) == Size(cs[0]);
      CollectCutOne(cs[0], ns, tag);
    } else if cs != [] {
      CutListTail(cs, ns);
      assert SizeAll(cs) == Size(cs[0]) + SizeAll(cs[1..]) && Size(cs[0]) >= 1;
      CollectCut(cs[1..], ns[1..], tag);
      CutListCons(if cs[0].tag == tag then [cs[0]] else Collect(cs[0].children, tag), Collect(cs[1..], tag),
                  Collect(ns[1..], tag));
    }
  }

  lemma CollectCutOne(c: Node, ns: seq<Node>, tag: Tag)
    requires ns != [] && CutOf(c, ns[0])
    ensures CutList(Collect([c], tag), Collect(ns, tag))
    decreases Size(c), 0
  {
    var n, rest := ns[0], Collect(ns[1..], tag);
    assert [c][1..] == [];
    if c.tag == tag {
      assert Collect([c], tag) == [c];
      assert Collect(ns, tag) == [n] + rest;
    } else {
      assert Collect([c], tag) == Collect(c.children, tag);
      assert Collect(ns, tag) == Collect(n.children, tag) + rest;
      if c == n {
        CutListEqual(Collect(c.children, tag), rest);
      } else {
        CollectCut(c.children, n.children, tag);
        CutListMore(Collect(c.children, tag), Collect(n.children, tag), rest);
      }
    }
  }

  // A name found in a cut list is the one found in the whole list.
  lemma {:induction false} FindCut(cs: seq<Node>, ns: seq<Node>, depth: nat)
    requires CutList(cs, ns) && FindByTag(cs, ToolArgName, depth).Some?
    ensures FindByTag(ns, ToolArgName, depth) == FindByTag(cs, ToolArgName, depth)
    decreases depth, |cs|
  {
    if |cs| > 1 {
      CutListTail(cs, ns);
      if FindByTag(cs[1..], ToolArgName, depth).Some? {
        FindCut(cs[1..], ns[1..], depth);
      }
    } else {
      assert CutOf(cs[0], ns[0]) && cs[1..] == [];
      if cs[0] != ns[0] && depth > 1 {
        FindCut(cs[0].children, ns[0].children, depth - 1);
      }
    }
  }

  lemma {:induction false} ValueCut(cs: seq<Node>, ns: seq<Node>)
    requires CutList(cs, ns) && ValueAmong(cs).Some?
    ensures ValueAmong(ns).Some? && CutOf(ValueAmong(cs).value, ValueAmong(ns).value)
    decreases |cs|
  {
    if |cs| > 1 {
      CutListTail(cs, ns);
      if !IsValueTag(cs[0].tag) {
        ValueCut(cs[1..], ns[1..]);
      }
    } else {
      assert CutOf(cs[0], ns[0]) && cs[1..] == [];
    }
  }

  lemma {:induction false} EntriesGrow(es: seq<Node>, k: nat, isObject: bool)
    requires k <= |es|
    ensures Entries(es[..k], isObject) <= Entries(es, isObject)
    decreases |es|
  {
    hide EntryToJson, SizeAll;
    if k == |es| {
      assert es[..k] == es;
    } else {
      var init := es[..|es| - 1];
      EntriesGrow(init, k, isObject);
      assert init[..k] == es[..k];
    }
  }

  lemma AddEntryPrefix(front: string, x: string, y: string)
    requires x <= y
    ensures AddEntry(front, x) <= AddEntry(front, y)
  {
  }

  lemma {:induction false} ValueCutPrefix(c: Node, n: Node, closed: bool)
    requires CutOf(c, n)
    ensures ValueToJson(Some(c), false) <= ValueToJson(Some(n), closed)
    decreases Size(c), 2
  {
    hide EscapeInner, Collect;
    if c.tag == ToolArgObject || c.tag == ToolArgArray {
      ContainerCutPrefix(c, n, c.tag == ToolArgObject, closed);
    } else {
      EscapePrefix(c.text, n.text);
    }
  }

  // A container that is not closed yet prints a prefix of what it will print.
  lemma ContainerCutPrefix(c: Node, n: Node, isObject: bool, closed: bool)
    requires CutOf(c, n)
    ensures ContainerToJson(c, isObject, false) <= ContainerToJson(n, isObject, closed)
    decreases Size(c), 1
  {
    hide EntryToJson, Entries, Collect;
    var tag := if isObject then ToolArg else ToolArgItem;
    if c == n {
      CutListEqual(c.children, []);
      assert c.children + [] == c.children;
    }
    CollectCut(c.children, n.children, tag);
    EntriesCutPrefix(Collect(c.children, tag), Collect(n.children, tag), isObject);
  }

  lemma EntriesCutPrefix(cs: seq<Node>, ns: seq<Node>, isObject: bool)
    requires CutList(cs, ns)
    ensures Entries(cs, isObject) <= Entries(ns, isObject)
    decreases SizeAll(cs), 2
  {
    hide EntryToJson, AddEntry;
    if cs != [] {
      SizeSnoc(cs);
      var last := |cs| - 1;
      EntryCutPrefix(cs[last], ns[last], isObject);
      var part := ns[..last + 1];
      assert part[..last] == cs[..last] && part[last] == ns[last];
      AddEntryPrefix(Entries(cs[..last], isObject), EntryToJson(cs[last], isObject), EntryToJson(ns[last], isObject));
      EntriesGrow(ns, last + 1, isObject);
    }
  }

  lemma EntryCutPrefix(c: Node, n: Node, isObject: bool)
    requires CutOf(c, n)
    ensures EntryToJson(c, isObject) <= EntryToJson(n, isObject)
    decreases Size(c), 1
  {
    hide ValueToJson, FindByTag, Quote, CutList;
    if c != n {
      var name := FindByTag(c.children, ToolArgName, NAME_DEPTH);
      if name.Some? {
        FindCut(c.children, n.children, NAME_DEPTH);
      }
      ValueOfCutPrefix(c.children, n.children, !n.isPartial);
    }
  }

  lemma ValueOfCutPrefix(cs: seq<Node>, ns: seq<Node>, closed: bool)
    requires CutList(cs, ns)
    ensures ValueToJson(ValueAmong(cs), false) <= ValueToJson(ValueAmong(ns), closed)
    decreases SizeAll(cs), 3
  {
    if ValueAmong(cs).Some? {
      ValueCut(cs, ns);
      ValueCutPrefix(ValueAmong(cs).value, ValueAmong(ns).value, closed);
    }
  }

  // ---------- Complete trees ----------

  ghost predicate Represents(n: Node, v: V.Value)
    decreases v
  {
    match v
    case Str(s) => n.tag == ToolArgStringValue && n.text == s
    case Arr(vs) =>
      var es := Collect(n.children, ToolArgItem);
      && n.tag == ToolArgArray && |es| == |vs|
      && forall i :: 0 <= i < |vs| ==>
             CompleteEntry(es[i]) && Represents(ValueAmong(es[i].children).value, vs[i])
    case Obj(ms) =>
      var es := Collect(n.children, ToolArg);
      && n.tag == ToolArgObject && |es| == |ms|
      && forall i :: 0 <= i < |ms| ==>
             CompleteEntry(es[i]) && Named(es[i], ms[i].name)
                 && Represents(ValueAmong(es[i].children).value, ms[i].value)
    case _ => n.tag == ToolArgValue && n.text == V.Print(v)
  }

  ghost predicate CompleteEntry(e: Node) {
    !e.isPartial && ValueAmong(e.children).Some?
  }

  ghost predicate Named(e: Node, name: string) {
    var found := FindByTag(e.children, ToolArgName, NAME_DEPTH);
    found.Some? && found.value.text == name
  }

  lemma {:induction false} PrintsValue(n: Node, v: V.Value)
    requires Represents(n, v) && V.WellFormed(v)
    ensures ValueToJson(Some(n), true) == V.Print(v)
    decreases v
  {
    hide V.PrintElements, V.PrintMembers, Entries, Collect, EscapeInner;
    match v
    case Arr(vs) => PrintsElements(Collect(n.children, ToolArgItem), vs);
    case Obj(ms) => PrintsMembers(Collect(n.children, ToolArg), ms);
    case _ =>
  }

  lemma AddEntryIs(front: string, text: string, n: nat)
    requires text != "" && (front == "" <==> n == 0)
    ensures AddEntry(front, text) == front + (V.Separator(n) + text)
  {
    assert front + "," + text == front + ("," + text);
    assert "" + text == text;
  }

  lemma ElementsSnoc(vs: seq<V.Value>)
    requires vs != [] && forall i :: 0 <= i < |vs| ==> V.WellFormed(vs[i])
    ensures V.PrintElements(vs) == AddEntry(V.PrintElements(vs[..|vs| - 1]), V.Print(vs[|vs| - 1]))
  {
    V.PrintNothing();
    hide V.Print, V.WellFormed, V.PrintElements, AddEntry, V.Separator;
    var last := |vs| - 1;
    V.PrintElementsSnoc(vs);
    V.PrintStart(vs[last]);
    if last > 0 {
      V.PrintElementsNonEmpty(vs[..last]);
    }
    AddEntryIs(V.PrintElements(vs[..last]), V.Print(vs[last]), last);
  }

  lemma MembersSnoc(ms: seq<V.Member>)
    requires ms != []
    ensures V.PrintMembers(ms) == AddEntry(V.PrintMembers(ms[..|ms| - 1]), V.PrintMember(ms[|ms| - 1]))
  {
    V.PrintNothing();
    hide V.Print, V.PrintMembers, Quote, AddEntry, V.Separator;
    var last := |ms| - 1;
    V.PrintMembersSnoc(ms);
    assert V.PrintMember(ms[last]) != "";
    hide V.PrintMember;
    if last > 0 {
      V.PrintMembersNonEmpty(ms[..last]);
    }
    AddEntryIs(V.PrintMembers(ms[..last]), V.PrintMember(ms[last]), last);
  }

  lemma {:induction false} PrintsElements(es: seq<Node>, vs: seq<V.Value>)
    requires |es| == |vs| && forall i :: 0 <= i < |vs| ==> V.WellFormed(vs[i])
    requires forall i :: 0 <= i < |vs| ==> CompleteEntry(es[i]) && Represents(ValueAmong(es[i].children).value, vs[i])
    ensures Entries(es, false) == V.PrintElements(vs)
    decreases vs
  {
    hide V.Print, V.WellFormed, Represents, AddEntry, ValueToJson, SizeAll;
    if vs != [] {
      var last := |vs| - 1;
      PrintsElements(es[..last], vs[..last]);
      PrintsValue(ValueAmong(es[last].children).value, vs[last]);
      ElementsSnoc(vs);
    }
  }

  lemma {:induction false} PrintsMembers(es: seq<Node>, ms: seq<V.Member>)
    requires |es| == |ms| && forall i :: 0 <= i < |ms| ==> V.WellFormed(ms[i].value)
    requires forall i :: 0 <= i < |ms| ==>
               CompleteEntry(es[i]) && Named(es[i], ms[i].name)
                   && Represents(ValueAmong(es[i].children).value, ms[i].value)
    ensures Entries(es, true) == V.PrintMembers(ms)
    decreases ms
  {
    hide V.Print, V.WellFormed, Represents, AddEntry, ValueToJson, SizeAll, FindByTag, Quote;
    if ms != [] {
      var last := |ms| - 1;
      PrintsMembers(es[..last], ms[..last]);
      PrintsValue(ValueAmong(es[last].children).value, ms[last].value);
      MembersSnoc(ms);
    }
  }

  // The arguments of a complete call read back as the object they stand for.
  lemma CompleteCallReads(tool: Node, ms: seq<V.Member>)
    requires Represents(tool.(tag := ToolArgObject), V.Obj(ms)) && V.WellFormed(V.Obj(ms))
    ensures V.Read(ContainerToJson(tool, true, true)) == Some((V.Meaning(V.Obj(ms)), ""))
  {
    hide Collect, Entries, Represents, V.Print, V.WellFormed;
    var asObject := tool.(tag := ToolArgObject);
    PrintsValue(asObject, V.Obj(ms));
    V.PrintReads(V.Obj(ms));
    assert SizeAll(asObject.children) == SizeAll(tool.children);
    assert ValueToJson(Some(asObject), true) == ContainerToJson(asObject, true, true);
    assert ContainerToJson(asObject, true, true) == ContainerToJson(tool, true, true);
  }

  // While a call arrives, its arguments are always a beginning of what they will be.
  lemma ArrivingCallExtends(c: Node, tool: Node)
    requires CutOf(c, tool)
    ensures ContainerToJson(c, true, !c.isPartial) <= ContainerToJson(tool, true, !tool.isPartial)
  {
    if c != tool {
      ContainerCutPrefix(c, tool, true, !tool.isPartial);
    }
  }

  // ---------- What exactly is printed of a tree that is still arriving ----------

  // The text that belongs to the part of `v` that has arrived: whole entries in front, and what there is of the last
  // one, with a separator once there is any text of it. Nothing is closed before it is complete.
  ghost function Arrived(c: Node, v: V.Value, closed: bool): string
    decreases v, 0
  {
    match v
    case Str(_) => "\"" + EscapeInner(c.text) + (if closed then "\"" else "")
    case Arr(vs) =>
      var es := Collect(c.children, ToolArgItem);
      var k := |es| - 1;
      if k >= |vs| then ""
      else
        "[" + (if k < 0 then "" else Behind(V.PrintElements(vs[..k]), k, ArrivedEntry(es[k], vs[k])))
        + (if closed then "]" else "")
    case Obj(ms) =>
      var es := Collect(c.children, ToolArg);
      var k := |es| - 1;
      if k >= |ms| then ""
      else
        "{" + (if k < 0 then "" else Behind(V.PrintMembers(ms[..k]), k, ArrivedMember(es[k], ms[k])))
        + (if closed then "}" else "")
    case _ => c.text
  }

  // The text of an entry behind `k` others.
  function Behind(front: string, k: nat, text: string): string {
    if text == "" then front else front + (V.Separator(k) + text)
  }

  ghost function ArrivedEntry(e: Node, v: V.Value): string
    decreases v, 1
  {
    match ValueAmong(e.children)
    case None => ""
    case Some(c) => Arrived(c, v, !e.isPartial)
  }

  ghost function ArrivedMember(e: Node, m: V.Member): string
    decreases m, 1
  {
    if FindByTag(e.children, ToolArgName, NAME_DEPTH) == None then ""
    else Quote(m.name) + ":" + ArrivedEntry(e, m.value)
  }

  // A value that is still arriving prints exactly the part of it that has arrived.
  lemma {:induction false} ArrivedPrinted(c: Node, n: Node, v: V.Value, closed: bool)
    requires CutOf(c, n) && Represents(n, v) && V.WellFormed(v) && (closed ==> c == n)
    ensures ValueToJson(Some(c), closed) == Arrived(c, v, closed)
    decreases v, 2
  {
    assert c.tag == n.tag;
    match v
    case Arr(vs) => ArrayPrinted(c, n, vs, closed);
    case Obj(ms) => ObjectPrinted(c, n, ms, closed);
    case _ => hide CutOf, V.WellFormed, V.Print, EscapeInner;
  }

  lemma ChildrenCut(c: Node, n: Node)
    requires CutOf(c, n)
    ensures CutList(c.children, n.children)
  {
    if c == n {
      CutListEqual(c.children, []);
      assert c.children + [] == c.children;
    }
  }

  lemma ContainerIs(c: Node, isObject: bool, closed: bool)
    requires c.tag == if isObject then ToolArgObject else ToolArgArray
    ensures ValueToJson(Some(c), closed) == ContainerToJson(c, isObject, closed)
  {
    hide ContainerToJson;
  }

  lemma ArrayPrinted(c: Node, n: Node, vs: seq<V.Value>, closed: bool)
    requires CutOf(c, n) && Represents(n, V.Arr(vs)) && V.WellFormed(V.Arr(vs)) && c.tag == ToolArgArray
    ensures ValueToJson(Some(c), closed) == Arrived(c, V.Arr(vs), closed)
    decreases vs, 1
  {
    ChildrenCut(c, n);
    CollectCut(c.children, n.children, ToolArgItem);
    ContainerIs(c, false, closed);
    hide CutOf, ValueToJson, Collect, Entries, Represents, ValueAmong, V.PrintElements, Behind, ArrivedEntry,
         V.WellFormed, CutList;
    ElementsPrinted(Collect(c.children, ToolArgItem), Collect(n.children, ToolArgItem), vs);
    ListLength(Collect(c.children, ToolArgItem), Collect(n.children, ToolArgItem));
  }

  lemma ListLength(cs: seq<Node>, ns: seq<Node>)
    requires CutList(cs, ns)
    ensures |cs| <= |ns|
    ensures cs != [] ==> var k := |cs| - 1; cs[..k] == ns[..k] && CutOf(cs[k], ns[k])
  {
  }

  lemma ElementsPrinted(cs: seq<Node>, ns: seq<Node>, vs: seq<V.Value>)
    requires CutList(cs, ns) && |ns| == |vs| && forall i :: 0 <= i < |vs| ==> V.WellFormed(vs[i])
    requires forall i :: 0 <= i < |vs| ==> CompleteEntry(ns[i]) && Represents(ValueAmong(ns[i].children).value, vs[i])
    ensures |cs| <= |ns|
    ensures cs == [] ==> Entries(cs, false) == ""
    ensures cs != [] ==>
              var k := |cs| - 1; Entries(cs, false) == Behind(V.PrintElements(vs[..k]), k, ArrivedEntry(cs[k], vs[k]))
    decreases vs, 0
  {
    ListLength(cs, ns);
    if cs != [] {
      var k := |cs| - 1;
      hide CutOf, CutList, Represents, ValueToJson, V.WellFormed, V.Print, V.PrintElements, Arrived, AddEntry, Entries;
      PrintsElements(cs[..k], vs[..k]);
      EntryPrinted(cs[k], ns[k], vs[k]);
      EntriesLast(cs, false);
      V.PrintNothing();
      if k > 0 {
        V.PrintElementsNonEmpty(vs[..k]);
      }
      EntryBehind(V.PrintElements(vs[..k]), EntryToJson(cs[k], false), k);
    } else {
      NoEntries(false);
    }
  }

  lemma NoEntries(isObject: bool)
    ensures Entries([], isObject) == ""
  {
  }

  lemma EntriesLast(es: seq<Node>, isObject: bool)
    requires es != []
    ensures Entries(es, isObject)
         == AddEntry(Entries(es[..|es| - 1], isObject), EntryToJson(es[|es| - 1], isObject))
  {
    hide EntryToJson, AddEntry;
  }

  lemma EntryBehind(front: string, text: string, k: nat)
    requires front == "" <==> k == 0
    ensures AddEntry(front, text) == Behind(front, k, text)
  {
    if text != "" {
      AddEntryIs(front, text, k);
    }
  }

  lemma EntryPrinted(c: Node, n: Node, v: V.Value)
    requires CutOf(c, n) && CompleteEntry(n) && Represents(ValueAmong(n.children).value, v) && V.WellFormed(v)
    ensures ValueToJson(ValueAmong(c.children), !c.isPartial) == ArrivedEntry(c, v)
    ensures EntryToJson(c, false) == ArrivedEntry(c, v)
    decreases v, 3
  {
    assert c.isPartial || c == n;
    ChildrenCut(c, n);
    hide CutList, Represents, V.WellFormed, CutOf, Arrived;
    if ValueAmong(c.children).Some? {
      ValueCut(c.children, n.children);
      hide ValueAmong, ValueToJson;
      ArrivedPrinted(ValueAmong(c.children).value, ValueAmong(n.children).value, v, !c.isPartial);
    }
  }

  lemma ObjectPrinted(c: Node, n: Node, ms: seq<V.Member>, closed: bool)
    requires CutOf(c, n) && Represents(n, V.Obj(ms)) && V.WellFormed(V.Obj(ms)) && c.tag == ToolArgObject
    ensures ValueToJson(Some(c), closed) == Arrived(c, V.Obj(ms), closed)
    decreases ms, 1
  {
    ChildrenCut(c, n);
    CollectCut(c.children, n.children, ToolArg);
    ContainerIs(c, true, closed);
    hide CutOf, ValueToJson, Collect, Entries, Represents, ValueAmong, V.PrintMembers, Behind, ArrivedMember,
         V.WellFormed, CutList, FindByTag;
    MembersPrinted(Collect(c.children, ToolArg), Collect(n.children, ToolArg), ms);
    ListLength(Collect(c.children, ToolArg), Collect(n.children, ToolArg));
  }

  lemma MembersPrinted(cs: seq<Node>, ns: seq<Node>, ms: seq<V.Member>)
    requires CutList(cs, ns) && |ns| == |ms| && forall i :: 0 <= i < |ms| ==> V.WellFormed(ms[i].value)
    requires forall i :: 0 <= i < |ms| ==>
               CompleteEntry(ns[i]) && Named(ns[i], ms[i].name)
                   && Represents(ValueAmong(ns[i].children).value, ms[i].value)
    ensures |cs| <= |ns|
    ensures cs == [] ==> Entries(cs, true) == ""
    ensures cs != [] ==>
              var k := |cs| - 1; Entries(cs, true) == Behind(V.PrintMembers(ms[..k]), k, ArrivedMember(cs[k], ms[k]))
    decreases ms, 0
  {
    ListLength(cs, ns);
    if cs != [] {
      var k := |cs| - 1;
      hide CutOf, CutList, Represents, ValueToJson, V.WellFormed, V.PrintMember, V.PrintMembers, ArrivedMember,
           AddEntry, Entries, FindByTag, EntryToJson;
      PrintsMembers(cs[..k], ms[..k]);
      MemberPrinted(cs[k], ns[k], ms[k]);
      EntriesLast(cs, true);
      V.PrintNothing();
      if k > 0 {
        V.PrintMembersNonEmpty(ms[..k]);
      }
      EntryBehind(V.PrintMembers(ms[..k]), EntryToJson(cs[k], true), k);
    } else {
      NoEntries(true);
    }
  }

  lemma MemberPrinted(c: Node, n: Node, m: V.Member)
    requires CutOf(c, n) && CompleteEntry(n) && Named(n, m.name)
    requires Represents(ValueAmong(n.children).value, m.value) && V.WellFormed(m.value)
    ensures EntryToJson(c, true) == ArrivedMember(c, m)
    decreases m, 0
  {
    ChildrenCut(c, n);
    EntryPrinted(c, n, m.value);
    hide CutList, CutOf, Represents, V.WellFormed, ValueToJson, ArrivedEntry, ValueAmong, Quote;
    if FindByTag(c.children, ToolArgName, NAME_DEPTH).Some? {
      FindCut(c.children, n.children, NAME_DEPTH);
      hide FindByTag;
    }
  }

  // The arguments of a call that is still arriving are exactly what has arrived of the object.
  lemma ArrivedCall(c: Node, tool: Node, ms: seq<V.Member>)
    requires CutOf(c, tool) && tool.tag != ToolArgName
    requires Represents(tool.(tag := ToolArgObject), V.Obj(ms)) && V.WellFormed(V.Obj(ms))
    ensures ContainerToJson(c, true, !c.isPartial) == Arrived(c, V.Obj(ms), !c.isPartial)
  {
    var c', tool' := c.(tag := ToolArgObject), tool.(tag := ToolArgObject);
    Retagged(c, tool);
    hide CutOf, Represents, V.WellFormed, ContainerToJson, Arrived, Size;
    ObjectPrinted(c', tool', ms, !c.isPartial);
    ContainerIs(c', true, !c.isPartial);
    SameChildren(c, c', ms, !c.isPartial);
  }

  lemma Retagged(c: Node, n: Node)
    requires CutOf(c, n) && n.tag != ToolArgName
    ensures CutOf(c.(tag := ToolArgObject), n.(tag := ToolArgObject))
  {
    hide CutList;
  }

  // The tag of a container does not matter to its entries.
  lemma SameChildren(c: Node, d: Node, ms: seq<V.Member>, closed: bool)
    requires c.children == d.children
    ensures ContainerToJson(c, true, closed) == ContainerToJson(d, true, closed)
    ensures Arrived(c, V.Obj(ms), closed) == Arrived(d, V.Obj(ms), closed)
  {
    hide Collect, Entries, Behind, ArrivedMember, V.PrintMembers;
  }

  // ---------- Every value has a tree ----------

  // The tree of a value, each entry under a node of its own, the name two levels down.
  function TreeOf(v: V.Value): Node
    decreases v, 0
  {
    match v
    case Str(s) => Node(ToolArgStringValue, s, [], false)
    case Arr(vs) => Node(ToolArgArray, "", ItemTrees(vs), false)
    case Obj(ms) => Node(ToolArgObject, "", MemberTrees(ms), false)
    case _ => Node(ToolArgValue, V.Print(v), [], false)
  }

  function ItemTrees(vs: seq<V.Value>): seq<Node>
    decreases vs
  {
    if vs == [] then []
    else
      var item := Node(ToolArgItem, "", [TreeOf(vs[0])], false);
      [Node(NoTag, "", [item], false)] + ItemTrees(vs[1..])
  }

  function MemberTrees(ms: seq<V.Member>): seq<Node>
    decreases ms
  {
    if ms == [] then []
    else
      var name := Node(NoTag, "", [Node(ToolArgName, ms[0].name, [], false)], false);
      [Node(NoTag, "", [Node(ToolArg, "", [name, TreeOf(ms[0].value)], false)], false)] + MemberTrees(ms[1..])
  }

  lemma {:induction false} TreeRepresents(v: V.Value)
    ensures Represents(TreeOf(v), v) && IsValueTag(TreeOf(v).tag)
    decreases v, 1
  {
    hide Collect, V.Print;
    match v
    case Arr(vs) => ItemsCollected(vs);
    case Obj(ms) => MembersCollected(ms);
    case _ =>
  }

  lemma CollectFirst(inner: Node, rest: seq<Node>)
    ensures Collect([Node(NoTag, "", [inner], false)] + rest, inner.tag) ==
            (if inner.tag == NoTag then [Node(NoTag, "", [inner], false)] else [inner]) + Collect(rest, inner.tag)
  {
    var outer := Node(NoTag, "", [inner], false);
    assert ([outer] + rest)[1..] == rest;
    assert [inner][1..] == [] && Collect([], inner.tag) == [];
    assert Collect([inner], inner.tag) == [inner];
  }

  lemma {:induction false} ItemsCollected(vs: seq<V.Value>)
    ensures var es := Collect(ItemTrees(vs), ToolArgItem);
            |es| == |vs| && forall i :: 0 <= i < |vs| ==>
              CompleteEntry(es[i]) && Represents(ValueAmong(es[i].children).value, vs[i])
    decreases vs, 0
  {
    if vs == [] {
      assert Collect([], ToolArgItem) == [];
    } else {
      var item := Node(ToolArgItem, "", [TreeOf(vs[0])], false);
      TreeRepresents(vs[0]);
      ItemsCollected(vs[1..]);
      CollectFirst(item, ItemTrees(vs[1..]));
      hide Collect, TreeOf, Represents;
      assert ValueAmong(item.children) == Some(TreeOf(vs[0]));
    }
  }

  lemma {:induction false} MembersCollected(ms: seq<V.Member>)
    ensures var es := Collect(MemberTrees(ms), ToolArg);
            |es| == |ms| && forall i :: 0 <= i < |ms| ==>
              CompleteEntry(es[i]) && Named(es[i], ms[i].name)
              && Represents(ValueAmong(es[i].children).value, ms[i].value)
    decreases ms, 0
  {
    if ms == [] {
      assert Collect([], ToolArg) == [];
    } else {
      var inner := Node(ToolArgName, ms[0].name, [], false);
      var name := Node(NoTag, "", [inner], false);
      var entry := Node(ToolArg, "", [name, TreeOf(ms[0].value)], false);
      TreeRepresents(ms[0].value);
      MembersCollected(ms[1..]);
      CollectFirst(entry, MemberTrees(ms[1..]));
      hide Collect, TreeOf, Represents;
      NameBelow(inner, [TreeOf(ms[0].value)]);
      assert [name] + [TreeOf(ms[0].value)] == entry.children;
      assert entry.children[1..] == [TreeOf(ms[0].value)];
      assert ValueAmong(entry.children) == Some(TreeOf(ms[0].value));
    }
  }

  lemma NameBelow(inner: Node, rest: seq<Node>)
    requires inner.tag == ToolArgName
    ensures FindByTag([Node(NoTag, "", [inner], false)] + rest, ToolArgName, NAME_DEPTH) == Some(inner)
  {
    assert FindByTag([inner], ToolArgName, 2) == Some(inner);
  }
}
