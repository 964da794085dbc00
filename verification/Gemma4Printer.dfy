/** Printing of Gemma 4 argument trees as JSON, complete or cut off while still arriving. */
module Gemma4Printer {
  import opened Wrappers
  import opened JsonText
  import V = JsonValues

  datatype Rule =
    | NumberRule
    | BoolRule
    | NullRule
    | StringContent
    | StringRule
    | ArrayRule
    | DictKeyName
    | DictKey
    | DictKv
    | Dict
    | ValueRule
    | OtherRule

  datatype Node = Node(rule: Rule, text: string, children: seq<Node>, isPartial: bool)

  function ToJson(n: Node): string
    decreases n, 0
  {
    if n.text == "" then ""
    else
      match n.rule
      case NumberRule => n.text
      case BoolRule => n.text
      case NullRule => n.text
      case StringContent => EscapeInner(n.text)
      case StringRule =>
        "\"" + if n.children == [] then "" else ToJson(n.children[0]) + (if n.isPartial then "" else "\"")
      case ArrayRule => "[" + Listed(n.children) + (if n.isPartial then "" else "]")
      case DictKeyName => n.text
      case DictKey =>
        "\"" + (if n.children == [] then "" else EscapeInner(ToJson(n.children[0])))
        + (if n.isPartial then "" else "\":")
      case DictKv => Joined(n.children)
      case Dict => "{" + Listed(n.children) + (if n.isPartial then "" else "}")
      case ValueRule => if n.children == [] then "" else ToJson(n.children[0])
      case OtherRule => ""
  }

  // The children's texts, with a comma before every child but the first.
  function Listed(children: seq<Node>): string
    decreases children, 1
  {
    if children == [] then ""
    else
      var last := |children| - 1;
      Listed(children[..last]) + (if last > 0 then "," else "") + ToJson(children[last])
  }

  function Joined(children: seq<Node>): string
    decreases children, 1
  {
    if children == [] then ""
    else
      var last := |children| - 1;
      Joined(children[..last]) + ToJson(children[last])
  }

  // ---------- Trees that are still arriving ----------

  // `c` is `n` cut along its rightmost spine: the nodes on the spine are partial and have lost
  // text or children at the end; everything to the left of the spine is complete as in `n`.
  ghost predicate CutOf(c: Node, n: Node)
    decreases c
  {
    c == n ||
    (&& c.isPartial && c.rule == n.rule && c.text <= n.text
     && |c.children| <= |n.children|
     && (c.children != [] ==>
           var last := |c.children| - 1;
           c.children[..last] == n.children[..last] && CutOf(c.children[last], n.children[last])))
  }

  lemma PrefixExtends(x: string, y: string, z: string)
    requires x <= y
    ensures x <= y + z
  {
  }

  lemma PrefixAfter(x: string, y: string, z: string)
    requires y <= z
    ensures x + y <= x + z
  {
  }

  // More children only lengthen the text.
  lemma {:induction false} ListedGrows(children: seq<Node>, k: nat)
    requires k <= |children|
    ensures Listed(children[..k]) <= Listed(children)
  {
    hide ToJson;
    if k == |children| {
      assert children[..k] == children;
    } else {
      var init := children[..|children| - 1];
      ListedGrows(init, k);
      assert init[..k] == children[..k];
      PrefixExtends(Listed(init[..k]), Listed(init), (if |init| > 0 then "," else "") + ToJson(children[|init|]));
      assert Listed(children) == Listed(init) + ((if |init| > 0 then "," else "") + ToJson(children[|init|]));
    }
  }

  lemma {:induction false} JoinedGrows(children: seq<Node>, k: nat)
    requires k <= |children|
    ensures Joined(children[..k]) <= Joined(children)
  {
    hide ToJson;
    if k == |children| {
      assert children[..k] == children;
    } else {
      var init := children[..|children| - 1];
      JoinedGrows(init, k);
      assert init[..k] == children[..k];
      PrefixExtends(Joined(init[..k]), Joined(init), ToJson(children[|init|]));
    }
  }

  // The text of a cut tree is a prefix of the text of the tree.
  lemma {:induction false} CutPrefix(c: Node, n: Node)
    requires CutOf(c, n)
    ensures ToJson(c) <= ToJson(n)
    decreases c, 1
  {
    if c != n && c.text != "" {
      if c.children != [] {
        CutPrefixListed(c, n);
        CutPrefixJoined(c, n);
        CutPrefixFirst(c, n);
      } else {
        assert Listed([]) == "" && Joined([]) == "";
      }
      CutPrefixNode(c, n);
    }
  }

  lemma CutPrefixListed(c: Node, n: Node)
    requires CutOf(c, n) && c != n && c.children != []
    ensures Listed(c.children) <= Listed(n.children)
    decreases c, 0
  {
    hide ToJson;
    var last := |c.children| - 1;
    CutPrefix(c.children[last], n.children[last]);
    var part := n.children[..last + 1];
    assert part[..last] == c.children[..last] && part[last] == n.children[last];
    var front := Listed(c.children[..last]) + if last > 0 then "," else "";
    PrefixAfter(front, ToJson(c.children[last]), ToJson(n.children[last]));
    assert Listed(c.children) == front + ToJson(c.children[last]);
    assert Listed(part) == front + ToJson(n.children[last]);
    ListedGrows(n.children, last + 1);
  }

  lemma CutPrefixJoined(c: Node, n: Node)
    requires CutOf(c, n) && c != n && c.children != []
    ensures Joined(c.children) <= Joined(n.children)
    decreases c, 0
  {
    hide ToJson;
    var last := |c.children| - 1;
    CutPrefix(c.children[last], n.children[last]);
    var part := n.children[..last + 1];
    assert part[..last] == c.children[..last] && part[last] == n.children[last];
    var front := Joined(c.children[..last]);
    PrefixAfter(front, ToJson(c.children[last]), ToJson(n.children[last]));
    assert Joined(c.children) == front + ToJson(c.children[last]);
    assert Joined(part) == front + ToJson(n.children[last]);
    JoinedGrows(n.children, last + 1);
  }

  lemma CutPrefixFirst(c: Node, n: Node)
    requires CutOf(c, n) && c != n && c.children != []
    ensures ToJson(c.children[0]) <= ToJson(n.children[0])
    decreases c, 0
  {
    hide ToJson;
    var last := |c.children| - 1;
    if last == 0 {
      CutPrefix(c.children[0], n.children[0]);
    } else {
      assert c.children[0] == c.children[..last][0] == n.children[..last][0] == n.children[0];
    }
  }

  // One node, given what its children contribute.
  lemma CutPrefixNode(c: Node, n: Node)
    requires c.isPartial && c.rule == n.rule && c.text != "" && c.text <= n.text
    requires |c.children| <= |n.children|
    requires Listed(c.children) <= Listed(n.children) && Joined(c.children) <= Joined(n.children)
    requires c.children != [] ==> ToJson(c.children[0]) <= ToJson(n.children[0])
    ensures ToJson(c) <= ToJson(n)
  {
    hide Listed, Joined, EscapeInner;
    EscapePrefix(c.text, n.text);
    if c.children != [] {
      EscapePrefix(ToJson(c.children[0]), ToJson(n.children[0]));
    }
  }

  // ---------- Complete trees ----------

  ghost predicate Complete(n: Node, rule: Rule) {
    n.rule == rule && n.text != "" && !n.isPartial
  }

  // The tree the parser builds for a complete value.
  ghost predicate Represents(n: Node, v: V.Value)
    decreases v, 1
  {
    Complete(n, ValueRule) && |n.children| == 1 && RepresentsInside(n.children[0], v)
  }

  ghost predicate RepresentsInside(c: Node, v: V.Value)
    decreases v, 0
  {
    match v
    case Number(text) => Complete(c, NumberRule) && c.text == text
    case Bool(b) => Complete(c, BoolRule) && c.text == if b then "true" else "false"
    case Null => Complete(c, NullRule) && c.text == "null"
    case Str(s) =>
      Complete(c, StringRule) && |c.children| == 1 && c.children[0].rule == StringContent && c.children[0].text == s
    case Arr(vs) =>
      && Complete(c, ArrayRule) && |c.children| == |vs|
      && forall i :: 0 <= i < |vs| ==> Represents(c.children[i], vs[i])
    case Obj(ms) =>
      && Complete(c, Dict) && |c.children| == |ms|
      && forall i :: 0 <= i < |ms| ==>
             RepresentsMember(c.children[i], ms[i].name) && Represents(c.children[i].children[1], ms[i].value)
  }

  ghost predicate RepresentsMember(kv: Node, name: string) {
    && Complete(kv, DictKv) && |kv.children| == 2
    && var key := kv.children[0];
       Complete(key, DictKey) && |key.children| == 1 && key.children[0].rule == DictKeyName
           && key.children[0].text == name
  }

  lemma {:induction false} PrintsValue(n: Node, v: V.Value)
    requires Represents(n, v)
    ensures ToJson(n) == V.Print(v)
    decreases v
  {
    EscapeNothing();
    hide V.PrintElements, V.PrintMembers, Listed, Joined, EscapeInner;
    var c := n.children[0];
    assert ToJson(n) == ToJson(c);
    match v
    case Number(text) =>
    case Bool(b) =>
    case Null =>
    case Str(s) =>
      assert ToJson(c.children[0]) == EscapeInner(s);
    case Arr(vs) =>
      PrintsElements(c.children, vs);
    case Obj(ms) =>
      PrintsMembers(c.children, ms);
  }

  lemma {:induction false} PrintsElements(ns: seq<Node>, vs: seq<V.Value>)
    requires |ns| == |vs| && forall i :: 0 <= i < |vs| ==> Represents(ns[i], vs[i])
    ensures Listed(ns) == V.PrintElements(vs)
    decreases vs
  {
    hide V.Print, Represents, ToJson;
    if vs != [] {
      var last := |vs| - 1;
      PrintsElements(ns[..last], vs[..last]);
      PrintsValue(ns[last], vs[last]);
      V.PrintElementsSnoc(vs);
    }
  }

  lemma PrintsMember(kv: Node, m: V.Member)
    requires RepresentsMember(kv, m.name) && Represents(kv.children[1], m.value)
    ensures ToJson(kv) == V.PrintMember(m)
    decreases m
  {
    hide V.Print, Represents, EscapeInner;
    var key, value := kv.children[0], kv.children[1];
    PrintsValue(value, m.value);
    EscapeNothing();
    assert ToJson(key) == Quote(m.name) + ":";
    assert kv.children[..1] == [key] && kv.children[..1][..0] == [];
    assert Joined([key]) == ToJson(key) by { assert Joined([]) == ""; assert [key][..0] == []; }
    assert Joined(kv.children) == Joined(kv.children[..1]) + ToJson(value);
  }

  lemma {:induction false} PrintsMembers(ns: seq<Node>, ms: seq<V.Member>)
    requires |ns| == |ms|
    requires forall i :: 0 <= i < |ms| ==>
             RepresentsMember(ns[i], ms[i].name) && Represents(ns[i].children[1], ms[i].value)
    ensures Listed(ns) == V.PrintMembers(ms)
    decreases ms
  {
    hide V.PrintMember, Represents, RepresentsMember, ToJson;
    if ms != [] {
      var last := |ms| - 1;
      PrintsMembers(ns[..last], ms[..last]);
      PrintsMember(ns[last], ms[last]);
      V.PrintMembersSnoc(ms);
    }
  }

  // A complete tree prints as JSON that reads back as the tree's value.
  lemma CompleteTreeReads(n: Node, v: V.Value)
    requires Represents(n, v) && V.WellFormed(v)
    ensures V.Read(ToJson(n)) == Some((V.Meaning(v), ""))
  {
    PrintsValue(n, v);
    V.PrintReads(v);
  }

  // While a value arrives, what is printed is always a beginning of the JSON it will be.
  lemma ArrivingTreeExtends(c: Node, n: Node, v: V.Value)
    requires CutOf(c, n) && Represents(n, v)
    ensures ToJson(c) <= V.Print(v)
  {
    CutPrefix(c, n);
    PrintsValue(n, v);
  }

  // ---------- What exactly is printed of a tree that is still arriving ----------

  // The text that belongs to the part of `v` that has arrived, by how far its nodes have come: whole elements and
  // members in front, the separator, and what has arrived of the last one. Nothing is closed before it is complete.
  ghost function Arrived(c: Node, v: V.Value): string
    decreases v
  {
    if c.text == "" || c.children == [] then "" else ArrivedInside(c.children[0], v)
  }

  ghost function ArrivedInside(d: Node, v: V.Value): string
    decreases v, 0
  {
    var k := |d.children| - 1;
    if d.text == "" then ""
    else
      match v
      case Str(_) =>
        if d.children == [] then "\"" else "\"" + EscapeInner(d.children[0].text) + (if d.isPartial then "" else "\"")
      case Arr(vs) =>
        if k >= |vs| then ""
        else
          "[" + (if k < 0 then "" else V.PrintElements(vs[..k]) + V.Separator(k) + Arrived(d.children[k], vs[k]))
          + (if d.isPartial then "" else "]")
      case Obj(ms) =>
        if k >= |ms| then ""
        else
          "{" + (if k < 0 then "" else V.PrintMembers(ms[..k]) + V.Separator(k) + ArrivedMember(d.children[k], ms[k]))
          + (if d.isPartial then "" else "}")
      case _ => d.text
  }

  // A member: what there is of its key, and behind a whole key and its colon what there is of its value.
  ghost function ArrivedMember(kv: Node, m: V.Member): string
    decreases m
  {
    if kv.text == "" || kv.children == [] then ""
    else if |kv.children| == 1 then ArrivedKey(kv.children[0])
    else Quote(m.name) + ":" + Arrived(kv.children[1], m.value)
  }

  ghost function ArrivedKey(key: Node): string {
    if key.text == "" then ""
    else
      "\"" + (if key.children == [] then "" else EscapeInner(key.children[0].text))
      + (if key.isPartial then "" else "\":")
  }

  // What a cut node keeps.
  lemma CutKeeps(c: Node, n: Node)
    requires CutOf(c, n)
    ensures c.rule == n.rule && |c.children| <= |n.children| && (!c.isPartial ==> c == n)
    ensures c.children != [] ==>
              var last := |c.children| - 1;
              c.children[..last] == n.children[..last] && CutOf(c.children[last], n.children[last])
  {
    if c == n && c.children != [] {
      var last := |c.children| - 1;
      assert CutOf(c.children[last], n.children[last]);
    }
  }

  lemma ListedLast(ns: seq<Node>)
    requires ns != []
    ensures Listed(ns) == Listed(ns[..|ns| - 1]) + V.Separator(|ns| - 1) + ToJson(ns[|ns| - 1])
  {
    hide ToJson;
  }

  // A tree that is still arriving prints exactly the part of its value that has arrived.
  lemma {:induction false} ArrivedPrinted(c: Node, n: Node, v: V.Value)
    requires CutOf(c, n) && Represents(n, v)
    ensures ToJson(c) == Arrived(c, v)
    decreases v, 2
  {
    CutKeeps(c, n);
    if c.text != "" && c.children != [] {
      assert c.children[0] == c.children[|c.children| - 1];
      InsidePrinted(c.children[0], n.children[0], v);
    }
  }

  lemma InsidePrinted(d: Node, e: Node, v: V.Value)
    requires CutOf(d, e) && RepresentsInside(e, v)
    ensures ToJson(d) == ArrivedInside(d, v)
    decreases v, 1
  {
    CutKeeps(d, e);
    if d.text != "" {
      hide CutOf, Listed, Represents, V.PrintElements, V.PrintMembers, V.Separator, EscapeInner, Arrived, ArrivedMember;
      match v
      case Str(_) => TextPrinted(d, e);
      case Arr(vs) => ArrayPrinted(d, e, vs);
      case Obj(ms) => ObjectPrinted(d, e, ms);
      case _ =>
    }
  }

  lemma NodePrinted(d: Node)
    requires d.text != ""
    ensures d.rule == ArrayRule ==> ToJson(d) == "[" + Listed(d.children) + (if d.isPartial then "" else "]")
    ensures d.rule == Dict ==> ToJson(d) == "{" + Listed(d.children) + (if d.isPartial then "" else "}")
  {
    hide Listed, Joined, EscapeInner;
  }

  lemma ArrayPrinted(d: Node, e: Node, vs: seq<V.Value>)
    requires CutOf(d, e) && RepresentsInside(e, V.Arr(vs)) && d.text != ""
    ensures ToJson(d) == ArrivedInside(d, V.Arr(vs))
    decreases vs, 1
  {
    CutKeeps(d, e);
    NodePrinted(d);
    hide CutOf, ToJson, Listed, Represents, V.PrintElements, V.Separator, Arrived;
    ElementsPrinted(d.children, e.children, vs);
  }

  lemma ObjectPrinted(d: Node, e: Node, ms: seq<V.Member>)
    requires CutOf(d, e) && RepresentsInside(e, V.Obj(ms)) && d.text != ""
    ensures ToJson(d) == ArrivedInside(d, V.Obj(ms))
    decreases ms, 1
  {
    CutKeeps(d, e);
    NodePrinted(d);
    hide CutOf, ToJson, Listed, Represents, V.PrintMembers, V.Separator, ArrivedMember;
    MembersPrinted(d.children, e.children, ms);
  }

  lemma TextPrinted(d: Node, e: Node)
    requires CutOf(d, e) && d.text != "" && Complete(e, StringRule)
    requires |e.children| == 1 && e.children[0].rule == StringContent
    ensures ToJson(d) == if d.children == [] then "\""
                         else "\"" + EscapeInner(d.children[0].text) + (if d.isPartial then "" else "\"")
  {
    EscapeNothing();
    CutKeeps(d, e);
    hide EscapeInner;
    if d.children != [] {
      CutKeeps(d.children[0], e.children[0]);
      assert ToJson(d.children[0]) == EscapeInner(d.children[0].text);
    }
  }

  lemma ElementsPrinted(ds: seq<Node>, es: seq<Node>, vs: seq<V.Value>)
    requires |ds| <= |es| == |vs| && forall i :: 0 <= i < |vs| ==> Represents(es[i], vs[i])
    requires ds != [] ==> var k := |ds| - 1; ds[..k] == es[..k] && CutOf(ds[k], es[k])
    ensures ds == [] ==> Listed(ds) == ""
    ensures ds != [] ==>
              var k := |ds| - 1; Listed(ds) == V.PrintElements(vs[..k]) + V.Separator(k) + Arrived(ds[k], vs[k])
    decreases vs, 0
  {
    hide Represents, CutOf, ToJson, V.Print;
    if ds != [] {
      var k := |ds| - 1;
      ListedLast(ds);
      forall i | 0 <= i < k
        ensures Represents(ds[..k][i], vs[..k][i])
      {
        assert es[..k][i] == es[i];
      }
      PrintsElements(ds[..k], vs[..k]);
      ArrivedPrinted(ds[k], es[k], vs[k]);
    }
  }

  lemma MembersPrinted(ds: seq<Node>, es: seq<Node>, ms: seq<V.Member>)
    requires |ds| <= |es| == |ms|
    requires forall i :: 0 <= i < |ms| ==>
               RepresentsMember(es[i], ms[i].name) && Represents(es[i].children[1], ms[i].value)
    requires ds != [] ==> var k := |ds| - 1; ds[..k] == es[..k] && CutOf(ds[k], es[k])
    ensures ds == [] ==> Listed(ds) == ""
    ensures ds != [] ==>
              var k := |ds| - 1; Listed(ds) == V.PrintMembers(ms[..k]) + V.Separator(k) + ArrivedMember(ds[k], ms[k])
    decreases ms, 0
  {
    hide Represents, CutOf, ToJson, V.PrintMembers, V.PrintMember, ArrivedMember;
    if ds != [] {
      var k := |ds| - 1;
      ListedLast(ds);
      hide Listed;
      PrintsMembers(ds[..k], ms[..k]);
      MemberPrinted(ds[k], es[k], ms[k]);
    }
  }

  lemma MemberPrinted(kv: Node, whole: Node, m: V.Member)
    requires CutOf(kv, whole) && RepresentsMember(whole, m.name) && Represents(whole.children[1], m.value)
    ensures ToJson(kv) == ArrivedMember(kv, m)
    decreases m, 0
  {
    CutKeeps(kv, whole);
    var ns := kv.children;
    if kv.text != "" && |ns| == 1 {
      KeyPrinted(ns[0], whole.children[0]);
      hide ToJson, CutOf, Represents, ArrivedKey;
      JoinedOne(ns[0]);
      assert ns == [ns[0]];
      assert ToJson(kv) == Joined(ns) by { KvJoins(kv); }
    } else if kv.text != "" && |ns| == 2 {
      assert ns[0] == ns[..1][0] == whole.children[..1][0] == whole.children[0];
      WholeKey(ns[0], m.name);
      ArrivedPrinted(ns[1], whole.children[1], m.value);
      hide ToJson, CutOf, Represents, Arrived, Quote;
      JoinedTwo(ns[0], ns[1]);
      assert ns == [ns[0], ns[1]];
      assert ToJson(kv) == Joined(ns) by { KvJoins(kv); }
    }
  }

  lemma KvJoins(kv: Node)
    requires kv.rule == DictKv && kv.text != ""
    ensures ToJson(kv) == Joined(kv.children)
  {
    hide Joined, Listed, EscapeInner;
  }

  lemma JoinedOne(n: Node)
    ensures Joined([n]) == ToJson(n)
  {
    hide ToJson;
    assert [n][..0] == [] && Joined([]) == "";
  }

  lemma JoinedTwo(m: Node, n: Node)
    ensures Joined([m, n]) == ToJson(m) + ToJson(n)
  {
    hide ToJson;
    JoinedOne(m);
    assert [m, n][..1] == [m];
  }

  lemma WholeKey(key: Node, name: string)
    requires Complete(key, DictKey) && |key.children| == 1 && key.children[0].rule == DictKeyName
    requires key.children[0].text == name
    ensures ToJson(key) == Quote(name) + ":"
  {
    EscapeNothing();
    hide EscapeInner;
    assert ToJson(key.children[0]) == name;
  }

  lemma KeyPrinted(key: Node, whole: Node)
    requires CutOf(key, whole) && Complete(whole, DictKey)
    requires |whole.children| == 1 && whole.children[0].rule == DictKeyName
    ensures ToJson(key) == ArrivedKey(key)
  {
    EscapeNothing();
    CutKeeps(key, whole);
    hide EscapeInner;
    if key.children != [] {
      CutKeeps(key.children[0], whole.children[0]);
      assert ToJson(key.children[0]) == key.children[0].text;
    }
  }

  // What a node keeps of the elements of its value.
  lemma NodeKeeps(c: Node, n: Node, v: V.Value)
    requires CutOf(c, n) && Represents(n, v) && c.text != "" && c.children != []
    ensures v.Arr? ==> |c.children[0].children| <= |v.elements|
    ensures v.Obj? ==> |c.children[0].children| <= |v.members|
    ensures ToJson(c) == ArrivedInside(c.children[0], v)
  {
    ArrivedPrinted(c, n, v);
    CutKeeps(c, n);
    hide ToJson, ArrivedInside;
    CutKeeps(c.children[0], n.children[0]);
  }

  lemma Opens(front: string, inside: string, close: string)
    ensures front <= front + inside + close && front + inside <= front + inside + close
  {
  }

  lemma ObjectOpens(d: Node, ms: seq<V.Member>)
    requires d.text != "" && |d.children| <= |ms|
    ensures var k := |d.children| - 1; var r := ArrivedInside(d, V.Obj(ms));
            && "{" <= r
            && (k >= 0 ==> "{" + (V.PrintMembers(ms[..k]) + V.Separator(k) + ArrivedMember(d.children[k], ms[k])) <= r)
  {
    hide V.PrintMembers, ArrivedMember, V.Separator;
    var k := |d.children| - 1;
    Opens("{", if k < 0 then "" else V.PrintMembers(ms[..k]) + V.Separator(k) + ArrivedMember(d.children[k], ms[k]),
          if d.isPartial then "" else "}");
  }

  lemma ArrayOpens(d: Node, vs: seq<V.Value>)
    requires d.text != "" && |d.children| <= |vs|
    ensures var k := |d.children| - 1; var r := ArrivedInside(d, V.Arr(vs));
            && "[" <= r
            && (k >= 0 ==> "[" + (V.PrintElements(vs[..k]) + V.Separator(k) + Arrived(d.children[k], vs[k])) <= r)
  {
    hide V.PrintElements, Arrived, V.Separator;
    var k := |d.children| - 1;
    Opens("[", if k < 0 then "" else V.PrintElements(vs[..k]) + V.Separator(k) + Arrived(d.children[k], vs[k]),
          if d.isPartial then "" else "]");
  }

  // An object whose member `k` has begun: everything in front of it is printed, with the separator.
  lemma ObjectBegun(c: Node, n: Node, ms: seq<V.Member>)
    requires CutOf(c, n) && Represents(n, V.Obj(ms)) && c.text != "" && c.children != [] && c.children[0].text != ""
    ensures var d := c.children[0]; var k := |d.children| - 1;
            && k < |ms| && "{" <= ToJson(c)
            && (k >= 0 ==> "{" + (V.PrintMembers(ms[..k]) + V.Separator(k) + ArrivedMember(d.children[k], ms[k]))
                           <= ToJson(c))
  {
    hide ToJson, V.PrintMembers, ArrivedMember, CutOf, Represents, V.Separator;
    NodeKeeps(c, n, V.Obj(ms));
    ObjectOpens(c.children[0], ms);
    hide ArrivedInside;
  }

  lemma ArrayBegun(c: Node, n: Node, vs: seq<V.Value>)
    requires CutOf(c, n) && Represents(n, V.Arr(vs)) && c.text != "" && c.children != [] && c.children[0].text != ""
    ensures var d := c.children[0]; var k := |d.children| - 1;
            && k < |vs| && "[" <= ToJson(c)
            && (k >= 0 ==> "[" + (V.PrintElements(vs[..k]) + V.Separator(k) + Arrived(d.children[k], vs[k]))
                           <= ToJson(c))
  {
    hide ToJson, V.PrintElements, Arrived, CutOf, Represents, V.Separator;
    NodeKeeps(c, n, V.Arr(vs));
    ArrayOpens(c.children[0], vs);
    hide ArrivedInside;
  }

  // The call that streams `city`: its value has come as far as `Par`.
  lemma CityExample()
    ensures var value := Node(ValueRule, "Par", [Node(StringRule, "Par", [Node(StringContent, "Par", [], true)], true)],
                              true);
            var key := Node(DictKey, "city", [Node(DictKeyName, "city", [], false)], false);
            var dict := Node(Dict, "{city", [Node(DictKv, "city:", [key, value], true)], true);
            ToJson(dict) == "{" + (Quote("city") + ":" + ("\"" + EscapeInner("Par")))
  {
    var content := Node(StringContent, "Par", [], true);
    var text := Node(StringRule, "Par", [content], true);
    var value := Node(ValueRule, "Par", [text], true);
    var name := Node(DictKeyName, "city", [], false);
    var key := Node(DictKey, "city", [name], false);
    var kv := Node(DictKv, "city:", [key, value], true);
    hide EscapeInner;
    assert ToJson(content) == EscapeInner("Par");
    assert ToJson(text) == "\"" + EscapeInner("Par");
    assert ToJson(value) == ToJson(text);
    assert ToJson(key) == Quote("city") + ":" by { assert ToJson(name) == "city"; }
    hide ToJson;
    assert ToJson(kv) == Joined(kv.children) by { KvJoins(kv); }
    JoinedTwo(key, value);
    PartialDict(kv);
  }

  lemma PartialDict(kv: Node)
    ensures ToJson(Node(Dict, "{city", [kv], true)) == "{" + ToJson(kv)
  {
    assert Listed([kv]) == ToJson(kv) by {
      hide ToJson;
      assert [kv][..0] == [] && Listed([]) == "";
    }
    hide Listed;
  }
}
