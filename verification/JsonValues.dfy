/** Compact JSON texts of values, and a reader for them (RFC 8259). */
module JsonValues {
  import opened Wrappers
  import opened JsonText

  // A value as a tool call carries it: numbers keep their spelling.
  datatype Value =
    | Number(text: string)
    | Bool(b: bool)
    | Null
    | Str(s: string)
    | Arr(elements: seq<Value>)
    | Obj(members: seq<Member>)

  datatype Member = Member(name: string, value: Value)

  // A value as a reader returns it: strings are code units.
  datatype Json =
    | JNumber(text: string)
    | JBool(b: bool)
    | JNull
    | JString(units: seq<nat>)
    | JArray(elements: seq<Json>)
    | JObject(members: seq<JMember>)

  datatype JMember = JMember(name: seq<nat>, value: Json)

  function Meaning(v: Value): Json {
    match v
    case Number(text) => JNumber(text)
    case Bool(b) => JBool(b)
    case Null => JNull
    case Str(s) => JString(CodeUnits(s))
    case Arr(vs) => JArray(Meanings(vs))
    case Obj(ms) => JObject(MemberMeanings(ms))
  }

  function Meanings(vs: seq<Value>): seq<Json> {
    if vs == [] then [] else [Meaning(vs[0])] + Meanings(vs[1..])
  }

  function MemberMeanings(ms: seq<Member>): seq<JMember> {
    if ms == [] then [] else [JMember(CodeUnits(ms[0].name), Meaning(ms[0].value))] + MemberMeanings(ms[1..])
  }

  // ---------- Numbers (section 6) ----------

  predicate IsDigit(c: char) {
    '0' <= c <= '9'
  }

  // Characters of numbers and of the three literal names.
  predicate IsScalarChar(c: char) {
    IsDigit(c) || 'a' <= c <= 'z' || 'A' <= c <= 'Z' || c == '-' || c == '+' || c == '.'
  }

  function DigitRun(s: string): (n: nat)
    ensures n <= |s| && forall i :: 0 <= i < n ==> IsDigit(s[i])
  {
    if s == "" || !IsDigit(s[0]) then 0 else 1 + DigitRun(s[1..])
  }

  predicate IsExponent(s: string) {
    s == "" ||
    ((s[0] == 'e' || s[0] == 'E')
     && var t := if |s| > 1 && (s[1] == '+' || s[1] == '-') then s[2..] else s[1..];
        t != "" && DigitRun(t) == |t|)
  }

  predicate IsFraction(s: string) {
    if s != "" && s[0] == '.' then
      var n := DigitRun(s[1..]);
      n > 0 && IsExponent(s[1 + n..])
    else IsExponent(s)
  }

  predicate IsNumber(s: string) {
    var t := if s != "" && s[0] == '-' then s[1..] else s;
    t != "" && IsDigit(t[0]) && IsFraction(if t[0] == '0' then t[1..] else t[DigitRun(t)..])
  }

  predicate AllScalar(s: string) {
    forall i :: 0 <= i < |s| ==> IsScalarChar(s[i])
  }

  lemma AllScalarJoin(s: string, k: nat)
    requires k <= |s| && AllScalar(s[..k]) && AllScalar(s[k..])
    ensures AllScalar(s)
  {
    assert s == s[..k] + s[k..];
  }

  lemma DigitsScalar(s: string, n: nat)
    requires n <= DigitRun(s)
    ensures AllScalar(s[..n])
  {
  }

  lemma ExponentChars(s: string)
    requires IsExponent(s)
    ensures AllScalar(s)
  {
    if s != "" {
      var k := if |s| > 1 && (s[1] == '+' || s[1] == '-') then 2 else 1;
      DigitsScalar(s[k..], |s| - k);
      assert s[k..][..|s| - k] == s[k..];
      AllScalarJoin(s, k);
    }
  }

  lemma FractionChars(s: string)
    requires IsFraction(s)
    ensures AllScalar(s)
  {
    hide IsExponent;
    if s != "" && s[0] == '.' {
      assert AllScalar(s[..1]);
      hide AllScalar;
      var n := DigitRun(s[1..]);
      DigitsScalar(s[1..], n);
      ExponentChars(s[1 + n..]);
      assert s[1..][n..] == s[1 + n..];
      AllScalarJoin(s[1..], n);
      AllScalarJoin(s, 1);
    } else {
      ExponentChars(s);
    }
  }

  lemma NumberChars(s: string)
    requires IsNumber(s)
    ensures s != "" && (s[0] == '-' || IsDigit(s[0]))
    ensures AllScalar(s)
  {
    var k := if s[0] == '-' then 1 else 0;
    assert AllScalar(s[..k]);
    hide IsFraction, AllScalar;
    var t := s[k..];
    var n := if t[0] == '0' then 1 else DigitRun(t);
    FractionChars(t[n..]);
    assert DigitRun(t) >= 1;
    DigitsScalar(t, n);
    AllScalarJoin(t, n);
    AllScalarJoin(s, k);
  }

  // ---------- Writing ----------

  ghost predicate WellFormed(v: Value) {
    match v
    case Number(text) => IsNumber(text)
    case Arr(vs) => forall i :: 0 <= i < |vs| ==> WellFormed(vs[i])
    case Obj(ms) => forall i :: 0 <= i < |ms| ==> WellFormed(ms[i].value)
    case _ => true
  }

  function Print(v: Value): string {
    match v
    case Number(text) => text
    case Bool(b) => if b then "true" else "false"
    case Null => "null"
    case Str(s) => Quote(s)
    case Arr(vs) => "[" + PrintElements(vs) + "]"
    case Obj(ms) => "{" + PrintMembers(ms) + "}"
  }

  function PrintElements(vs: seq<Value>): string {
    if vs == [] then ""
    else if |vs| == 1 then Print(vs[0])
    else Print(vs[0]) + "," + PrintElements(vs[1..])
  }

  function PrintMember(m: Member): string {
    Quote(m.name) + ":" + Print(m.value)
  }

  function PrintMembers(ms: seq<Member>): string {
    if ms == [] then ""
    else if |ms| == 1 then PrintMember(ms[0])
    else PrintMember(ms[0]) + "," + PrintMembers(ms[1..])
  }

  // The texts of lists, built from the end.
  function Separator(n: nat): string {
    if n > 0 then "," else ""
  }

  lemma PrintNothing()
    ensures PrintElements([]) == "" && PrintMembers([]) == ""
  {
  }

  lemma {:induction false} PrintElementsSnoc(vs: seq<Value>)
    requires vs != []
    ensures PrintElements(vs) == PrintElements(vs[..|vs| - 1]) + (Separator(|vs| - 1) + Print(vs[|vs| - 1]))
    decreases |vs|
  {
    PrintNothing();
    hide Print, PrintElements;
    var last := |vs| - 1;
    PrintElementsCons(vs);
    if last > 0 {
      PrintElementsSnoc(vs[1..]);
      PrintElementsCons(vs[..last]);
      assert vs[1..][..last - 1] == vs[..last][1..];
      Regroup(Print(vs[0]), PrintElements(vs[..last][1..]), Print(vs[last]), last - 1);
    }
  }

  lemma Regroup(first: string, middle: string, last: string, n: nat)
    requires n == 0 ==> middle == ""
    ensures first + (if n == 0 then "" else "," + middle) + ("," + last)
         == first + ("," + (middle + (Separator(n) + last)))
  {
    if n == 0 {
      assert middle + (Separator(n) + last) == last;
    } else {
      assert first + ("," + middle) + ("," + last) == first + ("," + (middle + ("," + last)));
    }
  }

  lemma PrintElementsCons(vs: seq<Value>)
    requires vs != []
    ensures PrintElements(vs) == Print(vs[0]) + (if |vs| == 1 then "" else "," + PrintElements(vs[1..]))
    ensures |vs| == 1 ==> PrintElements(vs[1..]) == ""
  {
    hide Print;
    if |vs| > 1 {
      assert Print(vs[0]) + "," + PrintElements(vs[1..]) == Print(vs[0]) + ("," + PrintElements(vs[1..]));
    } else {
      assert Print(vs[0]) + "" == Print(vs[0]);
    }
  }

  lemma {:induction false} PrintMembersSnoc(ms: seq<Member>)
    requires ms != []
    ensures PrintMembers(ms) == PrintMembers(ms[..|ms| - 1]) + (Separator(|ms| - 1) + PrintMember(ms[|ms| - 1]))
    decreases |ms|
  {
    PrintNothing();
    hide PrintMember, PrintMembers;
    var last := |ms| - 1;
    PrintMembersCons(ms);
    if last > 0 {
      PrintMembersSnoc(ms[1..]);
      PrintMembersCons(ms[..last]);
      assert ms[1..][..last - 1] == ms[..last][1..];
      Regroup(PrintMember(ms[0]), PrintMembers(ms[..last][1..]), PrintMember(ms[last]), last - 1);
    }
  }

  lemma PrintMembersCons(ms: seq<Member>)
    requires ms != []
    ensures PrintMembers(ms) == PrintMember(ms[0]) + (if |ms| == 1 then "" else "," + PrintMembers(ms[1..]))
    ensures |ms| == 1 ==> PrintMembers(ms[1..]) == ""
  {
    hide PrintMember;
    if |ms| > 1 {
      assert PrintMember(ms[0]) + "," + PrintMembers(ms[1..]) == PrintMember(ms[0]) + ("," + PrintMembers(ms[1..]));
    } else {
      assert PrintMember(ms[0]) + "" == PrintMember(ms[0]);
    }
  }

  lemma PrintMembersNonEmpty(ms: seq<Member>)
    requires ms != []
    ensures PrintMembers(ms) != ""
  {
  }

  // ---------- Reading ----------

  function ScalarRun(s: string): (n: nat)
    ensures n <= |s|
    ensures forall i :: 0 <= i < n ==> IsScalarChar(s[i])
    ensures n < |s| ==> !IsScalarChar(s[n])
  {
    if s == "" || !IsScalarChar(s[0]) then 0 else 1 + ScalarRun(s[1..])
  }

  function ReadScalar(token: string): Option<Json> {
    if token == "true" then Some(JBool(true))
    else if token == "false" then Some(JBool(false))
    else if token == "null" then Some(JNull)
    else if IsNumber(token) then Some(JNumber(token))
    else None
  }

  function Read(s: string): (r: Option<(Json, string)>)
    ensures r.Some? ==> |r.value.1| < |s|
    decreases |s|, 0
  {
    if s == "" then None
    else if s[0] == '"' then
      match StringBody(s[1..])
      case None => None
      case Some((units, rest)) => Some((JString(units), rest))
    else if s[0] == '[' then
      if |s| > 1 && s[1] == ']' then Some((JArray([]), s[2..]))
      else
        match ReadElements(s[1..])
        case None => None
        case Some((vs, rest)) => Some((JArray(vs), rest))
    else if s[0] == '{' then
      if |s| > 1 && s[1] == '}' then Some((JObject([]), s[2..]))
      else
        match ReadMembers(s[1..])
        case None => None
        case Some((ms, rest)) => Some((JObject(ms), rest))
    else
      var n := ScalarRun(s);
      match ReadScalar(s[..n])
      case None => None
      case Some(v) => if n == 0 then None else Some((v, s[n..]))
  }

  // The elements of an array up to its closing bracket.
  function ReadElements(s: string): (r: Option<(seq<Json>, string)>)
    ensures r.Some? ==> |r.value.1| < |s|
    decreases |s|, 1
  {
    match Read(s)
    case None => None
    case Some((v, rest)) =>
      if rest != "" && rest[0] == ']' then Some(([v], rest[1..]))
      else if rest != "" && rest[0] == ',' then
        match ReadElements(rest[1..])
        case None => None
        case Some((vs, rest1)) => Some(([v] + vs, rest1))
      else None
  }

  function ReadMember(s: string): (r: Option<(JMember, string)>)
    ensures r.Some? ==> |r.value.1| < |s|
    decreases |s|, 1
  {
    if s == "" || s[0] != '"' then None
    else
      match StringBody(s[1..])
      case None => None
      case Some((name, rest)) =>
        if rest == "" || rest[0] != ':' then None
        else
          match Read(rest[1..])
          case None => None
          case Some((v, rest1)) => Some((JMember(name, v), rest1))
  }

  function ReadMembers(s: string): (r: Option<(seq<JMember>, string)>)
    ensures r.Some? ==> |r.value.1| < |s|
    decreases |s|, 2
  {
    match ReadMember(s)
    case None => None
    case Some((m, rest)) =>
      if rest != "" && rest[0] == '}' then Some(([m], rest[1..]))
      else if rest != "" && rest[0] == ',' then
        match ReadMembers(rest[1..])
        case None => None
        case Some((ms, rest1)) => Some(([m] + ms, rest1))
      else None
  }

  // ---------- Round trip ----------

  // What may follow a value: nothing that could continue a number or a literal name.
  predicate Ends(rest: string) {
    rest == "" || !IsScalarChar(rest[0])
  }

  lemma ScalarRunAt(token: string, rest: string)
    requires Ends(rest) && AllScalar(token)
    ensures ScalarRun(token + rest) == |token|
  {
    hide ScalarRun;
    var s := token + rest;
    assert forall i :: 0 <= i < |token| ==> s[i] == token[i];
    assert rest != "" ==> s[|token|] == rest[0];
  }

  lemma ReadsScalar(token: string, v: Json, rest: string)
    requires token != "" && Ends(rest) && AllScalar(token)
    requires ReadScalar(token) == Some(v)
    ensures Read(token + rest) == Some((v, rest))
  {
    hide ScalarRun, ReadScalar, StringBody, ReadElements, ReadMembers;
    ScalarRunAt(token, rest);
    var s := token + rest;
    assert s[0] == token[0] && s[..|token|] == token && s[|token|..] == rest;
  }

  lemma ReadsString(str: string, rest: string)
    ensures Read(Quote(str) + rest) == Some((JString(CodeUnits(str)), rest))
  {
    hide StringBody, ReadElements, ReadMembers, EscapeInner;
    var s := Quote(str) + rest;
    assert s[1..] == EscapeInner(str) + "\"" + rest;
    QuoteRoundTrip(str, rest);
  }

  lemma PrintStart(v: Value)
    requires WellFormed(v)
    ensures Print(v) != "" && Print(v)[0] != ']' && Print(v)[0] != '}'
  {
    if v.Number? {
      NumberChars(v.text);
    }
  }

  lemma PrintElementsNonEmpty(vs: seq<Value>)
    requires vs != [] && WellFormed(vs[0])
    ensures PrintElements(vs) != ""
  {
    PrintStart(vs[0]);
  }

  lemma {:induction false} ReadPrinted(v: Value, rest: string)
    requires WellFormed(v) && Ends(rest)
    ensures Read(Print(v) + rest) == Some((Meaning(v), rest))
    decreases v, 0
  {
    hide Read, ReadElements, ReadMembers, PrintElements, PrintMembers, IsNumber;
    match v
    case Number(text) =>
      NumberChars(text);
      assert text[0] != 't' && text[0] != 'f' && text[0] != 'n';
      ReadsScalar(text, JNumber(text), rest);
    case Bool(b) =>
      ReadsScalar(if b then "true" else "false", JBool(b), rest);
    case Null =>
      ReadsScalar("null", JNull, rest);
    case Str(s) =>
      ReadsString(s, rest);
    case Arr(vs) =>
      ReadPrintedArray(vs, rest);
    case Obj(ms) =>
      ReadPrintedObject(ms, rest);
  }

  lemma ReadPrintedArray(vs: seq<Value>, rest: string)
    requires forall i :: 0 <= i < |vs| ==> WellFormed(vs[i])
    ensures Read("[" + PrintElements(vs) + "]" + rest) == Some((JArray(Meanings(vs)), rest))
    decreases vs, 1
  {
    hide ReadElements, ReadMembers, StringBody, WellFormed, Print;
    var s := "[" + PrintElements(vs) + "]" + rest;
    assert s[0] == '[';
    if vs == [] {
      assert s == "[]" + rest;
    } else {
      assert s[1..] == PrintElements(vs) + "]" + rest;
      ReadPrintedElements(vs, rest);
      PrintStart(vs[0]);
      assert PrintElements(vs) != "" && PrintElements(vs)[0] == Print(vs[0])[0];
      assert s[1] == Print(vs[0])[0];
    }
  }

  lemma {:induction false} ReadPrintedElements(vs: seq<Value>, rest: string)
    requires vs != [] && forall i :: 0 <= i < |vs| ==> WellFormed(vs[i])
    ensures ReadElements(PrintElements(vs) + "]" + rest) == Some((Meanings(vs), rest))
    decreases vs, 0
  {
    hide Read, Print, WellFormed;
    if |vs| == 1 {
      ReadPrinted(vs[0], "]" + rest);
      assert PrintElements(vs) + "]" + rest == Print(vs[0]) + ("]" + rest);
      assert ("]" + rest)[1..] == rest;
      assert Meanings(vs) == [Meaning(vs[0])] by { assert Meanings(vs[1..]) == []; }
    } else {
      var tail := PrintElements(vs[1..]) + "]" + rest;
      ReadPrinted(vs[0], "," + tail);
      ReadPrintedElements(vs[1..], rest);
      assert PrintElements(vs) + "]" + rest == Print(vs[0]) + ("," + tail);
      assert ("," + tail)[1..] == tail;
    }
  }

  lemma ReadPrintedObject(ms: seq<Member>, rest: string)
    requires forall i :: 0 <= i < |ms| ==> WellFormed(ms[i].value)
    ensures Read("{" + PrintMembers(ms) + "}" + rest) == Some((JObject(MemberMeanings(ms)), rest))
    decreases ms, 1
  {
    hide ReadElements, ReadMembers, StringBody, WellFormed, Print, EscapeInner;
    var s := "{" + PrintMembers(ms) + "}" + rest;
    assert s[0] == '{';
    if ms == [] {
      assert s == "{}" + rest;
    } else {
      assert s[1..] == PrintMembers(ms) + "}" + rest;
      ReadPrintedMembers(ms, rest);
      assert PrintMembers(ms) != "" && PrintMembers(ms)[0] == '"';
      assert s[1] == '"';
    }
  }

  lemma ReadPrintedMember(m: Member, rest: string)
    requires WellFormed(m.value) && Ends(rest)
    ensures ReadMember(PrintMember(m) + rest) == Some((JMember(CodeUnits(m.name), Meaning(m.value)), rest))
    decreases m, 1
  {
    hide Read, StringBody, WellFormed, Print, EscapeInner, Meaning;
    var s := PrintMember(m) + rest;
    var tail := ":" + Print(m.value) + rest;
    assert s[1..] == EscapeInner(m.name) + "\"" + tail;
    QuoteRoundTrip(m.name, tail);
    assert tail[1..] == Print(m.value) + rest;
    ReadPrinted(m.value, rest);
  }

  lemma {:induction false} ReadPrintedMembers(ms: seq<Member>, rest: string)
    requires ms != [] && forall i :: 0 <= i < |ms| ==> WellFormed(ms[i].value)
    ensures ReadMembers(PrintMembers(ms) + "}" + rest) == Some((MemberMeanings(ms), rest))
    decreases ms, 0
  {
    hide ReadMember, PrintMember, WellFormed, Meaning;
    if |ms| == 1 {
      ReadPrintedMember(ms[0], "}" + rest);
      assert PrintMembers(ms) + "}" + rest == PrintMember(ms[0]) + ("}" + rest);
      assert ("}" + rest)[1..] == rest;
      assert MemberMeanings(ms) == [JMember(CodeUnits(ms[0].name), Meaning(ms[0].value))] by {
        assert MemberMeanings(ms[1..]) == [];
      }
    } else {
      var tail := PrintMembers(ms[1..]) + "}" + rest;
      ReadPrintedMember(ms[0], "," + tail);
      ReadPrintedMembers(ms[1..], rest);
      assert PrintMembers(ms) + "}" + rest == PrintMember(ms[0]) + ("," + tail);
      assert ("," + tail)[1..] == tail;
    }
  }

  // The text of a value reads back as that value, with nothing left over.
  lemma PrintReads(v: Value)
    requires WellFormed(v)
    ensures Read(Print(v)) == Some((Meaning(v), ""))
  {
    ReadPrinted(v, "");
    assert Print(v) + "" == Print(v);
  }
}
