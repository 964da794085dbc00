/** JSON string literals (RFC 8259, section 7), as the serializer writes them and as a reader takes them. */
module JsonText {
  import opened Wrappers

  const BACKSPACE: char := 8 as char
  const FORM_FEED: char := 12 as char

  // ---------- Writing ----------

  function HexDigit(n: nat): (c: char)
    requires n < 16
    ensures HexValue(c) == Some(n)
  {
    if n < 10 then '0' + n as char else 'a' + (n - 10) as char
  }

  function HexValue(c: char): Option<nat> {
    if '0' <= c <= '9' then Some(c as nat - '0' as nat)
    else if 'a' <= c <= 'f' then Some(c as nat - 'a' as nat + 10)
    else if 'A' <= c <= 'F' then Some(c as nat - 'A' as nat + 10)
    else None
  }

  function EscapeChar(c: char): string {
    if c == BACKSPACE then "\\b"
    else if c == '\t' then "\\t"
    else if c == '\n' then "\\n"
    else if c == FORM_FEED then "\\f"
    else if c == '\r' then "\\r"
    else if c == '"' then "\\\""
    else if c == '\\' then "\\\\"
    else if c as nat <= 0x1F then ['\\', 'u', '0', '0', HexDigit(c as nat / 16), HexDigit(c as nat % 16)]
    else [c]
  }

  // The inside of the string literal for `s`, without the quotes.
  function EscapeInner(s: string): string {
    if s == "" then "" else EscapeChar(s[0]) + EscapeInner(s[1..])
  }

  function Quote(s: string): string {
    "\"" + EscapeInner(s) + "\""
  }

  lemma EscapeNothing()
    ensures EscapeInner("") == ""
  {
  }

  lemma {:induction false} EscapeAppend(x: string, y: string)
    ensures EscapeInner(x + y) == EscapeInner(x) + EscapeInner(y)
  {
    if x == "" {
      assert x + y == y;
    } else {
      assert (x + y)[1..] == x[1..] + y;
      EscapeAppend(x[1..], y);
    }
  }

  // Cutting a string short cuts its escaped form short: streamed pieces only ever extend.
  lemma EscapePrefix(x: string, y: string)
    requires x <= y
    ensures EscapeInner(x) <= EscapeInner(y)
  {
    assert y == x + y[|x|..];
    EscapeAppend(x, y[|x|..]);
  }

  // ---------- Reading ----------

  function CodeUnits(s: string): (units: seq<nat>)
    ensures |units| == |s| && forall i :: 0 <= i < |s| ==> units[i] == s[i] as nat
  {
    if s == "" then [] else [s[0] as nat] + CodeUnits(s[1..])
  }

  // The two-character escapes; `\u` is not one of them.
  function SimpleEscape(e: char): Option<nat> {
    if e == '"' || e == '\\' || e == '/' then Some(e as nat)
    else if e == 'b' then Some(BACKSPACE as nat)
    else if e == 'f' then Some(FORM_FEED as nat)
    else if e == 'n' then Some('\n' as nat)
    else if e == 'r' then Some('\r' as nat)
    else if e == 't' then Some('\t' as nat)
    else None
  }

  // The code unit spelled by the four hexadecimal digits in front of `s`.
  function Hex4(s: string): (r: Option<nat>)
    ensures r.Some? ==> |s| >= 4
  {
    if |s| < 4 then None
    else
      match (HexValue(s[0]), HexValue(s[1]), HexValue(s[2]), HexValue(s[3]))
      case (Some(a), Some(b), Some(c), Some(d)) => Some(((a * 16 + b) * 16 + c) * 16 + d)
      case _ => None
  }

  function Prepend(unit: nat, r: Option<(seq<nat>, string)>): Option<(seq<nat>, string)> {
    match r
    case None => None
    case Some((units, rest)) => Some(([unit] + units, rest))
  }

  // Reads a string literal after its opening quote: the code units, and the text after the closing quote.
  function StringBody(s: string): (r: Option<(seq<nat>, string)>)
    ensures r.Some? ==> |r.value.1| < |s|
  {
    if s == "" then None
    else if s[0] == '"' then Some(([], s[1..]))
    else if s[0] == '\\' then
      if |s| < 2 then None
      else if s[1] == 'u' then
        match Hex4(s[2..])
        case None => None
        case Some(unit) => Prepend(unit, StringBody(s[6..]))
      else
        match SimpleEscape(s[1])
        case None => None
        case Some(unit) => Prepend(unit, StringBody(s[2..]))
    else if s[0] as nat <= 0x1F then None
    else Prepend(s[0] as nat, StringBody(s[1..]))
  }

  lemma EscapedCharReads(c: char, rest: string)
    ensures StringBody(EscapeChar(c) + rest) == Prepend(c as nat, StringBody(rest))
  {
    var e := EscapeChar(c);
    var s := e + rest;
    assert s[|e|..] == rest;
    if c as nat <= 0x1F && e[1] == 'u' {
      var digits := s[2..];
      assert digits[0] == '0' && digits[1] == '0' && digits[2] == e[4] && digits[3] == e[5];
      assert HexValue('0') == Some(0);
      assert Hex4(digits) == Some(c as nat);
    }
  }

  // Reading what was written returns the string, and exactly what followed it.
  lemma {:induction false} QuoteRoundTrip(s: string, rest: string)
    ensures StringBody(EscapeInner(s) + "\"" + rest) == Some((CodeUnits(s), rest))
  {
    if s == "" {
      assert EscapeInner(s) + "\"" + rest == "\"" + rest;
      assert ("\"" + rest)[1..] == rest;
    } else {
      var tail := EscapeInner(s[1..]) + "\"" + rest;
      assert EscapeInner(s) + "\"" + rest == EscapeChar(s[0]) + tail;
      QuoteRoundTrip(s[1..], rest);
      EscapedCharReads(s[0], tail);
    }
  }

  // ---------- Brace counting ----------

  datatype Scan = Scan(depth: int, inString: bool, escaped: bool)

  const OUTSIDE := Scan(0, false, false)

  function ScanChar(t: Scan, c: char): Scan {
    if t.escaped then t.(escaped := false)
    else if c == '\\' && t.inString then t.(escaped := true)
    else if c == '"' then t.(inString := !t.inString)
    else if t.inString then t
    else if c == '{' then t.(depth := t.depth + 1)
    else if c == '}' then t.(depth := t.depth - 1)
    else t
  }

  function ScanText(t: Scan, s: string): Scan
    decreases |s|
  {
    if s == "" then t else ScanText(ScanChar(t, s[0]), s[1..])
  }

  lemma {:induction false} ScanAppend(t: Scan, x: string, y: string)
    ensures ScanText(t, x + y) == ScanText(ScanText(t, x), y)
    decreases |x|
  {
    if x == "" {
      assert x + y == y;
    } else {
      assert (x + y)[1..] == x[1..] + y;
      ScanAppend(ScanChar(t, x[0]), x[1..], y);
    }
  }

  function Occurrences(c: char, s: string): nat {
    if s == "" then 0 else (if s[0] == c then 1 else 0) + Occurrences(c, s[1..])
  }

  // Without quotes the depth is what the opening braces have over the closing ones.
  lemma {:induction false} DepthCounts(depth: int, s: string)
    requires '"' !in s
    ensures ScanText(Scan(depth, false, false), s)
         == Scan(depth + Occurrences('{', s) - Occurrences('}', s), false, false)
    decreases |s|
  {
    if s != "" {
      DepthCounts(ScanChar(Scan(depth, false, false), s[0]).depth, s[1..]);
    }
  }

  method JsonBraceDepth(s: string) returns (depth: int)
    ensures depth == ScanText(OUTSIDE, s).depth
  {
    depth := 0;
    var inString := false;
    var escaped := false;
    for i := 0 to |s|
      invariant ScanText(OUTSIDE, s) == ScanText(Scan(depth, inString, escaped), s[i..])
    {
      var c := s[i];
      if escaped {
        escaped := false;
        continue;
      }
      if c == '\\' && inString {
        escaped := true;
        continue;
      }
      if c == '"' {
        inString := !inString;
        continue;
      }
      if !inString {
        if c == '{' {
          depth := depth + 1;
        } else if c == '}' {
          depth := depth - 1;
        }
      }
    }
  }

  lemma EscapedCharScans(depth: int, c: char)
    ensures ScanText(Scan(depth, true, false), EscapeChar(c)) == Scan(depth, true, false)
  {
    var t := Scan(depth, true, false);
    var e := EscapeChar(c);
    if |e| == 1 {
      assert ScanText(t, e) == ScanText(ScanChar(t, e[0]), e[1..]);
    } else if |e| == 2 {
      ScanAppend(t, e[..1], e[1..]);
      assert e == e[..1] + e[1..];
    } else {
      ScanSix(t, e);
    }
  }

  lemma ScanSix(t: Scan, e: string)
    requires t.inString && !t.escaped && |e| == 6 && e[0] == '\\'
    requires forall i :: 2 <= i < 6 ==> e[i] != '"' && e[i] != '\\'
    ensures ScanText(t, e) == t
  {
    assert e == [e[0]] + ([e[1]] + ([e[2]] + ([e[3]] + ([e[4]] + [e[5]]))));
    ScanOne(t, e[0], [e[1]] + ([e[2]] + ([e[3]] + ([e[4]] + [e[5]]))));
    ScanOne(t.(escaped := true), e[1], [e[2]] + ([e[3]] + ([e[4]] + [e[5]])));
    ScanOne(t, e[2], [e[3]] + ([e[4]] + [e[5]]));
    ScanOne(t, e[3], [e[4]] + [e[5]]);
    ScanOne(t, e[4], [e[5]]);
    ScanOne(t, e[5], "");
    assert [e[5]] + "" == [e[5]];
  }

  lemma ScanOne(t: Scan, c: char, rest: string)
    ensures ScanText(t, [c] + rest) == ScanText(ScanChar(t, c), rest)
  {
    assert ([c] + rest)[1..] == rest;
  }

  lemma {:induction false} EscapedScans(depth: int, s: string)
    ensures ScanText(Scan(depth, true, false), EscapeInner(s)) == Scan(depth, true, false)
  {
    if s != "" {
      EscapedCharScans(depth, s[0]);
      EscapedScans(depth, s[1..]);
      ScanAppend(Scan(depth, true, false), EscapeChar(s[0]), EscapeInner(s[1..]));
    }
  }

  // A string literal never changes the brace depth, whatever braces or quotes the string holds.
  lemma QuoteScans(depth: int, s: string)
    ensures ScanText(Scan(depth, false, false), Quote(s)) == Scan(depth, false, false)
  {
    var t := Scan(depth, false, false);
    ScanAppend(t, "\"", EscapeInner(s) + "\"");
    assert Quote(s) == "\"" + (EscapeInner(s) + "\"");
    ScanAppend(t.(inString := true), EscapeInner(s), "\"");
    EscapedScans(depth, s);
  }
}
