/** What quote normalisation preserves: the tokens of a Python value, read again as JSON. */
module ValueTokens {
  import opened Wrappers
  import opened JsonText
  import opened QuoteNormalizer

  // A string by its code units, one of the three constants by its JSON spelling, another word, or a character.
  datatype Token = Text(units: seq<nat>) | Constant(name: string) | Word(text: string) | Mark(c: char)

  // ---------- Reading Python ----------

  // The escapes that Python and JSON share.
  predicate IsSharedEscape(e: char) {
    e == '"' || e == '\\' || e == 'b' || e == 'f' || e == 'n' || e == 'r' || e == 't'
  }

  // A Python string after its opening quote: the code units, and the text after the closing
  // quote. Of the escapes that JSON lacks only `\'` is read; `strict` refuses it between double quotes.
  function PythonBody(quote: char, strict: bool, s: string): (r: Option<(seq<nat>, string)>)
    ensures r.Some? ==> |r.value.1| < |s|
  {
    if s == "" then None
    else if s[0] == quote then Some(([], s[1..]))
    else if s[0] == '\\' then
      if |s| < 2 then None
      else if s[1] == '\'' then
        if strict && quote == '"' then None else Prepend('\'' as nat, PythonBody(quote, strict, s[2..]))
      else if s[1] == 'u' then
        match Hex4(s[2..])
        case None => None
        case Some(unit) => Prepend(unit, PythonBody(quote, strict, s[6..]))
      else if IsSharedEscape(s[1]) then Prepend(SimpleEscape(s[1]).value, PythonBody(quote, strict, s[2..]))
      else None
    else if s[0] as nat <= 0x1F then None
    else Prepend(s[0] as nat, PythonBody(quote, strict, s[1..]))
  }

  // Python has no `true`, `false` or `null`, and no value is spelled by a part of its constants.
  function PythonWord(w: string): Option<Token> {
    if w == "True" || w == "False" || w == "None" then Some(Constant(Literal(w).value))
    else if Literal(w).Some? || w == "true" || w == "false" || w == "null" then None
    else Some(Word(w))
  }

  function PrependToken(t: Token, r: Option<seq<Token>>): Option<seq<Token>> {
    match r
    case None => None
    case Some(ts) => Some([t] + ts)
  }

  function PythonTokens(strict: bool, s: string): Option<seq<Token>>
    decreases |s|
  {
    if s == "" then Some([])
    else if s[0] == '"' || s[0] == '\'' then
      match PythonBody(s[0], strict, s[1..])
      case None => None
      case Some((units, rest)) => PrependToken(Text(units), PythonTokens(strict, rest))
    else if IsWordChar(s[0]) then
      match PythonWord(s[..WordLength(s)])
      case None => None
      case Some(t) => PrependToken(t, PythonTokens(strict, s[WordLength(s)..]))
    else PrependToken(Mark(s[0]), PythonTokens(strict, s[1..]))
  }

  // ---------- Reading JSON ----------

  function JsonWord(w: string): Token {
    if w == "true" || w == "false" || w == "null" then Constant(w) else Word(w)
  }

  function JsonTokens(s: string): Option<seq<Token>>
    decreases |s|
  {
    if s == "" then Some([])
    else if s[0] == '"' then
      match StringBody(s[1..])
      case None => None
      case Some((units, rest)) => PrependToken(Text(units), JsonTokens(rest))
    else if s[0] == '\'' then None
    else if IsWordChar(s[0]) then PrependToken(JsonWord(s[..WordLength(s)]), JsonTokens(s[WordLength(s)..]))
    else PrependToken(Mark(s[0]), JsonTokens(s[1..]))
  }

  // ---------- Strings ----------

  function QuoteOf(mode: Mode): char
    requires mode != Outside
  {
    if mode == Single then '\'' else '"'
  }

  // What the JSON reader finds in the normal form of a string body.
  function NormalBody(r: Option<(seq<nat>, string)>): Option<(seq<nat>, string)> {
    match r
    case None => None
    case Some((units, rest)) => Some((units, Norm(Outside, false, rest)))
  }

  lemma HexDigitsCopied(mode: Mode, s: string)
    requires mode != Outside && Hex4(s).Some?
    ensures |Norm(mode, false, s)| >= 4 && Norm(mode, false, s)[4..] == Norm(mode, false, s[4..])
    ensures Hex4(Norm(mode, false, s)) == Hex4(s)
  {
    hide Norm;
    var a, b, c, d := s[0], s[1], s[2], s[3];
    var rest := s[4..];
    assert s == [a] + ([b] + ([c] + ([d] + rest)));
    NormCopies(mode, false, a, [b] + ([c] + ([d] + rest)));
    NormCopies(mode, false, b, [c] + ([d] + rest));
    NormCopies(mode, false, c, [d] + rest);
    NormCopies(mode, false, d, rest);
    assert Norm(mode, false, s) == s[..4] + Norm(mode, false, rest);
  }

  lemma ReadsClose(x: string)
    ensures StringBody("\"" + x) == Some(([], x))
  {
    assert ("\"" + x)[1..] == x;
  }

  lemma ReadsChar(c: char, x: string)
    requires c != '"' && c != '\\' && c as nat > 0x1F
    ensures StringBody([c] + x) == Prepend(c as nat, StringBody(x))
  {
    assert ([c] + x)[1..] == x;
  }

  lemma ReadsEscape(e: char, x: string)
    requires e != 'u'
    ensures StringBody(['\\', e] + x)
         == if SimpleEscape(e).Some? then Prepend(SimpleEscape(e).value, StringBody(x)) else None
  {
    assert (['\\', e] + x)[2..] == x;
  }

  lemma ReadsUnicode(x: string)
    ensures StringBody("\\u" + x) == if Hex4(x).Some? then Prepend(Hex4(x).value, StringBody(x[4..])) else None
  {
    hide Hex4;
    assert ("\\u" + x)[2..] == x;
    assert Hex4(x).Some? ==> ("\\u" + x)[6..] == x[4..];
  }

  // The Python reading of a body says what stands in front of it.
  predicate Readable(quote: char, s: string) {
    && s != "" && (s[0] as nat > 0x1F || s[0] == quote)
    && (s[0] == '\\' ==> |s| >= 2 && (s[1] == '\'' || (s[1] == 'u' && Hex4(s[2..]).Some?) || IsSharedEscape(s[1])))
  }

  function BodyStep(quote: char, strict: bool, s: string): Option<(seq<nat>, string)>
    requires Readable(quote, s)
  {
    if s[0] == quote then Some(([], s[1..]))
    else if s[0] != '\\' then Prepend(s[0] as nat, PythonBody(quote, strict, s[1..]))
    else if s[1] == '\'' then
      if strict && quote == '"' then None else Prepend('\'' as nat, PythonBody(quote, strict, s[2..]))
    else if s[1] == 'u' then Prepend(Hex4(s[2..]).value, PythonBody(quote, strict, s[6..]))
    else Prepend(SimpleEscape(s[1]).value, PythonBody(quote, strict, s[2..]))
  }

  lemma PythonBodyStep(quote: char, strict: bool, s: string)
    requires quote == '"' || quote == '\''
    ensures PythonBody(quote, strict, s).Some? ==> Readable(quote, s)
    ensures Readable(quote, s) ==> PythonBody(quote, strict, s) == BodyStep(quote, strict, s)
  {
    hide Hex4;
  }

  // The strict Python reading of a body and the JSON reading of its normal form are the same.
  lemma {:induction false} BodyPreserved(mode: Mode, s: string)
    requires mode != Outside
    requires PythonBody(QuoteOf(mode), false, s).Some?
    ensures StringBody(Norm(mode, false, s)) == NormalBody(PythonBody(QuoteOf(mode), true, s))
    ensures PythonBody(QuoteOf(mode), true, s).Some? ==>
              PythonBody(QuoteOf(mode), true, s) == PythonBody(QuoteOf(mode), false, s)
    decreases |s|
  {
    hide Norm, Hex4, StringBody, PythonBody, WordLength, Literal;
    PythonBodyStep(QuoteOf(mode), false, s);
    PythonBodyStep(QuoteOf(mode), true, s);
    var t := Next(mode, false, s);
    NormStep(mode, false, s);
    var rest := Norm(t.mode, false, s[t.taken..]);
    assert !t.afterWord;
    if s[0] == QuoteOf(mode) {
      ReadsClose(rest);
    } else if s[0] == '\\' && s[1] == 'u' {
      HexDigitsCopied(mode, s[2..]);
      ReadsUnicode(rest);
      assert s[2..][4..] == s[6..];
      BodyPreserved(mode, s[6..]);
    } else {
      BodyPreserved(mode, s[t.taken..]);
      if |t.out| == 1 {
        ReadsChar(t.out[0], rest);
      } else {
        ReadsEscape(t.out[1], rest);
      }
    }
  }

  // ---------- Whole values ----------

  lemma NormFront(s: string)
    requires s != "" && !IsWordChar(s[0])
    ensures Norm(Outside, false, s)
         == if s[0] == '"' then "\"" + Norm(Double, false, s[1..])
            else if s[0] == '\'' then "\"" + Norm(Single, false, s[1..])
            else [s[0]] + Norm(Outside, false, s[1..])
  {
    hide WordLength, Literal, Norm;
    NormStep(Outside, false, s);
    NormEmpty(Outside, false);
  }

  lemma JsonWordFront(w: string, rest: string)
    requires w != "" && forall i :: 0 <= i < |w| ==> IsWordChar(w[i])
    requires rest == "" || !IsWordChar(rest[0])
    ensures JsonTokens(w + rest) == PrependToken(JsonWord(w), JsonTokens(rest))
  {
    hide WordLength, StringBody, JsonWord;
    WordLengthAt(w, rest);
    assert (w + rest)[..|w|] == w && (w + rest)[|w|..] == rest && (w + rest)[0] == w[0];
  }

  lemma JsonMarkFront(c: char, rest: string)
    requires c != '"' && c != '\'' && !IsWordChar(c)
    ensures JsonTokens([c] + rest) == PrependToken(Mark(c), JsonTokens(rest))
  {
    hide WordLength, StringBody;
    assert ([c] + rest)[1..] == rest;
  }

  lemma JsonStringFront(x: string)
    ensures JsonTokens("\"" + x)
         == match StringBody(x)
            case None => None
            case Some((units, rest)) => PrependToken(Text(units), JsonTokens(rest))
  {
    hide WordLength, StringBody;
    assert ("\"" + x)[1..] == x;
  }

  lemma PythonWordPreserved(w: string)
    requires w != "" && PythonWord(w).Some?
    ensures JsonWord(WordImage(w)) == PythonWord(w).value
  {
  }

  // Whatever Python reads, JSON reads from the normal form in the same way, as far as the
  // strict reading goes; where the strict reading fails, so does JSON.
  lemma {:induction false} TokensPreserved(s: string)
    requires PythonTokens(false, s).Some?
    ensures JsonTokens(Norm(Outside, false, s)) == PythonTokens(true, s)
    ensures PythonTokens(true, s).Some? ==> PythonTokens(true, s) == PythonTokens(false, s)
    decreases |s|
  {
    assert JsonTokens("") == Some([]);
    hide Norm, JsonTokens, StringBody, PythonBody, PythonWord, JsonWord, WordLength, Literal;
    if s == "" {
      NormEmpty(Outside, false);
    } else if IsWordChar(s[0]) {
      var n := WordLength(s);
      var w, rest := s[..n], s[n..];
      assert s == w + rest;
      NormWord(w, rest);
      AfterWordIrrelevant(rest);
      TokensPreserved(rest);
      PythonWordPreserved(w);
      LiteralStart(w);
      JsonWordFront(WordImage(w), Norm(Outside, false, rest));
    } else if s[0] == '"' || s[0] == '\'' {
      StringPreserved(s);
    } else {
      NormFront(s);
      TokensPreserved(s[1..]);
      JsonMarkFront(s[0], Norm(Outside, false, s[1..]));
    }
  }

  lemma StringPreserved(s: string)
    requires s != "" && (s[0] == '"' || s[0] == '\'') && PythonTokens(false, s).Some?
    ensures JsonTokens(Norm(Outside, false, s)) == PythonTokens(true, s)
    ensures PythonTokens(true, s).Some? ==> PythonTokens(true, s) == PythonTokens(false, s)
    decreases |s|, 0
  {
    hide Norm, JsonTokens, StringBody, PythonBody, PythonWord, WordLength, Literal;
    var mode := if s[0] == '"' then Double else Single;
    NormFront(s);
    BodyPreserved(mode, s[1..]);
    JsonStringFront(Norm(mode, false, s[1..]));
    TokensPreserved(PythonBody(s[0], false, s[1..]).value.1);
  }

  // On every value that Python reads, normalisation preserves the tokens exactly when no
  // double-quoted string escapes a single quote; otherwise the result is no JSON at all.
  lemma NormalizationPreservesTokens(s: string)
    requires PythonTokens(false, s).Some?
    ensures JsonTokens(Normalized(s)) == PythonTokens(false, s) <==> PythonTokens(true, s).Some?
    ensures PythonTokens(true, s).None? ==> JsonTokens(Normalized(s)).None?
  {
    TokensPreserved(s);
  }

  // A value on which normalisation goes wrong: an escaped single quote between double quotes.
  lemma DoubleQuotedTickFails()
    ensures PythonTokens(false, "\"\\'\"").Some?
    ensures JsonTokens(Normalized("\"\\'\"")).None?
  {
    hide Norm, Normalized, JsonTokens, WordLength, PythonBody;
    var s := "\"\\'\"";
    var body := ['\\', '\'', '"'];
    assert s[1..] == body;
    assert body[2..] == ['"'];
    PythonBodyStep('"', false, ['"']);
    PythonBodyStep('"', false, body);
    PythonBodyStep('"', true, body);
    assert ['"'][1..] == "" && PythonTokens(false, "") == Some([]);
    assert PythonTokens(false, s).Some? && PythonTokens(true, s).None?;
    NormalizationPreservesTokens(s);
  }
}
