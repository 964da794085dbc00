/** Rewriting of Python-style values to JSON: string quotes and the literals True, False and None. */
module QuoteNormalizer {
  import opened Wrappers

  // Where the scan stands: outside strings, or inside a string opened by one of the two quotes.
  datatype Mode = Outside | Single | Double

  predicate IsWordChar(c: char) {
    'a' <= c <= 'z' || 'A' <= c <= 'Z' || '0' <= c <= '9' || c == '_'
  }

  // The length of the run of word characters in front of `s`.
  function WordLength(s: string): (n: nat)
    ensures n <= |s|
    ensures forall i :: 0 <= i < n ==> IsWordChar(s[i])
    ensures n < |s| ==> !IsWordChar(s[n])
  {
    if s == "" || !IsWordChar(s[0]) then 0 else 1 + WordLength(s[1..])
  }

  // What a word that begins a Python literal becomes: as much of the JSON literal.
  function Literal(word: string): (js: Option<string>)
    ensures js.Some? ==> |js.value| == |word|
  {
    if word <= "True" then Some("true"[..|word|])
    else if word <= "False" then Some("false"[..|word|])
    else if word <= "None" then Some("null"[..|word|])
    else None
  }

  predicate BeginsLiteral(mode: Mode, afterWord: bool, c: char) {
    mode == Outside && !afterWord && (c == 'T' || c == 'F' || c == 'N')
  }

  // One step of the scan: what is written, how much is read, and where the scan stands then.
  datatype Step = Step(out: string, taken: nat, mode: Mode, afterWord: bool)

  // `afterWord` tells, outside strings, whether the character before `s` belongs to a word.
  function Next(mode: Mode, afterWord: bool, s: string): (t: Step)
    requires s != ""
    ensures 1 <= t.taken <= |s| && t.out != ""
  {
    var c := s[0];
    if c == '\\' && |s| > 1 then
      match mode
      case Single => Step(if s[1] == '\'' then "'" else [c, s[1]], 2, Single, false)
      case Double => Step([c, s[1]], 2, Double, false)
      case Outside => Step([c], 1, Outside, false)
    else if c == '"' then
      match mode
      case Single => Step("\\\"", 1, Single, false)
      case Double => Step("\"", 1, Outside, false)
      case Outside => Step("\"", 1, Double, false)
    else if c == '\'' then
      match mode
      case Single => Step("\"", 1, Outside, false)
      case Double => Step("'", 1, Double, false)
      case Outside => Step("\"", 1, Single, false)
    else if BeginsLiteral(mode, afterWord, c) && Literal(s[..WordLength(s)]).Some? then
      Step(Literal(s[..WordLength(s)]).value, WordLength(s), Outside, true)
    else
      Step([c], 1, mode, mode == Outside && IsWordChar(c))
  }

  // The normal form of `s`, read in `mode`.
  function Norm(mode: Mode, afterWord: bool, s: string): string
    decreases |s|
  {
    if s == "" then ""
    else
      var t := Next(mode, afterWord, s);
      t.out + Norm(t.mode, t.afterWord, s[t.taken..])
  }

  function Normalized(s: string): string {
    Norm(Outside, false, s)
  }

  predicate AfterWord(input: string, i: nat)
    requires i <= |input|
  {
    i > 0 && IsWordChar(input[i - 1])
  }

  // What is still to be written when `i` characters have been read.
  function Pending(input: string, mode: Mode, i: nat): string
    requires i <= |input|
  {
    Norm(mode, mode == Outside && AfterWord(input, i), input[i..])
  }

  function NextAt(input: string, mode: Mode, i: nat): Step
    requires i < |input|
  {
    Next(mode, mode == Outside && AfterWord(input, i), input[i..])
  }

  lemma PendingStep(input: string, mode: Mode, i: nat)
    requires i < |input|
    ensures var t := NextAt(input, mode, i);
            i + t.taken <= |input| && t.taken >= 1
                && Pending(input, mode, i) == t.out + Pending(input, t.mode, i + t.taken)
  {
    var t := NextAt(input, mode, i);
    assert input[i..][t.taken..] == input[i + t.taken..];
    assert input[i..][t.taken - 1] == input[i + t.taken - 1];
    assert t.afterWord == (t.mode == Outside && AfterWord(input, i + t.taken));
  }

  // The word at position `i`, and the JSON literal it stands for, if any.
  method LiteralAt(input: string, i: nat) returns (n: nat, literal: Option<string>)
    requires i < |input|
    ensures n == WordLength(input[i..])
    ensures literal == Literal(input[i..][..n])
  {
    n := 0;
    while i + n < |input| && IsWordChar(input[i + n])
      invariant i + n <= |input|
      invariant forall k :: 0 <= k < n ==> IsWordChar(input[i..][k])
    {
      assert input[i..][n] == input[i + n];
      n := n + 1;
    }
    assert i + n < |input| ==> input[i..][n] == input[i + n];
    var token := input[i..i + n];
    assert token == input[i..][..n];
    literal := Literal(token);
  }

  // The step at position `i`, in terms of the whole input.
  lemma StepCases(input: string, mode: Mode, i: nat)
    requires i < |input|
    ensures var t, c := NextAt(input, mode, i), input[i];
            if c == '\\' && i + 1 < |input| then
              match mode
              case Single =>
                t.mode == Single && t.taken == 2 && t.out == if input[i + 1] == '\'' then "'" else [c, input[i + 1]]
              case Double => t.mode == Double && t.taken == 2 && t.out == [c, input[i + 1]]
              case Outside => t.mode == Outside && t.taken == 1 && t.out == [c]
            else if c == '"' then
              t.taken == 1 && t.out == (if mode == Single then "\\\"" else "\"")
              && t.mode == (if mode == Single then Single else if mode == Double then Outside else Double)
            else if c == '\'' then
              t.taken == 1 && t.out == (if mode == Double then "'" else "\"")
              && t.mode == (if mode == Double then Double else if mode == Single then Outside else Single)
            else if BeginsLiteral(mode, AfterWord(input, i), c)
                    && Literal(input[i..][..WordLength(input[i..])]).Some? then
              t.mode == Outside && t.taken == WordLength(input[i..])
              && t.out == Literal(input[i..][..WordLength(input[i..])]).value
            else t.mode == mode && t.taken == 1 && t.out == [c]
  {
    hide Literal, WordLength;
    assert input[i..][0] == input[i] && (i + 1 < |input| ==> input[i..][1] == input[i + 1]);
  }

  lemma PendingEnd(input: string, mode: Mode)
    ensures Pending(input, mode, |input|) == ""
  {
  }

  function ModeOf(inSingleQuoted: bool, inDoubleQuoted: bool): Mode {
    if inSingleQuoted then Single else if inDoubleQuoted then Double else Outside
  }

  // One round of the conversion: the piece to append, and the updated position and quote state.
  method Convert(input: string, i: nat, inSingleQuoted: bool, inDoubleQuoted: bool)
    returns (piece: string, i': nat, inSingleQuoted': bool, inDoubleQuoted': bool)
    requires i < |input| && !(inSingleQuoted && inDoubleQuoted)
    ensures !(inSingleQuoted' && inDoubleQuoted')
    ensures var t := NextAt(input, ModeOf(inSingleQuoted, inDoubleQuoted), i);
            piece == t.out && i' == i + t.taken && ModeOf(inSingleQuoted', inDoubleQuoted') == t.mode
  {
    hide NextAt, Literal, WordLength;
    StepCases(input, ModeOf(inSingleQuoted, inDoubleQuoted), i);
    inSingleQuoted', inDoubleQuoted' := inSingleQuoted, inDoubleQuoted;
    var c := input[i];
    if c == '\\' && i + 1 < |input| {
      var next := input[i + 1];
      if inSingleQuoted {
        if next == '\'' {
          return "'", i + 2, inSingleQuoted', inDoubleQuoted';
        }
        if next == '"' {
          return "\\\"", i + 2, inSingleQuoted', inDoubleQuoted';
        }
        return [c, next], i + 2, inSingleQuoted', inDoubleQuoted';
      }
      if inDoubleQuoted {
        return [c, next], i + 2, inSingleQuoted', inDoubleQuoted';
      }
      return [c], i + 1, inSingleQuoted', inDoubleQuoted';
    }
    piece, i' := [c], i + 1;
    if c == '"' {
      if inSingleQuoted {
        piece := "\\\"";
      } else {
        inDoubleQuoted' := !inDoubleQuoted;
      }
    } else if c == '\'' {
      if !inDoubleQuoted {
        inSingleQuoted' := !inSingleQuoted;
        piece := "\"";
      }
    } else if !inSingleQuoted && !inDoubleQuoted && (c == 'T' || c == 'F' || c == 'N')
              && (i == 0 || !IsWordChar(input[i - 1])) {
      var n, literal := LiteralAt(input, i);
      if literal.Some? {
        piece := literal.value;
        i' := i + n;
      }
    }
  }

  method NormalizeQuotesToJson(input: string) returns (result: string)
    ensures result == Normalized(input)
  {
    hide Norm, NextAt;
    assert input[0..] == input;
    assert Normalized(input) == Pending(input, Outside, 0);
    hide Pending;
    result := "";
    var inSingleQuoted, inDoubleQuoted := false, false;
    var i := 0;
    while i < |input|
      invariant i <= |input| && !(inSingleQuoted && inDoubleQuoted)
      invariant Normalized(input) == result + Pending(input, ModeOf(inSingleQuoted, inDoubleQuoted), i)
    {
      PendingStep(input, ModeOf(inSingleQuoted, inDoubleQuoted), i);
      var piece;
      piece, i, inSingleQuoted, inDoubleQuoted := Convert(input, i, inSingleQuoted, inDoubleQuoted);
      result := result + piece;
    }
    PendingEnd(input, ModeOf(inSingleQuoted, inDoubleQuoted));
  }

  // ---------- Words outside strings ----------

  lemma NormStep(mode: Mode, afterWord: bool, s: string)
    requires s != ""
    ensures var t := Next(mode, afterWord, s);
            Norm(mode, afterWord, s) == t.out + Norm(t.mode, t.afterWord, s[t.taken..])
  {
  }

  // A character that no rule mentions is copied.
  lemma NormCopies(mode: Mode, afterWord: bool, c: char, rest: string)
    requires c != '"' && c != '\'' && (c != '\\' || rest == "")
    requires !BeginsLiteral(mode, afterWord, c)
    ensures Norm(mode, afterWord, [c] + rest) == [c] + Norm(mode, mode == Outside && IsWordChar(c), rest)
  {
    hide Literal, WordLength;
    assert ([c] + rest)[1..] == rest;
  }

  lemma NormEmpty(mode: Mode, afterWord: bool)
    ensures Norm(mode, afterWord, "") == ""
  {
  }

  // Characters of a word that cannot start a literal are copied.
  lemma {:induction false} NormCopiesWord(afterWord: bool, w: string, rest: string)
    requires forall i :: 0 <= i < |w| ==> IsWordChar(w[i])
    requires w != "" && !BeginsLiteral(Outside, afterWord, w[0])
    ensures Norm(Outside, afterWord, w + rest) == w + Norm(Outside, true, rest)
    decreases |w|
  {
    hide Norm;
    NormCopies(Outside, afterWord, w[0], w[1..] + rest);
    assert w + rest == [w[0]] + (w[1..] + rest);
    if |w| > 1 {
      NormCopiesWord(true, w[1..], rest);
    } else {
      assert w[1..] + rest == rest;
    }
    assert w == [w[0]] + w[1..];
  }

  // At a word boundary: the word becomes its literal, or stays as it is.
  function WordImage(w: string): string {
    if Literal(w).Some? then Literal(w).value else w
  }

  lemma WordLengthAt(w: string, rest: string)
    requires forall i :: 0 <= i < |w| ==> IsWordChar(w[i])
    requires rest == "" || !IsWordChar(rest[0])
    ensures WordLength(w + rest) == |w|
  {
    hide WordLength;
    var s := w + rest;
    assert forall i :: 0 <= i < |w| ==> s[i] == w[i];
    assert rest != "" ==> s[|w|] == rest[0];
  }

  lemma NormWord(w: string, rest: string)
    requires w != "" && forall i :: 0 <= i < |w| ==> IsWordChar(w[i])
    requires rest == "" || !IsWordChar(rest[0])
    ensures Norm(Outside, false, w + rest) == WordImage(w) + Norm(Outside, true, rest)
  {
    hide WordLength, Literal, Norm;
    LiteralStart(w);
    if BeginsLiteral(Outside, false, w[0]) {
      NormLiteralWord(w, rest);
    } else {
      NormCopiesWord(false, w, rest);
    }
  }

  lemma NormLiteralWord(w: string, rest: string)
    requires w != "" && forall i :: 0 <= i < |w| ==> IsWordChar(w[i])
    requires rest == "" || !IsWordChar(rest[0])
    requires BeginsLiteral(Outside, false, w[0])
    ensures Norm(Outside, false, w + rest) == WordImage(w) + Norm(Outside, true, rest)
  {
    hide WordLength, Literal, Norm, Next;
    NextAtWord(w, rest);
    NormStep(Outside, false, w + rest);
    if Literal(w).None? {
      NormRestOfWord(w, rest);
    } else {
      assert (w + rest)[|w|..] == rest;
    }
  }

  lemma NextAtWord(w: string, rest: string)
    requires w != "" && forall i :: 0 <= i < |w| ==> IsWordChar(w[i])
    requires rest == "" || !IsWordChar(rest[0])
    requires BeginsLiteral(Outside, false, w[0])
    ensures Next(Outside, false, w + rest)
         == if Literal(w).Some? then Step(Literal(w).value, |w|, Outside, true) else Step([w[0]], 1, Outside, true)
  {
    hide WordLength, Literal;
    var s := w + rest;
    WordLengthAt(w, rest);
    assert s[..|w|] == w && s[0] == w[0];
  }

  lemma NormRestOfWord(w: string, rest: string)
    requires w != "" && forall i :: 0 <= i < |w| ==> IsWordChar(w[i])
    ensures [w[0]] + Norm(Outside, true, (w + rest)[1..]) == w + Norm(Outside, true, rest)
  {
    hide Norm;
    assert w == [w[0]] + w[1..];
    assert (w + rest)[1..] == w[1..] + rest;
    if |w| > 1 {
      NormCopiesWord(true, w[1..], rest);
    } else {
      assert w[1..] + rest == rest;
    }
  }

  lemma LiteralStart(w: string)
    requires w != ""
    ensures Literal(w).Some? ==> w[0] == 'T' || w[0] == 'F' || w[0] == 'N'
    ensures Literal(w).Some? ==> Literal(w).value[0] != w[0]
    ensures Literal(w).Some? ==> forall i :: 0 <= i < |w| ==>
              IsWordChar(Literal(w).value[i]) && !BeginsLiteral(Outside, false, Literal(w).value[i])
  {
  }

  // After a word, what follows starts with no word character, so the flag no longer matters.
  lemma AfterWordIrrelevant(s: string)
    requires s == "" || !IsWordChar(s[0])
    ensures Norm(Outside, true, s) == Norm(Outside, false, s)
    ensures Norm(Outside, false, s) == "" || !IsWordChar(Norm(Outside, false, s)[0])
  {
    hide WordLength, Literal;
  }

  // ---------- Idempotence ----------

  // Reading the output of a scan: both kinds of strings have become double-quoted ones.
  function Image(mode: Mode): Mode {
    if mode == Outside then Outside else Double
  }

  lemma {:induction false} NormIdempotent(mode: Mode, s: string)
    ensures Norm(Image(mode), false, Norm(mode, false, s)) == Norm(mode, false, s)
    decreases |s|
  {
    hide Norm, WordLength, Literal;
    if s == "" {
      NormEmpty(mode, false);
      NormEmpty(Image(mode), false);
    } else if mode == Outside && IsWordChar(s[0]) {
      var n := WordLength(s);
      var w, rest := s[..n], s[n..];
      assert s == w + rest && w[0] == s[0];
      NormWord(w, rest);
      AfterWordIrrelevant(rest);
      NormIdempotent(Outside, rest);
      WordImageKept(w, Norm(Outside, false, rest));
    } else {
      NormIdempotentChar(mode, s);
    }
  }

  lemma WordImageKept(w: string, rest: string)
    requires w != "" && forall i :: 0 <= i < |w| ==> IsWordChar(w[i])
    requires rest == "" || !IsWordChar(rest[0])
    ensures Norm(Outside, false, WordImage(w) + rest) == WordImage(w) + Norm(Outside, false, rest)
  {
    hide Norm, WordLength;
    LiteralStart(w);
    AfterWordIrrelevant(rest);
    NormWord(WordImage(w), rest);
    if Literal(w).Some? {
      LiteralStart(Literal(w).value);
    }
  }

  lemma NormIdempotentChar(mode: Mode, s: string)
    requires s != "" && !(mode == Outside && IsWordChar(s[0]))
    ensures Norm(Image(mode), false, Norm(mode, false, s)) == Norm(mode, false, s)
    decreases |s|, 0
  {
    hide WordLength, Literal, Norm;
    var t := Next(mode, false, s);
    NormStep(mode, false, s);
    assert !t.afterWord;
    var rest := Norm(t.mode, false, s[t.taken..]);
    NormEmpty(t.mode, false);
    NormIdempotent(t.mode, s[t.taken..]);
    NormStep(Image(mode), false, t.out + rest);
    var u := Next(Image(mode), false, t.out + rest);
    assert (t.out + rest)[|t.out|..] == rest;
    assert u.out == t.out && u.taken == |t.out| && u.mode == Image(t.mode) && !u.afterWord by {
      assert (t.out + rest)[0] == t.out[0];
      assert |t.out| == 2 ==> (t.out + rest)[1] == t.out[1];
    }
  }

  // Normalising twice is normalising once, on every string.
  lemma NormalizedIdempotent(s: string)
    ensures Normalized(Normalized(s)) == Normalized(s)
  {
    NormIdempotent(Outside, s);
  }

  // ---------- Streaming: the normal form of a prefix ----------

  // Where a cut after `k` characters falls: between two steps of the scan, between a backslash
  // and the character it escapes, or inside a word outside strings.
  datatype Cut = Between | InsideEscape(mode: Mode, escaped: char) | InsideWord(word: string, kept: nat)

  function CutAt(mode: Mode, s: string, k: nat): (c: Cut)
    requires k <= |s|
    ensures c.InsideWord? ==> 0 < c.kept < |c.word|
    decreases |s|
  {
    if k == 0 then Between
    else if mode == Outside && IsWordChar(s[0]) then
      var n := WordLength(s);
      if k < n then InsideWord(s[..n], k) else CutAt(Outside, s[n..], k - n)
    else
      var t := Next(mode, false, s);
      if k < t.taken then InsideEscape(mode, s[1]) else CutAt(t.mode, s[t.taken..], k - t.taken)
  }

  // Two cuts do harm: before the quote of a `\'` in a single-quoted string, whose backslash
  // disappears, and inside a word that began like a literal but is none.
  predicate Harmless(c: Cut)
    requires c.InsideWord? ==> c.kept <= |c.word|
  {
    match c
    case Between => true
    case InsideEscape(mode, escaped) => !(mode == Single && escaped == '\'')
    case InsideWord(word, kept) => Literal(word).Some? || Literal(word[..kept]).None?
  }

  lemma LiteralCut(w: string, k: nat)
    requires 0 < k <= |w|
    ensures Literal(w).Some? ==> Literal(w[..k]).Some? && Literal(w[..k]).value == Literal(w).value[..k]
  {
    if w <= "True" {
      PrefixCut(w, "True", "true", k);
    } else if w <= "False" {
      PrefixCut(w, "False", "false", k);
    } else if w <= "None" {
      PrefixCut(w, "None", "null", k);
    }
  }

  lemma PrefixCut(w: string, python: string, json: string, k: nat)
    requires 0 < k <= |w| && w <= python && |python| == |json|
    ensures w[..k] <= python && w[..k][0] == python[0] && json[..|w|][..k] == json[..k]
  {
  }

  lemma CutWord(w: string, rest: string, k: nat)
    requires 0 < k < |w| && forall i :: 0 <= i < |w| ==> IsWordChar(w[i])
    requires rest == "" || !IsWordChar(rest[0])
    ensures Norm(Outside, false, w[..k]) <= Norm(Outside, false, w + rest)
       <==> Literal(w).Some? || Literal(w[..k]).None?
  {
    hide Norm, WordLength, Literal;
    NormWord(w, rest);
    NormWord(w[..k], "");
    NormEmpty(Outside, true);
    assert w[..k] + "" == w[..k];
    LiteralCut(w, k);
    LiteralStart(w[..k]);
    var x, y := WordImage(w[..k]), WordImage(w);
    SameStart(x, y, Norm(Outside, true, rest));
    assert x + "" == x;
  }

  // One string begins another, longer one exactly when it begins a part of it that is long enough.
  lemma SameStart(x: string, y: string, z: string)
    requires |x| <= |y|
    ensures x <= y + z <==> x == y[..|x|]
  {
    assert (y + z)[..|x|] == y[..|x|];
    if x <= y + z {
      assert x == (y + z)[..|x|];
    }
  }

  lemma {:induction false} NormCut(mode: Mode, s: string, k: nat)
    requires k <= |s|
    ensures Norm(mode, false, s[..k]) <= Norm(mode, false, s) <==> Harmless(CutAt(mode, s, k))
    decreases |s|
  {
    hide Norm, WordLength, Literal, Next;
    if k == 0 {
      NormEmpty(mode, false);
    } else if mode == Outside && IsWordChar(s[0]) {
      var n := WordLength(s);
      var w, rest := s[..n], s[n..];
      assert s == w + rest && w != "";
      if k < n {
        CutWord(w, rest, k);
        assert w[..k] == s[..k];
      } else {
        NormCut(Outside, rest, k - n);
        assert s[..k] == w + rest[..k - n];
        NormWord(w, rest);
        NormWord(w, rest[..k - n]);
        AfterWordIrrelevant(rest);
        AfterWordIrrelevant(rest[..k - n]);
        SamePrefix(WordImage(w), Norm(Outside, false, rest[..k - n]), Norm(Outside, false, rest));
      }
    } else {
      NormCutStep(mode, s, k);
    }
  }

  lemma SamePrefix(x: string, y: string, z: string)
    ensures x + y <= x + z <==> y <= z
  {
    if x + y <= x + z {
      assert y == (x + y)[|x|..] && z == (x + z)[|x|..];
      assert (x + z)[|x|..][..|y|] == (x + z)[..|x + y|][|x|..];
    }
    if y <= z {
      assert z == y + z[|y|..];
      assert x + z == x + y + z[|y|..];
    }
  }

  lemma NormCutStep(mode: Mode, s: string, k: nat)
    requires 0 < k <= |s| && !(mode == Outside && IsWordChar(s[0]))
    ensures Norm(mode, false, s[..k]) <= Norm(mode, false, s) <==> Harmless(CutAt(mode, s, k))
    decreases |s|, 0
  {
    hide Norm, WordLength, Literal;
    var t := Next(mode, false, s);
    NormStep(mode, false, s);
    NormStep(mode, false, s[..k]);
    assert !t.afterWord;
    if k < t.taken {
      NormEmpty(mode, false);
      assert s[..k][1..] == "";
      assert Next(mode, false, s[..k]) == Step("\\", 1, mode, false);
      assert Norm(mode, false, s[..k]) == "\\" && t.out[..1] == [t.out[0]];
      SameStart("\\", t.out, Norm(t.mode, false, s[t.taken..]));
    } else {
      assert s[..k][t.taken..] == s[t.taken..][..k - t.taken];
      assert Next(mode, false, s[..k]) == t;
      NormCut(t.mode, s[t.taken..], k - t.taken);
      SamePrefix(t.out, Norm(t.mode, false, s[t.taken..][..k - t.taken]), Norm(t.mode, false, s[t.taken..]));
    }
  }

  // The normal form of what has arrived is a prefix of the final normal form exactly when the
  // cut is harmless.
  lemma NormalizedPrefix(s: string, k: nat)
    requires k <= |s|
    ensures Normalized(s[..k]) <= Normalized(s) <==> Harmless(CutAt(Outside, s, k))
  {
    NormCut(Outside, s, k);
  }

  // Two harmful cuts: a word that goes on after what looked like True, and a backslash whose single quote is still
  // to come.
  lemma HarmfulCutExamples()
    ensures Normalized("Tx"[..1]) == "t" && Normalized("Tx") == "Tx"
    ensures Normalized("'\\''"[..2]) == "\"\\" && Normalized("'\\''") == "\"'\""
  {
    WordExample();
    EscapeExample();
  }

  lemma WordExample()
    ensures Normalized("Tx"[..1]) == "t" && Normalized("Tx") == "Tx"
  {
    assert "Tx"[..1] == "T" && "T"[..1] == "T" && "Tx"[..2] == "Tx";
    assert WordLength("T") == 1 && WordLength("Tx") == 1 + WordLength("x") == 2;
    assert "true"[..1] == "t" && Literal("T") == Some("t");
    assert Literal("Tx") == None by {
      assert "True"[..2] == "Tr" != "Tx" && !("Tx" <= "True") && !("Tx" <= "False") && !("Tx" <= "None");
    }
    hide Literal, WordLength;
    NormEmpty(Outside, true);
    assert "T"[1..] == "" && "Tx"[1..] == "x" && "x"[1..] == "";
    assert Norm(Outside, true, "x") == "x" + Norm(Outside, true, "");
    assert Norm(Outside, false, "Tx") == "T" + Norm(Outside, true, "x");
  }

  lemma EscapeExample()
    ensures Normalized("'\\''"[..2]) == "\"\\" && Normalized("'\\''") == "\"'\""
  {
    hide Literal, WordLength;
    var s := "'\\''";
    assert s[..2] == "'\\" && s[..2][1..] == "\\" && "\\"[1..] == "";
    assert s[1..] == "\\''" && "\\''"[2..] == "'" && "'"[1..] == "";
    NormEmpty(Single, false);
    NormEmpty(Outside, false);
    assert Norm(Single, false, "\\") == "\\" + Norm(Single, false, "");
    assert Norm(Single, false, "'") == "\"" + Norm(Outside, false, "");
    assert Norm(Single, false, "\\''") == "'" + Norm(Single, false, "'");
  }
}
