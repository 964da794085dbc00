/** parse_csv_row (common/arg.cpp:1513-1555): one row of comma-separated fields, some of them quoted as in
    section 2 of RFC 4180. */
module CsvRow {

  const QUOTE := '"'

  const QUOTED: string := "\""

  const COMMA: string := ","

  // The fields of the rest of a row, with `field` read so far.
  function Fields(input: string, field: string, inQuotes: bool): (r: seq<string>)
    ensures r != []
    decreases |input|
  {
    if input == "" then [field]
    else if input[0] == QUOTE then
      if !inQuotes then
        // a quote in the middle of an unquoted field stands for itself
        if field != "" then Fields(input[1..], field + QUOTED, false) else Fields(input[1..], field, true)
      else if |input| > 1 && input[1] == QUOTE then Fields(input[2..], field + QUOTED, true)
      else Fields(input[1..], field, false)
    else if input[0] == ',' && !inQuotes then [field] + Fields(input[1..], "", false)
    else Fields(input[1..], field + [input[0]], inQuotes)
  }

  method ParseCsvRow(input: string) returns (fields: seq<string>)
    ensures fields == Fields(input, "", false)
  {
    fields := [];
    var field := "";
    var inQuotes := false;
    var i := 0;
    assert input[0..] == input && [] + Fields(input, "", false) == Fields(input, "", false);
    while i < |input|
      invariant i <= |input| && Fields(input, "", false) == fields + Fields(input[i..], field, inQuotes)
    {
      ghost var rest := input[i..];
      assert rest[1..] == input[i + 1..] && (|rest| > 1 ==> rest[2..] == input[i + 2..]);
      var ch := input[i];
      if ch == QUOTE {
        if !inQuotes {
          if field != "" {
            field := field + QUOTED;
          } else {
            inQuotes := true;
          }
        } else {
          if i + 1 < |input| && input[i + 1] == QUOTE {
            field := field + QUOTED;
            i := i + 1;
          } else {
            inQuotes := false;
          }
        }
      } else if ch == ',' {
        if inQuotes {
          field := field + COMMA;
        } else {
          Associated(fields, [field], Fields(input[i + 1..], "", false));
          fields := fields + [field];
          field := "";
        }
      } else {
        field := field + [ch];
      }
      i := i + 1;
    }
    fields := fields + [field];
  }

  lemma Associated(x: seq<string>, y: seq<string>, z: seq<string>)
    ensures x + (y + z) == (x + y) + z
  {
  }

  // ---------- Writing a row ----------

  function Doubled(field: string): string {
    if field == "" then ""
    else (if field[0] == QUOTE then QUOTED + QUOTED else [field[0]]) + Doubled(field[1..])
  }

  // A field that may stand without quotes: it has no comma and does not begin with a quote.
  predicate Plain(field: string) {
    NoComma(field) && (field == "" || field[0] != QUOTE)
  }

  predicate NoComma(field: string) {
    forall i :: 0 <= i < |field| ==> field[i] != ','
  }

  datatype Field = Quoted(text: string) | Unquoted(text: string)

  function Written(f: Field): string {
    match f
    case Quoted(text) => QUOTED + (Doubled(text) + QUOTED)
    case Unquoted(text) => text
  }

  function Row(fs: seq<Field>): string {
    if fs == [] then "" else if |fs| == 1 then Written(fs[0]) else Written(fs[0]) + (COMMA + Row(fs[1..]))
  }

  function Texts(fs: seq<Field>): (r: seq<string>)
    ensures |r| == |fs|
  {
    seq(|fs|, i requires 0 <= i < |fs| => fs[i].text)
  }

  // What a field is followed by: nothing, or a comma.
  predicate FieldEnd(rest: string) {
    rest == "" || rest[0] == ','
  }

  lemma FieldsCons(c: char, rest: string, field: string, inQuotes: bool)
    requires c != QUOTE
    ensures Fields([c] + rest, field, inQuotes)
         == if c == ',' && !inQuotes then [field] + Fields(rest, "", false) else Fields(rest, field + [c], inQuotes)
  {
    assert ([c] + rest)[1..] == rest;
  }

  lemma FieldsQuote(rest: string, field: string, inQuotes: bool)
    ensures !inQuotes && field == "" ==> Fields(QUOTED + rest, field, inQuotes) == Fields(rest, field, true)
    ensures !inQuotes && field != "" ==>
              Fields(QUOTED + rest, field, inQuotes) == Fields(rest, field + QUOTED, false)
    ensures inQuotes && (rest == "" || rest[0] != QUOTE) ==>
              Fields(QUOTED + rest, field, inQuotes) == Fields(rest, field, false)
    ensures inQuotes ==> Fields(QUOTED + (QUOTED + rest), field, inQuotes) == Fields(rest, field + QUOTED, true)
  {
    assert (QUOTED + rest)[1..] == rest;
    assert (QUOTED + (QUOTED + rest))[2..] == rest;
  }

  // The inside of a quoted field, up to its closing quote.
  lemma {:induction false} QuotedRead(text: string, rest: string, field: string)
    requires FieldEnd(rest)
    ensures Fields(Doubled(text) + (QUOTED + rest), field, true) == Fields(rest, field + text, false)
    decreases |text|
  {
    hide Fields;
    var tail := QUOTED + rest;
    if text == "" {
      assert Doubled(text) + tail == tail && field + text == field;
      FieldsQuote(rest, field, true);
    } else {
      var c, more := text[0], Doubled(text[1..]) + tail;
      assert (field + [c]) + text[1..] == field + text;
      if c == QUOTE {
        assert Doubled(text) + tail == QUOTED + (QUOTED + more);
        FieldsQuote(more, field, true);
        assert QUOTED == [c];
      } else {
        assert Doubled(text) + tail == [c] + more;
        FieldsCons(c, more, field, true);
      }
      QuotedRead(text[1..], rest, field + [c]);
    }
  }

  // The rest of an unquoted field; a quote in it counts only where nothing has been read yet.
  lemma {:induction false} PlainRead(text: string, rest: string, field: string)
    requires NoComma(text) && (field == "" ==> Plain(text)) && FieldEnd(rest)
    ensures Fields(text + rest, field, false) == Fields(rest, field + text, false)
    decreases |text|
  {
    hide Fields;
    if text == "" {
      assert text + rest == rest && field + text == field;
    } else {
      var more := text[1..] + rest;
      assert text + rest == [text[0]] + more;
      if text[0] == QUOTE {
        assert QUOTED == [text[0]];
        FieldsQuote(more, field, false);
      } else {
        FieldsCons(text[0], more, field, false);
      }
      PlainRead(text[1..], rest, field + [text[0]]);
      assert (field + [text[0]]) + text[1..] == field + text;
    }
  }

  lemma FieldRead(f: Field, rest: string)
    requires (f.Unquoted? ==> Plain(f.text)) && FieldEnd(rest)
    ensures Fields(Written(f) + rest, "", false) == Fields(rest, f.text, false)
  {
    hide Fields, Doubled;
    assert "" + f.text == f.text;
    match f
    case Quoted(text) =>
      assert Written(f) + rest == QUOTED + (Doubled(text) + (QUOTED + rest));
      FieldsQuote(Doubled(text) + (QUOTED + rest), "", false);
      QuotedRead(text, rest, "");
    case Unquoted(text) =>
      PlainRead(text, rest, "");
  }

  // Reading a row gives back its fields, whatever characters the quoted ones hold.
  lemma {:induction false} RowRead(fs: seq<Field>)
    requires fs != [] && forall i :: 0 <= i < |fs| ==> fs[i].Unquoted? ==> Plain(fs[i].text)
    ensures Fields(Row(fs), "", false) == Texts(fs)
    decreases |fs|
  {
    hide Fields, Written;
    if |fs| == 1 {
      assert Row(fs) == Written(fs[0]) + "";
      FieldRead(fs[0], "");
      NoInput(fs[0].text);
      assert Texts(fs) == [fs[0].text];
    } else {
      FieldRead(fs[0], COMMA + Row(fs[1..]));
      FieldsCons(',', Row(fs[1..]), fs[0].text, false);
      RowRead(fs[1..]);
      assert Texts(fs) == [fs[0].text] + Texts(fs[1..]);
    }
  }

  lemma NoInput(field: string)
    ensures Fields("", field, false) == [field]
  {
  }

  // ---------- The number of fields ----------

  // The commas met outside quotes; `empty` says whether the field has no characters yet.
  function OpenCommas(input: string, empty: bool, inQuotes: bool): nat
    decreases |input|
  {
    if input == "" then 0
    else if input[0] == QUOTE then
      if !inQuotes then OpenCommas(input[1..], empty, empty)
      else if |input| > 1 && input[1] == QUOTE then OpenCommas(input[2..], false, true)
      else OpenCommas(input[1..], empty, false)
    else if input[0] == ',' && !inQuotes then 1 + OpenCommas(input[1..], true, false)
    else OpenCommas(input[1..], false, inQuotes)
  }

  lemma {:induction false} FieldCount(input: string, field: string, inQuotes: bool)
    ensures |Fields(input, field, inQuotes)| == 1 + OpenCommas(input, field == "", inQuotes)
    decreases |input|
  {
    if input != "" {
      if input[0] == QUOTE {
        if !inQuotes {
          FieldCount(input[1..], if field != "" then field + QUOTED else field, field == "");
        } else if |input| > 1 && input[1] == QUOTE {
          FieldCount(input[2..], field + QUOTED, true);
        } else {
          FieldCount(input[1..], field, false);
        }
      } else if input[0] == ',' && !inQuotes {
        FieldCount(input[1..], "", false);
      } else {
        FieldCount(input[1..], field + [input[0]], inQuotes);
      }
    }
  }
}
