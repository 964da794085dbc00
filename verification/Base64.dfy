/** Base64 (common/base64.hpp): sections 4 and 5 of RFC 4648. Characters are their byte codes. */
module Base64 {
  import opened Wrappers

  type Byte = bv8

  datatype Alphabet = Auto | Standard | UrlFilenameSafe

  datatype Behavior = Moderate | Loose

  const PAD: Byte := 61
  const PLUS: Byte := 43
  const SLASH: Byte := 47
  const MINUS: Byte := 45
  const UNDERSCORE: Byte := 95

  // ---------- The alphabets ----------

  // The character for a six-bit value.
  function Char(a: Alphabet, v: Byte): Byte
    requires v < 64
  {
    if v < 26 then 65 + v
    else if v < 52 then 97 + (v - 26)
    else if v < 62 then 48 + (v - 52)
    else if v == 62 then (if a == UrlFilenameSafe then MINUS else PLUS)
    else (if a == UrlFilenameSafe then UNDERSCORE else SLASH)
  }

  // The value of a character, and the alphabet from there on: automatic detection settles at the first
  // character that only one alphabet has.
  function Value(a: Alphabet, c: Byte): Option<(Byte, Alphabet)> {
    if 65 <= c <= 90 then Some((c - 65, a))
    else if 97 <= c <= 122 then Some((c - 97 + 26, a))
    else if 48 <= c <= 57 then Some((c - 48 + 52, a))
    else if c == PLUS && a != UrlFilenameSafe then Some((62, Standard))
    else if c == SLASH && a != UrlFilenameSafe then Some((63, Standard))
    else if c == MINUS && a != Standard then Some((62, UrlFilenameSafe))
    else if c == UNDERSCORE && a != Standard then Some((63, UrlFilenameSafe))
    else None
  }

  // Alphabets under which the characters of `written` are read back.
  predicate Reads(a: Alphabet, written: Alphabet) {
    a == Auto || a == (if written == UrlFilenameSafe then UrlFilenameSafe else Standard)
  }

  lemma ValueOfChar(a: Alphabet, written: Alphabet, v: Byte)
    requires v < 64 && Reads(a, written)
    ensures var r := Value(a, Char(written, v)); r.Some? && r.value.0 == v && Reads(r.value.1, written)
    ensures Char(written, v) != PAD
  {
  }

  // ---------- Encoding ----------

  function First(i0: Byte): Byte {
    (i0 >> 2) & 0x3F
  }

  function Second(i0: Byte, i1: Byte): Byte {
    ((i0 & 0x3) << 4) | ((i1 >> 4) & 0x0F)
  }

  function Third(i1: Byte, i2: Byte): Byte {
    ((i1 & 0xF) << 2) | ((i2 >> 6) & 0x03)
  }

  function Fourth(i2: Byte): Byte {
    i2 & 0x3F
  }

  lemma SextetsSmall(i0: Byte, i1: Byte, i2: Byte)
    ensures First(i0) < 64 && Second(i0, i1) < 64 && Third(i1, i2) < 64 && Fourth(i2) < 64
  {
  }

  // Four characters for three bytes.
  function Quad(a: Alphabet, i0: Byte, i1: Byte, i2: Byte): (r: seq<Byte>)
    ensures |r| == 4
  {
    SextetsSmall(i0, i1, i2);
    [Char(a, First(i0)), Char(a, Second(i0, i1)), Char(a, Third(i1, i2)), Char(a, Fourth(i2))]
  }

  // The characters for the data, without padding.
  function Body(data: seq<Byte>, a: Alphabet): seq<Byte> {
    if data == [] then []
    else if |data| == 1 then Quad(a, data[0], 0, 0)[..2]
    else if |data| == 2 then Quad(a, data[0], data[1], 0)[..3]
    else Quad(a, data[0], data[1], data[2]) + Body(data[3..], a)
  }

  function Pads(n: nat): (r: seq<Byte>)
    ensures |r| == n
  {
    seq(n, _ => PAD)
  }

  function Padding(size: nat): nat {
    if size % 3 == 0 then 0 else 3 - size % 3
  }

  function Encoded(data: seq<Byte>, a: Alphabet): seq<Byte> {
    Body(data, a) + Pads(Padding(|data|))
  }

  function RequiredEncodeSize(size: nat): nat {
    (size / 3 + (if size % 3 != 0 then 1 else 0)) * 4
  }

  lemma {:induction false} EncodedSize(data: seq<Byte>, a: Alphabet)
    ensures |Encoded(data, a)| == RequiredEncodeSize(|data|)
    decreases |data|
  {
    hide Quad;
    if |data| >= 3 {
      EncodedSize(data[3..], a);
      assert |data| / 3 == 1 + (|data| - 3) / 3 && |data| % 3 == (|data| - 3) % 3;
    }
  }

  // The characters of one round of the encoder, padding included.
  function Group(data: seq<Byte>, a: Alphabet): seq<Byte>
    requires data != []
  {
    if |data| == 1 then Quad(a, data[0], 0, 0)[..2] + [PAD, PAD]
    else if |data| == 2 then Quad(a, data[0], data[1], 0)[..3] + [PAD]
    else Quad(a, data[0], data[1], data[2])
  }

  function Rest(data: seq<Byte>): seq<Byte> {
    if |data| <= 3 then [] else data[3..]
  }

  lemma EncodedStep(data: seq<Byte>, a: Alphabet)
    ensures data != [] ==> Encoded(data, a) == Group(data, a) + Encoded(Rest(data), a)
    ensures Encoded([], a) == []
  {
    hide Quad;
    if |data| >= 3 {
      assert |data| % 3 == (|data| - 3) % 3;
      assert data[3..] == Rest(data);
    }
  }

  method Encode(data: seq<Byte>, a: Alphabet) returns (out: seq<Byte>)
    ensures out == Encoded(data, a)
  {
    hide Encoded, Group;
    out := [];
    var i := 0;
    assert data[0..] == data && [] + Encoded(data, a) == Encoded(data, a);
    while i < |data|
      invariant i <= |data| && Encoded(data, a) == out + Encoded(data[i..], a)
    {
      var group, used := EncodeGroup(data[i..], a);
      EncodedStep(data[i..], a);
      assert Rest(data[i..]) == data[i + used..];
      Associated(out, group, Encoded(data[i + used..], a));
      out := out + group;
      i := i + used;
    }
    EncodedStep([], a);
    assert data[i..] == [] && out + [] == out;
  }

  // A round, character by character.
  lemma GroupOf(i0: Byte, i1: Byte, i2: Byte, more: seq<Byte>, a: Alphabet)
    ensures First(i0) < 64 && Second(i0, 0) < 64 && Second(i0, i1) < 64 && Third(i1, 0) < 64 && Third(i1, i2) < 64
    ensures Fourth(i2) < 64
    ensures Group([i0], a) == [Char(a, First(i0)), Char(a, Second(i0, 0)), PAD, PAD]
    ensures Group([i0, i1], a) == [Char(a, First(i0)), Char(a, Second(i0, i1)), Char(a, Third(i1, 0)), PAD]
    ensures Group([i0, i1, i2] + more, a)
            == [Char(a, First(i0)), Char(a, Second(i0, i1)), Char(a, Third(i1, i2)), Char(a, Fourth(i2))]
  {
    SextetsSmall(i0, 0, 0);
    SextetsSmall(i0, i1, 0);
    SextetsSmall(i0, i1, i2);
    hide First, Second, Third, Fourth, Char;
  }

  // One round: three bytes of the input, or what is left of it with its padding.
  method EncodeGroup(input: seq<Byte>, a: Alphabet) returns (group: seq<Byte>, used: nat)
    requires input != []
    ensures used == (if |input| < 3 then |input| else 3) && group == Group(input, a)
  {
    hide First, Second, Third, Fourth, Char, Group;
    var i0 := input[0];
    GroupOf(i0, 0, 0, [], a);
    group := [Char(a, First(i0))];
    if |input| == 1 {
      assert input == [i0];
      group := group + [Char(a, Second(i0, 0)), PAD, PAD];
      return group, 1;
    }
    var i1 := input[1];
    GroupOf(i0, i1, 0, [], a);
    group := group + [Char(a, Second(i0, i1))];
    if |input| == 2 {
      assert input == [i0, i1];
      group := group + [Char(a, Third(i1, 0)), PAD];
      return group, 2;
    }
    var i2 := input[2];
    GroupOf(i0, i1, i2, input[3..], a);
    assert input == [i0, i1, i2] + input[3..];
    group := group + [Char(a, Third(i1, i2)), Char(a, Fourth(i2))];
    used := 3;
  }

  lemma Associated(x: seq<Byte>, y: seq<Byte>, z: seq<Byte>)
    ensures x + (y + z) == (x + y) + z
  {
  }

  // ---------- Decoding ----------

  // The byte that a character completes, given the value before it and how many of its bits are open.
  function Joined(last: Byte, part: Byte, bits: nat): Byte {
    if bits == 6 then (last << 2) | (part >> 4)
    else if bits == 4 then (last << 4) | (part >> 2)
    else (last << 6) | part
  }

  function OnlyPads(text: seq<Byte>): bool {
    forall i :: 0 <= i < |text| ==> text[i] == PAD
  }

  // What decoding makes of the rest of a text, or nothing when it fails.
  function Decoded(text: seq<Byte>, last: Byte, bits: nat, a: Alphabet, b: Behavior): Option<seq<Byte>> {
    if text == [] then Some([])
    else if text[0] == PAD then (if b == Loose || OnlyPads(text[1..]) then Some([]) else None)
    else
      match Value(a, text[0])
      case None => None
      case Some((part, a')) =>
        if bits + 6 >= 8 then
          match Decoded(text[1..], part, bits - 2, a', b)
          case None => None
          case Some(rest) => Some([Joined(last, part, bits)] + rest)
        else
          Decoded(text[1..], part, bits + 6, a', b)
  }

  // The bytes that are written until the text ends or decoding stops, whether or not it then fails.
  function Emitted(text: seq<Byte>, last: Byte, bits: nat, a: Alphabet): seq<Byte> {
    if text == [] || text[0] == PAD || Value(a, text[0]).None? then []
    else
      var (part, a') := Value(a, text[0]).value;
      if bits + 6 >= 8 then [Joined(last, part, bits)] + Emitted(text[1..], part, bits - 2, a')
      else Emitted(text[1..], part, bits + 6, a')
  }

  lemma {:induction false} DecodedEmitted(text: seq<Byte>, last: Byte, bits: nat, a: Alphabet, b: Behavior)
    ensures Decoded(text, last, bits, a, b).Some? ==>
              Decoded(text, last, bits, a, b).value == Emitted(text, last, bits, a)
    decreases |text|
  {
    hide Value, Joined;
    if text != [] && text[0] != PAD && Value(a, text[0]).Some? {
      var v := Value(a, text[0]).value;
      DecodedEmitted(text[1..], v.0, if bits + 6 >= 8 then bits - 2 else bits + 6, v.1, b);
    }
  }

  lemma EmittedStep(text: seq<Byte>, last: Byte, bits: nat, a: Alphabet)
    ensures text == [] || text[0] == PAD || Value(a, text[0]).None? ==> Emitted(text, last, bits, a) == []
    ensures text != [] && text[0] != PAD && Value(a, text[0]).Some? ==>
              var (part, a') := Value(a, text[0]).value;
              Emitted(text, last, bits, a) ==
                if bits + 6 >= 8 then [Joined(last, part, bits)] + Emitted(text[1..], part, bits - 2, a')
                else Emitted(text[1..], part, bits + 6, a')
  {
    hide Value, Joined;
  }

  // The bytes `out`, followed by the rest unless that fails.
  function After(out: seq<Byte>, rest: Option<seq<Byte>>): Option<seq<Byte>> {
    match rest
    case None => None
    case Some(bytes) => Some(out + bytes)
  }

  lemma AfterByte(out: seq<Byte>, byte: Byte, rest: Option<seq<Byte>>)
    ensures After(out, After([byte], rest)) == After(out + [byte], rest)
  {
    if rest.Some? {
      assert out + ([byte] + rest.value) == (out + [byte]) + rest.value;
    }
  }

  lemma AfterNothing(rest: Option<seq<Byte>>)
    ensures After([], rest) == rest
  {
    if rest.Some? {
      assert [] + rest.value == rest.value;
    }
  }

  // What is left to do once decoding has stopped.
  function PaddingCheck(rest: seq<Byte>, b: Behavior): Option<seq<Byte>> {
    if b == Loose || OnlyPads(rest) then Some([]) else None
  }

  lemma DecodedStep(text: seq<Byte>, last: Byte, bits: nat, a: Alphabet, b: Behavior)
    ensures text == [] ==> Decoded(text, last, bits, a, b) == PaddingCheck([], b)
    ensures text != [] && text[0] == PAD ==> Decoded(text, last, bits, a, b) == PaddingCheck(text[1..], b)
    ensures text != [] && text[0] != PAD && Value(a, text[0]).None? ==> Decoded(text, last, bits, a, b) == None
    ensures text != [] && text[0] != PAD && Value(a, text[0]).Some? ==>
              var (part, a') := Value(a, text[0]).value;
              Decoded(text, last, bits, a, b) ==
                if bits + 6 >= 8 then After([Joined(last, part, bits)], Decoded(text[1..], part, bits - 2, a', b))
                else Decoded(text[1..], part, bits + 6, a', b)
  {
    hide Value, Joined;
  }

  method Decode(text: seq<Byte>, a0: Alphabet, b: Behavior) returns (r: Option<seq<Byte>>)
    ensures r == Decoded(text, 0, 0, a0, b)
  {
    hide Value, Decoded, Joined, After, PaddingCheck;
    var a := a0;
    var last: Byte := 0;
    var bits: nat := 0;
    var out: seq<Byte> := [];
    var i := 0;
    ghost var whole := Decoded(text, 0, 0, a0, b);
    assert text[0..] == text;
    AfterNothing(whole);
    while i < |text|
      invariant i <= |text| && whole == After(out, Decoded(text[i..], last, bits, a, b))
    {
      DecodedStep(text[i..], last, bits, a, b);
      assert text[i..][1..] == text[i + 1..];
      var c := text[i];
      i := i + 1;
      if c == PAD {
        r := CheckPadding(text[i..], out, b);
        return;
      }
      var v := Value(a, c);
      if v.None? {
        NothingAfter(out);
        return None;
      }
      var part := v.value.0;
      a := v.value.1;
      if bits + 6 >= 8 {
        AfterByte(out, Joined(last, part, bits), Decoded(text[i..], part, bits - 2, a, b));
        out := out + [Joined(last, part, bits)];
        bits := bits - 2;
      } else {
        bits := bits + 6;
      }
      last := part;
    }
    DecodedStep([], last, bits, a, b);
    assert text[i..] == [];
    r := CheckPadding([], out, b);
  }

  lemma NothingAfter(out: seq<Byte>)
    ensures After(out, None) == None
  {
  }

  // Behind the first padding character, moderate decoding allows nothing but padding.
  method CheckPadding(rest: seq<Byte>, out: seq<Byte>, b: Behavior) returns (r: Option<seq<Byte>>)
    ensures r == After(out, PaddingCheck(rest, b))
  {
    if b != Loose {
      var i := 0;
      while i < |rest|
        invariant i <= |rest| && forall k :: 0 <= k < i ==> rest[k] == PAD
      {
        var c := rest[i];
        i := i + 1;
        if c != PAD {
          return None;
        }
      }
    }
    assert out + [] == out;
    r := Some(out);
  }

  // How far decoding in place has come: `i` characters of the text are read and `w` bytes written over its
  // beginning; what is still to be read is still there, and the rest of the text decodes to the rest of the bytes.
  ghost predicate Halfway(buffer: seq<Byte>, text: seq<Byte>, i: nat, w: nat, last: Byte, bits: nat, a0: Alphabet,
                          a: Alphabet, b: Behavior) {
    && w <= i <= |text| == |buffer| && buffer[w..] == text[w..]
    && Emitted(text, 0, 0, a0) == buffer[..w] + Emitted(text[i..], last, bits, a)
    && Decoded(text, 0, 0, a0, b) == After(buffer[..w], Decoded(text[i..], last, bits, a, b))
  }

  lemma HalfwayStarts(text: seq<Byte>, a0: Alphabet, b: Behavior)
    ensures Halfway(text, text, 0, 0, 0, 0, a0, a0, b)
  {
    hide Decoded, Emitted, After;
    assert text[0..] == text && text[..0] == [] && [] + Emitted(text, 0, 0, a0) == Emitted(text, 0, 0, a0);
    AfterNothing(Decoded(text, 0, 0, a0, b));
  }

  lemma HalfwayReads(buffer: seq<Byte>, text: seq<Byte>, i: nat, w: nat, last: Byte, bits: nat, a0: Alphabet,
                     a: Alphabet, b: Behavior)
    requires Halfway(buffer, text, i, w, last, bits, a0, a, b)
    ensures w <= i <= |text| == |buffer| && buffer[i..] == text[i..]
    ensures i < |text| ==> buffer[i] == text[i] && buffer[i + 1..] == text[i + 1..]
  {
    hide Decoded, Emitted, After;
    assert buffer[i..] == buffer[w..][i - w..] && text[i..] == text[w..][i - w..];
    assert i < |text| ==> buffer[i] == buffer[i..][0] && text[i] == text[i..][0];
    assert i < |text| ==> buffer[i + 1..] == buffer[i..][1..] && text[i + 1..] == text[i..][1..];
  }

  // A character that completes no byte.
  lemma HalfwaySkips(buffer: seq<Byte>, text: seq<Byte>, i: nat, w: nat, last: Byte, bits: nat, a0: Alphabet,
                     a: Alphabet, b: Behavior)
    requires Halfway(buffer, text, i, w, last, bits, a0, a, b) && i < |text| && text[i] != PAD && bits + 6 < 8
    requires Value(a, text[i]).Some?
    ensures var (part, a') := Value(a, text[i]).value;
            Halfway(buffer, text, i + 1, w, part, bits + 6, a0, a', b)
  {
    hide Value, Decoded, Emitted, Joined, After, PaddingCheck;
    DecodedStep(text[i..], last, bits, a, b);
    EmittedStep(text[i..], last, bits, a);
    assert text[i..][1..] == text[i + 1..];
  }

  // A character that completes a byte, which is written right behind those written before.
  lemma HalfwayWrites(buffer: seq<Byte>, text: seq<Byte>, i: nat, w: nat, last: Byte, bits: nat, a0: Alphabet,
                      a: Alphabet, b: Behavior)
    requires Halfway(buffer, text, i, w, last, bits, a0, a, b) && i < |text| && text[i] != PAD && bits + 6 >= 8
    requires Value(a, text[i]).Some?
    ensures var (part, a') := Value(a, text[i]).value;
            Halfway(buffer[w := Joined(last, part, bits)], text, i + 1, w + 1, part, bits - 2, a0, a', b)
  {
    hide Value, Decoded, Emitted, Joined, After, PaddingCheck;
    DecodedStep(text[i..], last, bits, a, b);
    EmittedStep(text[i..], last, bits, a);
    assert text[i..][1..] == text[i + 1..];
    var (part, a') := Value(a, text[i]).value;
    var byte := Joined(last, part, bits);
    var bytes := Emitted(text[i + 1..], part, bits - 2, a');
    ByteStored(buffer, text, w, byte);
    AfterByte(buffer[..w], byte, Decoded(text[i + 1..], part, bits - 2, a', b));
    Associated(buffer[..w], [byte], bytes);
  }

  lemma ByteStored(buffer: seq<Byte>, text: seq<Byte>, w: nat, byte: Byte)
    requires w < |buffer| == |text| && buffer[w..] == text[w..]
    ensures buffer[w := byte][..w + 1] == buffer[..w] + [byte] && buffer[w := byte][w + 1..] == text[w + 1..]
  {
    assert buffer[w := byte][w + 1..] == buffer[w..][1..] == text[w..][1..] == text[w + 1..];
  }

  // Where reading stops: at the end of the text, at padding or at a character that has no value.
  lemma HalfwayStops(buffer: seq<Byte>, text: seq<Byte>, i: nat, w: nat, last: Byte, bits: nat, a0: Alphabet,
                     a: Alphabet, b: Behavior)
    requires Halfway(buffer, text, i, w, last, bits, a0, a, b)
    requires i == |text| || text[i] == PAD || Value(a, text[i]).None?
    ensures Emitted(text, 0, 0, a0) == buffer[..w] && buffer == buffer[..w] + text[w..]
    ensures i == |text| ==> Decoded(text, 0, 0, a0, b) == After(buffer[..w], PaddingCheck([], b))
    ensures i < |text| && text[i] == PAD ==>
              Decoded(text, 0, 0, a0, b) == After(buffer[..w], PaddingCheck(text[i + 1..], b))
    ensures i < |text| && text[i] != PAD ==> Decoded(text, 0, 0, a0, b) == None
  {
    hide Value, Decoded, Emitted, Joined, After, PaddingCheck;
    DecodedStep(text[i..], last, bits, a, b);
    EmittedStep(text[i..], last, bits, a);
    NothingAfter(buffer[..w]);
    assert i < |text| ==> text[i..][1..] == text[i + 1..];
    assert i == |text| ==> text[i..] == [];
    assert buffer[..w] + [] == buffer[..w] && buffer == buffer[..w] + buffer[w..];
  }

  // Decoding into the buffer that holds the text. The write position never passes the read position, so
  // what is still to be read is never overwritten, and the result is that of decoding elsewhere. Also when
  // decoding fails, the buffer holds the bytes written so far and then what it held before.
  method DecodeInPlace(buffer: array<Byte>, a0: Alphabet, b: Behavior) returns (size: Option<nat>)
    modifies buffer
    ensures size.Some? ==> size.value <= buffer.Length
    ensures Decoded(old(buffer[..]), 0, 0, a0, b) == if size.Some? then Some(buffer[..size.value]) else None
    ensures var bytes := Emitted(old(buffer[..]), 0, 0, a0);
            && |bytes| <= buffer.Length && buffer[..] == bytes + old(buffer[..])[|bytes|..]
            && (size.Some? ==> size.value == |bytes|)
  {
    hide Value, Decoded, Emitted, Joined, After, PaddingCheck, Halfway;
    var a := a0;
    var last: Byte := 0;
    var bits: nat := 0;
    var i, w := 0, 0;
    ghost var text := buffer[..];
    HalfwayStarts(text, a0, b);
    while i < buffer.Length
      invariant w <= i <= buffer.Length && Halfway(buffer[..], text, i, w, last, bits, a0, a, b)
    {
      HalfwayReads(buffer[..], text, i, w, last, bits, a0, a, b);
      var c := buffer[i];
      assert c == buffer[..][i] == text[i];
      if c == PAD {
        HalfwayStops(buffer[..], text, i, w, last, bits, a0, a, b);
        size := Finish(buffer, text[i + 1..], i + 1, w, b);
        return;
      }
      var v := Value(a, c);
      if v.None? {
        HalfwayStops(buffer[..], text, i, w, last, bits, a0, a, b);
        return None;
      }
      var part := v.value.0;
      if bits + 6 >= 8 {
        HalfwayWrites(buffer[..], text, i, w, last, bits, a0, a, b);
        Store(buffer, w, Joined(last, part, bits));
        w := w + 1;
        bits := bits - 2;
      } else {
        HalfwaySkips(buffer[..], text, i, w, last, bits, a0, a, b);
        bits := bits + 6;
      }
      a := v.value.1;
      last := part;
      i := i + 1;
    }
    HalfwayReads(buffer[..], text, i, w, last, bits, a0, a, b);
    HalfwayStops(buffer[..], text, i, w, last, bits, a0, a, b);
    size := Finish(buffer, [], i, w, b);
  }

  method Store(buffer: array<Byte>, w: nat, byte: Byte)
    requires w < buffer.Length
    modifies buffer
    ensures buffer[..] == old(buffer[..])[w := byte]
  {
    buffer[w] := byte;
  }

  method Finish(buffer: array<Byte>, ghost rest: seq<Byte>, i: nat, w: nat, b: Behavior) returns (size: Option<nat>)
    requires w <= i <= buffer.Length && buffer[..][i..] == rest
    ensures size == None || size == Some(w)
    ensures After(buffer[..][..w], PaddingCheck(rest, b)) == if size.Some? then Some(buffer[..w]) else None
  {
    assert buffer[..][i..] == buffer[i..] && buffer[..][..w] == buffer[..w];
    var r := CheckPadding(buffer[i..], buffer[..w], b);
    size := if r.Some? then Some(w) else None;
    assert buffer[..w] + [] == buffer[..w];
  }

  // ---------- What decoding promises ----------

  // Reading back the sextets of three bytes.
  lemma JoinedQuad(i0: Byte, i1: Byte, i2: Byte)
    ensures Joined(First(i0), Second(i0, i1), 6) == i0
    ensures Joined(Second(i0, i1), Third(i1, i2), 4) == i1
    ensures Joined(Third(i1, i2), Fourth(i2), 2) == i2
  {
  }

  // One character of an encoding, read under any alphabet that fits.
  lemma ReadChar(written: Alphabet, v: Byte, rest: seq<Byte>, last: Byte, bits: nat, a: Alphabet,
                 b: Behavior) returns (a': Alphabet)
    requires v < 64 && Reads(a, written)
    ensures Reads(a', written)
    ensures Decoded([Char(written, v)] + rest, last, bits, a, b) ==
              if bits + 6 >= 8 then After([Joined(last, v, bits)], Decoded(rest, v, bits - 2, a', b))
              else Decoded(rest, v, bits + 6, a', b)
  {
    hide Char, Value, Joined, Decoded;
    var text := [Char(written, v)] + rest;
    ValueOfChar(a, written, v);
    DecodedStep(text, last, bits, a, b);
    assert text[1..] == rest;
    a' := Value(a, Char(written, v)).value.1;
  }

  lemma PadsEnd(n: nat, last: Byte, bits: nat, a: Alphabet, b: Behavior)
    ensures Decoded(Pads(n), last, bits, a, b) == Some([])
  {
  }

  // The decoding of an encoding is the data, under its alphabet and under automatic detection, with any
  // amount of padding.
  lemma {:induction false} BodyDecodes(data: seq<Byte>, written: Alphabet, n: nat, last: Byte, a: Alphabet, b: Behavior)
    requires Reads(a, written)
    ensures Decoded(Body(data, written) + Pads(n), last, 0, a, b) == Some(data)
    decreases |data|
  {
    hide Char, Joined, Decoded, First, Second, Third, Fourth, After, Pads;
    if data == [] {
      assert Body(data, written) + Pads(n) == Pads(n);
      PadsEnd(n, last, 0, a, b);
    } else if |data| == 1 {
      OneByte(data[0], written, n, last, a, b);
      assert data == [data[0]];
    } else if |data| == 2 {
      TwoBytes(data[0], data[1], written, n, last, a, b);
      assert data == [data[0], data[1]];
    } else {
      var rest := Body(data[3..], written) + Pads(n);
      assert Body(data, written) + Pads(n) == Quad(written, data[0], data[1], data[2]) + rest;
      var a' := ThreeBytes(data[0], data[1], data[2], rest, written, last, a, b);
      BodyDecodes(data[3..], written, n, Fourth(data[2]), a', b);
      AfterData([data[0], data[1], data[2]], data[3..]);
      assert data == [data[0], data[1], data[2]] + data[3..];
    }
  }

  lemma AfterData(x: seq<Byte>, y: seq<Byte>)
    ensures After(x, Some(y)) == Some(x + y)
  {
  }

  lemma ThreeBytes(i0: Byte, i1: Byte, i2: Byte, rest: seq<Byte>, written: Alphabet, last: Byte, a: Alphabet,
                   b: Behavior)
    returns (a': Alphabet)
    requires Reads(a, written)
    ensures Reads(a', written)
    ensures Decoded(Quad(written, i0, i1, i2) + rest, last, 0, a, b)
            == After([i0, i1, i2], Decoded(rest, Fourth(i2), 0, a', b))
  {
    hide Char, Joined, Decoded, First, Second, Third, Fourth, After, Reads;
    SextetsSmall(i0, i1, i2);
    JoinedQuad(i0, i1, i2);
    var c0, c1 := Char(written, First(i0)), Char(written, Second(i0, i1));
    var c2, c3 := Char(written, Third(i1, i2)), Char(written, Fourth(i2));
    assert Quad(written, i0, i1, i2) + rest == [c0] + ([c1] + ([c2] + ([c3] + rest)));
    var a1 := ReadChar(written, First(i0), [c1] + ([c2] + ([c3] + rest)), last, 0, a, b);
    var a2 := ReadChar(written, Second(i0, i1), [c2] + ([c3] + rest), First(i0), 6, a1, b);
    var a3 := ReadChar(written, Third(i1, i2), [c3] + rest, Second(i0, i1), 4, a2, b);
    a' := ReadChar(written, Fourth(i2), rest, Third(i1, i2), 2, a3, b);
    var tail := Decoded(rest, Fourth(i2), 0, a', b);
    AfterByte([i0, i1], i2, tail);
    AfterByte([i0], i1, After([i2], tail));
    assert [i0] + [i1] == [i0, i1] && [i0, i1] + [i2] == [i0, i1, i2];
  }

  lemma TwoBytes(i0: Byte, i1: Byte, written: Alphabet, n: nat, last: Byte, a: Alphabet, b: Behavior)
    requires Reads(a, written)
    ensures Decoded(Quad(written, i0, i1, 0)[..3] + Pads(n), last, 0, a, b) == Some([i0, i1])
  {
    hide Char, Joined, Decoded, First, Second, Third, Fourth, Reads, Pads;
    SextetsSmall(i0, i1, 0);
    JoinedQuad(i0, i1, 0);
    var c0, c1, c2 := Char(written, First(i0)), Char(written, Second(i0, i1)), Char(written, Third(i1, 0));
    assert Quad(written, i0, i1, 0)[..3] + Pads(n) == [c0] + ([c1] + ([c2] + Pads(n)));
    var a1 := ReadChar(written, First(i0), [c1] + ([c2] + Pads(n)), last, 0, a, b);
    var a2 := ReadChar(written, Second(i0, i1), [c2] + Pads(n), First(i0), 6, a1, b);
    var a3 := ReadChar(written, Third(i1, 0), Pads(n), Second(i0, i1), 4, a2, b);
    PadsEnd(n, Third(i1, 0), 2, a3, b);
    assert [i0] + ([i1] + []) == [i0, i1];
  }

  lemma OneByte(i0: Byte, written: Alphabet, n: nat, last: Byte, a: Alphabet, b: Behavior)
    requires Reads(a, written)
    ensures Decoded(Quad(written, i0, 0, 0)[..2] + Pads(n), last, 0, a, b) == Some([i0])
  {
    hide Char, Joined, Decoded, First, Second, Third, Fourth, Reads, Pads;
    SextetsSmall(i0, 0, 0);
    JoinedQuad(i0, 0, 0);
    var c0, c1 := Char(written, First(i0)), Char(written, Second(i0, 0));
    assert Quad(written, i0, 0, 0)[..2] + Pads(n) == [c0] + ([c1] + Pads(n));
    var a1 := ReadChar(written, First(i0), [c1] + Pads(n), last, 0, a, b);
    var a2 := ReadChar(written, Second(i0, 0), Pads(n), First(i0), 6, a1, b);
    PadsEnd(n, Second(i0, 0), 4, a2, b);
    assert [i0] + [] == [i0];
  }

  lemma RoundTrip(data: seq<Byte>, written: Alphabet, a: Alphabet, b: Behavior)
    requires Reads(a, written)
    ensures Decoded(Encoded(data, written), 0, 0, a, b) == Some(data)
  {
    hide Decoded;
    BodyDecodes(data, written, Padding(|data|), 0, a, b);
  }

  // Automatic detection accepts what one of the two alphabets accepts, with the same bytes.
  lemma {:induction false} AutoIsUnion(text: seq<Byte>, last: Byte, bits: nat, b: Behavior)
    ensures var auto_ := Decoded(text, last, bits, Auto, b);
            var std, url := Decoded(text, last, bits, Standard, b), Decoded(text, last, bits, UrlFilenameSafe, b);
            && auto_ == (if std.Some? then std else url)
            && (std.Some? && url.Some? ==> std == url)
    decreases |text|
  {
    hide Joined, Decoded, After, PaddingCheck, Value;
    DecodedStep(text, last, bits, Auto, b);
    DecodedStep(text, last, bits, Standard, b);
    DecodedStep(text, last, bits, UrlFilenameSafe, b);
    if text != [] && text[0] != PAD {
      ValuesAgree(text[0]);
      var v := Value(Auto, text[0]);
      if v.Some? && v.value.1 == Auto {
        AutoIsUnion(text[1..], v.value.0, if bits + 6 >= 8 then bits - 2 else bits + 6, b);
        if bits + 6 >= 8 {
          AfterAgrees([Joined(last, v.value.0, bits)], Decoded(text[1..], v.value.0, bits - 2, Standard, b),
                      Decoded(text[1..], v.value.0, bits - 2, UrlFilenameSafe, b));
        }
      }
    }
  }

  // A character means the same in both alphabets, or is settled by automatic detection.
  lemma ValuesAgree(c: Byte)
    ensures var auto_, std, url := Value(Auto, c), Value(Standard, c), Value(UrlFilenameSafe, c);
            || (auto_.None? && std.None? && url.None?)
            || (auto_.Some? && auto_.value.1 == Auto
                && std == Some((auto_.value.0, Standard)) && url == Some((auto_.value.0, UrlFilenameSafe)))
            || (auto_.Some? && auto_.value.1 == Standard && std == auto_ && url.None?)
            || (auto_.Some? && auto_.value.1 == UrlFilenameSafe && url == auto_ && std.None?)
  {
  }

  lemma AfterAgrees(out: seq<Byte>, x: Option<seq<Byte>>, y: Option<seq<Byte>>)
    ensures After(out, if x.Some? then x else y) == if After(out, x).Some? then After(out, x) else After(out, y)
    ensures After(out, x).Some? <==> x.Some?
    ensures After(out, y).Some? <==> y.Some?
  {
  }

  function MaxDecodeSize(size: nat): nat {
    (size / 4 + (if size % 4 != 0 then 1 else 0)) * 3
  }

  // The output never exceeds the size that callers reserve.
  lemma DecodedSize(text: seq<Byte>, a: Alphabet, b: Behavior)
    ensures var r := Decoded(text, 0, 0, a, b); r.Some? ==> |r.value| <= MaxDecodeSize(|text|)
  {
    DecodedLength(text, 0, 0, a, b);
  }

  lemma {:induction false} DecodedLength(text: seq<Byte>, last: Byte, bits: nat, a: Alphabet, b: Behavior)
    requires Phase(bits)
    ensures var r := Decoded(text, last, bits, a, b); r.Some? ==> 8 * |r.value| <= 6 * |text| + bits
    decreases |text|
  {
    hide Joined, Decoded, PaddingCheck, Value;
    DecodedStep(text, last, bits, a, b);
    PaddingIsEmpty(if text == [] then [] else text[1..], b);
    PaddingIsEmpty([], b);
    if text != [] && text[0] != PAD && Value(a, text[0]).Some? {
      var v := Value(a, text[0]).value;
      DecodedLength(text[1..], v.0, if bits + 6 >= 8 then bits - 2 else bits + 6, v.1, b);
    }
  }

  predicate Phase(bits: nat) {
    bits == 0 || bits == 2 || bits == 4 || bits == 6
  }

  lemma PaddingIsEmpty(rest: seq<Byte>, b: Behavior)
    ensures PaddingCheck(rest, b).Some? ==> PaddingCheck(rest, b).value == []
  {
  }

  // What moderate decoding accepts, loose decoding accepts with the same bytes.
  lemma {:induction false} LooseExtends(text: seq<Byte>, last: Byte, bits: nat, a: Alphabet)
    ensures var r := Decoded(text, last, bits, a, Moderate); r.Some? ==> Decoded(text, last, bits, a, Loose) == r
    decreases |text|
  {
    hide Joined, Decoded, Value;
    DecodedStep(text, last, bits, a, Moderate);
    DecodedStep(text, last, bits, a, Loose);
    if text != [] && text[0] != PAD && Value(a, text[0]).Some? {
      var v := Value(a, text[0]).value;
      LooseExtends(text[1..], v.0, if bits + 6 >= 8 then bits - 2 else bits + 6, v.1);
    }
  }

  // ---------- What decoding accepts ----------

  // How many characters come before the first padding character.
  function Unpadded(text: seq<Byte>): (n: nat)
    ensures n <= |text| && PAD !in text[..n] && (n < |text| ==> text[n] == PAD)
  {
    if text == [] || text[0] == PAD then 0 else 1 + Unpadded(text[1..])
  }

  // The character is one of an alphabet.
  ghost predicate Belongs(a: Alphabet, c: Byte) {
    exists v: Byte :: v < 64 && Char(a, v) == c
  }

  // A value is that of the one character that is written for it.
  lemma CharOfValue(a: Alphabet, c: Byte)
    requires a != Auto
    ensures Value(a, c).Some? ==>
              var (v, a') := Value(a, c).value; v < 64 && Char(a, v) == c && a' == a
    ensures Value(a, c).Some? <==> Belongs(a, c)
  {
    if Belongs(a, c) {
      var v: Byte :| v < 64 && Char(a, v) == c;
      ValueOfChar(a, a, v);
    }
  }

  // Under one alphabet exactly those texts are accepted whose characters before the padding belong to it and, in
  // moderate decoding, that have nothing but padding behind them; six bits of each character are used for bytes.
  lemma {:induction false} AcceptedExactly(text: seq<Byte>, last: Byte, bits: nat, a: Alphabet, b: Behavior)
    requires a != Auto && Phase(bits)
    ensures var n := Unpadded(text); var r := Decoded(text, last, bits, a, b);
            && (r.Some? <==> (forall i :: 0 <= i < n ==> Belongs(a, text[i])) && (b == Loose || OnlyPads(text[n..])))
            && (r.Some? ==> |r.value| == (6 * n + bits) / 8)
    decreases |text|
  {
    hide Joined, Decoded, Value, Belongs, Char, PaddingCheck;
    var n := Unpadded(text);
    DecodedStep(text, last, bits, a, b);
    PaddingIsEmpty(if text == [] then [] else text[1..], b);
    PaddingIsEmpty([], b);
    if n > 0 {
      CharOfValue(a, text[0]);
      assert text[1..][n - 1..] == text[n..];
      assert forall i :: 0 < i < n ==> text[i] == text[1..][i - 1];
      if Value(a, text[0]).Some? {
        AcceptedExactly(text[1..], Value(a, text[0]).value.0, if bits + 6 >= 8 then bits - 2 else bits + 6, a, b);
      }
    } else {
      PadsBehind(text, b);
    }
  }

  // At the first padding character, or at the end, the check of the padding decides.
  lemma PadsBehind(text: seq<Byte>, b: Behavior)
    requires Unpadded(text) == 0
    ensures PaddingCheck(if text == [] then [] else text[1..], b).Some? <==> b == Loose || OnlyPads(text[0..])
  {
    assert text[0..] == text;
    if text != [] {
      assert text == [PAD] + text[1..];
    }
  }

  // The sextets of the bytes that four sextets make.
  lemma QuadJoined(v0: Byte, v1: Byte, v2: Byte, v3: Byte)
    requires v0 < 64 && v1 < 64 && v2 < 64 && v3 < 64
    ensures var i0, i1, i2 := Joined(v0, v1, 6), Joined(v1, v2, 4), Joined(v2, v3, 2);
            First(i0) == v0 && Second(i0, i1) == v1 && Third(i1, i2) == v2 && Fourth(i2) == v3
  {
  }

  // Whole groups of four characters that are accepted are the encoding of what they decode to.
  lemma {:induction false} DecodedEncodes(text: seq<Byte>, last: Byte, a: Alphabet, b: Behavior)
    requires a != Auto && |text| % 4 == 0 && PAD !in text && Decoded(text, last, 0, a, b).Some?
    ensures Body(Decoded(text, last, 0, a, b).value, a) == text
    decreases |text|
  {
    hide Decoded, Quad;
    if text == [] {
      DecodedStep(text, last, 0, a, b);
    } else {
      var i0, i1, i2, v := FourBack(text, last, a, b);
      DecodedEncodes(text[4..], v, a, b);
      var rest := Decoded(text[4..], v, 0, a, b).value;
      assert ([i0, i1, i2] + rest)[3..] == rest;
      assert text == text[..4] + text[4..];
    }
  }

  // Four characters that are accepted make three bytes, whose encoding they are.
  lemma FourBack(text: seq<Byte>, last: Byte, a: Alphabet, b: Behavior)
    returns (i0: Byte, i1: Byte, i2: Byte, v: Byte)
    requires a != Auto && |text| >= 4 && PAD !in text && Decoded(text, last, 0, a, b).Some?
    ensures Quad(a, i0, i1, i2) == text[..4]
    ensures Decoded(text, last, 0, a, b) == After([i0, i1, i2], Decoded(text[4..], v, 0, a, b))
  {
    hide Joined, Decoded, Char, First, Second, Third, Fourth, After;
    var v0 := ReadBack(text, last, 0, a, b);
    var v1 := ReadBack(text[1..], v0, 6, a, b);
    i0 := Joined(v0, v1, 6);
    AfterSome([i0], Decoded(text[2..], v1, 4, a, b));
    var v2 := ReadBack(text[2..], v1, 4, a, b);
    i1 := Joined(v1, v2, 4);
    AfterSome([i1], Decoded(text[3..], v2, 2, a, b));
    v := ReadBack(text[3..], v2, 2, a, b);
    i2 := Joined(v2, v, 2);
    var tail := Decoded(text[4..], v, 0, a, b);
    AfterByte([i0, i1], i2, tail);
    AfterByte([i0], i1, After([i2], tail));
    assert [i0] + [i1] == [i0, i1] && [i0, i1] + [i2] == [i0, i1, i2];
    QuadJoined(v0, v1, v2, v);
    assert text[..4] == [text[0], text[1], text[2], text[3]];
  }

  lemma AfterSome(out: seq<Byte>, rest: Option<seq<Byte>>)
    ensures After(out, rest).Some? <==> rest.Some?
  {
  }

  // One character that is accepted.
  lemma ReadBack(text: seq<Byte>, last: Byte, bits: nat, a: Alphabet, b: Behavior) returns (v: Byte)
    requires a != Auto && text != [] && PAD !in text && Decoded(text, last, bits, a, b).Some?
    ensures v < 64 && Char(a, v) == text[0]
    ensures Decoded(text, last, bits, a, b) ==
              if bits + 6 >= 8 then After([Joined(last, v, bits)], Decoded(text[1..], v, bits - 2, a, b))
              else Decoded(text[1..], v, bits + 6, a, b)
  {
    hide Joined, Decoded, Value, Char, Belongs;
    DecodedStep(text, last, bits, a, b);
    CharOfValue(a, text[0]);
    v := Value(a, text[0]).value.0;
  }

  // The bytes of the beginning of a text are the first bytes of the whole.
  lemma {:induction false} DecodedPrefix(x: seq<Byte>, y: seq<Byte>, last: Byte, bits: nat, a: Alphabet, b: Behavior)
    requires PAD !in x && Decoded(x + y, last, bits, a, b).Some?
    ensures Decoded(x, last, bits, a, b).Some?
    ensures Decoded(x, last, bits, a, b).value <= Decoded(x + y, last, bits, a, b).value
    decreases |x|
  {
    hide Joined, Decoded, Value, PaddingCheck;
    DecodedStep(x, last, bits, a, b);
    DecodedStep(x + y, last, bits, a, b);
    PaddingIsEmpty([], b);
    NoPadding(b);
    if x != [] {
      assert (x + y)[1..] == x[1..] + y;
      var v := Value(a, x[0]).value;
      DecodedPrefix(x[1..], y, v.0, if bits + 6 >= 8 then bits - 2 else bits + 6, v.1, b);
    }
  }

  lemma NoPadding(b: Behavior)
    ensures PaddingCheck([], b).Some?
  {
  }

  // ---------- Test vectors (section 10 of RFC 4648) ----------

  // f, fo, foo and foobar; and two bytes that show the alphabets apart.
  lemma Vectors()
    ensures Encoded([102], Standard) == [90, 103, 61, 61]
    ensures Encoded([102, 111], Standard) == [90, 109, 56, 61]
    ensures Encoded([102, 111, 111], Standard) == [90, 109, 57, 118]
    ensures Encoded([102, 111, 111, 98, 97, 114], Standard) == [90, 109, 57, 118, 89, 109, 70, 121]
    ensures Encoded([251, 255], Standard) == [43, 47, 56, 61]
    ensures Encoded([251, 255], UrlFilenameSafe) == [45, 95, 56, 61]
  {
  }
}
