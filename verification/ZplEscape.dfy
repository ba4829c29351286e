/** Field data of a ZPL label: the escaper, the decoder, and the proof that they are mutual inverses. */
module ZplEscape {
  import opened Common
  import opened Text
  import opened Utf8

  /** The characters that field data must escape: the two ZPL prefixes and the escape indicator itself. */
  predicate Special(c: char) {
    c == '^' || c == '~' || c == '_'
  }

  /** Unicode categories Cc and Cf, which field data may not contain; the backslash is in neither. */
  type Control = f: char -> bool | !f('\\') witness (c => false)

  predicate Printable(control: Control, s: string) {
    forall i :: 0 <= i < |s| ==> !control(s[i])
  }

  function HexDigit(n: nat): char
    requires n < 16
  {
    if n < 10 then '0' + n as char else 'A' + (n - 10) as char
  }

  // ----- escaping, byte by byte -----

  predicate SpecialByte(b: Byte) {
    b == 0x5E || b == 0x7E || b == 0x5F
  }

  function EscapeByte(b: Byte): Bytes {
    if SpecialByte(b) then ['_' as int, HexDigit(b / 16) as int, HexDigit(b % 16) as int] else [b]
  }

  function EscapeBytes(bytes: Bytes): Bytes {
    if bytes == [] then [] else EscapeByte(bytes[0]) + EscapeBytes(bytes[1..])
  }

  function DoubleBackslashes(s: string): string {
    if s == "" then "" else (if s[0] == '\\' then "\\\\" else [s[0]]) + DoubleBackslashes(s[1..])
  }

  function Prepared(value: string, dataMatrix: bool): string {
    if dataMatrix then DoubleBackslashes(value) else value
  }

  /** The escaper of the source, which works on the UTF-8 bytes of the value. */
  function EscapeField(control: Control, value: string, dataMatrix: bool): Result<string, ()> {
    if !Printable(control, value) then Err(())
    else
      match Decode(EscapeBytes(Encode(Prepared(value, dataMatrix))))
      case None => Err(())
      case Some(text) => Ok(text)
  }

  // ----- escaping, character by character -----

  function EscapeChar(c: char): string {
    if c == '^' then "_5E" else if c == '~' then "_7E" else if c == '_' then "_5F" else [c]
  }

  function EscapeText(s: string): string {
    if s == "" then "" else EscapeChar(s[0]) + EscapeText(s[1..])
  }

  lemma {:induction false} EscapeBytesGlue(a: Bytes, b: Bytes)
    ensures EscapeBytes(a + b) == EscapeBytes(a) + EscapeBytes(b)
    decreases |a|
  {
    if a == [] {
      assert a + b == b;
    } else {
      EscapeBytesGlue(a[1..], b);
      assert (a + b)[1..] == a[1..] + b;
    }
  }

  lemma {:induction false} PlainBytes(bytes: Bytes)
    requires forall i :: 0 <= i < |bytes| ==> !SpecialByte(bytes[i])
    ensures EscapeBytes(bytes) == bytes
    decreases |bytes|
  {
    if bytes != [] {
      PlainBytes(bytes[1..]);
      assert bytes == [bytes[0]] + bytes[1..];
    }
  }

  lemma AsciiTriple(a: char, b: char, c: char)
    requires (a as int) < 128 && (b as int) < 128 && (c as int) < 128
    ensures Encode([a, b, c]) == [a as int, b as int, c as int]
  {
    EncodeSingle(a);
    EncodeSingle(b);
    EncodeSingle(c);
    EncodeGlue([b], [c]);
    EncodeGlue([a], [b, c]);
    assert [b] + [c] == [b, c] && [a] + [b, c] == [a, b, c];
  }

  lemma EncodeSingle(c: char)
    ensures Encode([c]) == Utf8.EncodeChar(c)
  {
    assert [c][1..] == "";
  }

  lemma EscapeCharBytes(c: char)
    ensures EscapeBytes(Utf8.EncodeChar(c)) == Encode(EscapeChar(c))
  {
    if Special(c) {
      var b := c as int;
      assert Utf8.EncodeChar(c) == [b] && [b][1..] == [];
      assert EscapeBytes([b]) == EscapeByte(b);
      AsciiTriple(EscapeChar(c)[0], EscapeChar(c)[1], EscapeChar(c)[2]);
    } else {
      PlainBytes(Utf8.EncodeChar(c));
      EncodeSingle(c);
    }
  }

  /** Escaping the bytes of a text is escaping its characters: multi-byte characters are never touched. */
  lemma {:induction false} BytesRefineCharacters(s: string)
    ensures EscapeBytes(Encode(s)) == Encode(EscapeText(s))
    decreases |s|
  {
    if s != "" {
      EscapeBytesGlue(Utf8.EncodeChar(s[0]), Encode(s[1..]));
      EscapeCharBytes(s[0]);
      BytesRefineCharacters(s[1..]);
      EncodeGlue(EscapeChar(s[0]), EscapeText(s[1..]));
    }
  }

  lemma EscapeFieldIsText(control: Control, value: string, dataMatrix: bool)
    ensures EscapeField(control, value, dataMatrix) ==
            if Printable(control, value) then Ok(EscapeText(Prepared(value, dataMatrix))) else Err(())
  {
    BytesRefineCharacters(Prepared(value, dataMatrix));
    DecodeOfEncode(EscapeText(Prepared(value, dataMatrix)));
  }

  // ----- decoding -----

  predicate IsHex(c: char) {
    '0' <= c <= '9' || 'A' <= c <= 'F'
  }

  function HexValue(c: char): (n: nat)
    requires IsHex(c)
    ensures n < 16
  {
    if c <= '9' then c as int - '0' as int else c as int - 'A' as int + 10
  }

  /** The length of the first unit of escaped text and the character it stands for. */
  function Unit(s: string): (r: Option<(nat, char)>)
    requires s != ""
    ensures r.Some? ==> 1 <= r.value.0 <= |s|
  {
    if s[0] == '_' then
      if |s| >= 3 && IsHex(s[1]) && IsHex(s[2]) && SpecialByte(HexValue(s[1]) * 16 + HexValue(s[2]))
      then Some((3, (HexValue(s[1]) * 16 + HexValue(s[2])) as char))
      else None
    else if s[0] == '^' || s[0] == '~' then None
    else Some((1, s[0]))
  }

  function Unescape(s: string): Option<string>
    decreases |s|
  {
    if s == "" then Some("")
    else if Unit(s).None? then None
    else
      var (n, c) := Unit(s).value;
      match Unescape(s[n..])
      case None => None
      case Some(rest) => Some([c] + rest)
  }

  function Undouble(s: string): Option<string>
    decreases |s|
  {
    if s == "" then Some("")
    else if s[0] == '\\' && !("\\\\" <= s) then None
    else
      match Undouble(s[if s[0] == '\\' then 2 else 1..])
      case None => None
      case Some(rest) => Some([s[0]] + rest)
  }

  /** What the decoder of the source computes, or nothing where it raises an error. */
  function Decoded(control: Control, source: string, dataMatrix: bool): Option<string> {
    match Unescape(source)
    case None => None
    case Some(text) =>
      if !Printable(control, text) then None
      else if dataMatrix then Undouble(text) else Some(text)
  }

  // ----- mutual inverses -----

  lemma UnitOfEscape(c: char, rest: string)
    ensures EscapeChar(c) + rest != ""
    ensures Unit(EscapeChar(c) + rest) == Some((|EscapeChar(c)|, c))
  {
  }

  lemma EscapeOfUnit(s: string)
    requires s != "" && Unit(s).Some?
    ensures EscapeChar(Unit(s).value.1) == s[..Unit(s).value.0]
  {
    var (n, c) := Unit(s).value;
    if n == 3 {
      var high, low := HexValue(s[1]), HexValue(s[2]);
      assert high in {5, 7};
      assert s[..3] == [s[0], s[1], s[2]];
    }
  }

  lemma {:induction false} UnescapeOfEscape(s: string)
    ensures Unescape(EscapeText(s)) == Some(s)
    decreases |s|
  {
    if s != "" {
      var head, rest := EscapeChar(s[0]), EscapeText(s[1..]);
      UnitOfEscape(s[0], rest);
      assert (head + rest)[|head|..] == rest;
      UnescapeOfEscape(s[1..]);
      assert s == [s[0]] + s[1..];
    }
  }

  /** The first unit of escaped text and the text after it. */
  lemma UnescapeUncons(s: string, text: string) returns (c: char, head: string, rest: string)
    requires s != "" && Unescape(s) == Some(text)
    ensures text != "" && c == text[0] && s == head + rest && head == EscapeChar(c) && Unescape(rest) == Some(text[1..])
  {
    var n := Unit(s).value.0;
    c, head, rest := Unit(s).value.1, s[..n], s[n..];
    EscapeOfUnit(s);
    assert ([c] + Unescape(rest).value)[1..] == Unescape(rest).value;
  }

  lemma {:induction false} EscapeOfUnescape(s: string, text: string)
    requires Unescape(s) == Some(text)
    ensures EscapeText(text) == s
    decreases |s|
  {
    if s != "" {
      var c, head, rest := UnescapeUncons(s, text);
      EscapeOfUnescape(rest, text[1..]);
    }
  }

  lemma {:induction false} UndoubleOfDouble(s: string)
    ensures Undouble(DoubleBackslashes(s)) == Some(s)
    decreases |s|
  {
    if s != "" {
      var head, rest := if s[0] == '\\' then "\\\\" else [s[0]], DoubleBackslashes(s[1..]);
      assert (head + rest)[|head|..] == rest;
      UndoubleOfDouble(s[1..]);
      assert s == [s[0]] + s[1..];
    }
  }

  lemma {:induction false} DoubleOfUndouble(s: string)
    requires Undouble(s).Some?
    ensures DoubleBackslashes(Undouble(s).value) == s
    decreases |s|
  {
    if s != "" {
      var n := if s[0] == '\\' then 2 else 1;
      DoubleOfUndouble(s[n..]);
      DoubleHead(s[0], Undouble(s[n..]).value);
      assert s[..n] == if s[0] == '\\' then "\\\\" else [s[0]];
      Cut(s, n);
    }
  }

  lemma DoubleHead(c: char, rest: string)
    ensures DoubleBackslashes([c] + rest) == (if c == '\\' then "\\\\" else [c]) + DoubleBackslashes(rest)
  {
    assert ([c] + rest)[1..] == rest;
  }

  lemma {:induction false} DoubleKeepsPrintable(control: Control, s: string)
    ensures Printable(control, DoubleBackslashes(s)) <==> Printable(control, s)
    decreases |s|
  {
    if s != "" {
      var head, rest := if s[0] == '\\' then "\\\\" else [s[0]], DoubleBackslashes(s[1..]);
      DoubleKeepsPrintable(control, s[1..]);
      PrintableGlue(control, head, rest);
      PrintableGlue(control, [s[0]], s[1..]);
      assert s == [s[0]] + s[1..];
    }
  }

  lemma PrintableGlue(control: Control, a: string, b: string)
    ensures Printable(control, a + b) <==> Printable(control, a) && Printable(control, b)
  {
    assert forall i :: 0 <= i < |a| ==> (a + b)[i] == a[i];
    assert forall i :: 0 <= i < |b| ==> (a + b)[|a| + i] == b[i];
  }

  /** The escaper and the decoder are mutual inverses between printable values and accepted field sources. */
  lemma EscapeIsBijection(control: Control, value: string, source: string, dataMatrix: bool)
    ensures EscapeField(control, value, dataMatrix) == Ok(source)
       <==> Decoded(control, source, dataMatrix) == Some(value)
  {
    EscapeFieldIsText(control, value, dataMatrix);
    DoubleKeepsPrintable(control, value);
    if EscapeField(control, value, dataMatrix) == Ok(source) {
      UnescapeOfEscape(Prepared(value, dataMatrix));
      UndoubleOfDouble(value);
    }
    if Decoded(control, source, dataMatrix) == Some(value) {
      EscapeOfUnescape(source, Unescape(source).value);
      if dataMatrix {
        DoubleOfUndouble(Unescape(source).value);
      }
    }
  }

  /** Escaped text contains no command prefix, so it cannot end its field early. */
  lemma {:induction false} EscapedIsPlain(s: string)
    ensures '^' !in EscapeText(s) && '~' !in EscapeText(s)
    decreases |s|
  {
    if s != "" {
      EscapedIsPlain(s[1..]);
    }
  }

  // ----- the decoder of the source -----

  function Prefixed(done: string, rest: Option<string>): Option<string> {
    match rest
    case None => None
    case Some(text) => Some(done + text)
  }

  lemma UnescapeStep(value: string, offset: nat, done: string)
    requires offset < |value|
    ensures
      var unit := Unit(value[offset..]);
      Prefixed(done, Unescape(value[offset..])) ==
      if unit.None? then None else Prefixed(done + [unit.value.1], Unescape(value[offset + unit.value.0..]))
  {
    var s := value[offset..];
    if Unit(s).Some? {
      var (n, c) := Unit(s).value;
      assert s[n..] == value[offset + n..];
      if Unescape(s[n..]).Some? {
        var rest := Unescape(s[n..]).value;
        assert done + ([c] + rest) == done + [c] + rest;
      }
    }
  }

  /** The unit at an offset, read character by character. */
  lemma UnitAt(value: string, offset: nat)
    requires offset < |value|
    ensures value[offset] == '_' ==>
      Unit(value[offset..]) ==
      if offset + 3 <= |value| && IsHex(value[offset + 1]) && IsHex(value[offset + 2])
         && SpecialByte(HexValue(value[offset + 1]) * 16 + HexValue(value[offset + 2]))
      then Some((3, (HexValue(value[offset + 1]) * 16 + HexValue(value[offset + 2])) as char))
      else None
    ensures value[offset] != '_' ==>
      Unit(value[offset..]) == if value[offset] == '^' || value[offset] == '~' then None else Some((1, value[offset]))
  {
  }

  lemma EncodeAppend(s: string, c: char)
    ensures Encode(s + [c]) == Encode(s) + Utf8.EncodeChar(c)
  {
    EncodeGlue(s, [c]);
    EncodeSingle(c);
  }

  /** The first loop of the source: it gathers the bytes that the escaped text stands for. */
  method GatherBytes(value: string) returns (r: Result<Bytes, ()>, ghost text: string)
    ensures r.Err? <==> Unescape(value).None?
    ensures r.Ok? ==> Unescape(value) == Some(text) && r.value == Encode(text)
  {
    var data: Bytes, offset := [], 0;
    text := "";
    assert value[0..] == value;
    assert Unescape(value).Some? ==> "" + Unescape(value).value == Unescape(value).value;
    while offset < |value|
      invariant 0 <= offset <= |value|
      invariant data == Encode(text)
      invariant Unescape(value) == Prefixed(text, Unescape(value[offset..]))
      decreases |value| - offset
    {
      UnescapeStep(value, offset, text);
      UnitAt(value, offset);
      var c := value[offset];
      if c == '_' {
        var token := value[offset + 1..if offset + 3 <= |value| then offset + 3 else |value|];
        if |token| != 2 || !IsHex(token[0]) || !IsHex(token[1]) {
          return Err(()), text;
        }
        var byte := HexValue(token[0]) * 16 + HexValue(token[1]);
        if !SpecialByte(byte) {
          return Err(()), text;
        }
        EncodeAppend(text, byte as char);
        data, text, offset := data + [byte], text + [byte as char], offset + 3;
      } else {
        if c == '^' || c == '~' {
          return Err(()), text;
        }
        EncodeAppend(text, c);
        data, text, offset := data + Utf8.EncodeChar(c), text + [c], offset + 1;
      }
    }
    assert text + "" == text;
    return Ok(data), text;
  }

  /** Non-overlapping replacement of doubled backslashes, from the left. */
  function ReplacePairs(s: string): string
    decreases |s|
  {
    if s == "" then ""
    else if "\\\\" <= s then "\\" + ReplacePairs(s[2..])
    else [s[0]] + ReplacePairs(s[1..])
  }

  lemma {:induction false} ReplaceIsUndouble(s: string)
    requires Undouble(s).Some?
    ensures Undouble(s) == Some(ReplacePairs(s))
    decreases |s|
  {
    if s != "" {
      ReplaceIsUndouble(s[if s[0] == '\\' then 2 else 1..]);
    }
  }

  /** The second loop of the source: every backslash must be doubled. */
  method CheckDoubled(text: string) returns (ok: bool)
    ensures ok <==> Undouble(text).Some?
  {
    var offset := 0;
    assert text[0..] == text;
    while offset < |text|
      invariant 0 <= offset <= |text|
      invariant Undouble(text).Some? <==> Undouble(text[offset..]).Some?
      decreases |text| - offset
    {
      var rest := text[offset..];
      if text[offset] == '\\' {
        if !("\\\\" <= rest) {
          return false;
        }
        assert rest[2..] == text[offset + 2..];
        offset := offset + 1;
      } else {
        assert rest[1..] == text[offset + 1..];
      }
      offset := offset + 1;
    }
    return true;
  }

  /** The decoder of the source, which works on bytes and checks the text in a second pass. */
  method DecodeField(control: Control, value: string, dataMatrix: bool) returns (r: Result<string, ()>)
    ensures r == match Decoded(control, value, dataMatrix) case None => Err(()) case Some(text) => Ok(text)
  {
    var data, gathered := GatherBytes(value);
    if data.Err? {
      return Err(());
    }
    DecodeOfEncode(gathered);
    // The gathered bytes are always well-formed.
    var text := Decode(data.value).value;
    if !Printable(control, text) {
      return Err(());
    }
    if !dataMatrix {
      return Ok(text);
    }
    var doubled := CheckDoubled(text);
    if !doubled {
      return Err(());
    }
    ReplaceIsUndouble(text);
    return Ok(ReplacePairs(text));
  }
}
