/** UTF-8 with strict decoding: shortest forms only, and no surrogates. */
module Utf8 {
  import opened Common

  function EncodeChar(c: char): (bytes: Bytes)
    ensures 1 <= |bytes| <= 4
    ensures (c as int) < 128 ==> bytes == [c as int]
    ensures (c as int) >= 128 ==> forall i :: 0 <= i < |bytes| ==> bytes[i] >= 128
  {
    var n := c as int;
    if n < 0x80 then [n]
    else if n < 0x800 then [0xC0 + n / 64, 0x80 + n % 64]
    else if n < 0x10000 then [0xE0 + n / 4096, 0x80 + n / 64 % 64, 0x80 + n % 64]
    else [0xF0 + n / 262144, 0x80 + n / 4096 % 64, 0x80 + n / 64 % 64, 0x80 + n % 64]
  }

  function Encode(s: string): Bytes {
    if s == "" then [] else EncodeChar(s[0]) + Encode(s[1..])
  }

  predicate Continuation(b: Byte) {
    0x80 <= b < 0xC0
  }

  predicate Scalar(n: int) {
    0 <= n < 0xD800 || 0xE000 <= n < 0x110000
  }

  /** Six more bits, from a continuation byte. */
  function Bits(high: int, low: int): (n: int)
    ensures 0x80 <= low < 0xC0 ==> n / 64 == high && n % 64 == low - 0x80
  {
    high * 64 + (low - 0x80)
  }

  /** The character at the front of `b` and the number of its bytes. */
  function DecodeChar(b: Bytes): (r: Option<(char, nat)>)
    requires b != []
    ensures r.Some? ==> 1 <= r.value.1 <= |b|
  {
    if b[0] < 0x80 then
      Some((b[0] as char, 1))
    else if 0xC0 <= b[0] < 0xE0 && |b| >= 2 && Continuation(b[1]) then
      var n := Bits(b[0] - 0xC0, b[1]);
      if n >= 0x80 then Some((n as char, 2)) else None
    else if 0xE0 <= b[0] < 0xF0 && |b| >= 3 && Continuation(b[1]) && Continuation(b[2]) then
      var n := Bits(Bits(b[0] - 0xE0, b[1]), b[2]);
      if n >= 0x800 && Scalar(n) then Some((n as char, 3)) else None
    else if 0xF0 <= b[0] < 0xF8 && |b| >= 4 && Continuation(b[1]) && Continuation(b[2]) && Continuation(b[3]) then
      var n := Bits(Bits(Bits(b[0] - 0xF0, b[1]), b[2]), b[3]);
      if n >= 0x10000 && Scalar(n) then Some((n as char, 4)) else None
    else None
  }

  function Decode(b: Bytes): Option<string>
    decreases |b|
  {
    if b == [] then Some("")
    else
      match DecodeChar(b)
      case None => None
      case Some((c, n)) =>
        match Decode(b[n..])
        case None => None
        case Some(rest) => Some([c] + rest)
  }

  lemma BitsOf(n: nat)
    ensures Bits(n / 64, 0x80 + n % 64) == n
    ensures Bits(n / 4096, 0x80 + n / 64 % 64) == n / 64
    ensures Bits(n / 262144, 0x80 + n / 4096 % 64) == n / 4096
  {
  }

  lemma DecodeThree(c: char, rest: Bytes)
    requires 0x800 <= c as int < 0x10000
    ensures DecodeChar(EncodeChar(c) + rest) == Some((c, |EncodeChar(c)|))
  {
    var n := c as int;
    BitsOf(n);
    assert EncodeChar(c) + rest == [0xE0 + n / 4096, 0x80 + n / 64 % 64, 0x80 + n % 64] + rest;
  }

  lemma DecodeFour(c: char, rest: Bytes)
    requires 0x10000 <= c as int
    ensures DecodeChar(EncodeChar(c) + rest) == Some((c, |EncodeChar(c)|))
  {
    var n := c as int;
    BitsOf(n);
    assert EncodeChar(c) + rest == [0xF0 + n / 262144, 0x80 + n / 4096 % 64, 0x80 + n / 64 % 64, 0x80 + n % 64] + rest;
  }

  /** Every character is read back from its own encoding, whatever follows. */
  lemma DecodeCharOfEncode(c: char, rest: Bytes)
    ensures DecodeChar(EncodeChar(c) + rest) == Some((c, |EncodeChar(c)|))
  {
    if c as int >= 0x10000 {
      DecodeFour(c, rest);
    } else if c as int >= 0x800 {
      DecodeThree(c, rest);
    } else {
      BitsOf(c as int);
    }
  }

  /** What is read as a character is that character's encoding. */
  lemma EncodeOfDecodeChar(b: Bytes)
    requires b != [] && DecodeChar(b).Some?
    ensures EncodeChar(DecodeChar(b).value.0) == b[..DecodeChar(b).value.1]
  {
  }

  lemma {:induction false} DecodeOfEncode(s: string)
    ensures Decode(Encode(s)) == Some(s)
    decreases |s|
  {
    if s != "" {
      var c, rest := s[0], Encode(s[1..]);
      DecodeCharOfEncode(c, rest);
      assert (EncodeChar(c) + rest)[|EncodeChar(c)|..] == rest;
      DecodeOfEncode(s[1..]);
      assert s == [c] + s[1..];
    }
  }

  /** The first character of decoded text, with its bytes and the bytes after it. */
  lemma DecodeUncons(b: Bytes, s: string) returns (c: char, head: Bytes, rest: Bytes)
    requires b != [] && Decode(b) == Some(s)
    ensures s != "" && c == s[0] && b == head + rest && head == EncodeChar(c) && Decode(rest) == Some(s[1..])
  {
    var n := DecodeChar(b).value.1;
    c, head, rest := DecodeChar(b).value.0, b[..n], b[n..];
    EncodeOfDecodeChar(b);
    assert ([c] + Decode(rest).value)[1..] == Decode(rest).value;
  }

  lemma {:induction false} EncodeOfDecode(b: Bytes, s: string)
    requires Decode(b) == Some(s)
    ensures Encode(s) == b
    decreases |b|
  {
    if b != [] {
      var c, head, rest := DecodeUncons(b, s);
      EncodeOfDecode(rest, s[1..]);
    }
  }

  lemma {:induction false} EncodeGlue(s: string, t: string)
    ensures Encode(s + t) == Encode(s) + Encode(t)
    decreases |s|
  {
    if s == "" {
      assert s + t == t;
    } else {
      EncodeGlue(s[1..], t);
      assert (s + t)[1..] == s[1..] + t;
    }
  }

  /** Two accepted byte strings decode together to what they decode to apart. */
  lemma DecodeGlue(a: Bytes, b: Bytes)
    requires Decode(a).Some? && Decode(b).Some?
    ensures Decode(a + b) == Some(Decode(a).value + Decode(b).value)
  {
    EncodeOfDecode(a, Decode(a).value);
    EncodeOfDecode(b, Decode(b).value);
    EncodeGlue(Decode(a).value, Decode(b).value);
    DecodeOfEncode(Decode(a).value + Decode(b).value);
  }

  lemma EncodeInjective(s: string, t: string)
    requires Encode(s) == Encode(t)
    ensures s == t
  {
    DecodeOfEncode(s);
    DecodeOfEncode(t);
  }
}
