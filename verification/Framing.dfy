/** Length-prefixed framing: an unsigned 64-bit big-endian length before each field. */
module Framing {
  import opened Common

  function Power(width: nat): (n: nat)
    ensures n >= 1
  {
    if width == 0 then 1 else 256 * Power(width - 1)
  }

  const LENGTH_WIDTH := 8
  const MAX_FIELD_LENGTH: nat := 18446744073709551615

  lemma LengthFits()
    ensures Power(LENGTH_WIDTH) == MAX_FIELD_LENGTH + 1
  {
    assert Power(4) == 4294967296;
  }

  function BigEndian(n: nat, width: nat): (bytes: Bytes)
    requires n < Power(width)
    ensures |bytes| == width
  {
    if width == 0 then [] else BigEndian(n / 256, width - 1) + [n % 256]
  }

  lemma {:induction false} BigEndianInjective(m: nat, n: nat, width: nat)
    requires m < Power(width) && n < Power(width)
    requires BigEndian(m, width) == BigEndian(n, width)
    ensures m == n
    decreases width
  {
    if width > 0 {
      var a, b := BigEndian(m, width), BigEndian(n, width);
      assert a[..width - 1] == BigEndian(m / 256, width - 1) && b[..width - 1] == BigEndian(n / 256, width - 1);
      assert a[width - 1] == m % 256 && b[width - 1] == n % 256;
      BigEndianInjective(m / 256, n / 256, width - 1);
    }
  }

  predicate Framable(field: Bytes) {
    |field| <= MAX_FIELD_LENGTH
  }

  function Frame(field: Bytes): (bytes: Bytes)
    requires Framable(field)
    ensures |bytes| == LENGTH_WIDTH + |field|
  {
    LengthFits();
    BigEndian(|field|, LENGTH_WIDTH) + field
  }

  predicate AllFramable(fields: seq<Bytes>) {
    forall i :: 0 <= i < |fields| ==> Framable(fields[i])
  }

  function Frames(fields: seq<Bytes>): Bytes
    requires AllFramable(fields)
  {
    if fields == [] then [] else Frame(fields[0]) + Frames(fields[1..])
  }

  /** A frame can be read off the front of any byte string in only one way. */
  lemma FrameParsesUniquely(x: Bytes, y: Bytes, s: Bytes, t: Bytes)
    requires Framable(x) && Framable(y)
    requires Frame(x) + s == Frame(y) + t
    ensures x == y && s == t
  {
    LengthFits();
    var left, right := Frame(x) + s, Frame(y) + t;
    assert left[..LENGTH_WIDTH] == BigEndian(|x|, LENGTH_WIDTH);
    assert right[..LENGTH_WIDTH] == BigEndian(|y|, LENGTH_WIDTH);
    BigEndianInjective(|x|, |y|, LENGTH_WIDTH);
    assert left[LENGTH_WIDTH..LENGTH_WIDTH + |x|] == x && right[LENGTH_WIDTH..LENGTH_WIDTH + |y|] == y;
    assert left[LENGTH_WIDTH + |x|..] == s && right[LENGTH_WIDTH + |y|..] == t;
  }

  /** For one number of fields, framing is injective and no framing is a proper prefix of another. */
  lemma {:induction false} FramesParseUniquely(xs: seq<Bytes>, ys: seq<Bytes>, s: Bytes, t: Bytes)
    requires AllFramable(xs) && AllFramable(ys) && |xs| == |ys|
    requires Frames(xs) + s == Frames(ys) + t
    ensures xs == ys && s == t
    decreases |xs|
  {
    if xs == [] {
      assert Frames(xs) + s == s && Frames(ys) + t == t;
    } else {
      assert Frames(xs) + s == Frame(xs[0]) + (Frames(xs[1..]) + s);
      assert Frames(ys) + t == Frame(ys[0]) + (Frames(ys[1..]) + t);
      FrameParsesUniquely(xs[0], ys[0], Frames(xs[1..]) + s, Frames(ys[1..]) + t);
      FramesParseUniquely(xs[1..], ys[1..], s, t);
      assert xs == [xs[0]] + xs[1..] && ys == [ys[0]] + ys[1..];
    }
  }
}
