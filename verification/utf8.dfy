/** UTF-8 encoding of code points.

    The wrapper reads and writes bytes while the lexer classifies code points;
    this module is the bridge: a token's position is the length of the UTF-8
    encoding of the input before it, and the wrapper writes the encoding of a
    token's text. The decoder reads back what the encoder writes; input is
    taken to be well-formed, so malformed byte sequences are not modelled. */
module Utf8 {

  type Byte = b: int | 0 <= b < 0x100

  const Newline: Byte := 0x0A
  const Blank: Byte := 0x20
  const Return: Byte := 0x0D

  /** The UTF-8 encoding of one code point, as in section 3 of RFC 3629. */
  function EncodeChar(c: char): (r: seq<Byte>)
    ensures |r| == (if c as int < 0x80 then 1 else if c as int < 0x800 then 2 else if c as int < 0x10000 then 3 else 4)
    ensures |r| == 1 ==> r[0] == c as int
    ensures |r| == 2 ==> 0xC2 <= r[0] < 0xE0
    ensures |r| == 3 ==> 0xE0 <= r[0] < 0xF0
    ensures |r| == 4 ==> 0xF0 <= r[0] < 0xF5
    ensures forall k | 1 <= k < |r| :: 0x80 <= r[k] < 0xC0
  {
    var n := c as int;
    if n < 0x80 then [n]
    else if n < 0x800 then [0xC0 + n / 0x40, 0x80 + n % 0x40]
    else if n < 0x10000 then [0xE0 + n / 0x1000, 0x80 + n / 0x40 % 0x40, 0x80 + n % 0x40]
    else [0xF0 + n / 0x40000, 0x80 + n / 0x1000 % 0x40, 0x80 + n / 0x40 % 0x40, 0x80 + n % 0x40]
  }

  /** The number of bytes a lead byte announces. */
  function Width(lead: Byte): nat
  {
    if lead < 0x80 then 1 else if lead < 0xE0 then 2 else if lead < 0xF0 then 3 else 4
  }

  /** The code point of one encoded sequence: the payload bits of the lead
      byte followed by six bits from each continuation byte. */
  function DecodeChar(b: seq<Byte>): int
    requires 1 <= |b| <= 4
  {
    var b0, b1 := b[0] as int, if |b| > 1 then b[1] as int else 0;
    if |b| == 1 then b0
    else if |b| == 2 then (b0 - 0xC0) * 0x40 + (b1 - 0x80)
    else if |b| == 3 then (b0 - 0xE0) * 0x1000 + (b1 - 0x80) * 0x40 + (b[2] as int - 0x80)
    else (b0 - 0xF0) * 0x40000 + (b1 - 0x80) * 0x1000 + (b[2] as int - 0x80) * 0x40 + (b[3] as int - 0x80)
  }

  lemma DecodeTwo(n: int)
    requires 0x80 <= n < 0x800
    ensures DecodeChar([0xC0 + n / 0x40, 0x80 + n % 0x40]) == n
  {
  }

  lemma DecodeThree(n: int)
    requires 0x800 <= n < 0x10000
    ensures DecodeChar([0xE0 + n / 0x1000, 0x80 + n / 0x40 % 0x40, 0x80 + n % 0x40]) == n
  {
    var hi, q := n / 0x40, n % 0x40;
    assert n == hi * 0x40 + q;
    assert hi == n / 0x1000 * 0x40 + n / 0x40 % 0x40;
  }

  lemma DecodeFour(n: int)
    requires 0x10000 <= n < 0x110000
    ensures DecodeChar([0xF0 + n / 0x40000, 0x80 + n / 0x1000 % 0x40, 0x80 + n / 0x40 % 0x40, 0x80 + n % 0x40]) == n
  {
    var hi, q := n / 0x40, n % 0x40;
    assert n == hi * 0x40 + q;
    var top, mid := hi / 0x40, hi % 0x40;
    assert hi == top * 0x40 + mid;
    assert top == n / 0x1000;
    assert top == n / 0x40000 * 0x40 + n / 0x1000 % 0x40;
  }

  /** Decoding one code point's encoding gives the code point back, and the
      lead byte announces the encoding's length. */
  lemma DecodeEncodeChar(c: char)
    ensures Width(EncodeChar(c)[0]) == |EncodeChar(c)|
    ensures DecodeChar(EncodeChar(c)) == c as int
  {
    var n := c as int;
    if n < 0x80 {
    } else if n < 0x800 {
      DecodeTwo(n);
    } else if n < 0x10000 {
      DecodeThree(n);
    } else {
      DecodeFour(n);
    }
  }

  function Encode(s: string): seq<Byte>
  {
    if s == [] then [] else EncodeChar(s[0]) + Encode(s[1..])
  }

  /** The code points of a text, as numbers. */
  function CodePoints(s: string): (r: seq<int>)
    ensures |r| == |s|
  {
    if s == [] then [] else [s[0] as int] + CodePoints(s[1..])
  }

  /** Reads code points from well-formed UTF-8, as the tokenizer's
      `utf8.DecodeRune` does; a sequence cut short ends the reading. */
  function Decode(b: seq<Byte>): seq<int>
    decreases |b|
  {
    if b == [] then []
    else
      var n := Width(b[0]);
      if n > |b| then [] else [DecodeChar(b[..n])] + Decode(b[n..])
  }

  /** Decoding an encoded text gives back its code points. */
  lemma {:induction false} DecodeEncode(s: string)
    ensures Decode(Encode(s)) == CodePoints(s)
    decreases |s|
  {
    if s != [] {
      var head := EncodeChar(s[0]);
      var b := Encode(s);
      assert b == head + Encode(s[1..]);
      DecodeEncodeChar(s[0]);
      assert b[0] == head[0];
      assert b[..|head|] == head;
      assert b[|head|..] == Encode(s[1..]);
      DecodeEncode(s[1..]);
    }
  }

  lemma {:induction false} EncodeAppend(a: string, b: string)
    ensures Encode(a + b) == Encode(a) + Encode(b)
    decreases |a|
  {
    if a == [] {
      assert a + b == b;
    } else {
      assert (a + b)[1..] == a[1..] + b;
      EncodeAppend(a[1..], b);
    }
  }

  /** Every code point takes at least one byte. */
  lemma {:induction false} EncodeLength(s: string)
    ensures |Encode(s)| >= |s|
    decreases |s|
  {
    if s != [] {
      EncodeLength(s[1..]);
    }
  }

  /** A byte below 0x80 in an encoding is the code point itself, so the
      encoding of a text holds a newline byte exactly when the text holds '\n'. */
  lemma {:induction false} EncodeNewline(s: string)
    ensures Newline in Encode(s) <==> '\n' in s
    decreases |s|
  {
    if s != [] {
      EncodeNewline(s[1..]);
      assert Encode(s) == EncodeChar(s[0]) + Encode(s[1..]);
      assert s == [s[0]] + s[1..];
    }
  }

  /** Every code point below 0x80. */
  predicate IsAscii(s: string)
  {
    forall k | 0 <= k < |s| :: s[k] as int < 0x80
  }

  /** An ASCII text encodes to its own code points, one byte each. */
  lemma {:induction false} EncodeAscii(s: string)
    requires IsAscii(s)
    ensures |Encode(s)| == |s|
    ensures forall k | 0 <= k < |s| :: Encode(s)[k] == s[k] as int
    decreases |s|
  {
    if s != [] {
      assert IsAscii(s[1..]) by {
        forall k | 0 <= k < |s[1..]|
          ensures s[1..][k] as int < 0x80
        {
          assert s[1..][k] == s[k + 1];
        }
      }
      EncodeAscii(s[1..]);
      assert Encode(s) == EncodeChar(s[0]) + Encode(s[1..]);
    }
  }
}
