/**
 * Go's `[]byte(s)` for a string of code points: its UTF-8 encoding
 * (RFC 3629), paired with a decoder and proved to round-trip.
 */
module Utf8Encoding {
  import opened Results

  /** A byte, as Go's uint8. */
  type Byte = b: int | 0 <= b < 0x100

  /** The UTF-8 encoding of one code point: one to four bytes. */
  function EncodeChar(c: char): (r: seq<Byte>)
    ensures 1 <= |r| <= 4
  {
    var cp := c as int;
    if cp < 0x80 then
      [cp]
    else if cp < 0x800 then
      [0xC0 + cp / 0x40, 0x80 + cp % 0x40]
    else if cp < 0x1_0000 then
      [0xE0 + cp / 0x1000, 0x80 + cp / 0x40 % 0x40, 0x80 + cp % 0x40]
    else
      [0xF0 + cp / 0x4_0000, 0x80 + cp / 0x1000 % 0x40, 0x80 + cp / 0x40 % 0x40, 0x80 + cp % 0x40]
  }

  /** Go's `[]byte(s)` for a string of code points. */
  function Utf8(s: string): (r: seq<Byte>)
    ensures |s| <= |r| <= 4 * |s|
  {
    if |s| == 0 then [] else EncodeChar(s[0]) + Utf8(s[1..])
  }

  /** The low six bits a continuation byte carries, or None for a byte that is not one. */
  function Continuation(b: Byte): Option<int> {
    if 0x80 <= b < 0xC0 then Some(b - 0x80) else None
  }

  predicate IsScalar(cp: int) {
    (0 <= cp < 0xD800) || (0xE000 <= cp < 0x11_0000)
  }

  /** The code point at the head of `bytes` and the number of bytes it takes. */
  function DecodeChar(bytes: seq<Byte>): (r: Option<(char, nat)>)
    ensures r.Some? ==> 1 <= r.value.1 <= |bytes|
  {
    if |bytes| == 0 then None
    else
      var b0 := bytes[0];
      if b0 < 0x80 then Some((b0 as char, 1))
      else if 0xC0 <= b0 < 0xE0 && |bytes| >= 2 && Continuation(bytes[1]).Some? then
        var cp := (b0 - 0xC0) * 0x40 + Continuation(bytes[1]).value;
        if 0x80 <= cp then Some((cp as char, 2)) else None
      else if 0xE0 <= b0 < 0xF0 && |bytes| >= 3 && Continuation(bytes[1]).Some? && Continuation(bytes[2]).Some? then
        var cp := (b0 - 0xE0) * 0x1000 + Continuation(bytes[1]).value * 0x40 + Continuation(bytes[2]).value;
        if 0x800 <= cp && IsScalar(cp) then Some((cp as char, 3)) else None
      else if 0xF0 <= b0 < 0xF8 && |bytes| >= 4 && Continuation(bytes[1]).Some?
              && Continuation(bytes[2]).Some? && Continuation(bytes[3]).Some? then
        var cp := (b0 - 0xF0) * 0x4_0000 + Continuation(bytes[1]).value * 0x1000
                  + Continuation(bytes[2]).value * 0x40 + Continuation(bytes[3]).value;
        if 0x1_0000 <= cp && IsScalar(cp) then Some((cp as char, 4)) else None
      else None
  }

  /** Decodes well-formed UTF-8; None on any ill-formed sequence. */
  function Utf8Decode(bytes: seq<Byte>): Option<string>
    decreases |bytes|
  {
    if |bytes| == 0 then Some([])
    else
      match DecodeChar(bytes)
      case None => None
      case Some((c, n)) =>
        match Utf8Decode(bytes[n..])
        case None => None
        case Some(rest) => Some([c] + rest)
  }

  lemma DigitsOfTwoByte(cp: int)
    requires 0x80 <= cp < 0x800
    ensures cp / 0x40 * 0x40 + cp % 0x40 == cp
  {
  }

  lemma DigitsOfThreeByte(cp: int)
    requires 0x800 <= cp < 0x1_0000
    ensures cp / 0x1000 * 0x1000 + cp / 0x40 % 0x40 * 0x40 + cp % 0x40 == cp
  {
  }

  lemma DigitsOfFourByte(cp: int)
    requires 0x1_0000 <= cp < 0x11_0000
    ensures cp / 0x4_0000 * 0x4_0000 + cp / 0x1000 % 0x40 * 0x1000 + cp / 0x40 % 0x40 * 0x40 + cp % 0x40 == cp
  {
  }

  lemma DecodeEncodedChar(c: char, rest: seq<Byte>)
    ensures DecodeChar(EncodeChar(c) + rest) == Some((c, |EncodeChar(c)|))
  {
    var cp := c as int;
    var e := EncodeChar(c) + rest;
    if cp < 0x80 {
    } else if cp < 0x800 {
      assert e[0] == 0xC0 + cp / 0x40 && Continuation(e[1]) == Some(cp % 0x40);
      DigitsOfTwoByte(cp);
      assert (e[0] - 0xC0) * 0x40 + cp % 0x40 == cp;
    } else if cp < 0x1_0000 {
      assert e[0] == 0xE0 + cp / 0x1000;
      assert Continuation(e[1]) == Some(cp / 0x40 % 0x40) && Continuation(e[2]) == Some(cp % 0x40);
      DigitsOfThreeByte(cp);
      assert (e[0] - 0xE0) * 0x1000 + cp / 0x40 % 0x40 * 0x40 + cp % 0x40 == cp;
    } else {
      assert e[0] == 0xF0 + cp / 0x4_0000;
      assert Continuation(e[1]) == Some(cp / 0x1000 % 0x40);
      assert Continuation(e[2]) == Some(cp / 0x40 % 0x40) && Continuation(e[3]) == Some(cp % 0x40);
      DigitsOfFourByte(cp);
      assert (e[0] - 0xF0) * 0x4_0000 + cp / 0x1000 % 0x40 * 0x1000 + cp / 0x40 % 0x40 * 0x40 + cp % 0x40 == cp;
    }
  }

  /** UTF-8 encoding loses nothing: decoding gives back the string. */
  lemma {:induction false} Utf8RoundTrip(s: string)
    ensures Utf8Decode(Utf8(s)) == Some(s)
  {
    if |s| > 0 {
      var rest := Utf8(s[1..]);
      DecodeEncodedChar(s[0], rest);
      assert Utf8(s) == EncodeChar(s[0]) + rest;
      assert Utf8(s)[|EncodeChar(s[0])|..] == rest;
      Utf8RoundTrip(s[1..]);
      assert [s[0]] + s[1..] == s;
    }
  }

  /** An ASCII string encodes to one byte per character. */
  lemma {:induction false} Utf8Ascii(s: string)
    requires forall i :: 0 <= i < |s| ==> s[i] as int < 0x80
    ensures |Utf8(s)| == |s|
    ensures forall i :: 0 <= i < |s| ==> Utf8(s)[i] == s[i] as int
  {
    if |s| > 0 {
      Utf8Ascii(s[1..]);
    }
  }
}
