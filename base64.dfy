/**
 * The encoding behind the `base64` modifier: Go's
 * `base64.StdEncoding.EncodeToString`, the padded standard alphabet of
 * section 4 of RFC 4648, paired with a decoder and proved to round-trip.
 */
module Base64 {
  import opened Results
  import opened Utf8Encoding

  /** A six-bit value, the unit base64 writes one symbol for. */
  type Sextet = x: int | 0 <= x < 64

  /** The symbol for a six-bit value in the standard alphabet A-Z a-z 0-9 + /. */
  function Symbol(x: Sextet): char {
    if x < 26 then ('A' as int + x) as char
    else if x < 52 then ('a' as int + x - 26) as char
    else if x < 62 then ('0' as int + x - 52) as char
    else if x == 62 then '+'
    else '/'
  }

  /** The six-bit value of an alphabet symbol; None for '=' and every other character. */
  function SymbolValue(c: char): Option<Sextet> {
    if 'A' <= c <= 'Z' then Some(c as int - 'A' as int)
    else if 'a' <= c <= 'z' then Some(c as int - 'a' as int + 26)
    else if '0' <= c <= '9' then Some(c as int - '0' as int + 52)
    else if c == '+' then Some(62)
    else if c == '/' then Some(63)
    else None
  }

  lemma SymbolValueOfSymbol(x: Sextet)
    ensures SymbolValue(Symbol(x)) == Some(x)
  {
  }

  /** The four sextets of three bytes, most significant bits first. */
  function Group(b0: Byte, b1: Byte, b2: Byte): seq<Sextet> {
    [b0 / 4, b0 % 4 * 16 + b1 / 16, b1 % 16 * 4 + b2 / 64, b2 % 64]
  }

  /**
   * The six-bit groups of the input: four for every three bytes; a trailing
   * byte or two are padded with zero bits and give two or three sextets.
   */
  function Sextets(b: seq<Byte>): seq<Sextet>
    decreases |b|
  {
    if |b| == 0 then []
    else if |b| == 1 then Group(b[0], 0, 0)[..2]
    else if |b| == 2 then Group(b[0], b[1], 0)[..3]
    else Group(b[0], b[1], b[2]) + Sextets(b[3..])
  }

  /** Four sextets per full group, then two for a trailing byte or three for two. */
  lemma {:induction false} SextetsLength(b: seq<Byte>)
    ensures |Sextets(b)| == if |b| % 3 == 0 then |b| / 3 * 4 else |b| / 3 * 4 + |b| % 3 + 1
    decreases |b|
  {
    if |b| >= 3 {
      SextetsLength(b[3..]);
    }
  }

  /** The inverse of Sextets: None when the count leaves a group of one. */
  function Unsextets(xs: seq<Sextet>): (r: Option<seq<Byte>>)
    decreases |xs|
  {
    if |xs| == 0 then Some([])
    else if |xs| == 1 then None
    else if |xs| == 2 then Some(Ungroup(xs[0], xs[1], 0, 0)[..1])
    else if |xs| == 3 then Some(Ungroup(xs[0], xs[1], xs[2], 0)[..2])
    else
      match Unsextets(xs[4..])
      case None => None
      case Some(rest) => Some(Ungroup(xs[0], xs[1], xs[2], xs[3]) + rest)
  }

  /** The three bytes four sextets carry; the inverse of Group. */
  function Ungroup(x0: Sextet, x1: Sextet, x2: Sextet, x3: Sextet): seq<Byte> {
    [x0 * 4 + x1 / 16, x1 % 16 * 16 + x2 / 4, x2 % 4 * 64 + x3]
  }

  function Symbols(xs: seq<Sextet>): (r: string)
    ensures |r| == |xs|
    ensures forall i :: 0 <= i < |r| ==> r[i] == Symbol(xs[i])
  {
    if |xs| == 0 then [] else [Symbol(xs[0])] + Symbols(xs[1..])
  }

  function SymbolValues(s: string): Option<seq<Sextet>> {
    if |s| == 0 then Some([])
    else
      match SymbolValue(s[0])
      case None => None
      case Some(x) =>
        match SymbolValues(s[1..])
        case None => None
        case Some(rest) => Some([x] + rest)
  }

  /** The '=' characters that fill the last group of four. */
  function Padding(n: nat): string {
    if n % 3 == 1 then "==" else if n % 3 == 2 then "=" else ""
  }

  /** base64.StdEncoding.EncodeToString: four symbols per three bytes, '=' padding at the end. */
  function Encode(b: seq<Byte>): string {
    Symbols(Sextets(b)) + Padding(|b|)
  }

  /** The symbols before the padding: at most two trailing '=' are dropped. */
  function Unpadded(s: string): string {
    if |s| >= 2 && s[|s| - 2] == '=' && s[|s| - 1] == '=' then s[..|s| - 2]
    else if |s| >= 1 && s[|s| - 1] == '=' then s[..|s| - 1]
    else s
  }

  /** Decodes padded standard base64; None on a bad length, symbol or padding. */
  function Decode(s: string): Option<seq<Byte>> {
    if |s| % 4 != 0 then None
    else
      match SymbolValues(Unpadded(s))
      case None => None
      case Some(xs) => Unsextets(xs)
  }

  lemma SplitBy16(q: int, r: int)
    requires 0 <= r < 16
    ensures (q * 16 + r) / 16 == q && (q * 16 + r) % 16 == r
  {
  }

  lemma SplitBy4(q: int, r: int)
    requires 0 <= r < 4
    ensures (q * 4 + r) / 4 == q && (q * 4 + r) % 4 == r
  {
  }

  /** The sextets of a three-byte group give the three bytes back. */
  lemma GroupRoundTrip(b0: Byte, b1: Byte, b2: Byte)
    ensures var g := Group(b0, b1, b2); Ungroup(g[0], g[1], g[2], g[3]) == [b0, b1, b2]
  {
    SplitBy16(b0 % 4, b1 / 16);
    SplitBy4(b1 % 16, b2 / 64);
  }

  lemma {:induction false} SextetsRoundTrip(b: seq<Byte>)
    ensures Unsextets(Sextets(b)) == Some(b)
    decreases |b|
  {
    if |b| == 1 {
      OneByteRoundTrip(b);
    } else if |b| == 2 {
      TwoBytesRoundTrip(b);
    } else if |b| >= 3 {
      SextetsRoundTrip(b[3..]);
      GroupRoundTripStep(b);
    }
  }

  lemma OneByteRoundTrip(b: seq<Byte>)
    requires |b| == 1
    ensures Unsextets(Sextets(b)) == Some(b)
  {
    assert Sextets(b) == Group(b[0], 0, 0)[..2];
    OneByteDecodes(b[0]);
    assert [b[0]] == b;
  }

  lemma OneByteDecodes(b0: Byte)
    ensures Unsextets(Group(b0, 0, 0)[..2]) == Some([b0])
  {
    var g := Group(b0, 0, 0);
    GroupRoundTrip(b0, 0, 0);
    assert g[..2][0] == g[0] && g[..2][1] == g[1] && g[2] == 0 && g[3] == 0;
    assert Ungroup(g[0], g[1], 0, 0)[..1] == [b0];
  }

  lemma TwoBytesRoundTrip(b: seq<Byte>)
    requires |b| == 2
    ensures Unsextets(Sextets(b)) == Some(b)
  {
    assert Sextets(b) == Group(b[0], b[1], 0)[..3];
    TwoBytesDecode(b[0], b[1]);
    assert [b[0], b[1]] == b;
  }

  lemma TwoBytesDecode(b0: Byte, b1: Byte)
    ensures Unsextets(Group(b0, b1, 0)[..3]) == Some([b0, b1])
  {
    var g := Group(b0, b1, 0);
    GroupRoundTrip(b0, b1, 0);
    assert g[..3][0] == g[0] && g[..3][1] == g[1] && g[..3][2] == g[2] && g[3] == 0;
    assert Ungroup(g[0], g[1], g[2], 0)[..2] == [b0, b1];
  }

  /** A full group decodes to its three bytes, followed by whatever the rest decodes to. */
  lemma GroupRoundTripStep(b: seq<Byte>)
    requires |b| >= 3 && Unsextets(Sextets(b[3..])) == Some(b[3..])
    ensures Unsextets(Sextets(b)) == Some(b)
  {
    var rest := Sextets(b[3..]);
    SextetsOfGroup(b);
    GroupDecodes(b[0], b[1], b[2], rest);
    FirstThree(b);
  }

  lemma SextetsOfGroup(b: seq<Byte>)
    requires |b| >= 3
    ensures Sextets(b) == Group(b[0], b[1], b[2]) + Sextets(b[3..])
  {
  }

  lemma FirstThree<T>(b: seq<T>)
    requires |b| >= 3
    ensures [b[0], b[1], b[2]] + b[3..] == b
  {
  }

  lemma GroupDecodes(b0: Byte, b1: Byte, b2: Byte, rest: seq<Sextet>)
    requires Unsextets(rest).Some?
    ensures Unsextets(Group(b0, b1, b2) + rest) == Some([b0, b1, b2] + Unsextets(rest).value)
  {
    var g := Group(b0, b1, b2);
    var xs := g + rest;
    assert xs[4..] == rest;
    assert xs[0] == g[0] && xs[1] == g[1] && xs[2] == g[2] && xs[3] == g[3];
    GroupRoundTrip(b0, b1, b2);
  }

  lemma {:induction false} SymbolsRoundTrip(xs: seq<Sextet>)
    ensures SymbolValues(Symbols(xs)) == Some(xs)
  {
    if |xs| > 0 {
      SymbolValueOfSymbol(xs[0]);
      assert Symbols(xs)[1..] == Symbols(xs[1..]);
      SymbolsRoundTrip(xs[1..]);
      assert [xs[0]] + xs[1..] == xs;
    }
  }

  /** Four symbols come out for every three bytes or part of three. */
  lemma EncodeLength(b: seq<Byte>)
    ensures |Encode(b)| == 4 * ((|b| + 2) / 3)
  {
    SextetsLength(b);
  }

  lemma UnpaddedEncoding(b: seq<Byte>)
    ensures Unpadded(Encode(b)) == Symbols(Sextets(b))
  {
    var body := Symbols(Sextets(b));
    var e := Encode(b);
    SextetsLength(b);
    if |body| > 0 {
      SymbolValueOfSymbol(Sextets(b)[|body| - 1]);
      assert body[|body| - 1] != '=';
    }
    if |b| % 3 == 1 {
      assert e[..|e| - 2] == body;
    } else if |b| % 3 == 2 {
      SymbolValueOfSymbol(Sextets(b)[|body| - 1]);
      assert e[|e| - 2] == body[|body| - 1];
      assert e[..|e| - 1] == body;
    } else {
      assert e == body;
    }
  }

  /** Decoding an encoding gives back the bytes. */
  lemma RoundTrip(b: seq<Byte>)
    ensures Decode(Encode(b)) == Some(b)
  {
    var e := Encode(b);
    EncodeLength(b);
    var groups := (|b| + 2) / 3;
    assert |e| == groups * 4;
    assert |e| % 4 == 0;
    UnpaddedEncoding(b);
    SymbolsRoundTrip(Sextets(b));
    SextetsRoundTrip(b);
  }

  /** The text the base64 modifier compares with: the encoding of the expected string's bytes. */
  function EncodeString(s: string): string {
    Encode(Utf8(s))
  }

  /** The modifier's text decodes back to the expected string's bytes. */
  lemma EncodeStringDecodes(s: string)
    ensures Decode(EncodeString(s)) == Some(Utf8(s))
  {
    RoundTrip(Utf8(s));
  }

  lemma Utf8OfSecret()
    ensures Utf8("secret") == [115, 101, 99, 114, 101, 116]
  {
    var s := "secret";
    assert forall i :: 0 <= i < |s| ==> s[i] as int < 0x80;
    Utf8Ascii(s);
  }

  lemma SextetsOfSecret()
    ensures Sextets([115, 101, 99, 114, 101, 116]) == [28, 54, 21, 35, 28, 38, 21, 52]
  {
    var b: seq<Byte> := [115, 101, 99, 114, 101, 116];
    assert b[3..] == [114, 101, 116];
    assert Sextets([114, 101, 116]) == [28, 38, 21, 52];
  }

  /** A worked case: "secret" is sent as "c2VjcmV0". */
  lemma EncodeSecret()
    ensures EncodeString("secret") == "c2VjcmV0"
  {
    Utf8OfSecret();
    SextetsOfSecret();
    SymbolsOfSecret();
    EncodeStringParts("secret", [115, 101, 99, 114, 101, 116], [28, 54, 21, 35, 28, 38, 21, 52]);
    assert Padding(6) == "";
  }

  lemma EncodeStringParts(s: string, bytes: seq<Byte>, xs: seq<Sextet>)
    requires Utf8(s) == bytes && Sextets(bytes) == xs
    ensures EncodeString(s) == Symbols(xs) + Padding(|bytes|)
  {
  }

  lemma SymbolsOfSecret()
    ensures Symbols([28, 54, 21, 35, 28, 38, 21, 52]) == "c2VjcmV0"
  {
    var xs: seq<Sextet> := [28, 54, 21, 35, 28, 38, 21, 52];
    var r := Symbols(xs);
    assert r[0] == Symbol(28) == 'c' && r[1] == Symbol(54) == '2' && r[2] == Symbol(21) == 'V' && r[3] == Symbol(35) == 'j';
    assert r[4] == Symbol(28) == 'c' && r[5] == Symbol(38) == 'm' && r[6] == Symbol(21) == 'V' && r[7] == Symbol(52) == '0';
  }
}
