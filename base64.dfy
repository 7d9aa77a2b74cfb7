/**
 * The standard base64 encoding with padding (section 4 of RFC 4648), as the
 * `base64` crate's `STANDARD` engine writes it: every three bytes become
 * four characters of the 64-character alphabet, and a final group of one or
 * two bytes is padded with `=` to four characters.
 */
module Base64 {
  import opened Wrappers

  type Byte = bv8

  /** A value of six bits. */
  predicate IsSextet(v: bv8) {
    v < 64
  }

  /** The character of the alphabet (Table 1 of RFC 4648) for a six-bit value. */
  function SextetChar(v: bv8): (c: char)
    requires IsSextet(v)
  {
    if v < 26 then ('A' as int + v as int) as char
    else if v < 52 then ('a' as int + v as int - 26) as char
    else if v < 62 then ('0' as int + v as int - 52) as char
    else if v == 62 then '+'
    else '/'
  }

  /** The six-bit value of a character of the alphabet; none for any other character. */
  function CharSextet(c: char): (r: Option<bv8>)
    ensures r.Some? ==> IsSextet(r.value)
  {
    if 'A' <= c <= 'Z' then Some((c as int - 'A' as int) as bv8)
    else if 'a' <= c <= 'z' then Some((c as int - 'a' as int + 26) as bv8)
    else if '0' <= c <= '9' then Some((c as int - '0' as int + 52) as bv8)
    else if c == '+' then Some(62)
    else if c == '/' then Some(63)
    else None
  }

  /** The four six-bit values of three bytes, most significant first. */
  function Sextets(a: Byte, b: Byte, c: Byte): (bv8, bv8, bv8, bv8) {
    var n: bv24 := (a as bv24 << 16) | (b as bv24 << 8) | c as bv24;
    (((n >> 18) & 63) as bv8, ((n >> 12) & 63) as bv8, ((n >> 6) & 63) as bv8, (n & 63) as bv8)
  }

  /** The three bytes four six-bit values carry. */
  function Octets(w: bv8, x: bv8, y: bv8, z: bv8): (Byte, Byte, Byte)
    requires IsSextet(w) && IsSextet(x) && IsSextet(y) && IsSextet(z)
  {
    var n: bv24 := (w as bv24 << 18) | (x as bv24 << 12) | (y as bv24 << 6) | z as bv24;
    ((n >> 16) as bv8, ((n >> 8) & 255) as bv8, (n & 255) as bv8)
  }

  /** Four characters for three bytes. */
  function EncodeGroup(a: Byte, b: Byte, c: Byte): string {
    var s := Sextets(a, b, c);
    SextetsAreSextets(a, b, c);
    [SextetChar(s.0), SextetChar(s.1), SextetChar(s.2), SextetChar(s.3)]
  }

  /** `STANDARD.encode`. */
  function Encode(data: seq<Byte>): (r: string)
    ensures |r| == 4 * ((|data| + 2) / 3)
    ensures r == [] <==> data == []
    decreases |data|
  {
    if data == [] then []
    else if |data| == 1 then
      var s := Sextets(data[0], 0, 0);
      SextetsAreSextets(data[0], 0, 0);
      [SextetChar(s.0), SextetChar(s.1), '=', '=']
    else if |data| == 2 then
      var s := Sextets(data[0], data[1], 0);
      SextetsAreSextets(data[0], data[1], 0);
      [SextetChar(s.0), SextetChar(s.1), SextetChar(s.2), '=']
    else EncodeGroup(data[0], data[1], data[2]) + Encode(data[3..])
  }

  /** The bytes of a final group of four characters, padded or not. */
  function DecodeLastGroup(g: string): Option<seq<Byte>>
    requires |g| == 4
  {
    var w := CharSextet(g[0]);
    var x := CharSextet(g[1]);
    var y := CharSextet(g[2]);
    var z := CharSextet(g[3]);
    if w.None? || x.None? then None
    else if g[2] == '=' && g[3] == '=' then
      var o := Octets(w.value, x.value, 0, 0);
      Some([o.0])
    else if y.None? then None
    else if g[3] == '=' then
      var o := Octets(w.value, x.value, y.value, 0);
      Some([o.0, o.1])
    else if z.None? then None
    else
      var o := Octets(w.value, x.value, y.value, z.value);
      Some([o.0, o.1, o.2])
  }

  /** The bytes of a group of four alphabet characters, which are not the last group. */
  function DecodeGroup(g: string): Option<seq<Byte>>
    requires |g| == 4
  {
    var w := CharSextet(g[0]);
    var x := CharSextet(g[1]);
    var y := CharSextet(g[2]);
    var z := CharSextet(g[3]);
    if w.None? || x.None? || y.None? || z.None? then None
    else
      var o := Octets(w.value, x.value, y.value, z.value);
      Some([o.0, o.1, o.2])
  }

  /** Decoding of padded base64 text: none for text that is not a whole number of groups of the alphabet. */
  function Decode(s: string): Option<seq<Byte>>
    decreases |s|
  {
    if s == [] then Some([])
    else if |s| < 4 then None
    else if |s| == 4 then DecodeLastGroup(s)
    else
      match DecodeGroup(s[..4])
      case None => None
      case Some(head) =>
        match Decode(s[4..])
        case None => None
        case Some(tail) => Some(head + tail)
  }

  // ---------------------------------------------------------------------------

  /** `Sextets` yields six-bit values. */
  lemma SextetsAreSextets(a: Byte, b: Byte, c: Byte)
    ensures var s := Sextets(a, b, c);
            IsSextet(s.0) && IsSextet(s.1) && IsSextet(s.2) && IsSextet(s.3)
  {
  }

  /** The alphabet is read back: every six-bit value's character stands for that value. */
  lemma CharSextetOf(v: bv8)
    requires IsSextet(v)
    ensures CharSextet(SextetChar(v)) == Some(v)
  {
    var c := SextetChar(v);
    if v < 26 {
      assert 'A' <= c <= 'Z' && c as int - 'A' as int == v as int;
    } else if v < 52 {
      assert 'a' <= c <= 'z' && c as int - 'a' as int + 26 == v as int;
    } else if v < 62 {
      assert '0' <= c <= '9' && c as int - '0' as int + 52 == v as int;
    }
  }

  /** The padding character is not in the alphabet. */
  lemma PadNotInAlphabet()
    ensures CharSextet('=') == None
  {
  }

  /** Regrouping six-bit values into bytes undoes splitting the bytes into them. */
  lemma OctetsOfSextets(a: Byte, b: Byte, c: Byte)
    ensures var s := Sextets(a, b, c);
            IsSextet(s.0) && IsSextet(s.1) && IsSextet(s.2) && IsSextet(s.3)
            && Octets(s.0, s.1, s.2, s.3) == (a, b, c)
  {
  }

  /** A lone final byte leaves the last two six-bit values zero, and a final pair the last one. */
  lemma PaddingBitsZero(a: Byte, b: Byte)
    ensures Sextets(a, 0, 0).2 == 0 && Sextets(a, 0, 0).3 == 0
    ensures Sextets(a, b, 0).3 == 0
  {
  }

  /** One full group decodes to its three bytes, in either position. */
  lemma DecodeGroupOf(a: Byte, b: Byte, c: Byte)
    ensures DecodeGroup(EncodeGroup(a, b, c)) == Some([a, b, c])
    ensures DecodeLastGroup(EncodeGroup(a, b, c)) == Some([a, b, c])
  {
    var s := Sextets(a, b, c);
    OctetsOfSextets(a, b, c);
    CharSextetOf(s.0);
    CharSextetOf(s.1);
    CharSextetOf(s.2);
    CharSextetOf(s.3);
  }

  /** A final lone byte: two characters and `==`. */
  lemma DecodeOneByte(a: Byte)
    ensures Decode(Encode([a])) == Some([a])
  {
    var s := Sextets(a, 0, 0);
    OctetsOfSextets(a, 0, 0);
    PaddingBitsZero(a, 0);
    CharSextetOf(s.0);
    CharSextetOf(s.1);
    PadNotInAlphabet();
  }

  /** A final pair of bytes: three characters and `=`. */
  lemma DecodeTwoBytes(a: Byte, b: Byte)
    ensures Decode(Encode([a, b])) == Some([a, b])
  {
    var s := Sextets(a, b, 0);
    OctetsOfSextets(a, b, 0);
    PaddingBitsZero(a, b);
    CharSextetOf(s.0);
    CharSextetOf(s.1);
    CharSextetOf(s.2);
    PadNotInAlphabet();
    var e := Encode([a, b]);
    assert e == [SextetChar(s.0), SextetChar(s.1), SextetChar(s.2), '='];
    assert e[2] != '=';
  }

  /** A sequence of one, two or three elements is the display of them. */
  lemma SplitSmall<T>(xs: seq<T>)
    ensures |xs| == 1 ==> xs == [xs[0]]
    ensures |xs| == 2 ==> xs == [xs[0], xs[1]]
    ensures |xs| == 3 ==> xs == [xs[0], xs[1], xs[2]]
  {
  }

  /** A sequence of three or more is its first three elements and the rest. */
  lemma FirstThree<T>(xs: seq<T>)
    requires |xs| >= 3
    ensures xs == [xs[0], xs[1], xs[2]] + xs[3..]
  {
  }

  /** Text of more than one group decodes to its first group's bytes and the rest's. */
  lemma DecodeSplit(g: string, rest: string, head: seq<Byte>, tail: seq<Byte>)
    requires |g| == 4 && rest != []
    requires DecodeGroup(g) == Some(head) && Decode(rest) == Some(tail)
    ensures Decode(g + rest) == Some(head + tail)
  {
    var e := g + rest;
    assert e[..4] == g && e[4..] == rest;
  }

  /** A full leading group followed by bytes whose encoding decodes back. */
  lemma DecodeGroupThen(data: seq<Byte>)
    requires |data| > 3
    requires Decode(Encode(data[3..])) == Some(data[3..])
    ensures Decode(Encode(data)) == Some(data)
  {
    var g := EncodeGroup(data[0], data[1], data[2]);
    var rest := Encode(data[3..]);
    assert Encode(data) == g + rest;
    DecodeGroupOf(data[0], data[1], data[2]);
    DecodeSplit(g, rest, [data[0], data[1], data[2]], data[3..]);
    FirstThree(data);
  }

  /** A final full group: four characters, no padding. */
  lemma DecodeThreeBytes(a: Byte, b: Byte, c: Byte)
    ensures Decode(Encode([a, b, c])) == Some([a, b, c])
  {
    var none: seq<Byte> := [];
    assert [a, b, c][3..] == none;
    assert Encode([a, b, c]) == EncodeGroup(a, b, c) + [];
    assert EncodeGroup(a, b, c) + [] == EncodeGroup(a, b, c);
    DecodeGroupOf(a, b, c);
  }

  /** Decoding the encoding of any bytes gives them back. */
  lemma {:induction false} DecodeEncode(data: seq<Byte>)
    ensures Decode(Encode(data)) == Some(data)
    decreases |data|
  {
    if |data| == 1 {
      SplitSmall(data);
      DecodeOneByte(data[0]);
    } else if |data| == 2 {
      SplitSmall(data);
      DecodeTwoBytes(data[0], data[1]);
    } else if |data| == 3 {
      SplitSmall(data);
      DecodeThreeBytes(data[0], data[1], data[2]);
    } else if |data| > 3 {
      DecodeEncode(data[3..]);
      DecodeGroupThen(data);
    }
  }

  /** Encodings of different bytes differ. */
  lemma EncodeInjective(a: seq<Byte>, b: seq<Byte>)
    requires Encode(a) == Encode(b)
    ensures a == b
  {
    DecodeEncode(a);
    DecodeEncode(b);
  }

  /** The examples of section 10 of RFC 4648: "f", "fo" and "foo". */
  lemma EncodeExamples()
    ensures Encode([0x66]) == "Zg=="
    ensures Encode([0x66, 0x6f]) == "Zm8="
    ensures Encode([0x66, 0x6f, 0x6f]) == "Zm9v"
  {
  }
}
