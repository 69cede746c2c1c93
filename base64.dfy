/** Base64 as in section 4 of RFC 4648, which `btoa` produces: each group
    of three bytes becomes four digits of the 64-character alphabet, and a
    final group of one or two bytes is padded with `=`. */
module Base64 {

  import opened Wrappers
  import opened Images

  /** A base64 digit value. */
  type Sextet = i: int | 0 <= i < 64

  /** The character for a digit value (Table 1 of RFC 4648). */
  function Digit(i: Sextet): (c: char) {
    if i < 26 then 'A' + i as char
    else if i < 52 then 'a' + (i - 26) as char
    else if i < 62 then '0' + (i - 52) as char
    else if i == 62 then '+'
    else '/'
  }

  predicate IsDigit(c: char) {
    ('A' <= c <= 'Z') || ('a' <= c <= 'z') || ('0' <= c <= '9') || c == '+' || c == '/'
  }

  /** The value of a digit character. */
  function DigitValue(c: char): (i: Sextet)
    requires IsDigit(c)
  {
    if 'A' <= c <= 'Z' then (c - 'A') as int
    else if 'a' <= c <= 'z' then (c - 'a') as int + 26
    else if '0' <= c <= '9' then (c - '0') as int + 52
    else if c == '+' then 62
    else 63
  }

  /** Digits and values are the two halves of one bijection. */
  lemma DigitRoundTrip(i: Sextet)
    ensures IsDigit(Digit(i)) && DigitValue(Digit(i)) == i
  {
  }

  /** The four characters for three bytes. */
  function EncodeGroup(b0: Byte, b1: Byte, b2: Byte): string {
    [Digit(b0 / 4), Digit((b0 % 4) * 16 + b1 / 16), Digit((b1 % 16) * 4 + b2 / 64), Digit(b2 % 64)]
  }

  /** `btoa` on a string of byte-valued characters. */
  function Encode(bytes: seq<Byte>): (r: string)
    ensures |r| == 4 * ((|bytes| + 2) / 3)
    decreases |bytes|
  {
    if |bytes| == 0 then ""
    else if |bytes| == 1 then [Digit(bytes[0] / 4), Digit((bytes[0] % 4) * 16), '=', '=']
    else if |bytes| == 2 then
      [Digit(bytes[0] / 4), Digit((bytes[0] % 4) * 16 + bytes[1] / 16), Digit((bytes[1] % 16) * 4), '=']
    else EncodeGroup(bytes[0], bytes[1], bytes[2]) + Encode(bytes[3..])
  }

  /** Three bytes from four digit values. */
  function DecodeGroup(d0: Sextet, d1: Sextet, d2: Sextet, d3: Sextet): seq<Byte> {
    [d0 * 4 + d1 / 16, (d1 % 16) * 16 + d2 / 4, (d2 % 4) * 64 + d3]
  }

  /** A group of four digits, three bytes. */
  function DecodeFull(c0: char, c1: char, c2: char, c3: char): (r: Option<seq<Byte>>) {
    if IsDigit(c0) && IsDigit(c1) && IsDigit(c2) && IsDigit(c3) then
      Some(DecodeGroup(DigitValue(c0), DigitValue(c1), DigitValue(c2), DigitValue(c3)))
    else None
  }

  /** The last group: two digits and two pads for one byte, three digits
      and a pad for two, or a full group. The bits a pad leaves over must
      be zero. */
  function DecodeLast(c0: char, c1: char, c2: char, c3: char): (r: Option<seq<Byte>>) {
    if c2 == '=' && c3 == '=' then
      if IsDigit(c0) && IsDigit(c1) && DigitValue(c1) % 16 == 0 then
        Some([DigitValue(c0) * 4 + DigitValue(c1) / 16])
      else None
    else if c3 == '=' then
      if IsDigit(c0) && IsDigit(c1) && IsDigit(c2) && DigitValue(c2) % 4 == 0 then
        Some([DigitValue(c0) * 4 + DigitValue(c1) / 16, (DigitValue(c1) % 16) * 16 + DigitValue(c2) / 4])
      else None
    else DecodeFull(c0, c1, c2, c3)
  }

  /** The inverse of `Encode`: none for a length that is not a multiple of
      four, a character outside the alphabet, or padding anywhere but the
      end of the last group. */
  function Decode(s: string): (r: Option<seq<Byte>>)
    ensures r.Some? && s != [] ==> |s| >= 4
    decreases |s|
  {
    if |s| == 0 then Some([])
    else if |s| < 4 then None
    else if |s| == 4 then DecodeLast(s[0], s[1], s[2], s[3])
    else
      match DecodeFull(s[0], s[1], s[2], s[3])
      case None => None
      case Some(group) =>
        match Decode(s[4..])
        case None => None
        case Some(rest) => Some(group + rest)
  }

  lemma GroupRoundTrip(b0: Byte, b1: Byte, b2: Byte)
    ensures DecodeGroup(b0 / 4, (b0 % 4) * 16 + b1 / 16, (b1 % 16) * 4 + b2 / 64, b2 % 64) == [b0, b1, b2]
  {
  }

  /** Four digit characters decode to the bytes of their values, as a
      middle or as a last group. */
  lemma DecodeDigits(d0: Sextet, d1: Sextet, d2: Sextet, d3: Sextet)
    ensures DecodeFull(Digit(d0), Digit(d1), Digit(d2), Digit(d3)) == Some(DecodeGroup(d0, d1, d2, d3))
    ensures DecodeLast(Digit(d0), Digit(d1), Digit(d2), Digit(d3)) == Some(DecodeGroup(d0, d1, d2, d3))
  {
    DigitRoundTrip(d0);
    DigitRoundTrip(d1);
    DigitRoundTrip(d2);
    DigitRoundTrip(d3);
  }

  /** The four digits of three bytes decode to those bytes, as a middle or
      as a last group. */
  lemma FullGroupRoundTrip(b0: Byte, b1: Byte, b2: Byte)
    ensures var g := EncodeGroup(b0, b1, b2);
      DecodeFull(g[0], g[1], g[2], g[3]) == Some([b0, b1, b2]) &&
      DecodeLast(g[0], g[1], g[2], g[3]) == Some([b0, b1, b2])
  {
    DecodeDigits(b0 / 4, (b0 % 4) * 16 + b1 / 16, (b1 % 16) * 4 + b2 / 64, b2 % 64);
    GroupRoundTrip(b0, b1, b2);
  }

  /** A final single byte: two digits and two pads. */
  lemma DecodeEncodeOne(b0: Byte)
    ensures Decode(Encode([b0])) == Some([b0])
  {
    var d0, d1 := b0 / 4, (b0 % 4) * 16;
    DigitRoundTrip(d0);
    DigitRoundTrip(d1);
    assert Encode([b0]) == [Digit(d0), Digit(d1), '=', '='];
  }

  /** A final pair of bytes: three digits and one pad. */
  lemma DecodeEncodeTwo(b0: Byte, b1: Byte)
    ensures Decode(Encode([b0, b1])) == Some([b0, b1])
  {
    var d0, d1, d2 := b0 / 4, (b0 % 4) * 16 + b1 / 16, (b1 % 16) * 4;
    DigitRoundTrip(d0);
    DigitRoundTrip(d1);
    DigitRoundTrip(d2);
    assert d0 * 4 + d1 / 16 == b0;
    assert (d1 % 16) * 16 + d2 / 4 == b1;
    var t := Encode([b0, b1]);
    assert t == [Digit(d0), Digit(d1), Digit(d2), '='];
    assert t[2] != '=' && t[3] == '=';
  }

  /** A full group in front of any valid rest decodes to its three bytes in
      front of the rest. */
  lemma DecodeGroupThenRest(b0: Byte, b1: Byte, b2: Byte, rest: string)
    requires Decode(rest).Some?
    ensures Decode(EncodeGroup(b0, b1, b2) + rest) == Some([b0, b1, b2] + Decode(rest).value)
  {
    FullGroupRoundTrip(b0, b1, b2);
    DecodeThenRest(EncodeGroup(b0, b1, b2), [b0, b1, b2], rest);
  }

  /** Any four characters that decode the same as a middle or as a last
      group, in front of a valid rest. */
  lemma DecodeThenRest(group: string, bytes: seq<Byte>, rest: string)
    requires |group| == 4
    requires DecodeFull(group[0], group[1], group[2], group[3]) == Some(bytes)
    requires DecodeLast(group[0], group[1], group[2], group[3]) == Some(bytes)
    requires Decode(rest).Some?
    ensures Decode(group + rest) == Some(bytes + Decode(rest).value)
  {
    var s := group + rest;
    assert s[0] == group[0] && s[1] == group[1] && s[2] == group[2] && s[3] == group[3];
    if rest == [] {
      assert s == group;
      assert bytes + Decode(rest).value == bytes;
    } else {
      assert s[4..] == rest;
    }
  }

  /** Decoding what was encoded gives the bytes back. */
  lemma {:induction false} DecodeEncode(bytes: seq<Byte>)
    ensures Decode(Encode(bytes)) == Some(bytes)
    decreases |bytes|
  {
    if |bytes| == 1 {
      assert bytes == [bytes[0]];
      DecodeEncodeOne(bytes[0]);
    } else if |bytes| == 2 {
      assert bytes == [bytes[0], bytes[1]];
      DecodeEncodeTwo(bytes[0], bytes[1]);
    } else if |bytes| >= 3 {
      DecodeEncode(bytes[3..]);
      DecodeEncodeGroups(bytes);
    }
  }

  /** The inductive step: a leading group of three in front of a rest that
      round-trips. */
  lemma DecodeEncodeGroups(bytes: seq<Byte>)
    requires |bytes| >= 3
    requires Decode(Encode(bytes[3..])) == Some(bytes[3..])
    ensures Decode(Encode(bytes)) == Some(bytes)
  {
    SplitThree(bytes);
    EncodeUnfolds(bytes);
    DecodeGroupThenRest(bytes[0], bytes[1], bytes[2], Encode(bytes[3..]));
  }

  lemma SplitThree(bytes: seq<Byte>)
    requires |bytes| >= 3
    ensures [bytes[0], bytes[1], bytes[2]] + bytes[3..] == bytes
  {
  }

  lemma EncodeUnfolds(bytes: seq<Byte>)
    requires |bytes| >= 3
    ensures Encode(bytes) == EncodeGroup(bytes[0], bytes[1], bytes[2]) + Encode(bytes[3..])
  {
  }

  /** Every character of the output is a digit or padding. */
  lemma {:induction false} EncodeAlphabet(bytes: seq<Byte>)
    ensures forall i :: 0 <= i < |Encode(bytes)| ==> IsDigit(Encode(bytes)[i]) || Encode(bytes)[i] == '='
    decreases |bytes|
  {
    if |bytes| >= 3 {
      EncodeAlphabet(bytes[3..]);
      var group := EncodeGroup(bytes[0], bytes[1], bytes[2]);
      forall i | 0 <= i < 4 ensures IsDigit(group[i]) {
        DigitRoundTrip(bytes[0] / 4);
        DigitRoundTrip((bytes[0] % 4) * 16 + bytes[1] / 16);
        DigitRoundTrip((bytes[1] % 16) * 4 + bytes[2] / 64);
        DigitRoundTrip(bytes[2] % 64);
      }
    } else if |bytes| == 1 {
      DigitRoundTrip(bytes[0] / 4);
      DigitRoundTrip((bytes[0] % 4) * 16);
    } else if |bytes| == 2 {
      DigitRoundTrip(bytes[0] / 4);
      DigitRoundTrip((bytes[0] % 4) * 16 + bytes[1] / 16);
      DigitRoundTrip((bytes[1] % 16) * 4);
    }
  }

  /** The test vectors of section 10 of RFC 4648. */
  lemma {:induction false} RfcTestVectors()
    ensures Encode([]) == ""
    ensures Encode([0x66]) == "Zg=="
    ensures Encode([0x66, 0x6F]) == "Zm8="
    ensures Encode([0x66, 0x6F, 0x6F]) == "Zm9v"
    ensures Encode([0x66, 0x6F, 0x6F, 0x62]) == "Zm9vYg=="
    ensures Encode([0x66, 0x6F, 0x6F, 0x62, 0x61]) == "Zm9vYmE="
    ensures Encode([0x66, 0x6F, 0x6F, 0x62, 0x61, 0x72]) == "Zm9vYmFy"
  {
    var foobar: seq<Byte> := [0x66, 0x6F, 0x6F, 0x62, 0x61, 0x72];
    assert Encode([0x66, 0x6F, 0x6F]) == "Zm9v" by {
      assert foobar[..3][3..] == [];
    }
    assert foobar[..4][3..] == [0x62];
    assert foobar[..5][3..] == [0x62, 0x61];
    assert foobar[3..] == [0x62, 0x61, 0x72];
    assert foobar[3..][3..] == [];
  }

  /** `String.fromCharCode(...bytes)`: one character per byte, of that code. */
  function Latin1(bytes: seq<Byte>): (s: string)
    ensures |s| == |bytes|
    ensures forall i :: 0 <= i < |bytes| ==> s[i] as int == bytes[i]
  {
    seq(|bytes|, i requires 0 <= i < |bytes| => bytes[i] as char)
  }

  /** `btoa(binary)`: base64 of the character codes, or none (an
      `InvalidCharacterError`) when a code is above 255. */
  function Btoa(binary: string): (r: Option<string>)
    ensures r.Some? <==> forall i :: 0 <= i < |binary| ==> binary[i] as int < 256
  {
    if forall i :: 0 <= i < |binary| ==> binary[i] as int < 256 then
      Some(Encode(seq(|binary|, i requires 0 <= i < |binary| => binary[i] as int)))
    else None
  }

  /** A byte string always converts, to the base64 of its bytes. */
  lemma BtoaOfLatin1(bytes: seq<Byte>)
    ensures Btoa(Latin1(bytes)) == Some(Encode(bytes))
  {
    var binary := Latin1(bytes);
    assert seq(|binary|, i requires 0 <= i < |binary| => binary[i] as int) == bytes;
  }

  lemma Latin1OfConcat(a: seq<Byte>, b: seq<Byte>)
    ensures Latin1(a + b) == Latin1(a) + Latin1(b)
  {
  }
}
