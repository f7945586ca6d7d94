/** The URL- and filename-safe Base64 alphabet of section 5 of RFC 4648, with
    `=` padding, as produced by Python's `base64.urlsafe_b64encode`, and the
    ASCII encoding step (`str.encode('ascii')`) that feeds it. */
module Base64Url {

  import opened Wrappers

  /** An octet of the input. */
  type byte = x: int | 0 <= x < 256

  /** A sextet is a 6-bit group, one alphabet character. */
  predicate IsSextet(x: int) { 0 <= x < 64 }

  /** Character for sextet `x`: `A`-`Z`, `a`-`z`, `0`-`9`, then `-` and `_`
      (section 5 of RFC 4648, where the standard alphabet has `+` and `/`). */
  function SextetChar(x: int): (c: char)
    requires IsSextet(x)
    ensures c != '='
  {
    if x < 26 then (('A' as int) + x) as char
    else if x < 52 then (('a' as int) + (x - 26)) as char
    else if x < 62 then (('0' as int) + (x - 52)) as char
    else if x == 62 then '-'
    else '_'
  }

  /** Sextet of an alphabet character, None for anything outside the alphabet. */
  function CharSextet(c: char): (r: Option<int>)
    ensures r.Some? ==> IsSextet(r.value) && SextetChar(r.value) == c
  {
    if 'A' <= c <= 'Z' then Some(c as int - 'A' as int)
    else if 'a' <= c <= 'z' then Some(c as int - 'a' as int + 26)
    else if '0' <= c <= '9' then Some(c as int - '0' as int + 52)
    else if c == '-' then Some(62)
    else if c == '_' then Some(63)
    else None
  }

  lemma CharSextetInverse(x: int)
    requires IsSextet(x)
    ensures CharSextet(SextetChar(x)) == Some(x)
  {
  }

  predicate InAlphabet(c: char) { CharSextet(c).Some? }

  /** Three bytes become four characters. */
  function EncodeGroup(b0: byte, b1: byte, b2: byte): (s: string)
    ensures |s| == 4 && forall k :: 0 <= k < 4 ==> InAlphabet(s[k])
  {
    var x0, x1, x2, x3 := b0 / 4, (b0 % 4) * 16 + b1 / 16, (b1 % 16) * 4 + b2 / 64, b2 % 64;
    CharSextetInverse(x0); CharSextetInverse(x1); CharSextetInverse(x2); CharSextetInverse(x3);
    [SextetChar(x0), SextetChar(x1), SextetChar(x2), SextetChar(x3)]
  }

  /** A trailing group of one byte: two characters and `==`. */
  function EncodeTail1(b0: byte): (s: string)
    ensures |s| == 4 && InAlphabet(s[0]) && InAlphabet(s[1]) && s[2] == '=' && s[3] == '='
  {
    var x0, x1 := b0 / 4, (b0 % 4) * 16;
    CharSextetInverse(x0); CharSextetInverse(x1);
    [SextetChar(x0), SextetChar(x1), '=', '=']
  }

  /** A trailing group of two bytes: three characters and `=`. */
  function EncodeTail2(b0: byte, b1: byte): (s: string)
    ensures |s| == 4 && InAlphabet(s[0]) && InAlphabet(s[1]) && InAlphabet(s[2]) && s[3] == '='
  {
    var x0, x1, x2 := b0 / 4, (b0 % 4) * 16 + b1 / 16, (b1 % 16) * 4;
    CharSextetInverse(x0); CharSextetInverse(x1); CharSextetInverse(x2);
    [SextetChar(x0), SextetChar(x1), SextetChar(x2), '=']
  }

  /** `base64.urlsafe_b64encode`: every full group of three bytes is four
      alphabet characters; one or two left-over bytes are padded with `=`. */
  function Encode(b: seq<byte>): (s: string)
    ensures |s| == 4 * ((|b| + 2) / 3)
    ensures forall k :: 0 <= k < |s| ==> InAlphabet(s[k]) || s[k] == '='
    decreases |b|
  {
    if |b| == 0 then []
    else if |b| == 1 then EncodeTail1(b[0])
    else if |b| == 2 then EncodeTail2(b[0], b[1])
    else EncodeGroup(b[0], b[1], b[2]) + Encode(b[3..])
  }

  /** Decodes one group of four characters; padding is allowed only when the
      group is the last one. */
  function DecodeGroup(g: string, last: bool): (r: Option<seq<byte>>)
    requires |g| == 4
  {
    var s0, s1, s2, s3 := CharSextet(g[0]), CharSextet(g[1]), CharSextet(g[2]), CharSextet(g[3]);
    if s0.None? || s1.None? then None
    else if last && g[2] == '=' && g[3] == '=' then
      Some([s0.value * 4 + s1.value / 16])
    else if s2.None? then None
    else if last && g[3] == '=' then
      Some([s0.value * 4 + s1.value / 16, (s1.value % 16) * 16 + s2.value / 4])
    else if s3.None? then None
    else
      Some([s0.value * 4 + s1.value / 16,
            (s1.value % 16) * 16 + s2.value / 4,
            (s2.value % 4) * 64 + s3.value])
  }

  /** The URL-safe decoder, the inverse that the round trip is stated against. */
  function Decode(s: string): (r: Option<seq<byte>>)
    decreases |s|
  {
    if |s| == 0 then Some([])
    else if |s| < 4 then None
    else
      match DecodeGroup(s[..4], |s| == 4)
      case None => None
      case Some(head) =>
        match Decode(s[4..])
        case None => None
        case Some(rest) => Some(head + rest)
  }

  lemma DecodeEncodeGroup(b0: byte, b1: byte, b2: byte, last: bool)
    ensures DecodeGroup(EncodeGroup(b0, b1, b2), last) == Some([b0, b1, b2])
  {
    var x0, x1, x2, x3 := b0 / 4, (b0 % 4) * 16 + b1 / 16, (b1 % 16) * 4 + b2 / 64, b2 % 64;
    CharSextetInverse(x0); CharSextetInverse(x1); CharSextetInverse(x2); CharSextetInverse(x3);
    assert x0 * 4 + x1 / 16 == b0;
    assert (x1 % 16) * 16 + x2 / 4 == b1;
    assert (x2 % 4) * 64 + x3 == b2;
  }

  lemma DecodeEncodeTail1(b0: byte)
    ensures Decode(EncodeTail1(b0)) == Some([b0])
  {
    var x0, x1 := b0 / 4, (b0 % 4) * 16;
    CharSextetInverse(x0); CharSextetInverse(x1);
    var s := EncodeTail1(b0);
    assert s[..4] == s && s[4..] == [];
    assert DecodeGroup(s, true) == Some([b0]);
    assert [b0] + [] == [b0];
  }

  lemma DecodeEncodeTail2(b0: byte, b1: byte)
    ensures Decode(EncodeTail2(b0, b1)) == Some([b0, b1])
  {
    var x0, x1, x2 := b0 / 4, (b0 % 4) * 16 + b1 / 16, (b1 % 16) * 4;
    CharSextetInverse(x0); CharSextetInverse(x1); CharSextetInverse(x2);
    var s := EncodeTail2(b0, b1);
    assert s[..4] == s && s[4..] == [];
    assert DecodeGroup(s, true) == Some([b0, b1]);
    assert [b0, b1] + [] == [b0, b1];
  }

  /** Decoding the encoder's output gives back the bytes (round trip). */
  lemma {:induction false} DecodeEncode(b: seq<byte>)
    ensures Decode(Encode(b)) == Some(b)
    decreases |b|
  {
    if |b| == 0 {
    } else if |b| == 1 {
      DecodeEncodeTail1(b[0]);
      assert [b[0]] == b;
    } else if |b| == 2 {
      DecodeEncodeTail2(b[0], b[1]);
      assert [b[0], b[1]] == b;
    } else {
      var rest := Encode(b[3..]);
      DecodeEncodeGroup(b[0], b[1], b[2], |rest| == 0);
      DecodeEncode(b[3..]);
      DecodeAppend(EncodeGroup(b[0], b[1], b[2]), rest);
      assert [b[0], b[1], b[2]] + b[3..] == b;
    }
  }

  /** Decoding a group followed by more text decodes the group, then the rest. */
  lemma DecodeAppend(g: string, rest: string)
    requires |g| == 4
    ensures Decode(g + rest) ==
      match (DecodeGroup(g, |rest| == 0), Decode(rest))
      case (Some(h), Some(r)) => Some(h + r)
      case _ => None
  {
    var s := g + rest;
    assert s[..4] == g && s[4..] == rest;
  }

  /** The encoder is injective: different byte strings never share an encoding. */
  lemma EncodeInjective(a: seq<byte>, b: seq<byte>)
    requires Encode(a) == Encode(b)
    ensures a == b
  {
    DecodeEncode(a);
    DecodeEncode(b);
  }

  /** `str.encode('ascii')`: None where Python raises UnicodeEncodeError. */
  function AsciiBytes(s: string): (r: Option<seq<byte>>)
    ensures r.Some? <==> forall k :: 0 <= k < |s| ==> s[k] as int < 128
    ensures r.Some? ==> |r.value| == |s| && forall k :: 0 <= k < |s| ==> r.value[k] as int == s[k] as int
  {
    if |s| == 0 then Some([])
    else if s[0] as int >= 128 then None
    else
      match AsciiBytes(s[1..])
      case None => None
      case Some(rest) => Some([s[0] as int as byte] + rest)
  }
}
