/**
  The Base64 encoding of section 4 of RFC 4648: the standard 64-character
  alphabet, `=` padding, no line breaks. The encoder is what the blob builder
  uses to turn binary content into text; the decoder is what reading a blob
  tagged "base64" applies to its content.

  The decoder is strict: it accepts exactly the strings the encoder produces
  (a multiple of four characters, alphabet characters only, padding only at
  the end, zero pad bits as section 3.5 of RFC 4648 allows a decoder to
  demand) and answers None for anything else.
*/
module Base64 {
  import opened Wrappers

  /** An octet, the value of one element of a byte array read as unsigned. */
  type byte = x: int | 0 <= x < 256

  /** A 6-bit group, the value one Base64 character stands for. */
  type sextet = x: int | 0 <= x < 64

  const Pad: char := '='

  /** The character of the section 4 alphabet that stands for `v`. */
  function CharOf(v: sextet): (c: char)
  {
    if v < 26 then ('A' as int + v) as char
    else if v < 52 then ('a' as int + (v - 26)) as char
    else if v < 62 then ('0' as int + (v - 52)) as char
    else if v == 62 then '+'
    else '/'
  }

  /** The value of an alphabet character, None for any other character. */
  function ValueOf(c: char): (r: Option<sextet>)
  {
    if 'A' <= c <= 'Z' then Some(c as int - 'A' as int)
    else if 'a' <= c <= 'z' then Some(c as int - 'a' as int + 26)
    else if '0' <= c <= '9' then Some(c as int - '0' as int + 52)
    else if c == '+' then Some(62)
    else if c == '/' then Some(63)
    else None
  }

  predicate IsAlphabetChar(c: char)
  {
    ValueOf(c).Some?
  }

  /** The alphabet is a bijection between sextets and its 64 characters. */
  lemma CharOfValueOf(v: sextet, c: char)
    ensures ValueOf(CharOf(v)) == Some(v)
    ensures ValueOf(c) == Some(v) ==> CharOf(v) == c
  {
  }

  /** Three octets as four sextets, most significant bits first. */
  function Split(x: byte, y: byte, z: byte): (v: seq<sextet>)
    ensures |v| == 4
  {
    [x / 4, (x % 4) * 16 + y / 16, (y % 16) * 4 + z / 64, z % 64]
  }

  /** Four sextets as three octets, the inverse of Split. */
  function Join(v0: sextet, v1: sextet, v2: sextet, v3: sextet): (b: seq<byte>)
    ensures |b| == 3
  {
    [v0 as int * 4 + v1 / 16, (v1 as int % 16) * 16 + v2 / 4, (v2 as int % 4) * 64 + v3]
  }

  lemma JoinSplit(x: byte, y: byte, z: byte)
    ensures var v := Split(x, y, z); Join(v[0], v[1], v[2], v[3]) == [x, y, z]
  {
  }

  lemma SplitJoin(v0: sextet, v1: sextet, v2: sextet, v3: sextet)
    ensures var b := Join(v0, v1, v2, v3); Split(b[0], b[1], b[2]) == [v0, v1, v2, v3]
  {
    var b := Join(v0, v1, v2, v3);
    assert b[0] / 4 == v0 && b[0] % 4 == v1 / 16;
    assert b[1] / 16 == v1 % 16 && b[1] % 16 == v2 / 4;
    assert b[2] / 64 == v2 % 4 && b[2] % 64 == v3;
  }

  /** Three octets as four characters. */
  function EncodeTriple(x: byte, y: byte, z: byte): string
  {
    var v := Split(x, y, z);
    [CharOf(v[0]), CharOf(v[1]), CharOf(v[2]), CharOf(v[3])]
  }

  /**
    The last one or two octets as four characters: the group is completed
    with zero octets, and the characters that stand only for those are
    replaced by `=`.
  */
  function EncodeFinal(b: seq<byte>): string
    requires 1 <= |b| <= 2
  {
    if |b| == 1 then
      var v := Split(b[0], 0, 0);
      [CharOf(v[0]), CharOf(v[1]), Pad, Pad]
    else
      var v := Split(b[0], b[1], 0);
      [CharOf(v[0]), CharOf(v[1]), CharOf(v[2]), Pad]
  }

  /** The Base64 text of `b`. */
  function Encode(b: seq<byte>): string
    decreases |b|
  {
    if |b| == 0 then ""
    else if |b| < 3 then EncodeFinal(b)
    else EncodeTriple(b[0], b[1], b[2]) + Encode(b[3..])
  }

  /** Four alphabet characters as three octets. */
  function DecodeQuad(c0: char, c1: char, c2: char, c3: char): Option<seq<byte>>
  {
    match (ValueOf(c0), ValueOf(c1), ValueOf(c2), ValueOf(c3))
    case (Some(v0), Some(v1), Some(v2), Some(v3)) => Some(Join(v0, v1, v2, v3))
    case _ => None
  }

  /**
    A final group `c0 c1 c2 =`, where `c2` is itself `=` or an alphabet
    character. The bits that would spill into the dropped octets must be
    zero.
  */
  function DecodePadded(c0: char, c1: char, c2: char): Option<seq<byte>>
  {
    match (ValueOf(c0), ValueOf(c1))
    case (Some(v0), Some(v1)) =>
      if c2 == Pad then
        var g := Join(v0, v1, 0, 0);
        if g[1] == 0 then Some(g[..1]) else None
      else if ValueOf(c2).Some? then
        var g := Join(v0, v1, ValueOf(c2).value, 0);
        if g[2] == 0 then Some(g[..2]) else None
      else None
    case _ => None
  }

  /** The octets whose Base64 text is `s`, or None when `s` is not such a text. */
  function Decode(s: string): Option<seq<byte>>
    decreases |s|
  {
    if |s| == 0 then Some([])
    else if |s| < 4 then None
    else if |s| == 4 && s[3] == Pad then DecodePadded(s[0], s[1], s[2])
    else match (DecodeQuad(s[0], s[1], s[2], s[3]), Decode(s[4..]))
      case (Some(g), Some(rest)) => Some(g + rest)
      case _ => None
  }

  /** The number of `=` characters that end the encoding of `n` octets. */
  function PadLength(n: nat): nat
  {
    (3 - n % 3) % 3
  }

  /** `s` is alphabet characters followed by `pad` padding characters. */
  predicate Shaped(s: string, pad: nat)
  {
    && pad <= |s|
    && (forall k :: 0 <= k < |s| ==> (IsAlphabetChar(s[k]) <==> k < |s| - pad))
    && (forall k :: 0 <= k < |s| ==> (s[k] == Pad <==> k >= |s| - pad))
  }

  lemma ShapedConcat(t: string, r: string, pad: nat)
    requires Shaped(t, 0) && Shaped(r, pad)
    ensures Shaped(t + r, pad)
  {
    forall k | 0 <= k < |t + r|
      ensures (t + r)[k] == if k < |t| then t[k] else r[k - |t|]
    {
    }
  }

  /** Every character of a full group is an alphabet character. */
  lemma TripleShape(x: byte, y: byte, z: byte)
    ensures Shaped(EncodeTriple(x, y, z), 0)
  {
    var v := Split(x, y, z);
    CharOfValueOf(v[0], ' ');
    CharOfValueOf(v[1], ' ');
    CharOfValueOf(v[2], ' ');
    CharOfValueOf(v[3], ' ');
  }

  /** A final group is alphabet characters followed by the padding that `|b|` octets need. */
  lemma FinalShape(b: seq<byte>)
    requires 1 <= |b| <= 2
    ensures Shaped(EncodeFinal(b), PadLength(|b|))
  {
    var t := EncodeFinal(b);
    var v := Split(b[0], if |b| == 2 then b[1] else 0, 0);
    CharOfValueOf(v[0], ' ');
    CharOfValueOf(v[1], ' ');
    CharOfValueOf(v[2], ' ');
    assert IsAlphabetChar(t[0]) && IsAlphabetChar(t[1]) && t[3] == Pad;
    assert |b| == 1 ==> t[2] == Pad;
    assert |b| == 2 ==> IsAlphabetChar(t[2]);
  }

  lemma PadLengthStep(n: nat)
    ensures PadLength(n + 3) == PadLength(n)
    ensures (n + 3 + 2) / 3 == (n + 2) / 3 + 1
  {
  }

  /** The encoding is four characters per started group of three octets. */
  lemma {:induction false} EncodeLength(b: seq<byte>)
    ensures |Encode(b)| == 4 * ((|b| + 2) / 3)
    decreases |b|
  {
    if |b| >= 3 {
      EncodeLength(b[3..]);
      PadLengthStep(|b| - 3);
    }
  }

  /**
    The encoding consists of alphabet characters followed by exactly the
    padding the last group needs.
  */
  lemma {:induction false} EncodeShape(b: seq<byte>)
    ensures Shaped(Encode(b), PadLength(|b|))
    decreases |b|
  {
    if 1 <= |b| < 3 {
      FinalShape(b);
    } else if |b| >= 3 {
      EncodeShape(b[3..]);
      TripleShape(b[0], b[1], b[2]);
      PadLengthStep(|b| - 3);
      ShapedConcat(EncodeTriple(b[0], b[1], b[2]), Encode(b[3..]), PadLength(|b|));
    }
  }

  /** The encoding holds no line break: it is a single line of text. */
  lemma EncodeSingleLine(b: seq<byte>)
    ensures '\n' !in Encode(b) && '\r' !in Encode(b)
  {
    EncodeShape(b);
    var s := Encode(b);
    forall k | 0 <= k < |s|
      ensures s[k] != '\n' && s[k] != '\r'
    {
      assert IsAlphabetChar(s[k]) || s[k] == Pad;
    }
  }

  /** One full group: the four characters of three octets decode to those octets. */
  lemma TripleDecodes(x: byte, y: byte, z: byte)
    ensures var t := EncodeTriple(x, y, z); DecodeQuad(t[0], t[1], t[2], t[3]) == Some([x, y, z])
  {
    var v := Split(x, y, z);
    CharOfValueOf(v[0], ' ');
    CharOfValueOf(v[1], ' ');
    CharOfValueOf(v[2], ' ');
    CharOfValueOf(v[3], ' ');
    JoinSplit(x, y, z);
  }

  /** One full group: four characters that decode to three octets are their encoding. */
  lemma QuadEncodes(c0: char, c1: char, c2: char, c3: char)
    requires DecodeQuad(c0, c1, c2, c3).Some?
    ensures var g := DecodeQuad(c0, c1, c2, c3).value; EncodeTriple(g[0], g[1], g[2]) == [c0, c1, c2, c3]
  {
    var v0, v1, v2, v3 := ValueOf(c0).value, ValueOf(c1).value, ValueOf(c2).value, ValueOf(c3).value;
    CharOfValueOf(v0, c0);
    CharOfValueOf(v1, c1);
    CharOfValueOf(v2, c2);
    CharOfValueOf(v3, c3);
    SplitJoin(v0, v1, v2, v3);
  }

  /** The padded last group: the encoding of one or two octets decodes to them. */
  lemma FinalDecodes(b: seq<byte>)
    requires 1 <= |b| <= 2
    ensures var t := EncodeFinal(b); DecodePadded(t[0], t[1], t[2]) == Some(b)
  {
    if |b| == 1 {
      var v := Split(b[0], 0, 0);
      CharOfValueOf(v[0], ' ');
      CharOfValueOf(v[1], ' ');
      JoinSplit(b[0], 0, 0);
      assert [b[0], 0, 0][..1] == b;
    } else {
      var v := Split(b[0], b[1], 0);
      CharOfValueOf(v[0], ' ');
      CharOfValueOf(v[1], ' ');
      CharOfValueOf(v[2], ' ');
      JoinSplit(b[0], b[1], 0);
      assert CharOf(v[2]) != Pad;
      assert [b[0], b[1], 0][..2] == b;
    }
  }

  /** The padded last group: characters that decode to one or two octets are their encoding. */
  lemma PaddedEncodes(c0: char, c1: char, c2: char)
    requires DecodePadded(c0, c1, c2).Some?
    ensures var b := DecodePadded(c0, c1, c2).value; 1 <= |b| <= 2 && EncodeFinal(b) == [c0, c1, c2, Pad]
  {
    assert ValueOf(c0).Some? && ValueOf(c1).Some?;
    var v0, v1 := ValueOf(c0).value, ValueOf(c1).value;
    CharOfValueOf(v0, c0);
    CharOfValueOf(v1, c1);
    if c2 == Pad {
      SplitJoin(v0, v1, 0, 0);
    } else {
      var v2 := ValueOf(c2).value;
      CharOfValueOf(v2, c2);
      SplitJoin(v0, v1, v2, 0);
    }
  }

  /** Decoding the encoding of `b` gives back exactly `b`. */
  lemma {:induction false} DecodeEncode(b: seq<byte>)
    ensures Decode(Encode(b)) == Some(b)
    decreases |b|
  {
    if |b| == 0 {
      assert Encode(b) == "";
    } else if |b| < 3 {
      FinalGroupDecodes(b);
    } else {
      DecodeEncode(b[3..]);
      FullGroupDecodes(b[0], b[1], b[2], b[3..]);
      assert [b[0], b[1], b[2]] + b[3..] == b;
    }
  }

  /** One or two octets decode back from their encoding. */
  lemma FinalGroupDecodes(b: seq<byte>)
    requires 1 <= |b| < 3
    ensures Decode(Encode(b)) == Some(b)
  {
    var t := EncodeFinal(b);
    assert Encode(b) == t && |t| == 4 && t[3] == Pad;
    FinalDecodes(b);
  }

  /** Octets that start with a full group decode back from their encoding, once their rest does. */
  lemma FullGroupDecodes(x: byte, y: byte, z: byte, rest: seq<byte>)
    requires Decode(Encode(rest)) == Some(rest)
    ensures Decode(Encode([x, y, z] + rest)) == Some([x, y, z] + rest)
  {
    EncodeGroup([x, y, z], rest);
    TripleDecodes(x, y, z);
    TripleShape(x, y, z);
    DecodeGroup(EncodeTriple(x, y, z), Encode(rest), [x, y, z], rest);
  }

  /** A full group followed by a decodable rest decodes to the group's octets followed by the rest's. */
  lemma DecodeGroup(t: string, r: string, g: seq<byte>, rest: seq<byte>)
    requires |t| == 4 && t[3] != Pad
    requires DecodeQuad(t[0], t[1], t[2], t[3]) == Some(g) && Decode(r) == Some(rest)
    ensures Decode(t + r) == Some(g + rest)
  {
    var s := t + r;
    assert s[..4] == t && s[4..] == r && s[3] == t[3];
    assert s[0] == t[0] && s[1] == t[1] && s[2] == t[2];
  }

  /** Whatever the decoder accepts is the encoding of what it returns. */
  lemma {:induction false} EncodeDecode(s: string, b: seq<byte>)
    requires Decode(s) == Some(b)
    ensures Encode(b) == s
    decreases |s|
  {
    if |s| == 4 && s[3] == Pad {
      PaddedGroupEncodes(s);
    } else if |s| >= 4 {
      DecodeSplit(s);
      var rest := Decode(s[4..]).value;
      EncodeDecode(s[4..], rest);
      FullGroupEncodes(s, b, rest);
    }
  }

  /** A text that starts with a full group is the encoding of what it decodes to, once its rest is. */
  lemma FullGroupEncodes(s: string, b: seq<byte>, rest: seq<byte>)
    requires |s| >= 4 && DecodeQuad(s[0], s[1], s[2], s[3]).Some?
    requires b == DecodeQuad(s[0], s[1], s[2], s[3]).value + rest
    requires Encode(rest) == s[4..]
    ensures Encode(b) == s
  {
    var g := DecodeQuad(s[0], s[1], s[2], s[3]).value;
    QuadEncodes(s[0], s[1], s[2], s[3]);
    EncodeGroup(g, rest);
    assert [s[0], s[1], s[2], s[3]] + s[4..] == s;
  }

  /** A single padded group that decodes is the encoding of what it decodes to. */
  lemma PaddedGroupEncodes(s: string)
    requires |s| == 4 && s[3] == Pad && Decode(s).Some?
    ensures Encode(Decode(s).value) == s
  {
    assert Decode(s) == DecodePadded(s[0], s[1], s[2]);
    PaddedEncodes(s[0], s[1], s[2]);
    assert [s[0], s[1], s[2], s[3]] == s;
  }

  /** A text that decodes and does not end its first group with `=` decodes group by group. */
  lemma DecodeSplit(s: string)
    requires |s| >= 4 && !(|s| == 4 && s[3] == Pad) && Decode(s).Some?
    ensures DecodeQuad(s[0], s[1], s[2], s[3]).Some? && Decode(s[4..]).Some?
    ensures Decode(s).value == DecodeQuad(s[0], s[1], s[2], s[3]).value + Decode(s[4..]).value
  {
  }

  /** Three octets followed by a rest encode as the group's four characters followed by the rest's encoding. */
  lemma EncodeGroup(g: seq<byte>, rest: seq<byte>)
    requires |g| == 3
    ensures Encode(g + rest) == EncodeTriple(g[0], g[1], g[2]) + Encode(rest)
  {
    var b := g + rest;
    assert b[0] == g[0] && b[1] == g[1] && b[2] == g[2] && b[3..] == rest;
  }

  /** The decoder and the encoder are inverse: `s` decodes to `b` exactly when `s` is the encoding of `b`. */
  lemma DecodeIffEncode(s: string, b: seq<byte>)
    ensures Decode(s) == Some(b) <==> Encode(b) == s
  {
    DecodeEncode(b);
    if Decode(s) == Some(b) {
      EncodeDecode(s, b);
    }
  }

  /** Two octets 0x00 0xFF: one full sextet of zeros, then one `=`. */
  lemma EncodeExample()
    ensures Encode([0x00, 0xFF]) == "AP8="
    ensures Decode("AP8=") == Some([0x00, 0xFF])
  {
    DecodeEncode([0x00, 0xFF]);
  }
}
