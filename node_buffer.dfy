/** What `new Buffer(text).toString("base64")` computes in Node.js: the text is
    encoded as UTF-8 (RFC 3629, section 3) and the bytes are written in the base 64
    alphabet with padding (RFC 4648, section 4). Both encoders come with a decoder
    and a proof that decoding inverts encoding, which is what makes the result
    usable as the credentials part of an HTTP Basic Authorization header
    (RFC 7617, section 2). */
module NodeBuffer {
  import opened Wrappers

  type byte = x: int | 0 <= x < 256

  // ---------------------------------------------------------------------------
  // UTF-8

  /** A code point Dafny can hold in a `char`: any Unicode scalar value. */
  predicate IsScalarValue(v: int) {
    (0 <= v < 0xD800) || (0xE000 <= v < 0x11_0000)
  }

  /** The UTF-8 bytes of one character: one byte below U+0080, then two, three or
      four bytes, a lead byte that announces the length followed by continuation
      bytes that carry six bits each. */
  function CharBytes(c: char): (r: seq<byte>)
    ensures 1 <= |r| <= 4
    ensures forall k :: 1 <= k < |r| ==> 0x80 <= r[k] < 0xC0
    ensures |r| == 1 <==> r[0] < 0x80
    ensures |r| == 2 <==> 0xC0 <= r[0] < 0xE0
    ensures |r| == 3 <==> 0xE0 <= r[0] < 0xF0
    ensures |r| == 4 <==> 0xF0 <= r[0] < 0xF8
  {
    var v := c as int;
    if v < 0x80 then [v]
    else if v < 0x800 then [0xC0 + v / 64, 0x80 + v % 64]
    else if v < 0x1_0000 then [0xE0 + v / 4096, 0x80 + (v / 64) % 64, 0x80 + v % 64]
    else [0xF0 + v / 262144, 0x80 + (v / 4096) % 64, 0x80 + (v / 64) % 64, 0x80 + v % 64]
  }

  /** The UTF-8 encoding of a string: the characters' bytes, in order. */
  function Utf8Encode(s: string): seq<byte>
    decreases |s|
  {
    if |s| == 0 then [] else CharBytes(s[0]) + Utf8Encode(s[1..])
  }

  /** How many bytes the sequence that starts with lead byte `b` has (0 if `b` cannot start one). */
  function SequenceLength(b: byte): nat {
    if b < 0x80 then 1
    else if 0xC0 <= b < 0xE0 then 2
    else if 0xE0 <= b < 0xF0 then 3
    else if 0xF0 <= b < 0xF8 then 4
    else 0
  }

  /** The code point one UTF-8 sequence carries. */
  function SequenceValue(bs: seq<byte>): int
    requires 1 <= |bs| <= 4
  {
    var b0, b1, b2, b3: int := bs[0], if |bs| > 1 then bs[1] else 0, if |bs| > 2 then bs[2] else 0, if |bs| > 3 then bs[3] else 0;
    if |bs| == 1 then b0
    else if |bs| == 2 then (b0 - 0xC0) * 64 + (b1 - 0x80)
    else if |bs| == 3 then (b0 - 0xE0) * 4096 + (b1 - 0x80) * 64 + (b2 - 0x80)
    else (b0 - 0xF0) * 262144 + (b1 - 0x80) * 4096 + (b2 - 0x80) * 64 + (b3 - 0x80)
  }

  /** Decodes UTF-8; absent when the bytes are not a sequence of encoded scalar values. */
  function Utf8Decode(bs: seq<byte>): Option<string>
    decreases |bs|
  {
    if |bs| == 0 then Some("")
    else
      var n := SequenceLength(bs[0]);
      if n == 0 || |bs| < n then None
      else
        var v := SequenceValue(bs[..n]);
        if !IsScalarValue(v) then None
        else
          match Utf8Decode(bs[n..])
          case None => None
          case Some(rest) => Some([v as char] + rest)
  }

  /** The sextets of a value below 2^18, high first, put back together. */
  lemma Sextets(v: nat)
    ensures v / 4096 == (v / 64) / 64
    ensures v / 262144 == (v / 4096) / 64
    ensures v == (v / 64) * 64 + v % 64
    ensures v / 64 == (v / 4096) * 64 + (v / 64) % 64
    ensures v / 4096 == (v / 262144) * 64 + (v / 4096) % 64
  {
    var q1 := v / 64;
    var q2 := q1 / 64;
    var q3 := q2 / 64;
    assert v == q2 * 4096 + ((q1 % 64) * 64 + v % 64);
    assert v == q3 * 262144 + ((q2 % 64) * 4096 + (q1 % 64) * 64 + v % 64);
  }

  lemma CharBytesValue(c: char)
    ensures SequenceLength(CharBytes(c)[0]) == |CharBytes(c)|
    ensures SequenceValue(CharBytes(c)) == c as int
  {
    Sextets(c as int);
  }

  /** Decoding the UTF-8 encoding of a string gives the string back. */
  lemma {:induction false} Utf8RoundTrip(s: string)
    ensures Utf8Decode(Utf8Encode(s)) == Some(s)
    decreases |s|
  {
    if |s| > 0 {
      var head := CharBytes(s[0]);
      var bs := Utf8Encode(s);
      assert bs == head + Utf8Encode(s[1..]);
      CharBytesValue(s[0]);
      assert bs[0] == head[0];
      assert bs[..|head|] == head;
      assert bs[|head|..] == Utf8Encode(s[1..]);
      Utf8RoundTrip(s[1..]);
      assert (SequenceValue(head) as char) == s[0];
      assert [s[0]] + s[1..] == s;
    }
  }

  // ---------------------------------------------------------------------------
  // base 64

  /** The character of the base 64 alphabet for a six-bit value. */
  function SextetChar(v: nat): (c: char)
    requires v < 64
  {
    if v < 26 then (('A' as int) + v) as char
    else if v < 52 then (('a' as int) + (v - 26)) as char
    else if v < 62 then (('0' as int) + (v - 52)) as char
    else if v == 62 then '+'
    else '/'
  }

  predicate IsAlphabetChar(c: char) {
    ('A' <= c <= 'Z') || ('a' <= c <= 'z') || ('0' <= c <= '9') || c == '+' || c == '/'
  }

  /** The six-bit value of an alphabet character. */
  function SextetValue(c: char): (v: nat)
    requires IsAlphabetChar(c)
    ensures v < 64
  {
    if 'A' <= c <= 'Z' then (c as int) - ('A' as int)
    else if 'a' <= c <= 'z' then (c as int) - ('a' as int) + 26
    else if '0' <= c <= '9' then (c as int) - ('0' as int) + 52
    else if c == '+' then 62
    else 63
  }

  lemma SextetRoundTrip(v: nat)
    requires v < 64
    ensures IsAlphabetChar(SextetChar(v)) && SextetValue(SextetChar(v)) == v
  {
  }

  /** Three bytes as four characters: the 24 bits cut into four sextets, high bits first. */
  function EncodeGroup(b0: byte, b1: byte, b2: byte): (r: string)
    ensures |r| == 4 && forall k :: 0 <= k < 4 ==> IsAlphabetChar(r[k])
  {
    SextetRoundTrip(b0 / 4);
    SextetRoundTrip((b0 % 4) * 16 + b1 / 16);
    SextetRoundTrip((b1 % 16) * 4 + b2 / 64);
    SextetRoundTrip(b2 % 64);
    [SextetChar(b0 / 4), SextetChar((b0 % 4) * 16 + b1 / 16),
     SextetChar((b1 % 16) * 4 + b2 / 64), SextetChar(b2 % 64)]
  }

  /** RFC 4648 section 4: every three bytes become four characters; a final group
      of one or two bytes is padded with `=` to four characters. */
  function Base64Encode(bs: seq<byte>): (r: string)
    ensures |r| == 4 * ((|bs| + 2) / 3)
    decreases |bs|
  {
    if |bs| == 0 then ""
    else if |bs| == 1 then EncodeGroup(bs[0], 0, 0)[..2] + "=="
    else if |bs| == 2 then EncodeGroup(bs[0], bs[1], 0)[..3] + "="
    else EncodeGroup(bs[0], bs[1], bs[2]) + Base64Encode(bs[3..])
  }

  /** One block of four characters: three bytes, or one or two bytes when the block
      ends in `==` or `=`; absent when the characters are not of that form. */
  function DecodeQuad(q: string): (r: Option<seq<byte>>)
    requires |q| == 4
    ensures r.Some? ==> 1 <= |r.value| <= 3
  {
    if !IsAlphabetChar(q[0]) || !IsAlphabetChar(q[1]) then None
    else
      var v0, v1 := SextetValue(q[0]), SextetValue(q[1]);
      if q[2] == '=' && q[3] == '=' then Some([v0 * 4 + v1 / 16])
      else if !IsAlphabetChar(q[2]) then None
      else
        var v2 := SextetValue(q[2]);
        if q[3] == '=' then Some([v0 * 4 + v1 / 16, (v1 % 16) * 16 + v2 / 4])
        else if !IsAlphabetChar(q[3]) then None
        else Some([v0 * 4 + v1 / 16, (v1 % 16) * 16 + v2 / 4, (v2 % 4) * 64 + SextetValue(q[3])])
  }

  /** Reads padded base 64 back into bytes; absent for text that is not of that form
      (padding is accepted in the last block only). */
  function Base64Decode(s: string): Option<seq<byte>>
    decreases |s|
  {
    if |s| == 0 then Some([])
    else if |s| < 4 then None
    else
      match DecodeQuad(s[..4])
      case None => None
      case Some(group) =>
        if |group| < 3 then (if |s| == 4 then Some(group) else None)
        else
          match Base64Decode(s[4..])
          case None => None
          case Some(rest) => Some(group + rest)
  }

  /** `(16 * x + y) / 16 == x` and `(16 * x + y) % 16 == y` for a hexadecimal digit `y`. */
  lemma DivModBy16(x: nat, y: nat)
    requires y < 16
    ensures (x * 16 + y) / 16 == x && (x * 16 + y) % 16 == y
  {
  }

  /** `(4 * x + y) / 4 == x` and `(4 * x + y) % 4 == y` for a base-four digit `y`. */
  lemma DivModBy4(x: nat, y: nat)
    requires y < 4
    ensures (x * 4 + y) / 4 == x && (x * 4 + y) % 4 == y
  {
  }

  /** The arithmetic of one group: the four sextets of three bytes give the bytes back. */
  lemma GroupArithmetic(b0: byte, b1: byte, b2: byte)
    ensures (b0 / 4) * 4 + ((b0 % 4) * 16 + b1 / 16) / 16 == b0
    ensures (((b0 % 4) * 16 + b1 / 16) % 16) * 16 + ((b1 % 16) * 4 + b2 / 64) / 4 == b1
    ensures (((b1 % 16) * 4 + b2 / 64) % 4) * 64 + b2 % 64 == b2
  {
    DivModBy16(b0 % 4, b1 / 16);
    DivModBy4(b1 % 16, b2 / 64);
  }

  /** A block of four alphabet characters decodes to the three bytes its sextets carry. */
  lemma DecodeFullQuad(v0: nat, v1: nat, v2: nat, v3: nat)
    requires v0 < 64 && v1 < 64 && v2 < 64 && v3 < 64
    ensures DecodeQuad([SextetChar(v0), SextetChar(v1), SextetChar(v2), SextetChar(v3)])
      == Some([v0 * 4 + v1 / 16, (v1 % 16) * 16 + v2 / 4, (v2 % 4) * 64 + v3])
  {
    SextetRoundTrip(v0); SextetRoundTrip(v1); SextetRoundTrip(v2); SextetRoundTrip(v3);
  }

  /** A block ending in one `=` decodes to two bytes. */
  lemma DecodeQuadOnePad(v0: nat, v1: nat, v2: nat)
    requires v0 < 64 && v1 < 64 && v2 < 64
    ensures DecodeQuad([SextetChar(v0), SextetChar(v1), SextetChar(v2), '='])
      == Some([v0 * 4 + v1 / 16, (v1 % 16) * 16 + v2 / 4])
  {
    SextetRoundTrip(v0); SextetRoundTrip(v1); SextetRoundTrip(v2);
  }

  /** A block ending in `==` decodes to one byte. */
  lemma DecodeQuadTwoPads(v0: nat, v1: nat)
    requires v0 < 64 && v1 < 64
    ensures DecodeQuad([SextetChar(v0), SextetChar(v1), '=', '=']) == Some([v0 * 4 + v1 / 16])
  {
    SextetRoundTrip(v0); SextetRoundTrip(v1);
  }

  /** A block of three bytes decodes to those bytes. */
  lemma QuadRoundTrip(b0: byte, b1: byte, b2: byte)
    ensures DecodeQuad(EncodeGroup(b0, b1, b2)) == Some([b0, b1, b2])
  {
    var v0, v1, v2, v3 := b0 / 4, (b0 % 4) * 16 + b1 / 16, (b1 % 16) * 4 + b2 / 64, b2 % 64;
    GroupArithmetic(b0, b1, b2);
    DecodeFullQuad(v0, v1, v2, v3);
    assert EncodeGroup(b0, b1, b2) == [SextetChar(v0), SextetChar(v1), SextetChar(v2), SextetChar(v3)];
  }

  /** The padded block of two bytes decodes to those bytes. */
  lemma PairRoundTrip(b0: byte, b1: byte)
    ensures DecodeQuad(EncodeGroup(b0, b1, 0)[..3] + "=") == Some([b0, b1])
  {
    var v0, w1, w2 := b0 / 4, (b0 % 4) * 16 + b1 / 16, (b1 % 16) * 4;
    GroupArithmetic(b0, b1, 0);
    DecodeQuadOnePad(v0, w1, w2);
    assert EncodeGroup(b0, b1, 0)[..3] + "=" == [SextetChar(v0), SextetChar(w1), SextetChar(w2), '='];
  }

  /** The padded block of one byte decodes to that byte. */
  lemma SingleRoundTrip(b0: byte)
    ensures DecodeQuad(EncodeGroup(b0, 0, 0)[..2] + "==") == Some([b0])
  {
    var v0, u1 := b0 / 4, (b0 % 4) * 16;
    GroupArithmetic(b0, 0, 0);
    DecodeQuadTwoPads(v0, u1);
    assert EncodeGroup(b0, 0, 0)[..2] + "==" == [SextetChar(v0), SextetChar(u1), '=', '='];
  }

  /** The encoding of three or more bytes is the first group's block followed by the
      encoding of the rest. */
  lemma EncodeSplits(bs: seq<byte>)
    requires |bs| >= 3
    ensures Base64Encode(bs)[..4] == EncodeGroup(bs[0], bs[1], bs[2])
    ensures Base64Encode(bs)[4..] == Base64Encode(bs[3..])
  {
  }

  /** A full block followed by decodable text decodes to the block's bytes and the rest's. */
  lemma DecodeSplits(s: string, group: seq<byte>, rest: seq<byte>)
    requires |s| >= 4 && DecodeQuad(s[..4]) == Some(group) && |group| == 3
    requires Base64Decode(s[4..]) == Some(rest)
    ensures Base64Decode(s) == Some(group + rest)
  {
  }

  /** One full group in front of bytes that round-trip keeps the round trip. */
  lemma GroupStep(bs: seq<byte>)
    requires |bs| >= 3
    requires Base64Decode(Base64Encode(bs[3..])) == Some(bs[3..])
    ensures Base64Decode(Base64Encode(bs)) == Some(bs)
  {
    QuadRoundTrip(bs[0], bs[1], bs[2]);
    EncodeSplits(bs);
    DecodeSplits(Base64Encode(bs), [bs[0], bs[1], bs[2]], bs[3..]);
    HeadAndTail(bs);
  }

  lemma HeadAndTail(bs: seq<byte>)
    requires |bs| >= 3
    ensures [bs[0], bs[1], bs[2]] + bs[3..] == bs
  {
  }

  /** A final group of one or two bytes decodes from its padded block. */
  lemma FinalGroupRoundTrip(bs: seq<byte>)
    requires 1 <= |bs| <= 2
    ensures Base64Decode(Base64Encode(bs)) == Some(bs)
  {
    var s := Base64Encode(bs);
    assert s[..4] == s;
    if |bs| == 1 {
      SingleRoundTrip(bs[0]);
      assert bs == [bs[0]];
    } else {
      PairRoundTrip(bs[0], bs[1]);
      assert bs == [bs[0], bs[1]];
    }
  }

  /** Decoding the base 64 encoding of bytes gives the bytes back. */
  lemma {:induction false} Base64RoundTrip(bs: seq<byte>)
    ensures Base64Decode(Base64Encode(bs)) == Some(bs)
    decreases |bs|
  {
    if 1 <= |bs| <= 2 {
      FinalGroupRoundTrip(bs);
    } else if |bs| >= 3 {
      Base64RoundTrip(bs[3..]);
      GroupStep(bs);
    }
  }

  /** `new Buffer(text).toString("base64")`. */
  function ToBase64(text: string): (r: string)
    ensures Utf8Decode(match Base64Decode(r) case Some(bs) => bs case None => []) == Some(text)
    ensures Base64Decode(r).Some?
  {
    Base64RoundTrip(Utf8Encode(text));
    Utf8RoundTrip(text);
    Base64Encode(Utf8Encode(text))
  }

  /** The `Authorization` header value both revisions' REST clients send: "Basic "
      followed by the base 64 form of "username:password" (RFC 7617, section 2). */
  function BasicAuthorization(username: string, password: string): (r: string)
    ensures |r| >= 6 && r[..6] == "Basic "
    ensures Base64Decode(r[6..]).Some?
    ensures Utf8Decode(Base64Decode(r[6..]).value) == Some(username + ":" + password)
  {
    var credentials := ToBase64(username + ":" + password);
    assert ("Basic " + credentials)[6..] == credentials;
    "Basic " + credentials
  }
}
