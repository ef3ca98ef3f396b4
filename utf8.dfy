/** UTF-8 (RFC 3629), the encoding behind `String.data(using: .utf8)`,
    `String(data:encoding: .utf8)` and `Data(string.utf8)`. Dafny's `char`
    is a Unicode scalar value, as a Swift `Character`'s scalars are. */
module Utf8 {
  import opened Wrappers
  import opened Bytes

  /** Code points that are Unicode scalar values (no surrogates). */
  predicate IsScalar(n: int) {
    0 <= n < 0xD800 || 0xE000 <= n < 0x11_0000
  }

  /** Continuation byte `10xxxxxx`. */
  predicate IsContinuation(b: Byte) {
    0x80 <= b < 0xC0
  }

  /** The one- to four-byte encoding of a single scalar value. */
  function EncodeScalar(c: char): (r: seq<Byte>)
    ensures 1 <= |r| <= 4
    ensures (|r| == 1) == (c as int < 0x80)
    ensures forall i | 1 <= i < |r| :: IsContinuation(r[i])
  {
    var n := c as int;
    if n < 0x80 then [n]
    else if n < 0x800 then [0xC0 + n / 64, 0x80 + n % 64]
    else if n < 0x1_0000 then [0xE0 + n / 64 / 64, 0x80 + n / 64 % 64, 0x80 + n % 64]
    else [0xF0 + n / 64 / 64 / 64, 0x80 + n / 64 / 64 % 64, 0x80 + n / 64 % 64, 0x80 + n % 64]
  }

  /** UTF-8 encoding of a whole string; it cannot fail. */
  function Encode(s: string): (r: seq<Byte>)
    ensures |s| <= |r| <= 4 * |s|
  {
    if s == [] then [] else EncodeScalar(s[0]) + Encode(s[1..])
  }

  /** A scalar value decoded from the front of a byte sequence, and the
      number of bytes it took. */
  datatype Decoded = Decoded(c: char, len: nat)

  /** Decode the scalar at the front of `b`, rejecting truncated sequences,
      stray continuation bytes, overlong forms, surrogates and values above
      U+10FFFF. */
  function DecodeScalar(b: seq<Byte>): (r: Option<Decoded>)
    requires b != []
    ensures r.Some? ==> 1 <= r.value.len <= |b| && r.value.len <= 4
  {
    var b0 := b[0] as int;
    if b0 < 0x80 then Some(Decoded(b0 as char, 1))
    else if 0xC2 <= b0 < 0xE0 then
      if |b| >= 2 && IsContinuation(b[1]) then
        Some(Decoded(((b0 - 0xC0) * 64 + Bits(b[1])) as char, 2))
      else None
    else if 0xE0 <= b0 < 0xF0 then
      if |b| >= 3 && IsContinuation(b[1]) && IsContinuation(b[2]) then
        var n := ((b0 - 0xE0) * 64 + Bits(b[1])) * 64 + Bits(b[2]);
        if 0x800 <= n && IsScalar(n) then Some(Decoded(n as char, 3)) else None
      else None
    else if 0xF0 <= b0 < 0xF5 then
      if |b| >= 4 && IsContinuation(b[1]) && IsContinuation(b[2]) && IsContinuation(b[3]) then
        var n := (((b0 - 0xF0) * 64 + Bits(b[1])) * 64 + Bits(b[2])) * 64 + Bits(b[3]);
        if 0x1_0000 <= n < 0x11_0000 then Some(Decoded(n as char, 4)) else None
      else None
    else None
  }

  /** The six payload bits of a continuation byte. */
  function Bits(b: Byte): int {
    b as int - 0x80
  }

  /** `String(data:encoding: .utf8)`: the string, or none when the bytes are
      not well-formed UTF-8. */
  function Decode(b: seq<Byte>): (r: Option<string>)
    decreases |b|
  {
    if b == [] then Some([])
    else
      match DecodeScalar(b)
      case None => None
      case Some(d) =>
        match Decode(b[d.len..])
        case None => None
        case Some(rest) => Some([d.c] + rest)
  }

  lemma DecodeEncodeScalar(c: char, rest: seq<Byte>)
    ensures DecodeScalar(EncodeScalar(c) + rest) == Some(Decoded(c, |EncodeScalar(c)|))
  {
    var n := c as int;
    if n < 0x80 {
    } else if n < 0x800 {
      DecodeEncodeTwo(c, rest);
    } else if n < 0x1_0000 {
      DecodeEncodeThree(c, rest);
    } else {
      DecodeEncodeFour(c, rest);
    }
  }

  lemma DecodeEncodeTwo(c: char, rest: seq<Byte>)
    requires 0x80 <= c as int < 0x800
    ensures DecodeScalar(EncodeScalar(c) + rest) == Some(Decoded(c, 2))
  {
    var n := c as int;
    var b := EncodeScalar(c) + rest;
    assert b[0] == 0xC0 + n / 64 && b[1] == 0x80 + n % 64;
  }

  lemma DecodeEncodeThree(c: char, rest: seq<Byte>)
    requires 0x800 <= c as int < 0x1_0000
    ensures DecodeScalar(EncodeScalar(c) + rest) == Some(Decoded(c, 3))
  {
    var n := c as int;
    var q1 := n / 64;
    var b := EncodeScalar(c) + rest;
    assert b[0] == 0xE0 + q1 / 64 && b[1] == 0x80 + q1 % 64 && b[2] == 0x80 + n % 64;
    assert q1 == q1 / 64 * 64 + q1 % 64 && n == q1 * 64 + n % 64;
  }

  lemma DecodeEncodeFour(c: char, rest: seq<Byte>)
    requires 0x1_0000 <= c as int
    ensures DecodeScalar(EncodeScalar(c) + rest) == Some(Decoded(c, 4))
  {
    var n := c as int;
    var q1 := n / 64;
    var q2 := q1 / 64;
    var b := EncodeScalar(c) + rest;
    assert b[0] == 0xF0 + q2 / 64 && b[1] == 0x80 + q2 % 64;
    assert b[2] == 0x80 + q1 % 64 && b[3] == 0x80 + n % 64;
    assert q2 == q2 / 64 * 64 + q2 % 64 && q1 == q2 * 64 + q1 % 64 && n == q1 * 64 + n % 64;
  }

  lemma EncodeDecodeScalar(b: seq<Byte>)
    requires b != [] && DecodeScalar(b).Some?
    ensures EncodeScalar(DecodeScalar(b).value.c) == b[..DecodeScalar(b).value.len]
  {
    if b[0] < 0x80 {
    } else if b[0] < 0xE0 {
      EncodeDecodeTwo(b);
    } else if b[0] < 0xF0 {
      EncodeDecodeThree(b);
    } else {
      EncodeDecodeFour(b);
    }
  }

  lemma EncodeDecodeTwo(b: seq<Byte>)
    requires b != [] && 0x80 <= b[0] < 0xE0 && DecodeScalar(b).Some?
    ensures EncodeScalar(DecodeScalar(b).value.c) == b[..2]
  {
    SplitSixBits(b[0] as int - 0xC0, Bits(b[1]));
  }

  lemma EncodeDecodeThree(b: seq<Byte>)
    requires b != [] && 0xE0 <= b[0] < 0xF0 && DecodeScalar(b).Some?
    ensures EncodeScalar(DecodeScalar(b).value.c) == b[..3]
  {
    var hi := (b[0] as int - 0xE0) * 64 + Bits(b[1]);
    var n := hi * 64 + Bits(b[2]);
    assert DecodeScalar(b).value.c as int == n;
    SplitSixBits(hi, Bits(b[2]));
    SplitSixBits(b[0] as int - 0xE0, Bits(b[1]));
  }

  lemma EncodeDecodeFour(b: seq<Byte>)
    requires b != [] && 0xF0 <= b[0] && DecodeScalar(b).Some?
    ensures EncodeScalar(DecodeScalar(b).value.c) == b[..4]
  {
    var top := (b[0] as int - 0xF0) * 64 + Bits(b[1]);
    var hi := top * 64 + Bits(b[2]);
    var n := hi * 64 + Bits(b[3]);
    assert DecodeScalar(b).value.c as int == n;
    SplitSixBits(hi, Bits(b[3]));
    SplitSixBits(top, Bits(b[2]));
    SplitSixBits(b[0] as int - 0xF0, Bits(b[1]));
  }

  /** Dividing `hi * 64 + lo` by 64 separates the two parts again. */
  lemma SplitSixBits(hi: int, lo: int)
    requires 0 <= hi && 0 <= lo < 64
    ensures (hi * 64 + lo) / 64 == hi && (hi * 64 + lo) % 64 == lo
  {
  }

  /** Decoding undoes encoding: every string survives a UTF-8 round trip. */
  lemma {:induction false} DecodeEncode(s: string)
    ensures Decode(Encode(s)) == Some(s)
  {
    if s != [] {
      var e := EncodeScalar(s[0]);
      DecodeEncodeScalar(s[0], Encode(s[1..]));
      assert (e + Encode(s[1..]))[|e|..] == Encode(s[1..]);
      DecodeEncode(s[1..]);
      assert [s[0]] + s[1..] == s;
    }
  }

  /** Encoding undoes decoding: the bytes `Decode` accepts are exactly the
      encodings of strings, so it rejects nothing that `Encode` can produce
      and accepts nothing else. */
  lemma {:induction false} EncodeDecode(b: seq<Byte>)
    requires Decode(b).Some?
    ensures Encode(Decode(b).value) == b
    decreases |b|
  {
    if b != [] {
      var len, c, t := DecodeCons(b);
      EncodeDecode(b[len..]);
      EncodeCons(c, t);
      assert b == b[..len] + b[len..];
    }
  }

  /** A non-empty decodable byte string is the encoding of one scalar
      followed by a decodable rest. */
  lemma DecodeCons(b: seq<Byte>) returns (len: nat, c: char, t: string)
    requires b != [] && Decode(b).Some?
    ensures 1 <= len <= |b| && Decode(b[len..]) == Some(t)
    ensures Decode(b).value == [c] + t
    ensures EncodeScalar(c) == b[..len]
  {
    var d := DecodeScalar(b).value;
    EncodeDecodeScalar(b);
    len, c, t := d.len, d.c, Decode(b[d.len..]).value;
  }

  lemma EncodeCons(c: char, t: string)
    ensures Encode([c] + t) == EncodeScalar(c) + Encode(t)
  {
    assert ([c] + t)[1..] == t;
  }

  /** The bytes of a string decode to that string. */
  lemma DecodeOfEncoding(b: seq<Byte>)
    ensures forall s :: b == Encode(s) ==> Decode(b) == Some(s)
  {
    forall s | b == Encode(s) ensures Decode(b) == Some(s) {
      DecodeEncode(s);
    }
  }
}
