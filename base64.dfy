/** Base64 with padding, the alphabet of section 4 of RFC 4648, as produced by
    Foundation's `Data.base64EncodedString()` with no line breaks. */
module Base64 {
  import opened Wrappers
  import opened Bytes

  /** A six-bit value, the index of one Base64 character. */
  type Sextet = n: int | 0 <= n < 64

  const Padding: char := '='

  /** The character for a sextet: `A`-`Z`, `a`-`z`, `0`-`9`, `+`, `/`. */
  function CharOf(n: Sextet): (c: char)
    ensures IsBase64Char(c)
  {
    if n < 26 then ('A' as int + n) as char
    else if n < 52 then ('a' as int + (n - 26)) as char
    else if n < 62 then ('0' as int + (n - 52)) as char
    else if n == 62 then '+'
    else '/'
  }

  predicate IsBase64Char(c: char) {
    'A' <= c <= 'Z' || 'a' <= c <= 'z' || '0' <= c <= '9' || c == '+' || c == '/'
  }

  /** The sextet a Base64 character stands for. */
  function IndexOf(c: char): (n: Sextet)
    requires IsBase64Char(c)
    ensures CharOf(n) == c
  {
    if 'A' <= c <= 'Z' then c as int - 'A' as int
    else if 'a' <= c <= 'z' then c as int - 'a' as int + 26
    else if '0' <= c <= '9' then c as int - '0' as int + 52
    else if c == '+' then 62
    else 63
  }

  lemma IndexOfCharOf(n: Sextet)
    ensures IndexOf(CharOf(n)) == n
  {
  }

  /** Three bytes as four characters. */
  function EncodeGroup(b0: Byte, b1: Byte, b2: Byte): string {
    [CharOf(b0 / 4), CharOf(b0 % 4 * 16 + b1 / 16), CharOf(b1 % 16 * 4 + b2 / 64), CharOf(b2 % 64)]
  }

  /** `Data.base64EncodedString()`: every three bytes become four characters;
      a final one or two bytes are padded with `==` or `=`. */
  function Encode(b: seq<Byte>): (s: string)
    ensures |s| % 4 == 0 && (|s| == 0 <==> |b| == 0)
    ensures |b| <= 3 ==> |s| <= 4
    decreases |b|
  {
    if |b| == 0 then []
    else if |b| == 1 then [CharOf(b[0] / 4), CharOf(b[0] % 4 * 16), Padding, Padding]
    else if |b| == 2 then [CharOf(b[0] / 4), CharOf(b[0] % 4 * 16 + b[1] / 16), CharOf(b[1] % 16 * 4), Padding]
    else EncodeGroup(b[0], b[1], b[2]) + Encode(b[3..])
  }

  /** Four characters without padding as three bytes. */
  function DecodeGroup(s: string): (r: Option<seq<Byte>>)
    requires |s| == 4
  {
    if IsBase64Char(s[0]) && IsBase64Char(s[1]) && IsBase64Char(s[2]) && IsBase64Char(s[3]) then
      var c0, c1, c2, c3 := IndexOf(s[0]), IndexOf(s[1]), IndexOf(s[2]), IndexOf(s[3]);
      Some([c0 * 4 + c1 / 16, c1 % 16 * 16 + c2 / 4, c2 % 4 * 64 + c3])
    else None
  }

  /** The final group, which may end in `==` (one byte) or `=` (two bytes);
      the bits the padding hides must be zero. */
  function DecodeLast(s: string): (r: Option<seq<Byte>>)
    requires |s| == 4
  {
    if s[2] == Padding && s[3] == Padding then
      if IsBase64Char(s[0]) && IsBase64Char(s[1]) && IndexOf(s[1]) % 16 == 0 then
        Some([IndexOf(s[0]) * 4 + IndexOf(s[1]) / 16])
      else None
    else if s[3] == Padding then
      if IsBase64Char(s[0]) && IsBase64Char(s[1]) && IsBase64Char(s[2]) && IndexOf(s[2]) % 4 == 0 then
        var c0, c1, c2 := IndexOf(s[0]), IndexOf(s[1]), IndexOf(s[2]);
        Some([c0 * 4 + c1 / 16, c1 % 16 * 16 + c2 / 4])
      else None
    else DecodeGroup(s)
  }

  /** The inverse of `Encode`: none unless the text is canonical padded Base64. */
  function Decode(s: string): (r: Option<seq<Byte>>)
    decreases |s|
  {
    if |s| == 0 then Some([])
    else if |s| < 4 then None
    else if |s| == 4 then DecodeLast(s)
    else
      match DecodeGroup(s[..4])
      case None => None
      case Some(g) =>
        match Decode(s[4..])
        case None => None
        case Some(rest) => Some(g + rest)
  }

  lemma Split16(hi: int, lo: int)
    requires 0 <= hi && 0 <= lo < 16
    ensures (hi * 16 + lo) / 16 == hi && (hi * 16 + lo) % 16 == lo
  {
  }

  lemma Split4(hi: int, lo: int)
    requires 0 <= hi && 0 <= lo < 4
    ensures (hi * 4 + lo) / 4 == hi && (hi * 4 + lo) % 4 == lo
  {
  }

  /** The sextets of three bytes give the bytes back. */
  lemma JoinSplit(b0: Byte, b1: Byte, b2: Byte)
    ensures (b0 / 4) * 4 + (b0 % 4 * 16 + b1 / 16) / 16 == b0
    ensures (b0 % 4 * 16 + b1 / 16) % 16 * 16 + (b1 % 16 * 4 + b2 / 64) / 4 == b1
    ensures (b1 % 16 * 4 + b2 / 64) % 4 * 64 + b2 % 64 == b2
  {
    Split16(b0 % 4, b1 / 16);
    Split4(b1 % 16, b2 / 64);
  }

  lemma DecodeEncodeGroup(b0: Byte, b1: Byte, b2: Byte)
    ensures DecodeGroup(EncodeGroup(b0, b1, b2)) == Some([b0, b1, b2])
  {
    IndexOfCharOf(b0 / 4);
    IndexOfCharOf(b0 % 4 * 16 + b1 / 16);
    IndexOfCharOf(b1 % 16 * 4 + b2 / 64);
    IndexOfCharOf(b2 % 64);
    JoinSplit(b0, b1, b2);
  }

  lemma DecodeEncodeOne(b0: Byte)
    ensures Decode(Encode([b0])) == Some([b0])
  {
    var s := Encode([b0]);
    assert s == [CharOf(b0 / 4), CharOf(b0 % 4 * 16), Padding, Padding];
    IndexOfCharOf(b0 / 4);
    IndexOfCharOf(b0 % 4 * 16);
    JoinSplit(b0, 0, 0);
  }

  lemma DecodeEncodeTwo(b0: Byte, b1: Byte)
    ensures Decode(Encode([b0, b1])) == Some([b0, b1])
  {
    var s := Encode([b0, b1]);
    assert s == [CharOf(b0 / 4), CharOf(b0 % 4 * 16 + b1 / 16), CharOf(b1 % 16 * 4), Padding];
    IndexOfCharOf(b0 / 4);
    IndexOfCharOf(b0 % 4 * 16 + b1 / 16);
    IndexOfCharOf(b1 % 16 * 4);
    JoinSplit(b0, b1, 0);
  }

  /** A full group in front of more text decodes group by group. */
  lemma DecodeCons(g: string, rest: string)
    requires |g| == 4 && |rest| >= 4
    requires DecodeGroup(g).Some? && Decode(rest).Some?
    ensures Decode(g + rest) == Some(DecodeGroup(g).value + Decode(rest).value)
  {
    assert (g + rest)[..4] == g && (g + rest)[4..] == rest;
  }

  /** Decoding undoes encoding, for every byte sequence. */
  lemma {:induction false} DecodeEncode(b: seq<Byte>)
    ensures Decode(Encode(b)) == Some(b)
    decreases |b|
  {
    if |b| == 1 {
      assert b == [b[0]];
      DecodeEncodeOne(b[0]);
    } else if |b| == 2 {
      assert b == [b[0], b[1]];
      DecodeEncodeTwo(b[0], b[1]);
    } else if |b| >= 3 {
      DecodeEncode(b[3..]);
      DecodeEncodeGroups(b);
    }
  }

  lemma DecodeEncodeGroups(b: seq<Byte>)
    requires |b| >= 3 && Decode(Encode(b[3..])) == Some(b[3..])
    ensures Decode(Encode(b)) == Some(b)
  {
    EncodeCons(b);
    var g := EncodeGroup(b[0], b[1], b[2]);
    var rest := Encode(b[3..]);
    SplitFront(b);
    if |b| == 3 {
      assert b[3..] == [] && rest == [];
      assert Encode(b) == g && b == [b[0], b[1], b[2]];
      DecodeLastGroup(b[0], b[1], b[2]);
    } else {
      DecodeEncodeGroup(b[0], b[1], b[2]);
      DecodeCons(g, rest);
      assert Decode(Encode(b)) == Some([b[0], b[1], b[2]] + b[3..]);
    }
  }

  lemma SplitFront<T>(b: seq<T>)
    requires |b| >= 3
    ensures b == [b[0], b[1], b[2]] + b[3..]
  {
  }

  /** A full group at the end is not mistaken for a padded one. */
  lemma DecodeLastGroup(b0: Byte, b1: Byte, b2: Byte)
    ensures Decode(EncodeGroup(b0, b1, b2)) == Some([b0, b1, b2])
  {
    var g := EncodeGroup(b0, b1, b2);
    assert g[2] != Padding && g[3] != Padding;
    DecodeEncodeGroup(b0, b1, b2);
  }

  lemma EncodeCons(b: seq<Byte>)
    requires |b| >= 3
    ensures Encode(b) == EncodeGroup(b[0], b[1], b[2]) + Encode(b[3..])
  {
  }

  /** Four characters for every three bytes or part of them. */
  lemma {:induction false} EncodeLength(b: seq<Byte>)
    ensures |Encode(b)| == (|b| + 2) / 3 * 4
    decreases |b|
  {
    if |b| >= 3 {
      EncodeCons(b);
      EncodeLength(b[3..]);
      GroupsStep(|b|);
    }
  }

  lemma GroupsStep(n: nat)
    requires n >= 3
    ensures (n + 2) / 3 * 4 == (n - 3 + 2) / 3 * 4 + 4
  {
  }

  /** Every character of an encoding is from the alphabet, except the
      padding, which only ends it. */
  lemma {:induction false} EncodeAlphabet(b: seq<Byte>)
    ensures forall i | 0 <= i < |Encode(b)| :: IsBase64Char(Encode(b)[i]) || (Encode(b)[i] == Padding && i >= |Encode(b)| - 2)
    decreases |b|
  {
    if |b| > 3 {
      EncodeAlphabet(b[3..]);
    }
  }
}
