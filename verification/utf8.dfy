/** Well-formed UTF-8: the check on bytes, and the text it stands for. */
module Utf8 {
  import opened Bytes

  // --- the check (section 3.9 of the Unicode standard, table 3-7) ---

  predicate Follows(s: seq<byte>, i: nat, lo: byte, hi: byte) {
    i < |s| && lo <= s[i] <= hi
  }

  /** Length of the well-formed character at the front; 0 if there is none. */
  function CharLen(s: seq<byte>): (n: nat)
    requires |s| > 0
    ensures n <= |s|
  {
    var b: int := s[0];
    var rest := Follows(s, 2, 0x80, 0xBF);
    if b < 0x80 then 1
    else if 0xC2 <= b <= 0xDF then if Follows(s, 1, 0x80, 0xBF) then 2 else 0
    else if 0xE0 <= b <= 0xEF then
      if Follows(s, 1, if b == 0xE0 then 0xA0 else 0x80, if b == 0xED then 0x9F else 0xBF) && rest then 3 else 0
    else if 0xF0 <= b <= 0xF4 then
      if Follows(s, 1, if b == 0xF0 then 0x90 else 0x80, if b == 0xF4 then 0x8F else 0xBF) && rest
         && Follows(s, 3, 0x80, 0xBF) then 4 else 0
    else 0
  }

  predicate ValidUtf8(s: seq<byte>)
    decreases |s|
  {
    |s| == 0 || (CharLen(s) > 0 && ValidUtf8(s[CharLen(s)..]))
  }

  // --- the text ---

  /** A Unicode scalar value: a code point that is no surrogate. */
  type scalar = c: int | 0 <= c < 0xD800 || 0xE000 <= c <= 0x10FFFF

  /** Its encoding (table 3-6): six bits to each following byte. */
  function Encode(c: scalar): seq<byte> {
    if c < 0x80 then [c]
    else if c < 0x800 then [0xC0 + c / 64, 0x80 + c % 64]
    else if c < 0x10000 then [0xE0 + c / 4096, 0x80 + c / 64 % 64, 0x80 + c % 64]
    else [0xF0 + c / 262144, 0x80 + c / 4096 % 64, 0x80 + c / 64 % 64, 0x80 + c % 64]
  }

  function EncodeAll(cs: seq<scalar>): seq<byte>
    decreases |cs|
  {
    if |cs| == 0 then [] else Encode(cs[0]) + EncodeAll(cs[1..])
  }

  /** Each scalar value's encoding is taken for one character. */
  lemma {:induction false} EncodedIsChar(c: scalar, rest: seq<byte>)
    ensures CharLen(Encode(c) + rest) == |Encode(c)|
  {
    var s := Encode(c) + rest;
    if 0x800 <= c < 0x10000 {
      ThreeBytes(c, s[0], s[1], s[2]);
    } else if c >= 0x10000 {
      FourBytes(c, s[0], s[1], s[2], s[3]);
    }
  }

  lemma {:induction false} ThreeBytes(c: scalar, a: int, b: int, d: int)
    requires 0x800 <= c < 0x10000 && a == 0xE0 + c / 4096 && b == 0x80 + c / 64 % 64 && d == 0x80 + c % 64
    ensures 0xE0 <= a <= 0xEF && 0x80 <= b <= 0xBF && 0x80 <= d <= 0xBF
    ensures (a == 0xE0 ==> b >= 0xA0) && (a == 0xED ==> b <= 0x9F)
  {
    assert c / 64 == 64 * (c / 4096) + c / 64 % 64;
  }

  lemma {:induction false} FourBytes(c: scalar, a: int, b: int, d: int, e: int)
    requires c >= 0x10000 && a == 0xF0 + c / 262144 && b == 0x80 + c / 4096 % 64
    requires d == 0x80 + c / 64 % 64 && e == 0x80 + c % 64
    ensures 0xF0 <= a <= 0xF4 && 0x80 <= b <= 0xBF && 0x80 <= d <= 0xBF && 0x80 <= e <= 0xBF
    ensures (a == 0xF0 ==> b >= 0x90) && (a == 0xF4 ==> b <= 0x8F)
  {
    assert c / 4096 == 64 * (c / 262144) + c / 4096 % 64;
  }

  /** What is taken for a character is some scalar value's encoding. */
  lemma {:induction false} CharIsEncoded(s: seq<byte>) returns (c: scalar)
    requires |s| > 0 && CharLen(s) > 0
    ensures Encode(c) == s[..CharLen(s)]
  {
    var a: int := s[0];
    if CharLen(s) == 1 {
      c := a;
    } else if CharLen(s) == 2 {
      c := 64 * (a - 0xC0) + (s[1] - 0x80);
    } else if CharLen(s) == 3 {
      c := ThreeMean(a, s[1], s[2]);
    } else {
      c := FourMean(a, s[1], s[2], s[3]);
    }
  }

  lemma {:induction false} ThreeMean(a: int, b: int, d: int) returns (c: scalar)
    requires 0xE0 <= a <= 0xEF && 0x80 <= b <= 0xBF && 0x80 <= d <= 0xBF
    requires (a == 0xE0 ==> b >= 0xA0) && (a == 0xED ==> b <= 0x9F)
    ensures 0x800 <= c < 0x10000 && a == 0xE0 + c / 4096 && b == 0x80 + c / 64 % 64 && d == 0x80 + c % 64
  {
    c := 4096 * (a - 0xE0) + 64 * (b - 0x80) + (d - 0x80);
    assert c / 64 == 64 * (a - 0xE0) + (b - 0x80);
  }

  lemma {:induction false} FourMean(a: int, b: int, d: int, e: int) returns (c: scalar)
    requires 0xF0 <= a <= 0xF4 && 0x80 <= b <= 0xBF && 0x80 <= d <= 0xBF && 0x80 <= e <= 0xBF
    requires (a == 0xF0 ==> b >= 0x90) && (a == 0xF4 ==> b <= 0x8F)
    ensures c >= 0x10000 && a == 0xF0 + c / 262144 && b == 0x80 + c / 4096 % 64
    ensures d == 0x80 + c / 64 % 64 && e == 0x80 + c % 64
  {
    c := 262144 * (a - 0xF0) + 4096 * (b - 0x80) + 64 * (d - 0x80) + (e - 0x80);
    assert c / 64 == 4096 * (a - 0xF0) + 64 * (b - 0x80) + (d - 0x80);
    assert c / 4096 == 64 * (a - 0xF0) + (b - 0x80);
  }

  lemma {:induction false} EncodedIsValid(cs: seq<scalar>)
    ensures ValidUtf8(EncodeAll(cs))
    decreases |cs|
  {
    if |cs| > 0 {
      EncodedIsValid(cs[1..]);
      EncodedIsChar(cs[0], EncodeAll(cs[1..]));
      var s := EncodeAll(cs);
      assert s == Encode(cs[0]) + EncodeAll(cs[1..]) && s[|Encode(cs[0])|..] == EncodeAll(cs[1..]);
    }
  }

  lemma {:induction false} ValidIsEncoded(s: seq<byte>) returns (cs: seq<scalar>)
    requires ValidUtf8(s)
    ensures EncodeAll(cs) == s
    decreases |s|
  {
    cs := [];
    if |s| > 0 {
      var c := CharIsEncoded(s);
      var n := CharLen(s);
      var more := ValidIsEncoded(s[n..]);
      cs := [c] + more;
      assert cs[1..] == more && s == s[..n] + s[n..];
    }
  }

  /** The check passes exactly on the encodings of texts. */
  lemma {:induction false} ValidExactly(s: seq<byte>)
    ensures ValidUtf8(s) <==> exists cs: seq<scalar> :: EncodeAll(cs) == s
  {
    if ValidUtf8(s) {
      var cs := ValidIsEncoded(s);
    }
    if cs: seq<scalar> :| EncodeAll(cs) == s {
      EncodedIsValid(cs);
    }
  }
}
