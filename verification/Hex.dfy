/** The hex text in which hashes travel (encoding/hex): lower case out, either case in. */
module Hex {
  import opened Basics

  function Digit(n: int): char
    requires 0 <= n < 16
  {
    if n < 10 then '0' + n as char else 'a' + (n - 10) as char
  }

  function Nibble(c: char): Option<int> {
    if '0' <= c <= '9' then Some(c as int - '0' as int)
    else if 'a' <= c <= 'f' then Some(c as int - 'a' as int + 10)
    else if 'A' <= c <= 'F' then Some(c as int - 'A' as int + 10)
    else None
  }

  function Encode(bs: Bytes): string {
    if bs == [] then "" else [Digit(bs[0] / 16), Digit(bs[0] % 16)] + Encode(bs[1..])
  }

  lemma {:induction false} EncodeLength(bs: Bytes)
    ensures |Encode(bs)| == 2 * |bs|
  {
    if bs != [] {
      EncodeLength(bs[1..]);
    }
  }

  function Decode(s: string): (r: Option<Bytes>)
    ensures r.Some? ==> |s| == 2 * |r.value|
  {
    if s == "" then Some([])
    else if |s| == 1 then None
    else
      match (Nibble(s[0]), Nibble(s[1]), Decode(s[2..]))
      case (Some(hi), Some(lo), Some(rest)) =>
        if 0 <= hi < 16 && 0 <= lo < 16 then Some([16 * hi + lo] + rest) else None
      case _ => None
  }

  lemma {:induction false} DecodeEncode(bs: Bytes)
    ensures Decode(Encode(bs)) == Some(bs)
  {
    if bs != [] {
      DecodeEncode(bs[1..]);
      assert Encode(bs)[2..] == Encode(bs[1..]);
      assert bs == [bs[0]] + bs[1..];
    }
  }
  lemma EncodeInjective(a: Bytes, b: Bytes)
    requires Encode(a) == Encode(b)
    ensures a == b
  {
    DecodeEncode(a);
    DecodeEncode(b);
  }
  lemma DigitText(n: int)
    requires 0 <= n < 16
    ensures Digit(n) == "0123456789abcdef"[n]
  {
  }

  function LowerDigit(c: char): char {
    if 'A' <= c <= 'F' then 'a' + (c - 'A') else c
  }

  function LowerCase(s: string): (t: string)
    ensures |t| == |s|
  {
    if s == "" then "" else [LowerDigit(s[0])] + LowerCase(s[1..])
  }

  lemma NibbleIff(c: char, n: int)
    requires 0 <= n < 16
    ensures Nibble(c) == Some(n) <==> LowerDigit(c) == Digit(n)
  {
  }

  /** A text decodes to the bytes whose hex it is, upper and lower case being the same, and no other text decodes. */
  lemma {:induction false} DecodesIff(s: string, bs: Bytes)
    ensures Decode(s) == Some(bs) <==> LowerCase(s) == Encode(bs)
  {
    if s == "" || |s| == 1 || bs == [] {
      EncodeLength(bs);
    } else {
      var t, rest := Encode(bs), Encode(bs[1..]);
      assert LowerCase(s) == [LowerDigit(s[0]), LowerDigit(s[1])] + LowerCase(s[2..]);
      assert LowerCase(s)[2..] == LowerCase(s[2..]) && t[2..] == rest;
      NibbleIff(s[0], bs[0] / 16);
      NibbleIff(s[1], bs[0] % 16);
      DecodesIff(s[2..], bs[1..]);
      DecodeFirst(s, bs);
    }
  }

  lemma DecodeFirst(s: string, bs: Bytes)
    requires |s| >= 2 && bs != []
    ensures Decode(s) == Some(bs) <==>
      Nibble(s[0]) == Some(bs[0] / 16) && Nibble(s[1]) == Some(bs[0] % 16) && Decode(s[2..]) == Some(bs[1..])
  {
    assert bs == [bs[0]] + bs[1..];
    assert bs[0] == 16 * (bs[0] / 16) + bs[0] % 16;
  }
}
