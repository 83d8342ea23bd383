/** UTF-8 encoding of strings of Unicode scalar values. */
module Utf8 {
  import opened Prelude
  import opened Framing

  function EncodeChar(c: char): (bytes: Bytes)
    ensures 1 <= |bytes| <= 4
  {
    var n := c as int;
    if n < 0x80 then [n]
    else if n < 0x800 then [0xC0 + n / 64, 0x80 + n % 64]
    else if n < 0x1_0000 then [0xE0 + n / 64 / 64, 0x80 + n / 64 % 64, 0x80 + n % 64]
    else [0xF0 + n / 64 / 64 / 64, 0x80 + n / 64 / 64 % 64, 0x80 + n / 64 % 64, 0x80 + n % 64]
  }

  function Encode(s: string): Bytes {
    if s == "" then [] else EncodeChar(s[0]) + Encode(s[1..])
  }

  /** The number `n` with the low six bits of byte `i` after it. */
  function Six(n: int, b: Bytes, i: nat): int
    requires i < |b|
  {
    0x40 * n + b[i] as int - 0x80
  }

  /**
    The encoding of section 3 of RFC 3629: the shortest form, a lead byte that tells
    the length, six bits in every byte after it, and together the character's number.
  */
  lemma EncodedBits(c: char)
    ensures var n, b := c as int, EncodeChar(c);
      && (|b| == 1 <==> n < 0x80) && (|b| <= 2 <==> n < 0x800) && (|b| <= 3 <==> n < 0x1_0000)
      && (forall i | 0 < i < |b| :: 0x80 <= b[i] < 0xC0)
      && (|b| == 1 ==> b[0] as int == n)
      && (|b| == 2 ==> 0xC0 <= b[0] < 0xE0 && Six(b[0] - 0xC0, b, 1) == n)
      && (|b| == 3 ==> 0xE0 <= b[0] < 0xF0 && Six(Six(b[0] - 0xE0, b, 1), b, 2) == n)
      && (|b| == 4 ==> 0xF0 <= b[0] < 0xF8 && Six(Six(Six(b[0] - 0xF0, b, 1), b, 2), b, 3) == n)
  {
  }

  /** Characters are encoded one after the other. */
  lemma EncodeGrows(c: char, s: string)
    ensures Encode("") == [] && Encode([c] + s) == EncodeChar(c) + Encode(s)
  {
    assert ([c] + s)[1..] == s;
  }

  /** The lead byte fixes the length of a character's encoding. */
  function LengthFromLead(lead: byte): nat {
    if lead < 0x80 then 1 else if lead < 0xE0 then 2 else if lead < 0xF0 then 3 else 4
  }

  lemma LeadFixesLength(c: char)
    ensures |EncodeChar(c)| == LengthFromLead(EncodeChar(c)[0])
  {
  }

  lemma SixBits(m: int, n: int)
    requires m / 64 == n / 64 && m % 64 == n % 64
    ensures m == n
  {
  }

  lemma CharInjective(c: char, d: char)
    requires EncodeChar(c) == EncodeChar(d)
    ensures c == d
  {
    var m, n := c as int, d as int;
    var u, v := EncodeChar(c), EncodeChar(d);
    assert u[0] == v[0];
    if |u| > 1 {
      assert u[|u| - 1] == v[|u| - 1];
      if |u| > 2 {
        assert u[|u| - 2] == v[|u| - 2];
        if |u| > 3 {
          assert u[1] == v[1];
          SixBits(m / 64 / 64, n / 64 / 64);
        }
        SixBits(m / 64, n / 64);
      }
      SixBits(m, n);
    }
    assert m == n;
  }

  lemma {:induction false} EncodeInjective(s: string, t: string)
    requires Encode(s) == Encode(t)
    ensures s == t
  {
    if s != "" && t != "" {
      var u, v := EncodeChar(s[0]), EncodeChar(t[0]);
      var x, y := Encode(s[1..]), Encode(t[1..]);
      assert (u + x)[0] == u[0] && (v + y)[0] == v[0];
      LeadFixesLength(s[0]);
      LeadFixesLength(t[0]);
      SameLengthSplit(u, x, v, y);
      CharInjective(s[0], t[0]);
      EncodeInjective(s[1..], t[1..]);
      assert s == [s[0]] + s[1..] && t == [t[0]] + t[1..];
    }
  }

  /** On ASCII text the encoding is one byte per character. */
  lemma {:induction false} EncodeAscii(s: string)
    requires Ascii(s)
    ensures Encode(s) == AsciiBytes(s)
  {
    if s != "" {
      EncodeAscii(s[1..]);
      assert EncodeChar(s[0]) == [s[0] as int];
      assert AsciiBytes(s) == [s[0] as int] + AsciiBytes(s[1..]);
    }
  }
}
