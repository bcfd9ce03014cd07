/** UTF-8 (section 3 of RFC 3629), as `str.encode("utf-8")`. */
module Utf8 {
  type Byte = n: int | 0 <= n < 256
  type Bytes = seq<Byte>

  function EncodeChar(c: char): (r: Bytes)
    ensures 1 <= |r| <= 4
  {
    var n := c as int;
    if n < 0x80 then [n]
    else if n < 0x800 then [0xC0 + n / 64, 0x80 + n % 64]
    else if n < 0x1_0000 then [0xE0 + n / 4096, 0x80 + n / 64 % 64, 0x80 + n % 64]
    else [0xF0 + n / 262144, 0x80 + n / 4096 % 64, 0x80 + n / 64 % 64, 0x80 + n % 64]
  }

  function Encode(s: string): Bytes {
    if s == "" then [] else EncodeChar(s[0]) + Encode(s[1..])
  }

  /** The code point whose encoding starts a byte string. */
  function Lead(s: Bytes): int {
    if |s| >= 1 && s[0] < 0x80 then s[0]
    else if |s| >= 2 && s[0] < 0xE0 then s[0] as int * 64 + s[1] as int - 0x3080
    else if |s| >= 3 && s[0] < 0xF0 then s[0] as int * 4096 + s[1] as int * 64 + s[2] as int - 0xE_2080
    else if |s| >= 4 then s[0] as int * 262144 + s[1] as int * 4096 + s[2] as int * 64 + s[3] as int - 0x3C8_2080
    else 0
  }

  lemma {:induction false} LeadOfEncoded(c: char, rest: Bytes)
    ensures Lead(EncodeChar(c) + rest) == c as int
  {
    var t := EncodeChar(c) + rest;
    assert forall i | 0 <= i < |EncodeChar(c)| :: t[i] == EncodeChar(c)[i];
    SplitBase64(c as int);
  }

  lemma {:induction false} SplitBase64(n: nat)
    ensures n == n / 64 * 64 + n % 64
    ensures n / 64 == n / 4096 * 64 + n / 64 % 64
    ensures n / 4096 == n / 262144 * 64 + n / 4096 % 64
  {
  }

  /** Two texts with the same encoding are the same text. */
  lemma {:induction false} EncodeInjective(a: string, b: string)
    requires Encode(a) == Encode(b)
    ensures a == b
  {
    if a != "" && b != "" {
      LeadOfEncoded(a[0], Encode(a[1..]));
      LeadOfEncoded(b[0], Encode(b[1..]));
      assert a[0] == b[0];
      var n := |EncodeChar(a[0])|;
      assert Encode(a[1..]) == Encode(a)[n..];
      assert Encode(b[1..]) == Encode(b)[n..];
      EncodeInjective(a[1..], b[1..]);
      assert a == [a[0]] + a[1..] && b == [b[0]] + b[1..];
    }
  }

  /** Examples of section 7 of RFC 3629, one for each length. */
  lemma {:induction false} Rfc3629Examples()
    ensures EncodeChar('A') == [0x41]
    ensures EncodeChar(0x391 as char) == [0xCE, 0x91]
    ensures EncodeChar(0x2262 as char) == [0xE2, 0x89, 0xA2]
    ensures EncodeChar(0x2_33B4 as char) == [0xF0, 0xA3, 0x8E, 0xB4]
  {
  }
}
