/** Text as Rust stores it: a sequence of characters whose size is counted in UTF-8 bytes. */
module Utf8Text {
  import opened Common

  /** The bytes one character takes in UTF-8 (section 3 of RFC 3629). */
  function Width(c: char): (w: nat)
    ensures 1 <= w <= 4
  {
    var code := c as int;
    if code < 0x80 then 1 else if code < 0x800 then 2 else if code < 0x10000 then 3 else 4
  }

  function Size(s: string): (n: nat)
    ensures n >= |s|
  {
    if s == [] then 0 else Size(s[..|s| - 1]) + Width(s[|s| - 1])
  }

  /** The bytes of one character. */
  function CharBytes(c: char): (bytes: seq<byte>)
    ensures |bytes| == Width(c)
  {
    var code := c as int;
    if code < 0x80 then [code]
    else if code < 0x800 then [0xC0 + code / 0x40, Continued(code)]
    else if code < 0x10000 then [0xE0 + code / 0x1000, Continued(code / 0x40), Continued(code)]
    else [0xF0 + code / 0x40000, Continued(code / 0x1000), Continued(code / 0x40), Continued(code)]
  }

  function Continued(code: nat): byte { 0x80 + code % 0x40 }

  function Utf8(s: string): (bytes: seq<byte>)
    ensures |bytes| == Size(s)
  {
    if s == [] then [] else Utf8(s[..|s| - 1]) + CharBytes(s[|s| - 1])
  }

  lemma {:induction false} SizeOfConcat(a: string, b: string)
    ensures Size(a + b) == Size(a) + Size(b)
  {
    if b == [] {
      assert a + b == a;
    } else {
      SizeOfConcat(a, b[..|b| - 1]);
      assert (a + b)[..|a + b| - 1] == a + b[..|b| - 1];
    }
  }

  // ---- Reading it back ----

  /** The bytes a character takes, told by its first (section 3 of RFC 3629). */
  function LeadWidth(lead: byte): nat {
    if lead < 0x80 then 1 else if lead < 0xC0 then 0 else if lead < 0xE0 then 2 else if lead < 0xF0 then 3
    else if lead < 0xF8 then 4 else 0
  }

  /** The bits its bytes carry. */
  function Bits(bytes: seq<byte>): int
    requires bytes != [] && |bytes| == LeadWidth(bytes[0])
  {
    if |bytes| == 1 then bytes[0]
    else if |bytes| == 2 then (bytes[0] as int - 0xC0) * 0x40 + (bytes[1] as int - 0x80)
    else if |bytes| == 3 then ((bytes[0] as int - 0xE0) * 0x40 + (bytes[1] as int - 0x80)) * 0x40 + (bytes[2] as int - 0x80)
    else (((bytes[0] as int - 0xF0) * 0x40 + (bytes[1] as int - 0x80)) * 0x40 + (bytes[2] as int - 0x80)) * 0x40 + (bytes[3] as int - 0x80)
  }

  predicate IsScalar(code: int) { 0 <= code < 0xD800 || 0xE000 <= code < 0x110000 }

  function Decoded(bytes: seq<byte>): Option<string>
    decreases |bytes|
  {
    if bytes == [] then Some("")
    else
      var n := LeadWidth(bytes[0]);
      if n == 0 || |bytes| < n || !IsScalar(Bits(bytes[..n])) then None
      else
        match Decoded(bytes[n..])
        case None => None
        case Some(rest) => Some([Bits(bytes[..n]) as char] + rest)
  }

  lemma CharReadsBack(c: char)
    ensures CharBytes(c) != [] && LeadWidth(CharBytes(c)[0]) == |CharBytes(c)| && Bits(CharBytes(c)) == c as int
  {
    var code := c as int;
    assert code / 0x40 == code / 0x1000 * 0x40 + code / 0x40 % 0x40;
    assert code / 0x1000 == code / 0x40000 * 0x40 + code / 0x1000 % 0x40;
  }

  lemma {:induction false} Utf8OfConcat(a: string, b: string)
    ensures Utf8(a + b) == Utf8(a) + Utf8(b)
  {
    hide CharBytes;
    if b == [] {
      assert a + b == a && Utf8(a) + [] == Utf8(a);
    } else {
      var n := |b| - 1;
      Utf8OfConcat(a, b[..n]);
      assert (a + b)[..|a + b| - 1] == a + b[..n] && (a + b)[|a + b| - 1] == b[n];
      Associative(Utf8(a), Utf8(b[..n]), CharBytes(b[n]));
    }
  }

  lemma Utf8Cons(c: char, s: string)
    ensures Utf8([c] + s) == CharBytes(c) + Utf8(s)
  {
    hide CharBytes;
    Utf8OfConcat([c], s);
    assert [c][..0] == [] && Utf8([c]) == [] + CharBytes(c);
  }

  /** The bytes of a text decode to the text. */
  lemma {:induction false} DecodingUndoesUtf8(s: string)
    ensures Decoded(Utf8(s)) == Some(s)
  {
    if s != [] {
      hide CharBytes, LeadWidth, Bits;
      var c, rest := s[0], s[1..];
      var first := CharBytes(c);
      assert s == [c] + rest;
      Utf8Cons(c, rest);
      CharReadsBack(c);
      DecodingUndoesUtf8(rest);
      var bytes := first + Utf8(rest);
      assert bytes[..|first|] == first && bytes[|first|..] == Utf8(rest);
    }
  }

  predicate IsAscii(s: string) { forall i :: 0 <= i < |s| ==> s[i] as int < 0x80 }

  lemma {:induction false} SizeOfAscii(s: string)
    requires IsAscii(s)
    ensures Size(s) == |s|
  {
    if s != [] { SizeOfAscii(s[..|s| - 1]); }
  }

  // ---- ASCII letters and digits ----

  function Lower(c: char): char { if 'A' <= c <= 'Z' then c - 'A' + 'a' else c }

  predicate LowerAlnum(c: char) { 'a' <= c <= 'z' || '0' <= c <= '9' }

  /** An ASCII letter or digit of either case. */
  predicate Alnum(c: char) { LowerAlnum(Lower(c)) }

  // ---- Decimal numbers ----

  function Decimal(n: nat): (s: string)
    ensures s != [] && forall i :: 0 <= i < |s| ==> '0' <= s[i] <= '9'
  {
    var digit := '0' + (n % 10) as char;
    if n < 10 then [digit] else Decimal(n / 10) + [digit]
  }

  lemma {:induction false} DecimalIsInjective(m: nat, n: nat)
    requires Decimal(m) == Decimal(n)
    ensures m == n
  {
    var s := Decimal(m);
    assert s[|s| - 1] == '0' + (m % 10) as char == '0' + (n % 10) as char;
    if m >= 10 && n >= 10 {
      assert Decimal(m / 10) == s[..|s| - 1] == Decimal(n / 10);
      DecimalIsInjective(m / 10, n / 10);
    }
  }

  function TenTo(d: nat): nat { if d == 0 then 1 else 10 * TenTo(d - 1) }

  /** A number below ten to the `d` has at most `d` digits. */
  lemma {:induction false} DecimalLength(n: nat, d: nat)
    requires n < TenTo(d) && d > 0
    ensures |Decimal(n)| <= d
  {
    if n >= 10 { DecimalLength(n / 10, d - 1); }
  }
}
