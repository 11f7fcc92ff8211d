/**
  The texts of `src/auth.rs`: the API key token (prefix, base64url payload, dot,
  checksum) and the stored verifier `sha256:v1:` followed by 64 hex digits.
  Text is a sequence of bytes, as Rust compares and slices it.
*/
module KeyText {
  import opened Common

  type Text = seq<byte>

  const DIGEST_BYTES := 32
  type Digest = d: seq<byte> | |d| == DIGEST_BYTES witness seq(DIGEST_BYTES, _ => 0)

  function Ascii(s: string): (t: Text)
    requires forall i :: 0 <= i < |s| ==> s[i] as int < 128
  {
    seq(|s|, i requires 0 <= i < |s| => s[i] as int)
  }

  // ---- Hex ----

  function HexCode(n: int): byte
    requires 0 <= n < 16
  {
    if n < 10 then 48 + n else 87 + n
  }

  /** `hex_nibble`: either case is accepted. */
  function HexNibble(b: byte): (n: Option<int>)
    ensures n.Some? ==> 0 <= n.value < 16
  {
    if 48 <= b <= 57 then Some(b - 48)
    else if 97 <= b <= 102 then Some(b - 97 + 10)
    else if 65 <= b <= 70 then Some(b - 65 + 10)
    else None
  }

  function LowerByte(b: byte): byte { if 65 <= b <= 90 then b + 32 else b }

  function LowerText(t: Text): Text { seq(|t|, i requires 0 <= i < |t| => LowerByte(t[i])) }

  /** Two lower-case digits. */
  function ByteHex(b: byte): (t: Text)
    ensures |t| == 2
  {
    [HexCode(b / 16), HexCode(b % 16)]
  }

  function HexByte(high: byte, low: byte): Option<byte> {
    match (HexNibble(high), HexNibble(low))
    case (Some(h), Some(l)) => Some(h * 16 + l)
    case _ => None
  }

  function Hex(bytes: seq<byte>): (t: Text)
    ensures |t| == 2 * |bytes|
  {
    if bytes == [] then [] else Hex(bytes[..|bytes| - 1]) + ByteHex(bytes[|bytes| - 1])
  }

  /** The `n` bytes that `2 * n` hex digits spell; `None` when some character is no digit. */
  function Unhex(t: Text, n: nat): (r: Option<seq<byte>>)
    requires |t| == 2 * n
    ensures r.Some? ==> |r.value| == n
  {
    if n == 0 then Some([])
    else
      match (Unhex(t[..2 * n - 2], n - 1), HexByte(t[2 * n - 2], t[2 * n - 1]))
      case (Some(front), Some(b)) => Some(front + [b])
      case _ => None
  }

  /** `append_hex`: the loop writes two lower-case digits per byte. */
  method AppendHex(encoded: Text, bytes: seq<byte>) returns (grown: Text)
    ensures grown == encoded + Hex(bytes)
  {
    grown := encoded;
    for i := 0 to |bytes|
      invariant grown == encoded + Hex(bytes[..i])
    {
      assert bytes[..i + 1][..i] == bytes[..i];
      grown := grown + [HexCode(bytes[i] / 16), HexCode(bytes[i] % 16)];
    }
    assert bytes[..|bytes|] == bytes;
  }

  lemma ByteRoundTrip(b: byte)
    ensures HexByte(ByteHex(b)[0], ByteHex(b)[1]) == Some(b)
  {
  }

  lemma ByteIsLowerCase(high: byte, low: byte)
    requires HexByte(high, low).Some?
    ensures ByteHex(HexByte(high, low).value) == [LowerByte(high), LowerByte(low)]
  {
  }

  lemma UnhexOfSnoc(t: Text, n: nat, b: byte)
    requires |t| == 2 * n
    ensures Unhex(t + ByteHex(b), n + 1) == match Unhex(t, n) case Some(front) => Some(front + [b]) case None => None
  {
    var u := t + ByteHex(b);
    assert u[..2 * n] == t && u[2 * n] == ByteHex(b)[0] && u[2 * n + 1] == ByteHex(b)[1];
    hide ByteHex, HexByte;
    ByteRoundTrip(b);
  }

  lemma {:induction false} HexRoundTrip(bytes: seq<byte>)
    ensures Unhex(Hex(bytes), |bytes|) == Some(bytes)
  {
    hide ByteHex, HexByte;
    if bytes != [] {
      var n := |bytes| - 1;
      HexRoundTrip(bytes[..n]);
      hide Unhex;
      UnhexOfSnoc(Hex(bytes[..n]), n, bytes[n]);
      assert bytes == bytes[..n] + [bytes[n]];
    }
  }

  lemma {:induction false} HexIsLowerCase(t: Text, n: nat)
    requires |t| == 2 * n && Unhex(t, n).Some?
    ensures Hex(Unhex(t, n).value) == LowerText(t)
  {
    hide ByteHex, HexByte, LowerByte;
    if n > 0 {
      var front, high, low := t[..2 * n - 2], t[2 * n - 2], t[2 * n - 1];
      HexIsLowerCase(front, n - 1);
      ByteIsLowerCase(high, low);
      assert Unhex(t, n).value[..n - 1] == Unhex(front, n - 1).value;
      assert LowerText(t) == LowerText(front) + [LowerByte(high), LowerByte(low)];
    }
  }

  /** One bad character spoils every longer text. */
  lemma {:induction false} UnhexFailsOnward(t: Text, m: nat, n: nat)
    requires m <= n && |t| == 2 * n && Unhex(t[..2 * m], m) == None
    ensures Unhex(t, n) == None
  {
    if m < n {
      assert t[..2 * n - 2][..2 * m] == t[..2 * m];
      UnhexFailsOnward(t[..2 * n - 2], m, n - 1);
    } else {
      assert t[..2 * m] == t;
    }
  }

  // ---- The stored verifier ----

  const VERIFIER_PREFIX: Text := Ascii("sha256:v1:")

  /** `parse_tagged` */
  function ParseTagged(t: Text): (r: Option<Digest>) {
    if !(VERIFIER_PREFIX <= t) || |t| != |VERIFIER_PREFIX| + 2 * DIGEST_BYTES then None
    else
      match Unhex(t[|VERIFIER_PREFIX|..], DIGEST_BYTES)
      case Some(bytes) => Some(bytes)
      case None => None
  }

  /** The first `n` digit pairs of the text have been read, and spell `bytes`. */
  ghost predicate Spells(encoded: Text, n: nat, bytes: seq<byte>) {
    2 * n <= |encoded| && Unhex(encoded[..2 * n], n) == Some(bytes)
  }

  lemma SpellsStep(encoded: Text, n: nat, front: seq<byte>)
    requires n < DIGEST_BYTES && |encoded| == 2 * DIGEST_BYTES && Spells(encoded, n, front)
    ensures match (HexNibble(encoded[2 * n]), HexNibble(encoded[2 * n + 1]))
            case (Some(h), Some(l)) => Spells(encoded, n + 1, front + [h * 16 + l])
            case _ => Unhex(encoded, DIGEST_BYTES) == None
  {
    hide HexNibble;
    assert encoded[..2 * n + 2][..2 * n] == encoded[..2 * n];
    if Unhex(encoded[..2 * n + 2], n + 1) == None { UnhexFailsOnward(encoded, n + 1, DIGEST_BYTES); }
  }

  lemma SpellsAll(encoded: Text, bytes: seq<byte>)
    requires |encoded| == 2 * DIGEST_BYTES && Spells(encoded, DIGEST_BYTES, bytes)
    ensures Unhex(encoded, DIGEST_BYTES) == Some(bytes)
  {
    assert encoded[..2 * DIGEST_BYTES] == encoded;
  }

  lemma ParseOfPayload(t: Text, encoded: Text)
    requires VERIFIER_PREFIX <= t && encoded == t[|VERIFIER_PREFIX|..] && |encoded| == 2 * DIGEST_BYTES
    ensures match Unhex(encoded, DIGEST_BYTES) case Some(d) => ParseTagged(t) == Some(d) case None => ParseTagged(t) == None
  {
  }

  /** The same as the source runs it: a zeroed array filled two digits at a time. */
  method ParseTaggedVerifier(t: Text) returns (r: Option<Digest>)
    ensures r == ParseTagged(t)
  {
    if !(VERIFIER_PREFIX <= t) { return None; }
    var encoded := t[|VERIFIER_PREFIX|..];
    if |encoded| != DIGEST_BYTES * 2 { return None; }
    ParseOfPayload(t, encoded);
    SpellsNothing(encoded);
    hide Spells, Unhex, HexNibble, ParseTagged;
    var bytes := new byte[DIGEST_BYTES](_ => 0);
    assert bytes[..0] == [];
    for i := 0 to DIGEST_BYTES
      invariant Spells(encoded, i, bytes[..i])
    {
      var high, low := HexNibble(encoded[2 * i]), HexNibble(encoded[2 * i + 1]);
      ghost var front := bytes[..i];
      SpellsStep(encoded, i, front);
      if high == None || low == None { return None; }
      bytes[i] := high.value * 16 + low.value;
      assert bytes[..i + 1] == front + [bytes[i]];
    }
    SpellsAll(encoded, bytes[..DIGEST_BYTES]);
    assert bytes[..DIGEST_BYTES] == bytes[..];
    return Some(bytes[..]);
  }

  lemma SpellsNothing(encoded: Text)
    ensures Spells(encoded, 0, [])
  {
  }

  /** `encode` */
  function EncodeVerifier(d: Digest): Text { VERIFIER_PREFIX + Hex(d) }

  lemma VerifierRoundTrip(d: Digest)
    ensures ParseTagged(EncodeVerifier(d)) == Some(d)
  {
    HexRoundTrip(d);
    assert EncodeVerifier(d)[|VERIFIER_PREFIX|..] == Hex(d);
  }

  /** Whatever spelling was accepted, storing it again gives its lower-case form. */
  lemma EncodingIsCanonical(t: Text)
    requires ParseTagged(t).Some?
    ensures EncodeVerifier(ParseTagged(t).value) == LowerText(t)
  {
    var n := |VERIFIER_PREFIX|;
    HexIsLowerCase(t[n..], DIGEST_BYTES);
    assert t == t[..n] + t[n..] && t[..n] == VERIFIER_PREFIX;
    assert LowerText(t) == LowerText(t[..n]) + LowerText(t[n..]);
    assert LowerText(VERIFIER_PREFIX) == VERIFIER_PREFIX;
  }

  lemma VerifiersDiffer(a: Digest, b: Digest)
    requires EncodeVerifier(a) == EncodeVerifier(b)
    ensures a == b
  {
    VerifierRoundTrip(a);
    VerifierRoundTrip(b);
  }

  /** `StoredApiKeyVerifier::parse`: what a `key_hash` column means. */
  datatype Stored = Sha256(digest: Digest) | LegacyArgon2(phc: Text) | Unsupported

  const ARGON2_PREFIX: Text := Ascii("$argon2")

  function ParseStored(t: Text): Stored {
    if VERIFIER_PREFIX <= t then
      match ParseTagged(t) case Some(d) => Sha256(d) case None => Unsupported
    else if ARGON2_PREFIX <= t then LegacyArgon2(t)
    else Unsupported
  }

  /** `0` to `9`, `a` to `f` or `A` to `F`. */
  predicate IsHexDigit(b: byte) { 48 <= b <= 57 || 97 <= b <= 102 || 65 <= b <= 70 }

  lemma {:induction false} UnhexReads(t: Text, n: nat)
    requires |t| == 2 * n
    ensures Unhex(t, n).Some? <==> forall i :: 0 <= i < |t| ==> IsHexDigit(t[i])
  {
    if n > 0 {
      UnhexReads(t[..2 * n - 2], n - 1);
      assert forall i :: 0 <= i < |t| - 2 ==> t[i] == t[..2 * n - 2][i];
    }
  }

  /**
    What a stored text is taken for: SHA-256 exactly the tag and 64 hex digits of
    either case, a legacy text exactly one that starts as Argon2 does and is kept
    whole, and anything else is unsupported.
  */
  lemma StoredTextsAreThese(t: Text)
    ensures ParseStored(t).Sha256? <==>
            && |t| == 74 && t[..10] == Ascii("sha256:v1:")
            && forall i :: 10 <= i < 74 ==> IsHexDigit(t[i])
    ensures ParseStored(t).LegacyArgon2? <==> |t| >= 7 && t[..7] == Ascii("$argon2")
    ensures ParseStored(t).LegacyArgon2? ==> ParseStored(t) == LegacyArgon2(t)
  {
    if |t| == 74 && VERIFIER_PREFIX <= t {
      UnhexReads(t[10..], DIGEST_BYTES);
      assert forall i :: 10 <= i < 74 ==> t[i] == t[10..][i - 10];
    }
    assert VERIFIER_PREFIX <= t <==> |t| >= 10 && t[..10] == Ascii("sha256:v1:");
    assert ARGON2_PREFIX <= t <==> |t| >= 7 && t[..7] == Ascii("$argon2");
    assert Ascii("sha256:v1:")[0] != Ascii("$argon2")[0];
    hide Unhex;
  }

  lemma StoredVerifierIsSha256(d: Digest)
    ensures ParseStored(EncodeVerifier(d)) == Sha256(d)
  {
    VerifierRoundTrip(d);
  }

  // ---- Base64url without padding, section 5 of RFC 4648 ----

  function Symbol(v: int): byte
    requires 0 <= v < 64
  {
    if v < 26 then 65 + v
    else if v < 52 then 97 + (v - 26)
    else if v < 62 then 48 + (v - 52)
    else if v == 62 then 45
    else 95
  }

  function SymbolValue(b: byte): (v: Option<int>)
    ensures v.Some? ==> 0 <= v.value < 64
  {
    if 65 <= b <= 90 then Some(b - 65)
    else if 97 <= b <= 122 then Some(b - 97 + 26)
    else if 48 <= b <= 57 then Some(b - 48 + 52)
    else if b == 45 then Some(62)
    else if b == 95 then Some(63)
    else None
  }

  const ENTROPY_BYTES := 24
  const PAYLOAD_CHARS := 32
  const CHECKSUM_CHARS := 20

  type Entropy = e: seq<byte> | |e| == ENTROPY_BYTES witness seq(ENTROPY_BYTES, _ => 0)

  datatype Sextets = Sextets(p: int, q: int, r: int, s: int) {
    predicate Valid() { 0 <= p < 64 && 0 <= q < 64 && 0 <= r < 64 && 0 <= s < 64 }
  }

  /** Three bytes, split six bits at a time. */
  function Split(a: byte, b: byte, c: byte): (g: Sextets)
    ensures g.Valid()
  {
    Sextets(a / 4, a % 4 * 16 + b / 16, b % 16 * 4 + c / 64, c % 64)
  }

  /** The three bytes four six-bit values spell. */
  function Join(g: Sextets): (bytes: seq<byte>)
    requires g.Valid()
    ensures |bytes| == 3
  {
    [g.p * 4 + g.q / 16, g.q % 16 * 16 + g.r / 4, g.r % 4 * 64 + g.s]
  }

  function Symbols(g: Sextets): (t: Text)
    requires g.Valid()
    ensures |t| == 4
  {
    [Symbol(g.p), Symbol(g.q), Symbol(g.r), Symbol(g.s)]
  }

  function SymbolValues(t: Text): (g: Option<Sextets>)
    requires |t| == 4
    ensures g.Some? ==> g.value.Valid()
  {
    match (SymbolValue(t[0]), SymbolValue(t[1]), SymbolValue(t[2]), SymbolValue(t[3]))
    case (Some(p), Some(q), Some(r), Some(s)) => Some(Sextets(p, q, r, s))
    case _ => None
  }

  /** `n` groups of three bytes become `n` groups of four symbols. */
  function Base64(bytes: seq<byte>, n: nat): (t: Text)
    requires |bytes| == 3 * n
    ensures |t| == 4 * n
  {
    if n == 0 then []
    else Symbols(Split(bytes[0], bytes[1], bytes[2])) + Base64(bytes[3..], n - 1)
  }

  /** Every group is whole, so decoding meets no padding bits. */
  function Unbase64(t: Text, n: nat): (r: Option<seq<byte>>)
    requires |t| == 4 * n
    ensures r.Some? ==> |r.value| == 3 * n
  {
    if n == 0 then Some([])
    else
      match (SymbolValues(t[..4]), Unbase64(t[4..], n - 1))
      case (Some(g), Some(rest)) => Some(Join(g) + rest)
      case _ => None
  }

  lemma SplitJoin(a: byte, b: byte, c: byte)
    ensures Join(Split(a, b, c)) == [a, b, c]
  {
  }

  lemma JoinSplit(g: Sextets)
    requires g.Valid()
    ensures Split(Join(g)[0], Join(g)[1], Join(g)[2]) == g
  {
    assert (g.p * 4 + g.q / 16) / 4 == g.p && (g.p * 4 + g.q / 16) % 4 == g.q / 16;
    assert (g.q % 16 * 16 + g.r / 4) / 16 == g.q % 16 && (g.q % 16 * 16 + g.r / 4) % 16 == g.r / 4;
    assert (g.r % 4 * 64 + g.s) / 64 == g.r % 4 && (g.r % 4 * 64 + g.s) % 64 == g.s;
  }

  lemma SymbolsRoundTrip(g: Sextets)
    requires g.Valid()
    ensures SymbolValues(Symbols(g)) == Some(g)
  {
  }

  lemma SymbolsRoundTripBack(t: Text)
    requires |t| == 4 && SymbolValues(t).Some?
    ensures Symbols(SymbolValues(t).value) == t
  {
  }

  lemma {:induction false} Base64RoundTrip(bytes: seq<byte>, n: nat)
    requires |bytes| == 3 * n
    ensures Unbase64(Base64(bytes, n), n) == Some(bytes)
  {
    hide Join, Symbols, SymbolValues, Symbol, SymbolValue, Split;
    if n > 0 {
      var g, rest := Split(bytes[0], bytes[1], bytes[2]), Base64(bytes[3..], n - 1);
      Base64RoundTrip(bytes[3..], n - 1);
      SplitJoin(bytes[0], bytes[1], bytes[2]);
      SymbolsRoundTrip(g);
      assert (Symbols(g) + rest)[..4] == Symbols(g) && (Symbols(g) + rest)[4..] == rest;
      assert bytes == [bytes[0], bytes[1], bytes[2]] + bytes[3..];
    }
  }

  lemma Base64Group(g: Sextets, rest: seq<byte>, n: nat)
    requires g.Valid() && |rest| == 3 * n
    ensures Base64(Join(g) + rest, n + 1) == Symbols(g) + Base64(rest, n)
  {
    JoinSplit(g);
    hide Split, Join, Symbols;
    var bytes := Join(g) + rest;
    assert bytes[0] == Join(g)[0] && bytes[1] == Join(g)[1] && bytes[2] == Join(g)[2] && bytes[3..] == rest;
  }

  lemma {:induction false} Base64RoundTripBack(t: Text, n: nat)
    requires |t| == 4 * n && Unbase64(t, n).Some?
    ensures Base64(Unbase64(t, n).value, n) == t
  {
    hide Join, Symbols, SymbolValues, Symbol, SymbolValue, Split;
    if n > 0 {
      var g, rest := SymbolValues(t[..4]).value, Unbase64(t[4..], n - 1).value;
      Base64RoundTripBack(t[4..], n - 1);
      Base64Group(g, rest, n - 1);
      SymbolsRoundTripBack(t[..4]);
      assert t == t[..4] + t[4..];
    }
  }

  // ---- The token ----

  const TOKEN_PREFIX: Text := Ascii("lific_sk-live-")
  const DOT: byte := 46

  function Payload(e: Entropy): (t: Text)
    ensures |t| == PAYLOAD_CHARS
  {
    Base64(e, 8)
  }

  /** BLAKE3 as any function to digests. */
  type Hash = Text -> Digest

  function Checksum(hash: Hash, unsigned: Text): Text { Hex(hash(unsigned))[..CHECKSUM_CHARS] }

  function Token(hash: Hash, e: Entropy): Text {
    TOKEN_PREFIX + Payload(e) + [DOT] + Checksum(hash, TOKEN_PREFIX + Payload(e))
  }

  /** `build_api_key_token` */
  method BuildToken(hash: Hash, e: Entropy) returns (token: Text)
    ensures token == Token(hash, e)
  {
    token := TOKEN_PREFIX;
    token := token + Payload(e);
    var checksum := Hex(hash(token));
    token := token + [DOT];
    token := token + checksum[..CHECKSUM_CHARS];
  }

  /** Where `rsplit_once('.')` splits. */
  function LastDot(t: Text): (i: Option<nat>)
    ensures i.Some? ==> i.value < |t| && t[i.value] == DOT
  {
    if t == [] then None
    else if t[|t| - 1] == DOT then Some(|t| - 1)
    else LastDot(t[..|t| - 1])
  }

  /** `valid_api_key_checksum`, check by check. */
  function ValidToken(hash: Hash, t: Text): bool {
    if |t| > 512 || !(TOKEN_PREFIX <= t) then false
    else
      match LastDot(t)
      case None => false
      case Some(dot) =>
        var unsigned, checksum := t[..dot], t[dot + 1..];
        if !(TOKEN_PREFIX <= unsigned) then false
        else
          var payload := unsigned[|TOKEN_PREFIX|..];
          if |payload| != PAYLOAD_CHARS || |checksum| != CHECKSUM_CHARS then false
          else Unbase64(payload, 8).Some? && checksum == Checksum(hash, unsigned)
  }

  lemma {:induction false} LastDotIsUnique(front: Text, back: Text)
    requires DOT !in back
    ensures LastDot(front + [DOT] + back) == Some(|front|)
  {
    var t := front + [DOT] + back;
    if back == [] {
      assert t == front + [DOT];
    } else {
      var n := |back| - 1;
      assert back[n] in back;
      LastDotIsUnique(front, back[..n]);
      assert t[..|t| - 1] == front + [DOT] + back[..n];
    }
  }

  lemma {:induction false} HexHasNoDot(bytes: seq<byte>)
    ensures DOT !in Hex(bytes)
  {
    if bytes != [] { HexHasNoDot(bytes[..|bytes| - 1]); }
  }

  lemma TokenIsValid(hash: Hash, e: Entropy)
    ensures ValidToken(hash, Token(hash, e))
  {
    var unsigned := TOKEN_PREFIX + Payload(e);
    var checksum := Checksum(hash, unsigned);
    var t := Token(hash, e);
    HexHasNoDot(hash(unsigned));
    LastDotIsUnique(unsigned, checksum);
    assert t == unsigned + [DOT] + checksum;
    assert t[..|unsigned|] == unsigned && t[|unsigned| + 1..] == checksum;
    assert unsigned[|TOKEN_PREFIX|..] == Payload(e);
    Base64RoundTrip(e, 8);
  }

  lemma TokensDiffer(hash: Hash, a: Entropy, b: Entropy)
    requires Token(hash, a) == Token(hash, b)
    ensures a == b
  {
    var t := Token(hash, a);
    var n := |TOKEN_PREFIX|;
    assert Payload(a) == t[n..n + PAYLOAD_CHARS] == Payload(b);
    Base64RoundTrip(a, 8);
    Base64RoundTrip(b, 8);
  }

  /** The entropy behind a text the checksum test accepts. */
  lemma EntropyOf(hash: Hash, t: Text) returns (e: Entropy)
    requires ValidToken(hash, t)
    ensures t == Token(hash, e)
  {
    hide Unbase64, Base64, LastDot, Checksum;
    var dot := LastDot(t).value;
    var unsigned := t[..dot];
    var payload := unsigned[|TOKEN_PREFIX|..];
    LastDotIsADot(t);
    e := Unbase64(payload, 8).value;
    Base64RoundTripBack(payload, 8);
    assert unsigned == TOKEN_PREFIX + Payload(e);
    assert t == unsigned + [DOT] + t[dot + 1..];
  }

  lemma LastDotIsADot(t: Text)
    ensures LastDot(t).Some? ==> LastDot(t).value < |t| && t[LastDot(t).value] == DOT
  {
  }

  /** The checksum test accepts exactly the tokens the server can issue, each from one entropy. */
  lemma ValidTokensAreBuilt(hash: Hash, t: Text)
    ensures ValidToken(hash, t) <==> exists e: Entropy :: t == Token(hash, e)
    ensures forall a: Entropy, b: Entropy :: Token(hash, a) == t && Token(hash, b) == t ==> a == b
  {
    hide ValidToken, Token;
    if ValidToken(hash, t) { var e := EntropyOf(hash, t); }
    forall e: Entropy | t == Token(hash, e) ensures ValidToken(hash, t) { TokenIsValid(hash, e); }
    forall a: Entropy, b: Entropy | Token(hash, a) == t && Token(hash, b) == t ensures a == b {
      TokensDiffer(hash, a, b);
    }
  }
}
