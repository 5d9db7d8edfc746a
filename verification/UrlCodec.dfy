/** Percent coding of URL components (section 2 of RFC 3986), as the two loops in utils compute it. */
module UrlCodec {
  import opened ByteText

  const PERCENT: byte := 37
  const PLUS: byte := 43
  const SPACE: byte := 32

  predicate Unreserved(b: byte) { IsAlnum(b) || b == 45 || b == 95 || b == 46 || b == 126 }

  function UpperHex(n: int): (d: byte)
    requires 0 <= n < 16
    ensures HexValue(d) == n && !IsLower(d)
  {
    if n < 10 then (48 + n) as byte else (55 + n) as byte
  }

  function EncodeByte(b: byte): Bytes {
    if Unreserved(b) then [b] else [PERCENT, UpperHex(b as int / 16), UpperHex(b as int % 16)]
  }

  function Encode(s: Bytes): Bytes {
    if s == [] then [] else EncodeByte(s[0]) + Encode(s[1..])
  }

  predicate IsBlank(b: byte) { b == 32 || 9 <= b <= 13 }

  /**
    `strtol` in base 16 of a two-character string, cut to a byte: leading blank or sign allowed,
    stops at the first character that is not a digit.
  */
  function HexPair(a: byte, b: byte): byte {
    var x, y := HexValue(a), HexValue(b);
    if x >= 0 then (if y >= 0 then (16 * x + y) as byte else x as byte)
    else if y < 0 then 0
    else if a == 45 then ((256 - y) % 256) as byte
    else if a == PLUS || IsBlank(a) then y as byte
    else 0
  }

  /** How many characters the decoder takes at once, and the byte it makes of them. */
  function Width(t: Bytes): nat
    requires t != []
  {
    if t[0] == PERCENT && |t| > 2 then 3 else 1
  }

  function Head(t: Bytes): byte
    requires t != []
  {
    if t[0] == PERCENT && |t| > 2 then HexPair(t[1], t[2]) else if t[0] == PLUS then SPACE else t[0]
  }

  function Decode(t: Bytes): Bytes {
    if t == [] then [] else [Head(t)] + Decode(t[Width(t)..])
  }

  method UrlEncode(decoded: Bytes) returns (escaped: Bytes)
    ensures escaped == Encode(decoded)
  {
    escaped := [];
    var i := 0;
    while i < |decoded|
      invariant 0 <= i <= |decoded|
      invariant escaped + Encode(decoded[i..]) == Encode(decoded)
    {
      var c := decoded[i];
      ghost var rest := Encode(decoded[i + 1..]);
      assert decoded[i..][1..] == decoded[i + 1..];
      assert escaped + (EncodeByte(c) + rest) == (escaped + EncodeByte(c)) + rest;
      if IsAlnum(c) || c == 45 || c == 95 || c == 46 || c == 126 {
        escaped := escaped + [c];
      } else {
        escaped := escaped + [PERCENT, UpperHex(c as int / 16), UpperHex(c as int % 16)];
      }
      i := i + 1;
    }
  }

  method UrlDecode(encoded: Bytes) returns (decoded: Bytes)
    ensures decoded == Decode(encoded)
  {
    decoded := [];
    var i := 0;
    while i < |encoded|
      invariant 0 <= i <= |encoded|
      invariant decoded + Decode(encoded[i..]) == Decode(encoded)
    {
      DecodeFrom(decoded, encoded, i);
      if encoded[i] == PERCENT && i + 2 < |encoded| {
        decoded := decoded + [HexPair(encoded[i + 1], encoded[i + 2])];
        i := i + 2;
      } else if encoded[i] == PLUS {
        decoded := decoded + [SPACE];
      } else {
        decoded := decoded + [encoded[i]];
      }
      i := i + 1;
    }
  }

  /** What the decoder makes of a well-formed escape in either case, of a plus sign, and of anything else. */
  lemma DecodeReads(a: byte, b: byte, rest: Bytes)
    ensures HexValue(a) >= 0 && HexValue(b) >= 0 ==>
              Decode([PERCENT, a, b] + rest) == [(16 * HexValue(a) + HexValue(b)) as byte] + Decode(rest)
    ensures Decode([PLUS] + rest) == [SPACE] + Decode(rest)
    ensures a != PERCENT && a != PLUS ==> Decode([a] + rest) == [a] + Decode(rest)
  {
    assert ([PERCENT, a, b] + rest)[3..] == rest && ([PLUS] + rest)[1..] == rest && ([a] + rest)[1..] == rest;
  }

  /** One turn of the decoding loop. */
  lemma DecodeFrom(done: Bytes, t: Bytes, i: nat)
    requires i < |t|
    ensures var b := if t[i] == PERCENT && i + 2 < |t| then HexPair(t[i + 1], t[i + 2])
                     else if t[i] == PLUS then SPACE else t[i];
            var n := if t[i] == PERCENT && i + 2 < |t| then 3 else 1;
            done + Decode(t[i..]) == done + [b] + Decode(t[i + n..])
  {
    var rest := t[i..];
    assert rest[Width(rest)..] == t[i + Width(rest)..];
    assert done + ([Head(rest)] + Decode(rest[Width(rest)..])) == done + [Head(rest)] + Decode(rest[Width(rest)..]);
  }

  /** Only unreserved characters, and escapes in upper case of bytes that need one. */
  predicate Canonical(t: Bytes) {
    if t == [] then true
    else if t[0] == PERCENT then
      |t| > 2 && HexValue(t[1]) >= 0 && HexValue(t[2]) >= 0 && !IsLower(t[1]) && !IsLower(t[2])
      && !Unreserved(HexPair(t[1], t[2])) && Canonical(t[3..])
    else Unreserved(t[0]) && Canonical(t[1..])
  }

  /** Decoding undoes encoding for every byte string, whatever bytes it holds. */
  lemma {:induction false} RoundTrip(s: Bytes)
    ensures Decode(Encode(s)) == s
  {
    if s == [] {
    } else {
      RoundTrip(s[1..]);
      var rest := Encode(s[1..]);
      if Unreserved(s[0]) {
        assert ([s[0]] + rest)[1..] == rest;
      } else {
        var e := EncodeByte(s[0]);
        assert (e + rest)[3..] == rest && (e + rest)[1] == e[1] && (e + rest)[2] == e[2];
      }
    }
  }

  /** The output alphabet. */
  lemma {:induction false} EncodeIsCanonical(s: Bytes)
    ensures Canonical(Encode(s))
  {
    if s == [] {
    } else {
      EncodeIsCanonical(s[1..]);
      var e, rest := EncodeByte(s[0]), Encode(s[1..]);
      assert (e + rest)[|e|..] == rest;
      if !Unreserved(s[0]) { assert (e + rest)[1] == e[1] && (e + rest)[2] == e[2]; }
    }
  }

  /** A digit that is not lower case is the one the encoder writes for its value. */
  lemma HexDigitIsUnique(d: byte)
    requires HexValue(d) >= 0 && !IsLower(d)
    ensures UpperHex(HexValue(d)) == d
  {}

  /** Encoding undoes decoding exactly on the texts the encoder can produce. */
  lemma {:induction false} CanonicalRoundTrip(t: Bytes)
    ensures Encode(Decode(t)) == t <==> Canonical(t)
  {
    if Canonical(t) { CanonicalBack(t); } else { EncodeIsCanonical(Decode(t)); }
  }

  lemma EscapeBack(a: byte, b: byte)
    requires HexValue(a) >= 0 && HexValue(b) >= 0 && !IsLower(a) && !IsLower(b) && !Unreserved(HexPair(a, b))
    ensures EncodeByte(HexPair(a, b)) == [PERCENT, a, b]
  {
    HexDigitIsUnique(a);
    HexDigitIsUnique(b);
    var v := HexPair(a, b) as int;
    assert v == 16 * HexValue(a) + HexValue(b);
    assert v / 16 == HexValue(a) && v % 16 == HexValue(b);
  }

  lemma {:induction false} CanonicalBack(t: Bytes)
    requires Canonical(t)
    ensures Encode(Decode(t)) == t
  {
    if t == [] {
    } else {
      var rest := t[Width(t)..];
      CanonicalBack(rest);
      assert Decode(t)[1..] == Decode(rest);
      if t[0] == PERCENT { EscapeBack(t[1], t[2]); }
      assert t == t[..Width(t)] + rest;
      assert t[..Width(t)] == EncodeByte(Head(t));
    }
  }
}
