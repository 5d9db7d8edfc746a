/**
  base64url without padding (section 5 of RFC 4648), as PKCE verifiers, challenges and token
  ids use it: the encoder loop, and the decoder the RFC describes.
*/
module Base64Url {
  import opened ByteText

  /** The alphabet, by value. */
  function Symbol(v: int): byte
    requires 0 <= v < 64
  {
    if v < 26 then (65 + v) as byte
    else if v < 52 then (71 + v) as byte
    else if v < 62 then (v - 4) as byte
    else if v == 62 then 45 else 95
  }

  /** A to Z, a to z, 0 to 9, then minus and underscore. */
  lemma AlphabetIs(v: int)
    requires 0 <= v < 64
    ensures v < 26 ==> Symbol(v) as int == 'A' as int + v
    ensures 26 <= v < 52 ==> Symbol(v) as int == 'a' as int + (v - 26)
    ensures 52 <= v < 62 ==> Symbol(v) as int == '0' as int + (v - 52)
    ensures v == 62 ==> Symbol(v) as int == '-' as int
    ensures v == 63 ==> Symbol(v) as int == '_' as int
  {}

  predicate InAlphabet(b: byte) { IsAlnum(b) || b == 45 || b == 95 }

  function Value(b: byte): (v: int)
    requires InAlphabet(b)
    ensures 0 <= v < 64 && Symbol(v) == b
  {
    if IsUpper(b) then b as int - 65
    else if IsLower(b) then b as int - 71
    else if IsDigit(b) then b as int + 4
    else if b == 45 then 62 else 63
  }

  /** Up to three bytes, left-aligned in 24 bits. */
  function Pack(g: Bytes): (v: int)
    requires 1 <= |g| <= 3
    ensures 0 <= v < 16777216
  {
    g[0] as int * 65536 + (if |g| > 1 then g[1] as int * 256 else 0) + (if |g| > 2 then g[2] as int else 0)
  }

  /** The `k`-th six bits of a 24-bit value. */
  function Sextet(v: int, k: int): (x: int)
    requires 0 <= v && 0 <= k < 4
    ensures 0 <= x < 64
  {
    match k case 0 => v / 262144 % 64 case 1 => v / 4096 % 64 case 2 => v / 64 % 64 case _ => v % 64
  }

  /** The symbols for one group of at most three bytes. */
  function EncodeGroup(g: Bytes): (t: Bytes)
    requires 1 <= |g| <= 3
    ensures |t| == |g| + 1
  {
    seq(|g| + 1, k requires 0 <= k < 4 => Symbol(Sextet(Pack(g), k)))
  }

  function Encode(s: Bytes): Bytes {
    if s == [] then [] else
      var n := if |s| < 3 then |s| else 3;
      EncodeGroup(s[..n]) + Encode(s[n..])
  }

  function From(s: Bytes, i: nat): Bytes { if i <= |s| then s[i..] else [] }

  method Base64UrlEncode(data: Bytes) returns (out: Bytes)
    ensures out == Encode(data)
  {
    out := [];
    var i := 0;
    while i < |data|
      invariant 0 <= i && out + Encode(From(data, i)) == Encode(data)
    {
      var v := data[i] as int * 65536;
      var n := 1;
      if i + 1 < |data| { v := v + data[i + 1] as int * 256; n := 2; }
      if i + 2 < |data| { v := v + data[i + 2] as int; n := 3; }
      GroupAt(data, i, n, v);
      var group := [Symbol(Sextet(v, 0)), Symbol(Sextet(v, 1))];
      if n >= 2 { group := group + [Symbol(Sextet(v, 2))]; }
      if n >= 3 { group := group + [Symbol(Sextet(v, 3))]; }
      assert (out + group) + Encode(From(data, i + 3)) == out + (group + Encode(From(data, i + 3)));
      out := out + group;
      i := i + 3;
    }
  }

  /** What the loop packs and writes at `i` is the next group. */
  lemma GroupAt(data: Bytes, i: nat, n: nat, v: int)
    requires i < |data| && n == (if i + 2 < |data| then 3 else if i + 1 < |data| then 2 else 1)
    requires v == data[i] as int * 65536 + (if n > 1 then data[i + 1] as int * 256 else 0)
                  + (if n > 2 then data[i + 2] as int else 0)
    ensures 0 <= v
    ensures var group := [Symbol(Sextet(v, 0)), Symbol(Sextet(v, 1))] + (if n > 1 then [Symbol(Sextet(v, 2))] else [])
                         + (if n > 2 then [Symbol(Sextet(v, 3))] else []);
            Encode(From(data, i)) == group + Encode(From(data, i + 3))
  {
    var s := From(data, i);
    assert n == (if |s| < 3 then |s| else 3) && s[n..] == From(data, i + 3) && v == Pack(s[..n]);
    var group := [Symbol(Sextet(v, 0)), Symbol(Sextet(v, 1))] + (if n > 1 then [Symbol(Sextet(v, 2))] else [])
                 + (if n > 2 then [Symbol(Sextet(v, 3))] else []);
    assert EncodeGroup(s[..n]) == group;
  }

  datatype Decoded = Text(bytes: Bytes) | Malformed

  /** The bytes of one group of two to four symbols. */
  function DecodeGroup(g: Bytes): Bytes
    requires 2 <= |g| <= 4 && forall i :: 0 <= i < |g| ==> InAlphabet(g[i])
  {
    var a, b := Value(g[0]), Value(g[1]);
    var c := if |g| > 2 then Value(g[2]) else 0;
    var d := if |g| > 3 then Value(g[3]) else 0;
    [(a * 4 + b / 16) as byte]
    + (if |g| > 2 then [(b % 16 * 16 + c / 4) as byte] else [])
    + (if |g| > 3 then [(c % 4 * 64 + d) as byte] else [])
  }

  function Decode(t: Bytes): Decoded {
    if t == [] then Text([])
    else
      var n := if |t| < 4 then |t| else 4;
      if n < 2 || exists i :: 0 <= i < n && !InAlphabet(t[i]) then Malformed
      else match Decode(t[n..])
        case Malformed => Malformed
        case Text(rest) => Text(DecodeGroup(t[..n]) + rest)
  }

  lemma SymbolInAlphabet(v: int)
    requires 0 <= v < 64
    ensures InAlphabet(Symbol(v)) && Value(Symbol(v)) == v
  {}

  lemma HighSextets(x: int, y: int, z: int)
    requires 0 <= x < 256 && 0 <= y < 256 && 0 <= z < 256
    ensures var v := x * 65536 + y * 256 + z; v / 262144 == x / 4 && v / 4096 == x * 16 + y / 16
  {}

  lemma LowSextets(x: int, y: int, z: int)
    requires 0 <= x < 256 && 0 <= y < 256 && 0 <= z < 256
    ensures var v := x * 65536 + y * 256 + z; v / 64 == x * 1024 + y * 4 + z / 64 && v % 64 == z % 64
  {}

  lemma MiddleSextets(x: int, y: int, q: int, r: int)
    requires 0 <= x < 256 && 0 <= y < 256 && 0 <= q < 16 && 0 <= r < 4
    ensures (x * 16 + q) % 64 == x % 4 * 16 + q && (x * 1024 + y * 4 + r) % 64 == y % 16 * 4 + r
  {}

  /** The sextets of a value, from its bytes. */
  lemma SextetsOf(x: int, y: int, z: int)
    requires 0 <= x < 256 && 0 <= y < 256 && 0 <= z < 256
    ensures var v := x * 65536 + y * 256 + z;
            && Sextet(v, 0) == x / 4 && Sextet(v, 1) == x % 4 * 16 + y / 16
            && Sextet(v, 2) == y % 16 * 4 + z / 64 && Sextet(v, 3) == z % 64
  {
    HighSextets(x, y, z);
    LowSextets(x, y, z);
    var q, r := y / 16, z / 64;
    MiddleSextets(x, y, q, r);
  }

  /** The bytes of a group, from its sextets. */
  lemma BytesOf(x: int, y: int, z: int)
    requires 0 <= x < 256 && 0 <= y < 256 && 0 <= z < 256
    ensures var b, c := x % 4 * 16 + y / 16, y % 16 * 4 + z / 64;
            x / 4 * 4 + b / 16 == x && b % 16 * 16 + c / 4 == y && c % 4 * 64 + z % 64 == z
  {}

  lemma GroupValues(g: Bytes, k: nat)
    requires 1 <= |g| <= 3 && k < |g| + 1
    ensures InAlphabet(EncodeGroup(g)[k]) && Value(EncodeGroup(g)[k]) == Sextet(Pack(g), k)
  {
    SymbolInAlphabet(Sextet(Pack(g), k));
  }

  /** The byte of a group at `k`, zero past its end. */
  function ByteAt(g: Bytes, k: nat): (x: int)
    ensures 0 <= x < 256
  {
    if k < |g| then g[k] as int else 0
  }

  lemma DecodesTo(t: Bytes, g: Bytes)
    requires 1 <= |g| <= 3 && |t| == |g| + 1 && forall i :: 0 <= i < |t| ==> InAlphabet(t[i])
    requires var x, y, z := ByteAt(g, 0), ByteAt(g, 1), ByteAt(g, 2);
             && Value(t[0]) == x / 4 && Value(t[1]) == x % 4 * 16 + y / 16
             && (|g| > 1 ==> Value(t[2]) == y % 16 * 4 + z / 64) && (|g| > 2 ==> Value(t[3]) == z % 64)
    ensures DecodeGroup(t) == g
  {
    BytesOf(ByteAt(g, 0), ByteAt(g, 1), ByteAt(g, 2));
    assert |DecodeGroup(t)| == |g|;
  }

  lemma GroupRoundTrip(g: Bytes)
    requires 1 <= |g| <= 3
    ensures forall i :: 0 <= i < |g| + 1 ==> InAlphabet(EncodeGroup(g)[i])
    ensures DecodeGroup(EncodeGroup(g)) == g
  {
    SextetsOf(ByteAt(g, 0), ByteAt(g, 1), ByteAt(g, 2));
    var t := EncodeGroup(g);
    forall k: nat | k < |g| + 1 ensures InAlphabet(t[k]) && Value(t[k]) == Sextet(Pack(g), k) {
      GroupValues(g, k);
    }
    DecodesTo(t, g);
  }

  /** The RFC's decoder restores every input, so no two inputs encode alike. */
  lemma {:induction false} RoundTrip(s: Bytes)
    ensures Decode(Encode(s)) == Text(s)
    decreases |s|
  {
    if s == [] {
    } else {
      var n := if |s| < 3 then |s| else 3;
      GroupRoundTrip(s[..n]);
      RoundTrip(s[n..]);
      var g, rest := EncodeGroup(s[..n]), Encode(s[n..]);
      if n < 3 { assert s[n..] == []; }
      assert (g + rest)[..|g|] == g && (g + rest)[|g|..] == rest;
      assert forall i :: 0 <= i < |g| ==> (g + rest)[i] == g[i];
      assert s[..n] + s[n..] == s;
    }
  }

  /** ceil(4n/3) symbols, all from the alphabet and none of them padding. */
  lemma {:induction false} EncodedLength(s: Bytes)
    ensures |Encode(s)| == (4 * |s| + 2) / 3
    ensures forall i :: 0 <= i < |Encode(s)| ==> InAlphabet(Encode(s)[i])
    decreases |s|
  {
    if s == [] {
    } else {
      var n := if |s| < 3 then |s| else 3;
      GroupRoundTrip(s[..n]);
      EncodedLength(s[n..]);
    }
  }

  /** A code verifier: 32 random bytes make 43 symbols. */
  lemma VerifierLength(random: Bytes)
    requires |random| == 32
    ensures |Encode(random)| == 43
  {
    EncodedLength(random);
  }
}
