/**
  Signed tokens: three base64url parts joined by dots, the last a keyed hash of the first two.
  The hash and the JSON reader and writer are arbitrary functions here. What is proved is what
  the token format itself owes: a signed token verifies until its expiry, and nothing verifies
  but a text that carries the hash of its own first two parts.
*/
module Jwt {
  import opened ByteText
  import opened Credentials
  import opened Search
  import B = Base64Url
  import M = MachineByte

  const DOT: byte := 46

  /**
    The foreign parts: the keyed hash under the bridge's secret, the base64url decoder, the JSON
    reader and writer of claims, the `alg` member of a header, and the `exp` member of claims.
  */
  datatype Codec<!C> = Codec(
    mac: Bytes -> Bytes, decode: Bytes -> Bytes,
    write: C -> Bytes, read: Bytes -> Option<C>,
    namesHs256: Bytes -> Option<bool>, exp: C -> Option<int>)

  datatype Outcome<+C> =
    | Verified(claims: C)
    | Malformed | BadSignature | BadHeader | UnsupportedAlg | BadPayload | Expired

  method ConstTimeEq(a: Bytes, b: Bytes) returns (same: bool)
    ensures same <==> a == b
  {
    if |a| != |b| { return false; }
    var r: bv8 := 0;
    for i := 0 to |a|
      invariant r == 0 <==> a[..i] == b[..i]
    {
      var x := a[i] as bv8 ^ b[i] as bv8;
      M.OrXor(r, a[i] as bv8, b[i] as bv8);
      CastKeepsByte(a[i]);
      CastKeepsByte(b[i]);
      assert a[..i + 1] == a[..i] + [a[i]] && b[..i + 1] == b[..i] + [b[i]];
      r := r | x;
    }
    assert a[..|a|] == a && b[..|b|] == b;
    return r == 0;
  }

  function Join(h: Bytes, p: Bytes, s: Bytes): Bytes { h + [DOT] + p + [DOT] + s }

  datatype Parts = Parts(header: Bytes, payload: Bytes, signature: Bytes)

  function Split(token: Bytes): Option<Parts> {
    var p1 := Find(token, DOT);
    if p1 == |token| then None
    else
      var rest := token[p1 + 1..];
      var p2 := Find(rest, DOT);
      if p2 == |rest| || Find(rest[p2 + 1..], DOT) < |rest[p2 + 1..]| then None
      else Some(Parts(token[..p1], rest[..p2], rest[p2 + 1..]))
  }

  function Tag<C>(k: Codec<C>, h: Bytes, p: Bytes): Bytes {
    B.Encode(k.mac(h + [DOT] + p))
  }

  function Sign<C>(k: Codec<C>, header: Bytes, claims: C): Bytes {
    var h, p := B.Encode(header), B.Encode(k.write(claims));
    Join(h, p, Tag(k, h, p))
  }

  function Verify<C>(k: Codec<C>, token: Bytes, now: int): Outcome<C> {
    match Split(token)
    case None => Malformed
    case Some(Parts(h, p, s)) =>
      if Tag(k, h, p) != s then BadSignature
      else match k.namesHs256(k.decode(h))
        case None => BadHeader
        case Some(false) => UnsupportedAlg
        case Some(true) =>
          match k.read(k.decode(p))
          case None => BadPayload
          case Some(c) =>
            match k.exp(c)
            case Some(e) => if now >= e then Expired else Verified(c)
            case None => Verified(c)
  }

  // ---- the format -----------------------------------------------------------------------------

  predicate DotFree(s: Bytes) { forall i :: 0 <= i < |s| ==> s[i] != DOT }

  lemma FirstDot(a: Bytes, b: Bytes)
    requires DotFree(a)
    ensures Find(a + [DOT] + b, DOT) == |a|
    ensures (a + [DOT] + b)[..|a|] == a && (a + [DOT] + b)[|a| + 1..] == b
  {
    var t := a + [DOT] + b;
    assert t[|a|] == DOT && forall i :: 0 <= i < |a| ==> t[i] == a[i];
    assert Find(t, DOT) == |a|;
  }

  lemma JoinNests(h: Bytes, p: Bytes, s: Bytes)
    ensures Join(h, p, s) == h + [DOT] + (p + [DOT] + s)
  {
  }

  lemma SplitOfJoin(h: Bytes, p: Bytes, s: Bytes)
    requires DotFree(h) && DotFree(p) && DotFree(s)
    ensures Split(Join(h, p, s)) == Some(Parts(h, p, s))
  {
    var rest := p + [DOT] + s;
    JoinNests(h, p, s);
    FirstDot(h, rest);
    FirstDot(p, s);
    assert Find(s, DOT) == |s|;
  }

  lemma CutAtDot(t: Bytes, n: nat)
    requires n < |t| && t[n] == DOT
    ensures t == t[..n] + [DOT] + t[n + 1..]
  {
    assert t == t[..n] + [t[n]] + t[n + 1..];
  }

  lemma SplitGives(token: Bytes, x: Parts)
    requires Split(token) == Some(x)
    ensures DotFree(x.header) && DotFree(x.payload) && DotFree(x.signature)
    ensures token == Join(x.header, x.payload, x.signature)
  {
    var p1 := Find(token, DOT);
    var rest := token[p1 + 1..];
    var p2 := Find(rest, DOT);
    CutAtDot(token, p1);
    CutAtDot(rest, p2);
    JoinOfCuts(token, token[..p1], rest, rest[..p2], rest[p2 + 1..]);
    CutIsDotFree(token);
    CutIsDotFree(rest);
    CutIsDotFree(rest[p2 + 1..]);
  }

  lemma JoinOfCuts(token: Bytes, h: Bytes, rest: Bytes, p: Bytes, s: Bytes)
    requires token == h + [DOT] + rest && rest == p + [DOT] + s
    ensures token == Join(h, p, s)
  {
    JoinNests(h, p, s);
  }

  lemma CutIsDotFree(t: Bytes)
    ensures DotFree(t[..Find(t, DOT)]) && (Find(t, DOT) == |t| ==> DotFree(t))
  {}

  /** Splitting accepts exactly three dot-free parts, and joining them gives the text back. */
  lemma SplitIff(token: Bytes, x: Parts)
    ensures Split(token) == Some(x) <==>
            && DotFree(x.header) && DotFree(x.payload) && DotFree(x.signature)
            && token == Join(x.header, x.payload, x.signature)
  {
    if Split(token) == Some(x) {
      SplitGives(token, x);
    } else if DotFree(x.header) && DotFree(x.payload) && DotFree(x.signature) {
      SplitOfJoin(x.header, x.payload, x.signature);
    }
  }

  lemma EncodedIsDotFree(s: Bytes)
    ensures DotFree(B.Encode(s))
  {
    B.EncodedLength(s);
  }

  // ---- what verifies ------------------------------------------------------------------------------

  /** What the foreign parts must keep for a token to be readable at all. */
  ghost predicate Faithful<C(!new)>(k: Codec<C>, header: Bytes) {
    && (forall s :: k.decode(B.Encode(s)) == s)
    && (forall c :: k.read(k.write(c)) == Some(c))
    && k.namesHs256(header) == Some(true)
  }

  predicate InTime<C>(k: Codec<C>, c: C, now: int) {
    match k.exp(c) case Some(e) => now < e case None => true
  }

  /** A signed token verifies to the claims that were signed, until its expiry and not from then on. */
  lemma SignedVerifies<C(!new)>(k: Codec<C>, header: Bytes, claims: C, now: int)
    requires Faithful(k, header)
    ensures Verify(k, Sign(k, header, claims), now) == if InTime(k, claims, now) then Verified(claims) else Expired
  {
    var h, p := B.Encode(header), B.Encode(k.write(claims));
    EncodedIsDotFree(header);
    EncodedIsDotFree(k.write(claims));
    EncodedIsDotFree(k.mac(h + [DOT] + p));
    SplitOfJoin(h, p, Tag(k, h, p));
  }

  /** The text is these two parts and their hash, the header names the algorithm, and `c` reads and is in time. */
  predicate Carries<C(==)>(k: Codec<C>, token: Bytes, h: Bytes, p: Bytes, c: C, now: int) {
    && DotFree(h) && DotFree(p) && token == Join(h, p, Tag(k, h, p))
    && k.namesHs256(k.decode(h)) == Some(true) && k.read(k.decode(p)) == Some(c) && InTime(k, c, now)
  }

  lemma VerifiedCarries<C>(k: Codec<C>, token: Bytes, now: int, c: C)
    requires Verify(k, token, now) == Verified(c)
    ensures Split(token).Some? && Carries(k, token, Split(token).value.header, Split(token).value.payload, c, now)
  {
    SplitGives(token, Split(token).value);
  }

  lemma CarriedVerifies<C>(k: Codec<C>, token: Bytes, h: Bytes, p: Bytes, c: C, now: int)
    requires Carries(k, token, h, p, c, now)
    ensures Verify(k, token, now) == Verified(c)
  {
    EncodedIsDotFree(k.mac(h + [DOT] + p));
    SplitOfJoin(h, p, Tag(k, h, p));
  }

  /**
    Exactly which texts verify: two dot-free parts followed by the hash of those two, under a
    header that names the algorithm, with a payload that reads as the claims and has not expired.
  */
  lemma VerifiesIff<C>(k: Codec<C>, token: Bytes, now: int, c: C)
    ensures Verify(k, token, now) == Verified(c) <==> exists h, p :: Carries(k, token, h, p, c, now)
  {
    if Verify(k, token, now) == Verified(c) { VerifiedCarries(k, token, now, c); }
    forall h, p | Carries(k, token, h, p, c, now) ensures Verify(k, token, now) == Verified(c) {
      CarriedVerifies(k, token, h, p, c, now);
    }
  }

  /** A signature cannot be altered: of all texts that share their first two parts, at most one verifies. */
  lemma OneSignatureEach<C>(k: Codec<C>, h: Bytes, p: Bytes, s: Bytes, s': Bytes, now: int, now': int)
    requires DotFree(h) && DotFree(p) && DotFree(s) && DotFree(s')
    requires Verify(k, Join(h, p, s), now).Verified? && Verify(k, Join(h, p, s'), now').Verified?
    ensures s == s'
  {
    SplitOfJoin(h, p, s);
    SplitOfJoin(h, p, s');
  }
}
