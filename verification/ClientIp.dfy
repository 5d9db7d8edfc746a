/**
  Which address a request is attributed to. The forwarding header is text that any client can
  send, so the resolver believes only what trusted proxies appended to it. Whether an address
  lies in a network is an arbitrary predicate `inCidr` here.
*/
module ClientIp {
  import opened Search

  /** The address family arithmetic behind a trusted entry: does this text name an address in it? */
  type Membership = (string, string) -> bool

  predicate IsBlank(c: char) { c == ' ' || c == '\t' }

  /** `s` without the blanks at its two ends. */
  function Trim(s: string): (r: string)
    ensures r == [] || (!IsBlank(r[0]) && !IsBlank(r[|r| - 1]))
    ensures |r| <= |s|
  {
    if s == [] then s
    else if IsBlank(s[0]) then Trim(s[1..])
    else if IsBlank(s[|s| - 1]) then Trim(s[..|s| - 1])
    else s
  }

  /** What reading up to the next comma until the end gives: nothing after a closing comma. */
  function Pieces(s: string): seq<string>
    decreases |s|
  {
    if s == [] then []
    else
      var n := Find(s, ',');
      if n == |s| then [s] else [s[..n]] + Pieces(s[n + 1..])
  }

  function TrimAll(pieces: seq<string>): (hops: seq<string>)
    ensures |hops| == |pieces|
  {
    if pieces == [] then [] else [Trim(pieces[0])] + TrimAll(pieces[1..])
  }

  function Hops(xff: string): seq<string> { TrimAll(Pieces(xff)) }

  predicate Trusted(ip: string, trusted: seq<string>, inCidr: Membership) {
    exists i :: 0 <= i < |trusted| && inCidr(ip, trusted[i])
  }

  predicate Foreign(hop: string, trusted: seq<string>, inCidr: Membership) {
    hop != [] && !Trusted(hop, trusted, inCidr)
  }

  predicate SomeForeign(hops: seq<string>, trusted: seq<string>, inCidr: Membership) {
    exists i :: 0 <= i < |hops| && Foreign(hops[i], trusted, inCidr)
  }

  /** The last foreign hop, else `peer`. */
  function LastForeign(hops: seq<string>, peer: string, trusted: seq<string>, inCidr: Membership): (r: string)
    ensures r == peer || (r in hops && Foreign(r, trusted, inCidr))
  {
    if hops == [] then peer
    else
      var last := hops[|hops| - 1];
      if Foreign(last, trusted, inCidr) then last else LastForeign(hops[..|hops| - 1], peer, trusted, inCidr)
  }

  /**
    With proxies configured, the answer is the socket peer or a hop that no trusted entry matches,
    and a peer that is no proxy is never believed about anyone else.
  */
  function Resolved(peer: string, xff: string, trusted: seq<string>, inCidr: Membership): (r: string)
    ensures trusted != [] ==> r == peer || (r in Hops(xff) && Foreign(r, trusted, inCidr))
    ensures trusted != [] && !Trusted(peer, trusted, inCidr) ==> r == peer
  {
    if trusted == [] then (if xff == [] then peer else Trim(xff[..Find(xff, ',')]))
    else if !Trusted(peer, trusted, inCidr) then peer
    else LastForeign(Hops(xff), peer, trusted, inCidr)
  }

  /** Text, a comma, text. */
  function Cat(a: string, b: string): string { a + [','] + b }

  /** Reading up to each next comma: a hop, then what follows its comma. */
  ghost predicate ReadsByComma(f: string -> seq<string>) {
    && f([]) == []
    && (forall a :: a != [] && ',' !in a ==> f(a) == [a])
    && (forall a, b :: ',' !in a ==> f(Cat(a, b)) == [a] + f(b))
  }

  // ---- the resolver ----------------------------------------------------------------------

  method TrimText(s: string) returns (r: string)
    ensures r == Trim(s)
  {
    var a, b := 0, |s|;
    while a < |s| && IsBlank(s[a])
      invariant a <= |s| && Trim(s[a..]) == Trim(s)
    {
      assert s[a..][1..] == s[a + 1..];
      a := a + 1;
    }
    if a == |s| { return []; }
    assert s[a..b] == s[a..];
    while IsBlank(s[b - 1])
      invariant a < b <= |s| && !IsBlank(s[a]) && Trim(s[a..b]) == Trim(s)
      decreases b
    {
      assert s[a..b][..b - a - 1] == s[a..b - 1];
      b := b - 1;
    }
    return s[a..b];
  }

  method IsTrustedProxy(ip: string, trusted: seq<string>, inCidr: Membership) returns (r: bool)
    ensures r <==> Trusted(ip, trusted, inCidr)
  {
    for i := 0 to |trusted|
      invariant forall j :: 0 <= j < i ==> !inCidr(ip, trusted[j])
    {
      if inCidr(ip, trusted[i]) { return true; }
    }
    return false;
  }

  method ResolveClientIp(peer: string, xff: string, trusted: seq<string>, inCidr: Membership) returns (r: string)
    ensures r == Resolved(peer, xff, trusted, inCidr)
  {
    if trusted == [] {
      if xff == [] { return peer; }
      r := TrimText(xff[..Find(xff, ',')]);
      return;
    }
    var known := IsTrustedProxy(peer, trusted, inCidr);
    if !known || xff == [] { return peer; }
    PiecesReadByComma();
    var hops := SplitHops(xff, Pieces);
    r := ScanBack(hops, peer, trusted, inCidr);
  }

  /** `f` is any way to read by commas; `Pieces` is the one there is. */
  method SplitHops(xff: string, ghost f: string -> seq<string>) returns (hops: seq<string>)
    requires ReadsByComma(f)
    ensures hops == TrimAll(f(xff))
  {
    hops := [];
    var rest := xff;
    while rest != []
      invariant hops + TrimAll(f(rest)) == TrimAll(f(xff))
      decreases |rest|
    {
      var n := Find(rest, ',');
      var hop := TrimText(rest[..n]);
      TakePiece(f, rest);
      rest := if n == |rest| then [] else rest[n + 1..];
      Regroup(hops, [hop], TrimAll(f(rest)));
      hops := hops + [hop];
    }
  }

  method ScanBack(hops: seq<string>, peer: string, trusted: seq<string>, inCidr: Membership) returns (r: string)
    ensures r == LastForeign(hops, peer, trusted, inCidr)
  {
    var i := |hops|;
    assert hops[..i] == hops;
    while i > 0
      invariant 0 <= i <= |hops|
      invariant LastForeign(hops[..i], peer, trusted, inCidr) == LastForeign(hops, peer, trusted, inCidr)
    {
      i := i - 1;
      assert hops[..i + 1][..i] == hops[..i] && hops[..i + 1][i] == hops[i];
      if hops[i] != [] {
        var proxy := IsTrustedProxy(hops[i], trusted, inCidr);
        if !proxy { return hops[i]; }
      }
    }
    return peer;
  }

  /** Trimming takes off exactly the blanks around a text. */
  lemma {:induction false} TrimPadded(before: string, h: string, after: string)
    requires forall i :: 0 <= i < |before| ==> IsBlank(before[i])
    requires forall i :: 0 <= i < |after| ==> IsBlank(after[i])
    requires h == [] || (!IsBlank(h[0]) && !IsBlank(h[|h| - 1]))
    ensures Trim(before + h + after) == h
    decreases |before| + |after|
  {
    var s := before + h + after;
    if before != [] {
      assert s[0] == before[0] && s[1..] == before[1..] + h + after;
      TrimPadded(before[1..], h, after);
    } else if after != [] {
      var last := |after| - 1;
      if h == [] {
        assert s == after && s[1..] == before + h + after[1..];
        TrimPadded(before, h, after[1..]);
      } else {
        assert s[0] == h[0] && s[|s| - 1] == after[last] && s[..|s| - 1] == before + h + after[..last];
        TrimPadded(before, h, after[..last]);
      }
    } else {
      assert s == h;
    }
  }

  lemma TakePiece(f: string -> seq<string>, s: string)
    requires ReadsByComma(f) && s != []
    ensures var n := Find(s, ',');
            TrimAll(f(s)) == [Trim(s[..n])] + TrimAll(f(if n == |s| then [] else s[n + 1..]))
  {
    var n := Find(s, ',');
    var first, rest := s[..n], f(if n == |s| then [] else s[n + 1..]);
    assert f(s) == [first] + rest by {
      if n == |s| {
        assert first == s && [first] + rest == [first];
      } else {
        CutAtComma(s, n, s);
        assert f(Cat(first, s[n + 1..])) == [first] + rest;
      }
    }
    assert ([first] + rest)[1..] == rest;
  }

  // ---- how header text falls into hops ------------------------------------------------------

  lemma CommaFreePrefix(a: string, b: string)
    requires ',' !in a
    ensures Find(a + [','] + b, ',') == |a| && Find(a, ',') == |a|
  {
    var s := a + [','] + b;
    assert s[|a|] == ',' && forall i :: 0 <= i < |a| ==> s[i] == a[i];
  }

  lemma FirstHop(a: string, b: string)
    requires ',' !in a
    ensures Pieces(Cat(a, b)) == [a] + Pieces(b) && (a != [] ==> Pieces(a) == [a])
  {
    CommaFreePrefix(a, b);
    var s := a + [','] + b;
    assert s[..|a|] == a && s[|a| + 1..] == b;
  }

  lemma PiecesReadByComma()
    ensures ReadsByComma(Pieces)
  {
    forall a: string | a != [] && ',' !in a ensures Pieces(a) == [a] {
      FirstHop(a, a);
    }
    forall a: string, b: string | ',' !in a ensures Pieces(Cat(a, b)) == [a] + Pieces(b) {
      FirstHop(a, b);
    }
  }

  lemma CutAtComma(t: string, n: nat, x: string)
    requires n < |t| && t[n] == ','
    ensures t + [','] + x == t[..n] + [','] + (t[n + 1..] + [','] + x)
    ensures t + [','] == t[..n] + [','] + (t[n + 1..] + [','])
    ensures t == t[..n] + [','] + t[n + 1..]
  {
    assert t == t[..n] + [t[n]] + t[n + 1..];
  }

  lemma LoneHop(f: string -> seq<string>, t: string, x: string)
    requires ReadsByComma(f) && ',' !in t
    ensures f(t + [','] + x) == [t] + f(x) && f(t + [',']) == [t]
  {
    var empty: string := [];
    assert Cat(t, empty) == t + [','] && Cat(t, x) == t + [','] + x;
    assert f(Cat(t, empty)) == [t] + f(empty) && f(Cat(t, x)) == [t] + f(x);
  }

  lemma FirstOfMany(f: string -> seq<string>, t: string, n: nat, x: string)
    requires ReadsByComma(f) && n < |t| && t[n] == ',' && ',' !in t[..n]
    ensures f(t) == [t[..n]] + f(t[n + 1..])
    ensures f(t + [',']) == [t[..n]] + f(t[n + 1..] + [','])
    ensures f(t + [','] + x) == [t[..n]] + f(t[n + 1..] + [','] + x)
  {
    CutAtComma(t, n, x);
    var a, b := t[..n], t[n + 1..];
    assert f(Cat(a, b)) == [a] + f(b) && f(Cat(a, b + [','])) == [a] + f(b + [',']);
    assert f(Cat(a, b + [','] + x)) == [a] + f(b + [','] + x);
  }

  /** A comma cuts a header in two: what stands before it and what stands after are independent. */
  lemma {:induction false} PiecesSplit(f: string -> seq<string>, t: string, x: string)
    requires ReadsByComma(f)
    ensures f(t + [','] + x) == f(t + [',']) + f(x)
    decreases |t|
  {
    var n := Find(t, ',');
    if n == |t| {
      LoneHop(f, t, x);
    } else {
      PiecesSplit(f, t[n + 1..], x);
      FirstOfMany(f, t, n, x);
      Regroup([t[..n]], f(t[n + 1..] + [',']), f(x));
    }
  }

  lemma Regroup(a: seq<string>, b: seq<string>, c: seq<string>)
    ensures a + (b + c) == (a + b) + c
  {
  }

  /** A closing comma adds no hop, or an empty one. */
  lemma {:induction false} ClosingComma(f: string -> seq<string>, t: string)
    requires ReadsByComma(f)
    ensures f(t + [',']) == f(t) || f(t + [',']) == f(t) + [[]]
    decreases |t|
  {
    var n := Find(t, ',');
    var empty: string := [];
    if n == |t| {
      LoneHop(f, t, empty);
    } else {
      ClosingComma(f, t[n + 1..]);
      FirstOfMany(f, t, n, empty);
      Regroup([t[..n]], f(t[n + 1..]), [empty]);
    }
  }

  lemma {:induction false} TrimAllConcat(a: seq<string>, b: seq<string>)
    ensures TrimAll(a + b) == TrimAll(a) + TrimAll(b)
  {
    if a == [] {
      assert a + b == b;
    } else {
      var first, p, q := [Trim(a[0])], TrimAll(a[1..]), TrimAll(b);
      TrimAllConcat(a[1..], b);
      assert (a + b)[1..] == a[1..] + b && (a + b)[0] == a[0];
      assert first + (p + q) == (first + p) + q;
    }
  }

  lemma HopsSplit(t: string, x: string)
    ensures Hops(t + [','] + x) == Hops(t + [',']) + Hops(x)
  {
    PiecesReadByComma();
    PiecesSplit(Pieces, t, x);
    TrimAllConcat(Pieces(t + [',']), Pieces(x));
  }

  /** Only the part after the last foreign hop's left neighbour matters. */
  lemma {:induction false} LastForeignOfConcat(
      a: seq<string>, b: seq<string>, peer: string, trusted: seq<string>, inCidr: Membership)
    ensures LastForeign(a + b, peer, trusted, inCidr) ==
            if SomeForeign(b, trusted, inCidr) then LastForeign(b, peer, trusted, inCidr)
            else LastForeign(a, peer, trusted, inCidr)
    decreases |b|
  {
    if b == [] {
      assert a + b == a;
    } else {
      var front, last := b[..|b| - 1], b[|b| - 1];
      assert (a + b)[..|a + b| - 1] == a + front && (a + b)[|a + b| - 1] == last;
      if !Foreign(last, trusted, inCidr) {
        LastForeignOfConcat(a, front, peer, trusted, inCidr);
        if i :| 0 <= i < |b| && Foreign(b[i], trusted, inCidr) { assert front[i] == b[i]; }
        if i :| 0 <= i < |front| && Foreign(front[i], trusted, inCidr) { assert b[i] == front[i]; }
      } else {
        assert Foreign(b[|b| - 1], trusted, inCidr);
      }
    }
  }

  lemma {:induction false} LastForeignFound(hops: seq<string>, peer: string, trusted: seq<string>, inCidr: Membership)
    ensures SomeForeign(hops, trusted, inCidr) ==> Foreign(LastForeign(hops, peer, trusted, inCidr), trusted, inCidr)
    ensures !SomeForeign(hops, trusted, inCidr) ==> LastForeign(hops, peer, trusted, inCidr) == peer
    decreases |hops|
  {
    if hops == [] {
    } else {
      var front, last := hops[..|hops| - 1], hops[|hops| - 1];
      LastForeignFound(front, peer, trusted, inCidr);
      if Foreign(last, trusted, inCidr) {
        assert Foreign(hops[|hops| - 1], trusted, inCidr);
      } else {
        if i :| 0 <= i < |hops| && Foreign(hops[i], trusted, inCidr) { assert front[i] == hops[i]; }
        if i :| 0 <= i < |front| && Foreign(front[i], trusted, inCidr) { assert hops[i] == front[i]; }
      }
    }
  }

  // ---- what a client can and cannot influence --------------------------------------------------

  /** Putting `t` and a comma in front of the header changes nothing. */
  predicate Inert(t: string, peer: string, xff: string, trusted: seq<string>, inCidr: Membership) {
    Resolved(peer, t + [','] + xff, trusted, inCidr) == Resolved(peer, xff, trusted, inCidr)
  }

  /**
    Whatever a client puts in front is without effect, exactly when the peer is no proxy, the
    header already holds a foreign hop, or no text whatever would count as one.
  */
  lemma PrependIsInertIff(peer: string, xff: string, trusted: seq<string>, inCidr: Membership)
    requires trusted != []
    ensures (forall t :: Inert(t, peer, xff, trusted, inCidr)) <==>
              || !Trusted(peer, trusted, inCidr)
              || SomeForeign(Hops(xff), trusted, inCidr)
              || (forall t :: !SomeForeign(Hops(t + [',']), trusted, inCidr))
  {
    forall t
      ensures Inert(t, peer, xff, trusted, inCidr) <==>
                !Trusted(peer, trusted, inCidr) || SomeForeign(Hops(xff), trusted, inCidr)
                || !SomeForeign(Hops(t + [',']), trusted, inCidr)
    {
      PrependEffect(t, peer, xff, trusted, inCidr);
    }
  }

  lemma PrependEffect(t: string, peer: string, xff: string, trusted: seq<string>, inCidr: Membership)
    requires trusted != []
    ensures Inert(t, peer, xff, trusted, inCidr) <==>
              !Trusted(peer, trusted, inCidr) || SomeForeign(Hops(xff), trusted, inCidr)
              || !SomeForeign(Hops(t + [',']), trusted, inCidr)
  {
    HopsSplit(t, xff);
    LastForeignOfConcat(Hops(t + [',']), Hops(xff), peer, trusted, inCidr);
    LastForeignFound(Hops(xff), peer, trusted, inCidr);
    LastForeignFound(Hops(t + [',']), peer, trusted, inCidr);
  }

  /** An address as a proxy writes it: one hop, no blank at either end. */
  predicate CleanHop(h: string) { h != [] && ',' !in h && !IsBlank(h[0]) && !IsBlank(h[|h| - 1]) }

  /** A proxy forwards a request and appends the address it received the request from. */
  function Append(xff: string, sender: string): string {
    if xff == [] then sender else xff + [','] + ([' '] + sender)
  }

  /** The header once `senders` have been appended in turn. */
  function Forwarded(xff: string, senders: seq<string>): string {
    if senders == [] then xff else Append(Forwarded(xff, senders[..|senders| - 1]), senders[|senders| - 1])
  }

  lemma AppendedHop(xff: string, sender: string)
    requires CleanHop(sender)
    ensures Hops(sender) == [sender] == Hops([' '] + sender)
    ensures exists front :: Hops(Append(xff, sender)) == front + [sender]
  {
    var spaced := [' '] + sender;
    CommaFreePrefix(sender, sender);
    CommaFreePrefix(spaced, sender);
    assert spaced[1..] == sender && Trim(spaced) == sender && Trim(sender) == sender;
    assert Pieces(spaced) == [spaced] && Pieces(sender) == [sender];
    assert Hops(spaced) == [sender] && Hops(sender) == [sender];
    if xff == [] {
      assert Hops(sender) == [] + [sender];
    } else {
      HopsSplit(xff, spaced);
      assert Hops(Append(xff, sender)) == Hops(xff + [',']) + [sender];
    }
  }

  /**
    The purpose of the whole walk: a client that is no proxy sends any header it likes to the first
    of a chain of trusted proxies, each of which appends its own sender. The bridge, connected to
    by the last proxy, attributes the request to that client.
  */
  lemma {:induction false} ChainRevealsClient(
      spoof: string, client: string, proxies: seq<string>, trusted: seq<string>, inCidr: Membership)
    requires proxies != [] && CleanHop(client) && !Trusted(client, trusted, inCidr)
    requires forall i :: 0 <= i < |proxies| ==> CleanHop(proxies[i]) && Trusted(proxies[i], trusted, inCidr)
    ensures var last := |proxies| - 1;
            Resolved(proxies[last], Forwarded(spoof, [client] + proxies[..last]), trusted, inCidr) == client
  {
    var last := |proxies| - 1;
    assert Trusted(proxies[last], trusted, inCidr);
    ChainHops(spoof, client, proxies[..last], proxies[last], trusted, inCidr);
  }

  lemma {:induction false} ChainHops(
      spoof: string, client: string, proxies: seq<string>, peer: string, trusted: seq<string>, inCidr: Membership)
    requires CleanHop(client) && !Trusted(client, trusted, inCidr)
    requires forall i :: 0 <= i < |proxies| ==> CleanHop(proxies[i]) && Trusted(proxies[i], trusted, inCidr)
    ensures LastForeign(Hops(Forwarded(spoof, [client] + proxies)), peer, trusted, inCidr) == client
    decreases |proxies|
  {
    var n := |proxies|;
    var senders := [client] + proxies;
    if n == 0 {
      assert senders[..0] == [] && senders[0] == client && |senders| == 1;
      assert Forwarded(spoof, senders[..0]) == spoof;
      AppendedHop(spoof, client);
      var front :| Hops(Append(spoof, client)) == front + [client];
      assert (front + [client])[|front|] == client;
    } else {
      var before := Forwarded(spoof, [client] + proxies[..n - 1]);
      ChainHops(spoof, client, proxies[..n - 1], peer, trusted, inCidr);
      assert senders[..n] == [client] + proxies[..n - 1] && senders[n] == proxies[n - 1];
      assert Forwarded(spoof, senders) == Append(before, proxies[n - 1]);
      LastForeignFound(Hops(before), peer, trusted, inCidr);
      AppendTrusted(before, proxies[n - 1], peer, trusted, inCidr);
    }
  }

  /** Appending a trusted proxy's own address does not change who the client is. */
  lemma AppendTrusted(xff: string, proxy: string, peer: string, trusted: seq<string>, inCidr: Membership)
    requires CleanHop(proxy) && Trusted(proxy, trusted, inCidr)
    ensures LastForeign(Hops(Append(xff, proxy)), peer, trusted, inCidr)
         == LastForeign(Hops(xff), peer, trusted, inCidr)
  {
    AppendedHop(xff, proxy);
    if xff == [] {
      assert [proxy][0] == proxy;
      LastForeignFound([proxy], peer, trusted, inCidr);
      LastForeignFound(Hops(xff), peer, trusted, inCidr);
    } else {
      var spaced := [' '] + proxy;
      HopsSplit(xff, spaced);
      LastForeignOfConcat(Hops(xff + [',']), [proxy], peer, trusted, inCidr);
      PiecesReadByComma();
      ClosingComma(Pieces, xff);
      var empty: string := [];
      TrimAllConcat(Pieces(xff), [empty]);
      LastForeignOfConcat(Hops(xff), [empty], peer, trusted, inCidr);
      assert [empty][1..] == [] && TrimAll([empty]) == [empty];
    }
  }

  /** In development mode the first hop is believed, and nothing after the first comma matters. */
  lemma DevelopmentTakesFirst(peer: string, t: string, x: string, inCidr: Membership)
    requires ',' !in t
    ensures Resolved(peer, t + [','] + x, [], inCidr) == Trim(t)
    ensures Resolved(peer, t, [], inCidr) == if t == [] then peer else Trim(t)
  {
    CommaFreePrefix(t, x);
    assert (t + [','] + x)[..|t|] == t && t[..|t|] == t;
  }
}
