/**
  The reserved sign-in label and the tenant a host name stands for. One label is shared by every
  tenant's sign-in page, so no host that carries it may ever name a tenant; the setter guards what
  may become that label, and the two resolvers read it.
*/
module LoginLabel {
  import opened Search

  function LowerChar(c: char): char {
    if 'A' <= c <= 'Z' then c - 'A' + 'a' else c
  }

  function Lowered(s: string): (r: string)
    ensures |r| == |s| && forall i :: 0 <= i < |s| ==> r[i] == LowerChar(s[i])
  {
    seq(|s|, i requires 0 <= i < |s| => LowerChar(s[i]))
  }

  /** The character of `b` in either case of its letter, `b` itself being in lower case. */
  predicate CaseOf(a: char, b: char) { a == b || ('A' <= a <= 'Z' && a as int + 32 == b as int) }

  /** `a` spells `b`, letters in any case. */
  predicate Spells(a: string, b: string) { |a| == |b| && forall i :: 0 <= i < |a| ==> CaseOf(a[i], b[i]) }

  predicate NoCapitals(s: string) { forall i :: 0 <= i < |s| ==> !('A' <= s[i] <= 'Z') }

  /** Lower-casing compares letters in any case. */
  lemma LoweredIff(a: string, b: string)
    requires NoCapitals(b)
    ensures Lowered(a) == b <==> Spells(a, b)
  {}

  predicate IsDigit(c: char) { '0' <= c <= '9' }
  predicate IsLabelChar(c: char) { 'a' <= c <= 'z' || IsDigit(c) }
  predicate AllDigits(s: string) { forall i :: 0 <= i < |s| ==> IsDigit(s[i]) }
  predicate Bare(s: string) { forall i :: 0 <= i < |s| ==> IsLabelChar(s[i]) }

  /** What the configured label always is. */
  predicate IsLabel(s: string) { s != [] && |s| <= 63 && Bare(s) && !AllDigits(s) }

  datatype Refusal = TooLong | Hyphenated | NotBare | Numeric
  datatype Answer = Accepted(name: string) | Refused(why: Refusal)

  /** What setting the label to `s` comes to. */
  function Judge(s: string): (a: Answer)
    ensures a.Accepted? ==> IsLabel(a.name)
    ensures a.Accepted? <==> s == [] || IsLabel(Lowered(s))
  {
    var l := Lowered(s);
    if s == [] then LabelIsSound(); Accepted("login")
    else if |l| > 63 then Refused(TooLong)
    else if '-' in l then Refused(Hyphenated)
    else if !Bare(l) then Refused(NotBare)
    else if AllDigits(l) then Refused(Numeric)
    else Accepted(l)
  }

  /** Each refusal has its own cause, the first that applies. */
  lemma RefusedIff(s: string)
    ensures Judge(s) == Refused(TooLong) <==> |s| > 63
    ensures Judge(s) == Refused(Hyphenated) <==> |s| <= 63 && '-' in s
    ensures Judge(s) == Refused(NotBare) <==> |s| <= 63 && '-' !in s && !Bare(Lowered(s))
    ensures Judge(s) == Refused(Numeric) <==> 0 < |s| <= 63 && AllDigits(s)
  {
    var l := Lowered(s);
    assert '-' in s <==> '-' in l by {
      if i :| 0 <= i < |s| && s[i] == '-' { assert l[i] == '-'; }
      if i :| 0 <= i < |l| && l[i] == '-' { assert s[i] == '-'; }
    }
    assert AllDigits(s) <==> AllDigits(l) by {
      assert forall i :: 0 <= i < |s| ==> (IsDigit(s[i]) <==> IsDigit(l[i]));
    }
    assert AllDigits(l) ==> Bare(l) && forall i :: 0 <= i < |l| ==> l[i] != '-';
  }

  lemma LabelIsSound()
    ensures IsLabel("login")
  {
    assert !IsDigit("login"[0]);
  }

  predicate Reserved(s: string, signIn: string) {
    Lowered(s) == "www" || Lowered(s) == signIn
  }

  /** The tenant a host name stands for, or nothing. */
  function ExtractTenant(hostname: string, signIn: string): string {
    var host := hostname[..Find(hostname, ':')];
    var dot := Find(host, '.');
    if dot == |host| then []
    else
      var lead := host[..dot];
      var sub := lead[..Find(lead, '-')];
      if sub == [] || Reserved(sub, signIn) || AllDigits(sub) then [] else sub
  }

  function ResolveTenant(header: string, host: string, signIn: string): (t: string)
    ensures t != []
  {
    if header != [] && !Reserved(header, signIn) then header
    else
      var t := ExtractTenant(host, signIn);
      if t == [] then "default" else t
  }

  /** The process-wide setting. */
  class Setting {
    var signIn: string

    predicate Valid()
      reads this
    {
      IsLabel(signIn)
    }

    constructor ()
      ensures Valid() && signIn == "login"
    {
      LabelIsSound();
      signIn := "login";
    }

    method SetLoginLabel(s: string) returns (r: Answer)
      requires Valid()
      modifies this
      ensures Valid() && r == Judge(s) && signIn == After(old(signIn), s)
    {
      if s == [] {
        LabelIsSound();
        signIn := "login";
        return Accepted("login");
      }
      var l := Lowered(s);
      if |l| > 63 { return Refused(TooLong); }
      if '-' in l { return Refused(Hyphenated); }
      if !Bare(l) { return Refused(NotBare); }
      if AllDigits(l) { return Refused(Numeric); }
      signIn := l;
      return Accepted(l);
    }
  }

  function After(signIn: string, s: string): string {
    match Judge(s) case Accepted(l) => l case Refused(_) => signIn
  }

  /** The label after a sequence of calls. */
  function AfterAll(signIn: string, calls: seq<string>): string {
    if calls == [] then signIn else After(AfterAll(signIn, calls[..|calls| - 1]), calls[|calls| - 1])
  }

  predicate Delimits(c: char) { c == '.' || c == '-' || c == ':' }

  /** The leading segment of a host name: what stands before its first dot, hyphen or colon. */
  function Segment(host: string): (seg: string)
    ensures |seg| <= |host| && (|seg| < |host| ==> Delimits(host[|seg|]))
    ensures forall i :: 0 <= i < |seg| ==> seg[i] == host[i] && !Delimits(host[i])
  {
    if host == [] || Delimits(host[0]) then [] else [host[0]] + Segment(host[1..])
  }

  /** Does a dot come before any port? */
  predicate HasDomain(host: string) {
    exists i :: 0 <= i < |host| && host[i] == '.' && forall j :: 0 <= j < i ==> host[j] != ':'
  }

  predicate Nameable(seg: string, signIn: string) {
    seg != [] && !AllDigits(seg) && !Reserved(seg, signIn)
  }

  // ---- every sequence of calls -----------------------------------------------------------

  /** However the label is set and reset, it stays a lower-case name with a letter in it. */
  lemma {:induction false} LabelStaysSound(signIn: string, calls: seq<string>)
    requires IsLabel(signIn)
    ensures IsLabel(AfterAll(signIn, calls))
    decreases |calls|
  {
    if calls == [] {
    } else {
      LabelStaysSound(signIn, calls[..|calls| - 1]);
    }
  }

  /** The label is the last accepted call's, in lower case, and refused calls leave no trace. */
  lemma {:induction false} LastAcceptedWins(signIn: string, calls: seq<string>, k: nat)
    requires k < |calls| && Judge(calls[k]).Accepted?
    requires forall j :: k < j < |calls| ==> Judge(calls[j]).Refused?
    ensures AfterAll(signIn, calls) == if calls[k] == [] then "login" else Lowered(calls[k])
    decreases |calls|
  {
    if k == |calls| - 1 {
    } else {
      LastAcceptedWins(signIn, calls[..|calls| - 1], k);
    }
  }

  // ---- host names --------------------------------------------------------------------------

  /** Cutting at the port, then the domain, then the suffix leaves the leading segment. */
  lemma CutsGiveSegment(host: string, h: string, dot: nat)
    requires h == host[..Find(host, ':')] && dot == Find(h, '.') < |h|
    ensures HasDomain(host) && h[..dot][..Find(h[..dot], '-')] == Segment(host)
  {
    var lead := h[..dot];
    var sub := lead[..Find(lead, '-')];
    assert forall i :: 0 <= i < |h| ==> h[i] == host[i];
    assert forall i :: 0 <= i < dot ==> lead[i] == h[i];
    assert forall i :: 0 <= i < |sub| ==> sub[i] == lead[i];
    assert Delimits(host[|sub|]);
    SegmentIs(host, sub);
  }

  lemma NoDotNoDomain(host: string, h: string)
    requires h == host[..Find(host, ':')] && Find(h, '.') == |h|
    ensures !HasDomain(host)
  {
    assert forall i :: 0 <= i < |h| ==> h[i] == host[i];
  }

  /** The extracted tenant in one piece: the leading segment, if it can name a tenant and a domain follows. */
  lemma ExtractTenantIff(host: string, signIn: string)
    ensures ExtractTenant(host, signIn) ==
            if HasDomain(host) && Nameable(Segment(host), signIn) then Segment(host) else []
  {
    var h := host[..Find(host, ':')];
    var dot := Find(h, '.');
    if dot < |h| { CutsGiveSegment(host, h, dot); } else { NoDotNoDomain(host, h); }
  }

  lemma SegmentIs(host: string, seg: string)
    requires |seg| <= |host| && (|seg| < |host| ==> Delimits(host[|seg|]))
    requires forall i :: 0 <= i < |seg| ==> seg[i] == host[i] && !Delimits(host[i])
    ensures Segment(host) == seg
  {
    assert |Segment(host)| == |seg|;
  }

  /**
    The sign-in host is never a tenant, after any calls: a host that opens with the label, in any
    case, and goes on with a suffix, a domain, a port or nothing, names none.
  */
  lemma SignInHostHasNoTenant(calls: seq<string>, name: string, rest: string, header: string)
    requires Spells(name, AfterAll("login", calls)) && (rest == [] || Delimits(rest[0]))
    ensures var signIn := AfterAll("login", calls);
            && ExtractTenant(name + rest, signIn) == []
            && (header == [] || Reserved(header, signIn) ==> ResolveTenant(header, name + rest, signIn) == "default")
  {
    var signIn, host := AfterAll("login", calls), name + rest;
    LabelIsSound();
    LabelStaysSound("login", calls);
    LoweredIff(name, signIn);
    forall i | 0 <= i < |name| ensures name[i] == host[i] && !Delimits(host[i]) {
      assert IsLabelChar(signIn[i]) && signIn[i] == LowerChar(name[i]);
    }
    SegmentIs(host, name);
    ExtractTenantIff(host, signIn);
  }

  /** Reserved names are the sign-in label and "www", in any case. */
  lemma ReservedIff(s: string, signIn: string)
    requires IsLabel(signIn)
    ensures Reserved(s, signIn) <==> Spells(s, "www") || Spells(s, signIn)
  {
    LoweredIff(s, "www");
    LoweredIff(s, signIn);
  }

  /**
    The resolved tenant, in one piece: a header that is there and not reserved, else the leading segment
    of a host that has a domain and can name a tenant, else the default.
  */
  lemma ResolvedTenantIs(header: string, host: string, signIn: string)
    ensures ResolveTenant(header, host, signIn) ==
            if header != [] && !Reserved(header, signIn) then header
            else if HasDomain(host) && Nameable(Segment(host), signIn) then Segment(host)
            else "default"
  {
    ExtractTenantIff(host, signIn);
  }

  /** Where the resolver's answer can be a reserved name, exactly: the fallback, under a label of that very name. */
  lemma ResolvedReservedIff(header: string, host: string, signIn: string)
    ensures Reserved(ResolveTenant(header, host, signIn), signIn) <==>
              && signIn == "default"
              && (header == [] || Reserved(header, signIn))
              && !(HasDomain(host) && Nameable(Segment(host), signIn))
  {
    ExtractTenantIff(host, signIn);
    assert Lowered("default") == "default";
    assert "default"[0] != "www"[0];
  }

  lemma DefaultIsAccepted()
    ensures Judge("default") == Accepted("default")
  {
    assert Lowered("default") == "default" && !IsDigit("default"[0]);
  }

  /** Such a label is accepted, and then every bare host resolves to it. */
  lemma DefaultLabelIsResolved(host: string)
    requires '.' !in host
    ensures AfterAll("login", ["default"]) == "default" && Reserved(ResolveTenant("", host, "default"), "default")
  {
    DefaultIsAccepted();
    LastAcceptedWins("login", ["default"], 0);
    assert !HasDomain(host);
    ResolvedReservedIff("", host, "default");
  }

  /**
    Why the setter refuses a hyphen: a label `seg-rest` would reserve nothing of its own, since its
    host would name the tenant `seg`.
  */
  lemma HyphenatedLabelNamesTenant(seg: string, rest: string, domain: string)
    requires Bare(seg) && seg != [] && !AllDigits(seg) && seg != "www" && ':' !in rest
    ensures var signIn := seg + ['-'] + rest;
            Judge(signIn).Refused? && ExtractTenant(signIn + ['.'] + domain, signIn) == seg
  {
    var signIn := seg + ['-'] + rest;
    var host := signIn + ['.'] + domain;
    assert signIn[|seg|] == '-' && Lowered(signIn)[|seg|] == '-';
    assert host[|signIn|] == '.' && host[..|signIn|] == signIn;
    assert host[..|seg|] == seg && host[|seg|] == '-';
    SegmentIs(host, seg);
    BareIsLower(seg);
    assert |signIn| != |seg|;
    ExtractTenantIff(host, signIn);
  }

  lemma BareIsLower(s: string)
    requires Bare(s)
    ensures Lowered(s) == s
  {
  }
}
