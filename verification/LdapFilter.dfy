/**
  Building a directory search filter from a login name. The name is escaped byte by byte, the
  filter text is assembled around it, and a parser written from the grammar in section 3 of
  RFC 4515 reads back exactly the intended filter, whatever the name contains.
*/
module LdapFilter {
  import opened ByteText

  const LPAREN: byte := 40
  const RPAREN: byte := 41
  const STAR: byte := 42
  const BACKSLASH: byte := 92
  const EQUALS: byte := 61
  const NUL: byte := 0

  /** uid, mail, cn, objectClass and groupOfNames in ASCII. */
  const UID: Bytes := [117, 105, 100]
  const MAIL: Bytes := [109, 97, 105, 108]
  const CN: Bytes := [99, 110]
  const OBJECT_CLASS: Bytes := [111, 98, 106, 101, 99, 116, 67, 108, 97, 115, 115]
  const GROUP_OF_NAMES: Bytes := [103, 114, 111, 117, 112, 79, 102, 78, 97, 109, 101, 115]

  // ---- escaping, as the authenticator does it -----------------------------------------

  function EscapeByte(b: byte): Bytes {
    if b == STAR then [BACKSLASH, 50, 97]
    else if b == LPAREN then [BACKSLASH, 50, 56]
    else if b == RPAREN then [BACKSLASH, 50, 57]
    else if b == BACKSLASH then [BACKSLASH, 53, 99]
    else if b == NUL then [BACKSLASH, 48, 48]
    else [b]
  }

  function Escape(s: Bytes): Bytes {
    if s == [] then [] else EscapeByte(s[0]) + Escape(s[1..])
  }

  method EscapeLdapFilterValue(s: Bytes) returns (out: Bytes)
    ensures out == Escape(s)
  {
    out := [];
    for i := 0 to |s|
      invariant out + Escape(s[i..]) == Escape(s)
    {
      assert s[i..][1..] == s[i + 1..];
      assert out + (EscapeByte(s[i]) + Escape(s[i + 1..])) == (out + EscapeByte(s[i])) + Escape(s[i + 1..]);
      if s[i] == STAR { out := out + [BACKSLASH, 50, 97]; }
      else if s[i] == LPAREN { out := out + [BACKSLASH, 50, 56]; }
      else if s[i] == RPAREN { out := out + [BACKSLASH, 50, 57]; }
      else if s[i] == BACKSLASH { out := out + [BACKSLASH, 53, 99]; }
      else if s[i] == NUL { out := out + [BACKSLASH, 48, 48]; }
      else { out := out + [s[i]]; }
    }
  }

  /** The three filter texts the authenticator assembles around an escaped name or prefix. */
  function LoginFilter(name: Bytes): Bytes {     // (|(uid=NAME)(mail=NAME))
    var e := Escape(name);
    [LPAREN, 124] + ([LPAREN] + UID + [EQUALS] + e + [RPAREN]) + ([LPAREN] + MAIL + [EQUALS] + e + [RPAREN]) + [RPAREN]
  }

  function UserFilter(attr: Bytes, name: Bytes): Bytes {     // (uid=NAME) or (mail=NAME)
    [LPAREN] + attr + [EQUALS] + Escape(name) + [RPAREN]
  }

  /** (&(KIND=CLASS)(ATTR=PREFIX*)) */
  function PrefixFilter(kind: Bytes, class_: Bytes, attr: Bytes, prefix: Bytes): Bytes {
    [LPAREN, 38] + ([LPAREN] + kind + [EQUALS] + class_ + [RPAREN])
    + ([LPAREN] + attr + [EQUALS] + Escape(prefix) + [STAR, RPAREN]) + [RPAREN]
  }

  function RoleSearchFilter(prefix: Bytes): Bytes {
    PrefixFilter(OBJECT_CLASS, GROUP_OF_NAMES, CN, prefix)
  }

  // ---- the grammar ---------------------------------------------------------------------

  datatype Match = Equality | Approx | AtLeast | AtMost

  /** An item's value is its parts between asterisks: one part is a plain comparison. */
  datatype Filter =
    | And(filters: seq<Filter>)
    | Or(filters: seq<Filter>)
    | Not(filter: Filter)
    | Item(attr: Bytes, op: Match, parts: seq<Bytes>)

  datatype Parse<+T> = Got(value: T, rest: Bytes) | Fail

  predicate AttrChar(b: byte) { IsAlnum(b) || b == 45 || b == 46 || b == 59 }

  /** The length of the attribute description `t` starts with. */
  function AttrLength(t: Bytes): (n: nat)
    ensures n <= |t|
  {
    if t == [] || !AttrChar(t[0]) then 0 else 1 + AttrLength(t[1..])
  }

  /** A value up to, not including, the closing parenthesis. */
  function ParseParts(t: Bytes): (p: Parse<seq<Bytes>>)
    ensures p.Got? ==> |p.value| >= 1 && |p.rest| <= |t|
  {
    if t == [] || t[0] == RPAREN then Got([[]], t)
    else if t[0] == LPAREN || t[0] == NUL then Fail
    else if t[0] == STAR then
      match ParseParts(t[1..]) case Fail => Fail case Got(ps, rest) => Got([[]] + ps, rest)
    else if t[0] == BACKSLASH then
      if |t| < 3 || HexValue(t[1]) < 0 || HexValue(t[2]) < 0 then Fail
      else Prepend((16 * HexValue(t[1]) + HexValue(t[2])) as byte, ParseParts(t[3..]))
    else Prepend(t[0], ParseParts(t[1..]))
  }

  function Prepend(b: byte, p: Parse<seq<Bytes>>): (q: Parse<seq<Bytes>>)
    requires p.Got? ==> |p.value| >= 1
    ensures q.Got? <==> p.Got?
    ensures q.Got? ==> |q.value| == |p.value| && q.rest == p.rest
  {
    if p.Fail? then Fail else Got([[b] + p.value[0]] + p.value[1..], p.rest)
  }

  /** The comparison that `r`, what follows an attribute, begins with. */
  function OpOf(r: Bytes): Match {
    if r == [] then Equality else if r[0] == 126 then Approx else if r[0] == 62 then AtLeast
    else if r[0] == 60 then AtMost else Equality
  }

  /** `r` from its equals sign on. */
  function FromEquals(r: Bytes): Bytes {
    if OpOf(r).Equality? then r else r[1..]
  }

  function ParseItem(t: Bytes): (p: Parse<Filter>)
    ensures p.Got? ==> |p.rest| < |t|
  {
    var n := AttrLength(t);
    var op, v := OpOf(t[n..]), FromEquals(t[n..]);
    if n == 0 || v == [] || v[0] != EQUALS then Fail
    else match ParseParts(v[1..])
      case Fail => Fail
      case Got(parts, rest) => if !op.Equality? && |parts| > 1 then Fail else Got(Item(t[..n], op, parts), rest)
  }

  /** What stands between a filter's parentheses. */
  function ParseComp(t: Bytes): (p: Parse<Filter>)
    ensures p.Got? ==> |p.rest| < |t|
    decreases |t|, 2
  {
    if t == [] then Fail
    else if t[0] == 38 then (match ParseList(t[1..]) case Fail => Fail case Got(fs, r) => Got(And(fs), r))
    else if t[0] == 124 then (match ParseList(t[1..]) case Fail => Fail case Got(fs, r) => Got(Or(fs), r))
    else if t[0] == 33 then (match ParseFilter(t[1..]) case Fail => Fail case Got(f, r) => Got(Not(f), r))
    else ParseItem(t)
  }

  function ParseFilter(t: Bytes): (p: Parse<Filter>)
    ensures p.Got? ==> |p.rest| < |t|
    decreases |t|, 0
  {
    if t == [] || t[0] != LPAREN then Fail
    else match ParseComp(t[1..])
      case Fail => Fail
      case Got(f, r) => if r == [] || r[0] != RPAREN then Fail else Got(f, r[1..])
  }

  /** One filter or more. */
  function ParseList(t: Bytes): (p: Parse<seq<Filter>>)
    ensures p.Got? ==> |p.rest| < |t|
    decreases |t|, 1
  {
    match ParseFilter(t)
    case Fail => Fail
    case Got(f, r) =>
      if r == [] || r[0] != LPAREN then Got([f], r)
      else match ParseList(r) case Fail => Fail case Got(fs, r') => Got([f] + fs, r')
  }

  function Read(t: Bytes): Parse<Filter> {
    match ParseFilter(t) case Fail => Fail case Got(f, r) => if r == [] then Got(f, r) else Fail
  }

  // ---- writing a filter down, escaped -------------------------------------------------------

  function OpText(op: Match): Bytes {
    match op
    case Equality => [EQUALS]
    case Approx => [126, EQUALS]
    case AtLeast => [62, EQUALS]
    case AtMost => [60, EQUALS]
  }

  function PartsText(parts: seq<Bytes>): Bytes
    requires parts != []
  {
    if |parts| == 1 then Escape(parts[0]) else Escape(parts[0]) + ([STAR] + PartsText(parts[1..]))
  }

  predicate IsAttr(attr: Bytes) {
    attr != [] && forall i :: 0 <= i < |attr| ==> AttrChar(attr[i])
  }

  predicate WellFormed(f: Filter) {
    match f
    case And(fs) => fs != [] && forall g :: g in fs ==> WellFormed(g)
    case Or(fs) => fs != [] && forall g :: g in fs ==> WellFormed(g)
    case Not(g) => WellFormed(g)
    case Item(attr, op, parts) =>
      && IsAttr(attr)
      && parts != [] && (!op.Equality? ==> |parts| == 1)
  }

  function CompText(f: Filter): (t: Bytes)
    requires WellFormed(f)
    decreases f, 0
  {
    match f
    case And(fs) => [38] + ListText(fs)
    case Or(fs) => [124] + ListText(fs)
    case Not(g) => [33] + Text(g)
    case Item(attr, op, parts) => attr + (OpText(op) + PartsText(parts))
  }

  function Text(f: Filter): (t: Bytes)
    requires WellFormed(f)
    ensures t != [] && t[0] == LPAREN
    decreases f, 1
  {
    [LPAREN] + (CompText(f) + [RPAREN])
  }

  function ListText(fs: seq<Filter>): Bytes
    requires forall g :: g in fs ==> WellFormed(g)
    decreases fs, 2
  {
    if fs == [] then [] else Text(fs[0]) + ListText(fs[1..])
  }

  // ---- what is written is what is read --------------------------------------------------------

  function PrependAll(v: Bytes, p: Parse<seq<Bytes>>): Parse<seq<Bytes>>
    requires p.Got? ==> |p.value| >= 1
  {
    if p.Fail? then Fail else Got([v + p.value[0]] + p.value[1..], p.rest)
  }

  lemma EscapedByteReads(b: byte, t: Bytes)
    ensures ParseParts(EscapeByte(b) + t) == Prepend(b, ParseParts(t))
  {
    var e := EscapeByte(b);
    assert (e + t)[|e|..] == t;
    if |e| == 3 { assert (e + t)[0] == e[0] && (e + t)[1] == e[1] && (e + t)[2] == e[2]; }
  }

  lemma PrependAgain(b: byte, v: Bytes, p: Parse<seq<Bytes>>)
    requires p.Got? ==> |p.value| >= 1
    ensures Prepend(b, PrependAll(v, p)) == PrependAll([b] + v, p)
  {
    if p.Got? {
      assert [b] + (v + p.value[0]) == [b] + v + p.value[0];
      assert ([v + p.value[0]] + p.value[1..])[1..] == p.value[1..];
    }
  }

  lemma PrependNone(p: Parse<seq<Bytes>>)
    requires p.Got? ==> |p.value| >= 1
    ensures PrependAll([], p) == p
  {
    if p.Got? {
      var ps := p.value;
      assert [] + ps[0] == ps[0] && [ps[0]] + ps[1..] == ps;
    }
  }

  lemma EscapeSplits(v: Bytes, t: Bytes)
    requires v != []
    ensures Escape(v) + t == EscapeByte(v[0]) + (Escape(v[1..]) + t)
  {
    Associate(EscapeByte(v[0]), Escape(v[1..]), t);
  }

  /** The grammar's unescape undoes the authenticator's escape, whatever follows. */
  lemma {:induction false} EscapedReads(v: Bytes, t: Bytes)
    ensures ParseParts(Escape(v) + t) == PrependAll(v, ParseParts(t))
  {
    if v == [] {
      assert Escape(v) + t == t;
      PrependNone(ParseParts(t));
    } else {
      EscapedReads(v[1..], t);
      EscapeSplits(v, t);
      EscapedByteReads(v[0], Escape(v[1..]) + t);
      PrependAgain(v[0], v[1..], ParseParts(t));
      assert [v[0]] + v[1..] == v;
    }
  }

  /** An asterisk opens a new part. */
  lemma StarReads(t: Bytes, u: Bytes, ps: seq<Bytes>, rest: Bytes, none: Bytes)
    requires t != [] && t[0] == STAR && t[1..] == u && ParseParts(u) == Got(ps, rest) && none == []
    ensures ParseParts(t) == Got([none] + ps, rest)
  {}

  lemma PrependFirst(v: Bytes, none: Bytes, ps: seq<Bytes>, rest: Bytes)
    requires none == []
    ensures PrependAll(v, Got([none] + ps, rest)) == Got([v] + ps, rest)
  {
    assert ([none] + ps)[1..] == ps && v + none == v;
  }

  /** A value in front of an asterisk, or of the end, is a part of its own. */
  lemma FirstPartReads(v: Bytes, t: Bytes, none: Bytes, ps: seq<Bytes>, rest: Bytes)
    requires none == [] && ParseParts(t) == Got([none] + ps, rest)
    ensures ParseParts(Escape(v) + t) == Got([v] + ps, rest)
  {
    EscapedReads(v, t);
    PrependFirst(v, none, ps, rest);
  }

  lemma EndReads(rest: Bytes, none: Bytes)
    requires rest != [] && rest[0] == RPAREN && none == []
    ensures ParseParts(rest) == Got([none], rest)
  {}

  lemma PartsTextSplits(parts: seq<Bytes>, rest: Bytes)
    requires |parts| > 1
    ensures PartsText(parts) + rest == Escape(parts[0]) + ([STAR] + (PartsText(parts[1..]) + rest))
  {
    Regroup(Escape(parts[0]), [STAR], PartsText(parts[1..]), rest);
  }

  lemma {:induction false} PartsRead(parts: seq<Bytes>, rest: Bytes)
    requires parts != [] && rest != [] && rest[0] == RPAREN
    ensures ParseParts(PartsText(parts) + rest) == Got(parts, rest)
    decreases |parts|
  {
    var none: Bytes := [];
    var more: seq<Bytes> := [];
    if |parts| == 1 {
      EndReads(rest, none);
      assert [none] + more == [none] && [parts[0]] + more == parts;
      FirstPartReads(parts[0], rest, none, more, rest);
    } else {
      var u := PartsText(parts[1..]) + rest;
      PartsRead(parts[1..], rest);
      PartsTextSplits(parts, rest);
      StarReads([STAR] + u, u, parts[1..], rest, none);
      FirstPartReads(parts[0], [STAR] + u, none, parts[1..], rest);
      assert [parts[0]] + parts[1..] == parts;
    }
  }

  lemma {:induction false} AttrReads(attr: Bytes, rest: Bytes)
    requires (forall i :: 0 <= i < |attr| ==> AttrChar(attr[i])) && rest != [] && !AttrChar(rest[0])
    ensures AttrLength(attr + rest) == |attr|
  {
    if attr == [] {
      assert attr + rest == rest;
    } else {
      AttrReads(attr[1..], rest);
      assert (attr + rest)[1..] == attr[1..] + rest;
    }
  }

  /** A comparison sign is skipped whole. */
  lemma OpReads(op: Match, value: Bytes)
    ensures OpOf(OpText(op) + value) == op && FromEquals(OpText(op) + value) == [EQUALS] + value
  {
    var r := OpText(op) + value;
    assert r[0] == OpText(op)[0];
    if !op.Equality? { assert r[1..] == [EQUALS] + value; }
  }

  lemma ItemBody(t: Bytes, attr: Bytes, op: Match, r: Bytes, value: Bytes, parts: seq<Bytes>, rest: Bytes)
    requires attr != [] && AttrLength(t) == |attr| && t == attr + r
    requires OpOf(r) == op && FromEquals(r) == [EQUALS] + value
    requires ParseParts(value) == Got(parts, rest) && (!op.Equality? ==> |parts| == 1)
    ensures ParseItem(t) == Got(Item(attr, op, parts), rest)
  {
    assert t[|attr|..] == r && t[..|attr|] == attr && ([EQUALS] + value)[1..] == value;
  }

  lemma ItemReads(attr: Bytes, op: Match, parts: seq<Bytes>, rest: Bytes)
    requires WellFormed(Item(attr, op, parts)) && rest != [] && rest[0] == RPAREN
    ensures ParseItem(attr + (OpText(op) + (PartsText(parts) + rest))) == Got(Item(attr, op, parts), rest)
  {
    var value := PartsText(parts) + rest;
    var r := OpText(op) + value;
    assert !AttrChar(r[0]) by { assert r[0] == OpText(op)[0]; }
    AttrReads(attr, r);
    PartsRead(parts, rest);
    OpReads(op, value);
    ItemBody(attr + r, attr, op, r, value, parts, rest);
  }

  lemma AndReads(t: Bytes, u: Bytes, fs: seq<Filter>, rest: Bytes)
    requires t != [] && t[0] == 38 && t[1..] == u && ParseList(u) == Got(fs, rest)
    ensures ParseComp(t) == Got(And(fs), rest)
  {}

  lemma OrReads(t: Bytes, u: Bytes, fs: seq<Filter>, rest: Bytes)
    requires t != [] && t[0] == 124 && t[1..] == u && ParseList(u) == Got(fs, rest)
    ensures ParseComp(t) == Got(Or(fs), rest)
  {}

  lemma NotReads(t: Bytes, u: Bytes, f: Filter, rest: Bytes)
    requires t != [] && t[0] == 33 && t[1..] == u && ParseFilter(u) == Got(f, rest)
    ensures ParseComp(t) == Got(Not(f), rest)
  {}

  lemma Behind(c: byte, body: Bytes, rest: Bytes)
    ensures var t := ([c] + body) + rest; t != [] && t[0] == c && t[1..] == body + rest
  {}

  /** Text that opens with an attribute is an item, not a connective. */
  lemma AttrOpensItem(t: Bytes)
    requires t != [] && AttrChar(t[0])
    ensures ParseComp(t) == ParseItem(t)
  {
  }

  lemma Regroup(a: Bytes, b: Bytes, c: Bytes, d: Bytes)
    ensures (a + (b + c)) + d == a + (b + (c + d))
  {
  }

  lemma PlainReads(attr: Bytes, op: Match, parts: seq<Bytes>, rest: Bytes)
    requires WellFormed(Item(attr, op, parts)) && rest != [] && rest[0] == RPAREN
    ensures ParseComp((attr + (OpText(op) + PartsText(parts))) + rest) == Got(Item(attr, op, parts), rest)
  {
    var o, p := OpText(op), PartsText(parts);
    ItemReads(attr, op, parts, rest);
    Regroup(attr, o, p, rest);
    var t := attr + (o + (p + rest));
    assert t[0] == attr[0];
    AttrOpensItem(t);
  }

  lemma {:induction false} CompReads(f: Filter, rest: Bytes)
    requires WellFormed(f) && rest != [] && rest[0] == RPAREN
    ensures ParseComp(CompText(f) + rest) == Got(f, rest)
    decreases f, 0
  {
    var t := CompText(f) + rest;
    match f
    case And(fs) =>
      ListReads(fs, rest);
      Behind(38, ListText(fs), rest);
      AndReads(t, ListText(fs) + rest, fs, rest);
    case Or(fs) =>
      ListReads(fs, rest);
      Behind(124, ListText(fs), rest);
      OrReads(t, ListText(fs) + rest, fs, rest);
    case Not(g) =>
      TextReads(g, rest);
      Behind(33, Text(g), rest);
      NotReads(t, Text(g) + rest, g, rest);
    case Item(attr, op, parts) =>
      PlainReads(attr, op, parts, rest);
  }

  /** Parentheses around a component that reads. */
  lemma EnclosedReads(t: Bytes, u: Bytes, f: Filter, r: Bytes, rest: Bytes)
    requires t != [] && t[0] == LPAREN && t[1..] == u && ParseComp(u) == Got(f, r)
    requires r != [] && r[0] == RPAREN && r[1..] == rest
    ensures ParseFilter(t) == Got(f, rest)
  {}

  lemma Unwrap(comp: Bytes, rest: Bytes)
    ensures var t, tail := ([LPAREN] + (comp + [RPAREN])) + rest, [RPAREN] + rest;
            t != [] && t[0] == LPAREN && t[1..] == comp + tail && tail[0] == RPAREN && tail[1..] == rest
  {}

  /** Every filter, written down escaped, reads back as itself and leaves what follows it alone. */
  lemma {:induction false} TextReads(f: Filter, rest: Bytes)
    requires WellFormed(f)
    ensures ParseFilter(Text(f) + rest) == Got(f, rest)
    decreases f, 1
  {
    var comp, tail := CompText(f), [RPAREN] + rest;
    CompReads(f, tail);
    Unwrap(comp, rest);
    EnclosedReads(Text(f) + rest, comp + tail, f, tail, rest);
  }

  /** One more filter in front of a list that reads. */
  lemma ListStep(t: Bytes, f: Filter, more: Bytes, fs: seq<Filter>, rest: Bytes)
    requires ParseFilter(t) == Got(f, more) && more != []
    requires if more[0] == LPAREN then ParseList(more) == Got(fs, rest) else fs == [] && more == rest
    ensures ParseList(t) == Got([f] + fs, rest)
  {
    if more[0] != LPAREN { assert [f] + fs == [f]; }
  }

  /** A list's text: the first filter's, then the rest; it opens with a parenthesis. */
  lemma ListTextSplits(fs: seq<Filter>, rest: Bytes)
    requires fs != [] && (forall g :: g in fs ==> WellFormed(g))
    ensures ListText(fs) + rest == Text(fs[0]) + (ListText(fs[1..]) + rest)
    ensures (ListText(fs) + rest)[0] == LPAREN
  {
    var a, b := Text(fs[0]), ListText(fs[1..]);
    Associate(a, b, rest);
  }

  lemma Associate(a: Bytes, b: Bytes, c: Bytes)
    requires a != []
    ensures (a + b) + c == a + (b + c) && ((a + b) + c)[0] == a[0]
  {
  }

  lemma ListJoins(fs: seq<Filter>, t: Bytes, more: Bytes, rest: Bytes)
    requires fs != [] && ParseFilter(t) == Got(fs[0], more) && more != []
    requires if |fs| == 1 then more == rest && rest[0] != LPAREN
             else more[0] == LPAREN && ParseList(more) == Got(fs[1..], rest)
    ensures ParseList(t) == Got(fs, rest)
  {
    ListStep(t, fs[0], more, fs[1..], rest);
    assert [fs[0]] + fs[1..] == fs;
  }

  lemma LastIsRest(fs: seq<Filter>, rest: Bytes)
    requires |fs| == 1 && (forall g :: g in fs ==> WellFormed(g))
    ensures ListText(fs[1..]) + rest == rest
  {}

  lemma {:induction false} ListReads(fs: seq<Filter>, rest: Bytes)
    requires fs != [] && (forall g :: g in fs ==> WellFormed(g)) && rest != [] && rest[0] != LPAREN
    ensures ParseList(ListText(fs) + rest) == Got(fs, rest)
    decreases fs, 2
  {
    var more := ListText(fs[1..]) + rest;
    TextReads(fs[0], more);
    ListTextSplits(fs, rest);
    if |fs| == 1 {
      LastIsRest(fs, rest);
    } else {
      ListReads(fs[1..], rest);
      ListTextSplits(fs[1..], rest);
    }
    ListJoins(fs, Text(fs[0]) + more, more, rest);
  }

  lemma ListOfTwo(a: Filter, b: Filter)
    requires WellFormed(a) && WellFormed(b)
    ensures ListText([a, b]) == Text(a) + Text(b)
  {
    var none: seq<Filter> := [b][1..];
    assert none == [] && ListText(none) == [];
    assert Text(b) + ListText(none) == Text(b);
    assert [a, b][1..] == [b];
  }

  lemma ReadsAs(t: Bytes, f: Filter)
    requires WellFormed(f) && t == Text(f)
    ensures Read(t) == Got(f, [])
  {
    TextReads(f, []);
    assert Text(f) + [] == Text(f);
  }

  // ---- the filters the authenticator builds ----------------------------------------------------

  function Equals(attr: Bytes, value: Bytes): Filter { Item(attr, Equality, [value]) }

  /** How an equality item is written. */
  lemma EqualsText(attr: Bytes, value: Bytes)
    requires IsAttr(attr)
    ensures Text(Equals(attr, value)) == UserFilter(attr, value)
  {
    var e := Escape(value);
    assert PartsText([value]) == e;
    assert [LPAREN] + ((attr + ([EQUALS] + e)) + [RPAREN]) == [LPAREN] + attr + [EQUALS] + e + [RPAREN];
  }

  /** How a prefix item is written. */
  lemma PrefixText(attr: Bytes, prefix: Bytes)
    requires IsAttr(attr)
    ensures Text(Item(attr, Equality, [prefix, []])) == [LPAREN] + attr + [EQUALS] + Escape(prefix) + [STAR, RPAREN]
  {
    var e, empty: Bytes := Escape(prefix), [];
    var parts := [prefix, empty];
    assert parts[1..] == [empty] && Escape(empty) == empty && PartsText([empty]) == empty;
    assert PartsText(parts) == e + [STAR];
    assert [LPAREN] + ((attr + ([EQUALS] + (e + [STAR]))) + [RPAREN])
        == [LPAREN] + attr + [EQUALS] + e + [STAR, RPAREN];
  }

  /** How two filters under one connective are written. */
  lemma PairText(a: Filter, b: Filter)
    requires WellFormed(a) && WellFormed(b)
    ensures WellFormed(And([a, b])) && Text(And([a, b])) == [LPAREN, 38] + Text(a) + Text(b) + [RPAREN]
    ensures WellFormed(Or([a, b])) && Text(Or([a, b])) == [LPAREN, 124] + Text(a) + Text(b) + [RPAREN]
  {
    ListOfTwo(a, b);
    Enclose(38, Text(a), Text(b));
    Enclose(124, Text(a), Text(b));
  }

  lemma Enclose(c: byte, s: Bytes, t: Bytes)
    ensures [LPAREN] + (([c] + (s + t)) + [RPAREN]) == [LPAREN, c] + s + t + [RPAREN]
  {
  }

  /** The bytes of an ASCII text. */
  function Ascii(s: string): (t: Bytes)
    requires forall i :: 0 <= i < |s| ==> s[i] as int < 128
    ensures |t| == |s| && forall i :: 0 <= i < |s| ==> t[i] as int == s[i] as int
  {
    seq(|s|, i requires 0 <= i < |s| => s[i] as int as byte)
  }

  lemma NamesAreAscii()
    ensures UID == Ascii("uid") && MAIL == Ascii("mail") && CN == Ascii("cn")
    ensures OBJECT_CLASS == Ascii("objectClass") && GROUP_OF_NAMES == Ascii("groupOfNames")
    ensures [LPAREN] == Ascii("(") && [RPAREN] == Ascii(")") && [EQUALS] == Ascii("=") && [STAR] == Ascii("*")
    ensures [LPAREN, 124] == Ascii("(|") && [LPAREN, 38] == Ascii("(&")
  {}

  lemma LoginPieces()
    ensures [LPAREN, 124] + [LPAREN] + UID + [EQUALS] == Ascii("(|(uid=")
    ensures [RPAREN] + [LPAREN] + MAIL + [EQUALS] == Ascii(")(mail=")
    ensures [RPAREN] + [RPAREN] == Ascii("))")
  {}

  lemma Weave(o: Bytes, l: Bytes, u: Bytes, m: Bytes, q: Bytes, e: Bytes, r: Bytes)
    ensures o + (l + u + q + e + r) + (l + m + q + e + r) + r
         == (o + l + u + q) + e + (r + l + m + q) + e + (r + r)
  {}

  /** The text is the authenticator's, letter by letter. */
  lemma LoginFilterText(name: Bytes)
    ensures LoginFilter(name) == Ascii("(|(uid=") + Escape(name) + Ascii(")(mail=") + Escape(name) + Ascii("))")
  {
    LoginPieces();
    Weave([LPAREN, 124], [LPAREN], UID, MAIL, [EQUALS], Escape(name), [RPAREN]);
  }

  /** For every login name, the filter means: uid equals the name, or mail equals the name. */
  lemma LoginFilterMeans(name: Bytes)
    ensures Read(LoginFilter(name)) == Got(Or([Equals(UID, name), Equals(MAIL, name)]), [])
  {
    var a, b := Equals(UID, name), Equals(MAIL, name);
    EqualsText(UID, name);
    EqualsText(MAIL, name);
    PairText(a, b);
    ReadsAs(LoginFilter(name), Or([a, b]));
  }

  lemma UserFilterMeans(attr: Bytes, name: Bytes)
    requires IsAttr(attr)
    ensures Read(UserFilter(attr, name)) == Got(Equals(attr, name), [])
  {
    EqualsText(attr, name);
    ReadsAs(UserFilter(attr, name), Equals(attr, name));
  }

  lemma PrefixFilterMeans(kind: Bytes, class_: Bytes, attr: Bytes, prefix: Bytes)
    requires IsAttr(kind) && IsAttr(attr) && forall i :: 0 <= i < |class_| ==> IsAlnum(class_[i])
    ensures Read(PrefixFilter(kind, class_, attr, prefix)) ==
            Got(And([Equals(kind, class_), Item(attr, Equality, [prefix, []])]), [])
  {
    var empty: Bytes := [];
    var a, b := Equals(kind, class_), Item(attr, Equality, [prefix, empty]);
    PlainEscapes(class_);
    EqualsText(kind, class_);
    PrefixText(attr, prefix);
    PairText(a, b);
    ReadsAs(PrefixFilter(kind, class_, attr, prefix), And([a, b]));
  }

  /** A search prefix stays a prefix: one open end, and no wildcard of the caller's. */
  lemma RoleSearchFilterMeans(prefix: Bytes)
    ensures Read(RoleSearchFilter(prefix)) ==
            Got(And([Equals(OBJECT_CLASS, GROUP_OF_NAMES), Item(CN, Equality, [prefix, []])]), [])
  {
    PrefixFilterMeans(OBJECT_CLASS, GROUP_OF_NAMES, CN, prefix);
  }

  lemma {:induction false} PlainEscapes(s: Bytes)
    requires forall i :: 0 <= i < |s| ==> IsAlnum(s[i])
    ensures Escape(s) == s
  {
    if s == [] {
    } else {
      PlainEscapes(s[1..]);
    }
  }

  /** No two names ask the directory the same question. */
  lemma EscapeIsInjective(a: Bytes, b: Bytes)
    requires Escape(a) == Escape(b)
    ensures a == b
  {
    var empty: Bytes := [];
    EscapedReads(a, empty);
    EscapedReads(b, empty);
    assert a + empty == a && b + empty == b;
    assert ParseParts(Escape(a) + empty).value[0] == a && ParseParts(Escape(b) + empty).value[0] == b;
  }
}
