/**
 The key under which requests and subscriptions are shared (src/lib/control-plane-client.ts:82-93, 226, 552).

 A JSON value keeps the order of its object members, as JavaScript does. A number is its
 canonical decimal text. `undefined` and lone surrogates are not part of this model.
 */
module OperationKeys {
  import opened Options

  datatype Json =
    | Null
    | Bool(truth: bool)
    | Number(text: string)
    | String(chars: string)
    | Array(items: seq<Json>)
    | Object(members: seq<Member>)

  datatype Member = Member(name: string, value: Json)

  predicate NumberChar(c: char) {
    '0' <= c <= '9' || c == '-' || c == '+' || c == '.' || c == 'e'
  }

  /** Numbers have a text, and an object has each name once. */
  predicate WellFormed(v: Json)
    decreases v, 1
  {
    match v
    case Number(text) => text != [] && forall i :: 0 <= i < |text| ==> NumberChar(text[i])
    case Array(items) => forall i :: 0 <= i < |items| ==> WellFormed(items[i])
    case Object(members) =>
      && DistinctNames(members)
      && (forall i :: 0 <= i < |members| ==> WellFormed(members[i].value))
    case _ => true
  }

  predicate DistinctNames(members: seq<Member>) {
    forall i, j :: 0 <= i < j < |members| ==> members[i].name != members[j].name
  }

  // JSON.stringify

  const HEX := "0123456789abcdef"

  function EscapeChar(c: char): string {
    var code := c as int;
    if c == '\"' then "\\\""
    else if c == '\\' then "\\\\"
    else if code == 8 then "\\b"
    else if code == 9 then "\\t"
    else if code == 10 then "\\n"
    else if code == 12 then "\\f"
    else if code == 13 then "\\r"
    else if code < 32 then "\\u00" + [HEX[code / 16], HEX[code % 16]]
    else [c]
  }

  function EscapeAll(s: string): string {
    if s == [] then [] else EscapeChar(s[0]) + EscapeAll(s[1..])
  }

  function Quote(s: string): string {
    "\"" + EscapeAll(s) + "\""
  }

  function Text(v: Json): string
    decreases v, 1
  {
    match v
    case Null => "null"
    case Bool(truth) => if truth then "true" else "false"
    case Number(text) => text
    case String(chars) => Quote(chars)
    case Array(items) => "[" + (if items == [] then "]" else Text(items[0]) + ItemsText(items[1..]))
    case Object(members) => "{" + (if members == [] then "}" else MemberText(members[0]) + MembersText(members[1..]))
  }

  /** The items after the first, and the closing bracket. */
  function ItemsText(items: seq<Json>): string
    decreases items, 0
  {
    if items == [] then "]" else "," + Text(items[0]) + ItemsText(items[1..])
  }

  function MemberText(m: Member): string
    decreases m, 0
  {
    Quote(m.name) + ":" + Text(m.value)
  }

  function MembersText(members: seq<Member>): string
    decreases members, 0
  {
    if members == [] then "}" else "," + MemberText(members[0]) + MembersText(members[1..])
  }

  // The text determines the value.

  /** What may follow a value in JSON text. */
  predicate Stop(rest: string) {
    rest == [] || rest[0] == ',' || rest[0] == ']' || rest[0] == '}'
  }

  /** Taking a one-character head off a concatenation. */
  lemma Peel(head: string, first: string, rest: string, x: string)
    requires |head| == 1
    ensures (head + first + rest + x)[1..] == first + (rest + x)
    ensures (head + (first + rest) + x)[1..] == first + (rest + x) == first + rest + x
  {
  }

  lemma EscapePrefixFree(c: char, x: string, d: char, y: string)
    requires EscapeChar(c) + x == EscapeChar(d) + y
    ensures c == d && x == y
  {
    EscapeInjective(c, d, x, y);
    var s, t := EscapeChar(c) + x, EscapeChar(d) + y;
    assert x == s[|EscapeChar(c)|..] && y == t[|EscapeChar(d)|..];
  }

  lemma EscapeInjective(c: char, d: char, x: string, y: string)
    requires EscapeChar(c) + x == EscapeChar(d) + y
    ensures c == d
  {
    var s, t := EscapeChar(c), EscapeChar(d);
    assert s[0] == (s + x)[0] == (t + y)[0] == t[0];
    if s[0] == '\\' {
      assert s[1] == (s + x)[1] == (t + y)[1] == t[1];
      if s[1] == 'u' {
        assert s[4] == (s + x)[4] == (t + y)[4] == t[4];
        assert s[5] == (s + x)[5] == (t + y)[5] == t[5];
        HexInjective(c as int, d as int);
      }
    }
  }

  lemma HexInjective(m: nat, n: nat)
    requires m < 32 && n < 32 && HEX[m / 16] == HEX[n / 16] && HEX[m % 16] == HEX[n % 16]
    ensures m == n
  {
    HexDigits(m / 16, n / 16);
    HexDigits(m % 16, n % 16);
  }

  lemma HexDigits(m: nat, n: nat)
    requires m < 16 && n < 16 && HEX[m] == HEX[n]
    ensures m == n
  {
  }

  lemma FirstEscaped(s: string, x: string, t: string, y: string)
    requires s != [] && t != [] && EscapeAll(s) + "\"" + x == EscapeAll(t) + "\"" + y
    ensures s[0] == t[0] && EscapeAll(s[1..]) + "\"" + x == EscapeAll(t[1..]) + "\"" + y
  {
    var l, r := EscapeAll(s[1..]) + "\"" + x, EscapeAll(t[1..]) + "\"" + y;
    Assoc(EscapeChar(s[0]), EscapeAll(s[1..]), "\"", x);
    Assoc(EscapeChar(t[0]), EscapeAll(t[1..]), "\"", y);
    EscapePrefixFree(s[0], l, t[0], r);
  }

  lemma EscapeNoQuote(s: string, x: string)
    requires s != []
    ensures EscapeAll(s) + x != [] && (EscapeAll(s) + x)[0] != '\"'
  {
    assert EscapeChar(s[0])[0] != '\"';
  }

  /** Only the empty text's quoted form begins with the closing quote. */
  lemma QuotedEmpty(x: string, t: string, y: string)
    requires "\"" + x == EscapeAll(t) + "\"" + y
    ensures t == [] && x == y
  {
    assert ("\"" + x)[0] == '\"';
    if t != [] { EscapeNoQuote(t, "\"" + y); }
    assert t == [] ==> EscapeAll(t) + "\"" + y == "\"" + y;
    assert x == ("\"" + x)[1..] && y == ("\"" + y)[1..];
  }

  lemma {:induction false} QuotedInjective(s: string, x: string, t: string, y: string)
    requires EscapeAll(s) + "\"" + x == EscapeAll(t) + "\"" + y
    ensures s == t && x == y
  {
    if s == [] {
      assert EscapeAll(s) + "\"" + x == "\"" + x;
      QuotedEmpty(x, t, y);
    } else if t == [] {
      assert EscapeAll(t) + "\"" + y == "\"" + y;
      QuotedEmpty(y, s, x);
    } else {
      FirstEscaped(s, x, t, y);
      QuotedInjective(s[1..], x, t[1..], y);
      assert s == [s[0]] + s[1..] && t == [t[0]] + t[1..];
    }
  }

  lemma QuoteInjective(s: string, x: string, t: string, y: string)
    requires Quote(s) + x == Quote(t) + y
    ensures s == t && x == y
  {
    Peel("\"", EscapeAll(s), "\"", x);
    Peel("\"", EscapeAll(t), "\"", y);
    QuotedInjective(s, x, t, y);
  }

  lemma NumberNoLonger(s: string, x: string, t: string, y: string)
    requires s + x == t + y && Stop(x)
    requires forall i :: 0 <= i < |t| ==> NumberChar(t[i])
    ensures |t| <= |s|
  {
    if x != [] { assert (s + x)[|s|] == x[0]; }
  }

  /** A number's text ends where the number characters end. */
  lemma {:induction false} NumberInjective(s: string, x: string, t: string, y: string)
    requires s + x == t + y && Stop(x) && Stop(y)
    requires forall i :: 0 <= i < |s| ==> NumberChar(s[i])
    requires forall i :: 0 <= i < |t| ==> NumberChar(t[i])
    ensures s == t && x == y
  {
    NumberNoLonger(s, x, t, y);
    NumberNoLonger(t, y, s, x);
    var l, r := s + x, t + y;
    assert s == l[..|s|] && t == r[..|t|] && x == l[|s|..] && y == r[|t|..];
  }

  /** The first character tells the kind of a value. */
  function Kind(v: Json): nat {
    match v
    case Null => 0
    case Bool(truth) => if truth then 1 else 2
    case Number(_) => 3
    case String(_) => 4
    case Array(_) => 5
    case Object(_) => 6
  }

  function KindOf(c: char): nat {
    if c == 'n' then 0 else if c == 't' then 1 else if c == 'f' then 2
    else if c == '\"' then 4 else if c == '[' then 5 else if c == '{' then 6 else 3
  }

  lemma FirstChar(v: Json)
    requires WellFormed(v)
    ensures Text(v) != [] && KindOf(Text(v)[0]) == Kind(v)
  {
  }

  lemma {:induction false} TextInjective(a: Json, x: string, b: Json, y: string)
    requires WellFormed(a) && WellFormed(b) && Stop(x) && Stop(y)
    requires Text(a) + x == Text(b) + y
    ensures a == b && x == y
    decreases a, 1
  {
    var l, r := Text(a) + x, Text(b) + y;
    FirstChar(a);
    FirstChar(b);
    assert l[0] == Text(a)[0] && r[0] == Text(b)[0];
    assert Kind(a) == Kind(b);
    match a {
      case Null => assert x == l[4..] && y == r[4..];
      case Bool(truth) => assert x == l[|Text(a)|..] && y == r[|Text(b)|..];
      case Number(text) => NumberInjective(text, x, b.text, y);
      case String(chars) => QuoteInjective(chars, x, b.chars, y);
      case Array(items) => ArrayInjective(items, x, b.items, y);
      case Object(members) => ObjectInjective(members, x, b.members, y);
    }
  }

  /** Only the empty array's text starts with an opening and a closing bracket. */
  lemma EmptyArray(a: seq<Json>, x: string, b: seq<Json>, y: string)
    requires WellFormed(Array(a)) && WellFormed(Array(b)) && (a == [] || b == [])
    requires Text(Array(a)) + x == Text(Array(b)) + y
    ensures a == b && x == y
  {
    var l, r := Text(Array(a)) + x, Text(Array(b)) + y;
    if a != [] { FirstChar(a[0]); }
    if b != [] { FirstChar(b[0]); }
    assert l[1] == r[1];
    assert x == l[2..] && y == r[2..];
  }

  lemma {:induction false} ArrayInjective(a: seq<Json>, x: string, b: seq<Json>, y: string)
    requires WellFormed(Array(a)) && WellFormed(Array(b))
    requires Text(Array(a)) + x == Text(Array(b)) + y
    ensures a == b && x == y
    decreases a, 2
  {
    if a == [] || b == [] {
      EmptyArray(a, x, b, y);
    } else {
      var x', y' := ItemsText(a[1..]) + x, ItemsText(b[1..]) + y;
      Peel("[", Text(a[0]), ItemsText(a[1..]), x);
      Peel("[", Text(b[0]), ItemsText(b[1..]), y);
      TextInjective(a[0], x', b[0], y');
      ItemsInjective(a[1..], x, b[1..], y);
      assert a == [a[0]] + a[1..] && b == [b[0]] + b[1..];
    }
  }

  lemma {:induction false} ItemsInjective(a: seq<Json>, x: string, b: seq<Json>, y: string)
    requires forall i :: 0 <= i < |a| ==> WellFormed(a[i])
    requires forall i :: 0 <= i < |b| ==> WellFormed(b[i])
    requires ItemsText(a) + x == ItemsText(b) + y
    ensures a == b && x == y
    decreases a, 0
  {
    var l, r := ItemsText(a) + x, ItemsText(b) + y;
    assert l[0] == r[0];
    if a == [] || b == [] {
      assert x == l[1..] && y == r[1..];
    } else {
      var x', y' := ItemsText(a[1..]) + x, ItemsText(b[1..]) + y;
      Peel(",", Text(a[0]), ItemsText(a[1..]), x);
      Peel(",", Text(b[0]), ItemsText(b[1..]), y);
      TextInjective(a[0], x', b[0], y');
      ItemsInjective(a[1..], x, b[1..], y);
      assert a == [a[0]] + a[1..] && b == [b[0]] + b[1..];
    }
  }

  lemma {:induction false} MemberInjective(a: Member, x: string, b: Member, y: string)
    requires WellFormed(a.value) && WellFormed(b.value) && Stop(x) && Stop(y)
    requires MemberText(a) + x == MemberText(b) + y
    ensures a == b && x == y
    decreases a, 2
  {
    var x', y' := ":" + Text(a.value) + x, ":" + Text(b.value) + y;
    Assoc(Quote(a.name), ":", Text(a.value), x);
    Assoc(Quote(b.name), ":", Text(b.value), y);
    QuoteInjective(a.name, x', b.name, y');
    Peel(":", Text(a.value), "", x);
    Peel(":", Text(b.value), "", y);
    assert ":" + Text(a.value) + "" == ":" + Text(a.value) && ":" + Text(b.value) + "" == ":" + Text(b.value);
    assert "" + x == x && "" + y == y;
    TextInjective(a.value, x, b.value, y);
  }

  lemma Assoc(a: string, b: string, c: string, d: string)
    ensures a + b + c + d == a + (b + c + d)
  {
  }

  lemma {:induction false} ObjectInjective(a: seq<Member>, x: string, b: seq<Member>, y: string)
    requires WellFormed(Object(a)) && WellFormed(Object(b))
    requires Text(Object(a)) + x == Text(Object(b)) + y
    ensures a == b && x == y
    decreases a, 2
  {
    var l, r := Text(Object(a)) + x, Text(Object(b)) + y;
    if a == [] || b == [] {
      assert l[1] == r[1];
      assert x == l[2..] && y == r[2..];
    } else {
      var x', y' := MembersText(a[1..]) + x, MembersText(b[1..]) + y;
      Peel("{", MemberText(a[0]), MembersText(a[1..]), x);
      Peel("{", MemberText(b[0]), MembersText(b[1..]), y);
      MemberInjective(a[0], x', b[0], y');
      MembersInjective(a[1..], x, b[1..], y);
      assert a == [a[0]] + a[1..] && b == [b[0]] + b[1..];
    }
  }

  lemma {:induction false} MembersInjective(a: seq<Member>, x: string, b: seq<Member>, y: string)
    requires forall i :: 0 <= i < |a| ==> WellFormed(a[i].value)
    requires forall i :: 0 <= i < |b| ==> WellFormed(b[i].value)
    requires MembersText(a) + x == MembersText(b) + y
    ensures a == b && x == y
    decreases a, 0
  {
    var l, r := MembersText(a) + x, MembersText(b) + y;
    assert l[0] == r[0];
    if a == [] || b == [] {
      assert x == l[1..] && y == r[1..];
    } else {
      var x', y' := MembersText(a[1..]) + x, MembersText(b[1..]) + y;
      Peel(",", MemberText(a[0]), MembersText(a[1..]), x);
      Peel(",", MemberText(b[0]), MembersText(b[1..]), y);
      MemberInjective(a[0], x', b[0], y');
      MembersInjective(a[1..], x, b[1..], y);
      assert a == [a[0]] + a[1..] && b == [b[0]] + b[1..];
    }
  }

  // operationKey: members sorted by name at every depth, then the text.

  /**
   The order in which member names are written. The source sorts with `localeCompare`, and object
   enumeration then puts array-index names first: together one order on names, which may tie
   different names: `localeCompare` calls canonically equivalent ones equal.
   */
  ghost predicate StrictWeak(less: (string, string) -> bool) {
    && (forall a, b :: less(a, b) ==> !less(b, a))
    && (forall a, b, c :: less(a, c) ==> less(a, b) || less(b, c))
  }

  predicate Tied(a: string, b: string, less: (string, string) -> bool) {
    !less(a, b) && !less(b, a)
  }

  function Insert(m: Member, sorted: seq<Member>, less: (string, string) -> bool): seq<Member> {
    if sorted == [] || !less(sorted[0].name, m.name) then [m] + sorted
    else [sorted[0]] + Insert(m, sorted[1..], less)
  }

  /** A stable sort, as `Array.prototype.sort` is: tied names keep their order. */
  function Sort(members: seq<Member>, less: (string, string) -> bool): seq<Member> {
    if members == [] then [] else Insert(members[0], Sort(members[1..], less), less)
  }

  /** The replacer's result: sorting looks at names only, so inner values may be replaced first. */
  function Canonical(v: Json, less: (string, string) -> bool): Json
    decreases v, 1
  {
    match v
    case Array(items) => Array(CanonicalItems(items, less))
    case Object(members) => Object(Sort(CanonicalMembers(members, less), less))
    case _ => v
  }

  function CanonicalItems(items: seq<Json>, less: (string, string) -> bool): (r: seq<Json>)
    ensures |r| == |items|
    ensures forall i :: 0 <= i < |items| ==> r[i] == Canonical(items[i], less)
    decreases items, 0
  {
    if items == [] then [] else [Canonical(items[0], less)] + CanonicalItems(items[1..], less)
  }

  function CanonicalMembers(members: seq<Member>, less: (string, string) -> bool): (r: seq<Member>)
    ensures |r| == |members|
    ensures forall i :: 0 <= i < |members| ==> r[i] == Member(members[i].name, Canonical(members[i].value, less))
    decreases members, 0
  {
    if members == [] then []
    else [Member(members[0].name, Canonical(members[0].value, less))] + CanonicalMembers(members[1..], less)
  }

  function OperationKey(v: Json, less: (string, string) -> bool): string {
    Text(Canonical(v, less))
  }

  /** Equal up to the order of object members, at every depth (RFC 8259, section 4). */
  ghost predicate Same(a: Json, b: Json)
    decreases a
  {
    match a
    case Array(items) =>
      && b.Array? && |items| == |b.items|
      && (forall i :: 0 <= i < |items| ==> Same(items[i], b.items[i]))
    case Object(members) =>
      && b.Object?
      && (forall i {:trigger HasPartner(members[i], b.members)} :: 0 <= i < |members| ==>
            HasPartner(members[i], b.members))
      && (forall j {:trigger IsPartner(members, b.members[j])} :: 0 <= j < |b.members| ==>
            IsPartner(members, b.members[j]))
    case _ => a == b
  }

  ghost predicate HasPartner(m: Member, others: seq<Member>)
    decreases m, 1
  {
    exists j :: 0 <= j < |others| && SameMember(m, others[j])
  }

  ghost predicate IsPartner(others: seq<Member>, n: Member)
    decreases others
  {
    exists i :: 0 <= i < |others| && SameMember(others[i], n)
  }

  ghost predicate SameMember(m: Member, n: Member)
    decreases m, 0
  {
    m.name == n.name && Same(m.value, n.value)
  }

  /** Members with tied names have the same order in both lists. */
  ghost predicate TiesKept(a: seq<Member>, b: seq<Member>, less: (string, string) -> bool) {
    forall i: int, j: int, k: int, l: int {:trigger KeptAt(a, b, less, i, j, k, l)} :: KeptAt(a, b, less, i, j, k, l)
  }

  ghost predicate KeptAt(a: seq<Member>, b: seq<Member>, less: (string, string) -> bool,
                         i: int, j: int, k: int, l: int) {
    0 <= i < j < |a| && 0 <= k < |b| && 0 <= l < |b| ==>
      a[i].name == b[k].name && a[j].name == b[l].name && Tied(a[i].name, a[j].name, less) ==> k < l
  }

  /** Wherever both values have an object, its tied members have the same order in both. */
  ghost predicate TiesAgree(a: Json, b: Json, less: (string, string) -> bool)
    decreases a
  {
    match a
    case Array(items) =>
      b.Array? ==> forall i :: 0 <= i < |items| && i < |b.items| ==> TiesAgree(items[i], b.items[i], less)
    case Object(members) =>
      b.Object? ==>
        && TiesKept(members, b.members, less)
        && (forall i, j :: 0 <= i < |members| && 0 <= j < |b.members| && members[i].name == b.members[j].name ==>
              TiesAgree(members[i].value, b.members[j].value, less))
    case _ => true
  }

  /** No object has two names that the order ties. */
  predicate NoTies(v: Json, less: (string, string) -> bool)
    decreases v
  {
    match v
    case Array(items) => forall i :: 0 <= i < |items| ==> NoTies(items[i], less)
    case Object(members) =>
      && (forall i, j :: 0 <= i < j < |members| ==> !Tied(members[i].name, members[j].name, less))
      && (forall i :: 0 <= i < |members| ==> NoTies(members[i].value, less))
    case _ => true
  }

  // Sorting keeps the members, orders them by name and keeps the order of tied ones.

  ghost predicate Before(s: seq<Member>, m: Member, n: Member) {
    exists i, j :: 0 <= i < j < |s| && s[i] == m && s[j] == n
  }

  ghost predicate Precedes(s: seq<Member>, m: Member, n: Member, less: (string, string) -> bool) {
    less(m.name, n.name) || (!less(n.name, m.name) && Before(s, m, n))
  }

  /** `t` is ordered by name, and by the order in `s` where names are tied. */
  ghost predicate Ordered(s: seq<Member>, t: seq<Member>, less: (string, string) -> bool) {
    forall i, j :: 0 <= i < j < |t| ==> Precedes(s, t[i], t[j], less)
  }

  lemma {:induction false} InsertMembers(m: Member, s: seq<Member>, less: (string, string) -> bool)
    ensures forall x :: x in Insert(m, s, less) <==> x == m || x in s
  {
    if s == [] || !less(s[0].name, m.name) {
    } else {
      InsertMembers(m, s[1..], less);
      assert s == [s[0]] + s[1..];
    }
  }

  lemma {:induction false} SortMembers(s: seq<Member>, less: (string, string) -> bool)
    ensures forall x :: x in Sort(s, less) <==> x in s
  {
    if s == [] {
    } else {
      SortMembers(s[1..], less);
      InsertMembers(s[0], Sort(s[1..], less), less);
      assert s == [s[0]] + s[1..];
    }
  }

  lemma {:induction false} InsertDistinct(m: Member, s: seq<Member>, less: (string, string) -> bool)
    requires DistinctNames(s) && forall x :: x in s ==> x.name != m.name
    ensures DistinctNames(Insert(m, s, less))
  {
    if s == [] || !less(s[0].name, m.name) {
      assert forall i :: 0 <= i < |s| ==> s[i] in s;
    } else {
      var rest := Insert(m, s[1..], less);
      InsertDistinct(m, s[1..], less);
      InsertMembers(m, s[1..], less);
      assert s[0] in s;
      forall i | 0 <= i < |rest| ensures rest[i].name != s[0].name { assert rest[i] in rest; }
    }
  }

  lemma {:induction false} SortDistinct(s: seq<Member>, less: (string, string) -> bool)
    requires DistinctNames(s)
    ensures DistinctNames(Sort(s, less))
  {
    if s == [] {
    } else {
      SortDistinct(s[1..], less);
      SortMembers(s[1..], less);
      InsertDistinct(s[0], Sort(s[1..], less), less);
    }
  }

  lemma PrecedesMore(m: Member, s: seq<Member>, x: Member, y: Member, less: (string, string) -> bool)
    requires Precedes(s, x, y, less)
    ensures Precedes([m] + s, x, y, less)
  {
    if Before(s, x, y) {
      var i, j :| 0 <= i < j < |s| && s[i] == x && s[j] == y;
      var more := [m] + s;
      assert more[i + 1] == x && more[j + 1] == y;
    }
  }

  lemma FirstPrecedes(m: Member, s: seq<Member>, x: Member, less: (string, string) -> bool)
    requires x in s && !less(x.name, m.name)
    ensures Precedes([m] + s, m, x, less)
  {
    var i :| 0 <= i < |s| && s[i] == x;
    var more := [m] + s;
    assert more[0] == m && more[i + 1] == x;
  }

  lemma {:induction false} InsertOrdered(m: Member, s: seq<Member>, t: seq<Member>, less: (string, string) -> bool)
    requires StrictWeak(less) && Ordered(s, t, less) && forall x :: x in t ==> x in s
    ensures Ordered([m] + s, Insert(m, t, less), less)
  {
    var r := Insert(m, t, less);
    if t == [] || !less(t[0].name, m.name) {
      forall i, j | 0 <= i < j < |r| ensures Precedes([m] + s, r[i], r[j], less) {
        var y := t[j - 1];
        if i == 0 {
          assert !less(y.name, t[0].name) by { assert j == 1 || Precedes(s, t[0], y, less); }
          FirstPrecedes(m, s, y, less);
        } else {
          PrecedesMore(m, s, t[i - 1], y, less);
        }
      }
    } else {
      InsertOrdered(m, s, t[1..], less);
      InsertMembers(m, t[1..], less);
      forall i, j | 0 <= i < j < |r| ensures Precedes([m] + s, r[i], r[j], less) {
        if i == 0 {
          assert r[j] in Insert(m, t[1..], less);
          if r[j] != m {
            var k :| 0 <= k < |t[1..]| && t[1..][k] == r[j];
            PrecedesMore(m, s, t[0], t[k + 1], less);
          }
        }
      }
    }
  }

  lemma {:induction false} SortOrdered(s: seq<Member>, less: (string, string) -> bool)
    requires StrictWeak(less)
    ensures Ordered(s, Sort(s, less), less)
  {
    if s == [] {
    } else {
      SortOrdered(s[1..], less);
      SortMembers(s[1..], less);
      InsertOrdered(s[0], s[1..], Sort(s[1..], less), less);
      assert s == [s[0]] + s[1..];
    }
  }

  /** Lists of the same distinct members are the same list if no two members are swapped. */
  lemma {:induction false} SameOrder(s: seq<Member>, t: seq<Member>)
    requires DistinctNames(s) && DistinctNames(t) && forall x :: x in s <==> x in t
    requires forall i, j :: 0 <= i < j < |s| ==> !Before(t, s[j], s[i])
    ensures s == t
  {
    if t != [] { assert t[0] in t; }
    if s == [] {
    } else {
      assert s[0] in t && s[0] in s && t[0] in s;
      var k :| 0 <= k < |s| && s[k] == t[0];
      BeforeOthers(t, s[0]);
      assert s[0] == t[0];
      TailMembers(s);
      TailMembers(t);
      forall i, j | 0 <= i < j < |s[1..]| ensures !Before(t[1..], s[1..][j], s[1..][i]) {
        assert !Before(t, s[j + 1], s[i + 1]);
        BeforeInTail(t, s[j + 1], s[i + 1]);
      }
      SameOrder(s[1..], t[1..]);
      assert s == [s[0]] + s[1..] && t == [t[0]] + t[1..];
    }
  }

  lemma BeforeOthers(s: seq<Member>, m: Member)
    requires m in s
    ensures m == s[0] || Before(s, s[0], m)
  {
    var k :| 0 <= k < |s| && s[k] == m;
    if k > 0 { assert Before(s, s[0], s[k]); }
  }

  lemma TailMembers(s: seq<Member>)
    requires DistinctNames(s) && s != []
    ensures forall x :: x in s[1..] <==> x in s && x != s[0]
  {
    assert s == [s[0]] + s[1..];
  }

  lemma BeforeInTail(s: seq<Member>, m: Member, n: Member)
    requires s != []
    ensures Before(s[1..], m, n) ==> Before(s, m, n)
  {
    if Before(s[1..], m, n) {
      var i, j :| 0 <= i < j < |s[1..]| && s[1..][i] == m && s[1..][j] == n;
      assert s[i + 1] == m && s[j + 1] == n;
    }
  }

  lemma NeverSwapped(x: seq<Member>, y: seq<Member>, m: Member, n: Member, less: (string, string) -> bool)
    requires StrictWeak(less) && TiesKept(x, y, less)
    ensures !(Precedes(x, m, n, less) && Precedes(y, n, m, less))
  {
    if Before(x, m, n) && Tied(m.name, n.name, less) {
      var i, j :| 0 <= i < j < |x| && x[i] == m && x[j] == n;
      forall k, l | 0 <= k < |y| && 0 <= l < |y| && y[k] == m && y[l] == n ensures k < l {
        assert KeptAt(x, y, less, i, j, k, l);
      }
      assert !Before(y, n, m);
    }
  }

  lemma SortedAlike(x: seq<Member>, y: seq<Member>, less: (string, string) -> bool)
    requires StrictWeak(less) && DistinctNames(x) && DistinctNames(y) && TiesKept(x, y, less)
    requires forall m :: m in x <==> m in y
    ensures Sort(x, less) == Sort(y, less)
  {
    var s, t := Sort(x, less), Sort(y, less);
    SortMembers(x, less);
    SortMembers(y, less);
    SortOrdered(x, less);
    SortOrdered(y, less);
    SortDistinct(x, less);
    SortDistinct(y, less);
    forall i, j | 0 <= i < j < |s| ensures !Before(t, s[j], s[i]) {
      NeverSwapped(x, y, s[i], s[j], less);
    }
    SameOrder(s, t);
  }

  /** In a list without repetition each member has its place. */
  lemma AtPlace(s: seq<Member>, x: Member, k: nat)
    requires DistinctNames(s) && x in s && k < |s| && s[k].name == x.name
    ensures s[k] == x
  {
  }

  lemma BeforeAt(s: seq<Member>, i: nat, j: nat)
    requires DistinctNames(s) && i < |s| && j < |s|
    ensures Before(s, s[i], s[j]) <==> i < j
  {
  }

  lemma TieKept(x: seq<Member>, y: seq<Member>, s: seq<Member>, i: nat, j: nat, k: nat, l: nat,
          less: (string, string) -> bool)
    requires StrictWeak(less) && DistinctNames(x) && DistinctNames(y) && Ordered(x, s, less) && Ordered(y, s, less)
    requires i < j < |x| && k < |y| && l < |y| && x[i] == y[k] && x[j] == y[l] && x[i] in s && x[j] in s
    requires Tied(x[i].name, x[j].name, less)
    ensures k < l
  {
    BeforeAt(x, j, i);
    BeforeAt(y, k, l);
    var p :| 0 <= p < |s| && s[p] == x[i];
    var q :| 0 <= q < |s| && s[q] == x[j];
    assert p < q;
    assert Precedes(y, s[p], s[q], less);
  }

  lemma SortedKeepsTies(x: seq<Member>, y: seq<Member>, less: (string, string) -> bool)
    requires StrictWeak(less) && DistinctNames(x) && DistinctNames(y) && Sort(x, less) == Sort(y, less)
    ensures TiesKept(x, y, less)
  {
    SortMembers(x, less);
    SortMembers(y, less);
    SortOrdered(x, less);
    SortOrdered(y, less);
    forall i: int, j: int, k: int, l: int ensures KeptAt(x, y, less, i, j, k, l) {
      if 0 <= i < j < |x| && 0 <= k < |y| && 0 <= l < |y| && x[i].name == y[k].name && x[j].name == y[l].name
         && Tied(x[i].name, x[j].name, less)
      {
        assert x[i] in x && x[j] in x;
        AtPlace(y, x[i], k);
        AtPlace(y, x[j], l);
        TieKept(x, y, Sort(x, less), i, j, k, l, less);
      }
    }
  }

  lemma {:induction false} CanonicalWellFormed(v: Json, less: (string, string) -> bool)
    requires WellFormed(v)
    ensures WellFormed(Canonical(v, less))
    decreases v
  {
    match v {
      case Array(items) =>
        forall i | 0 <= i < |items| ensures WellFormed(Canonical(items[i], less)) {
          CanonicalWellFormed(items[i], less);
        }
      case Object(members) =>
        var canonical := CanonicalMembers(members, less);
        SortMembers(canonical, less);
        SortDistinct(canonical, less);
        var sorted := Sort(canonical, less);
        forall i | 0 <= i < |sorted| ensures WellFormed(sorted[i].value) {
          assert sorted[i] in canonical;
          var k :| 0 <= k < |canonical| && canonical[k] == sorted[i];
          CanonicalWellFormed(members[k].value, less);
        }
      case _ =>
    }
  }

  /** Equal up to member order, but for the order of tied members. */
  ghost predicate Alike(a: Json, b: Json, less: (string, string) -> bool) {
    Same(a, b) && TiesAgree(a, b, less)
  }

  /** Canonical forms are equal exactly for values that differ in the order of untied members only. */
  lemma {:induction false} CanonicalIffAlike(a: Json, b: Json, less: (string, string) -> bool)
    requires WellFormed(a) && WellFormed(b) && StrictWeak(less)
    ensures Canonical(a, less) == Canonical(b, less) <==> Alike(a, b, less)
    decreases a, 1
  {
    match a {
      case Array(items) =>
        if b.Array? && |items| == |b.items| {
          forall i | 0 <= i < |items|
            ensures Canonical(items[i], less) == Canonical(b.items[i], less) <==> Alike(items[i], b.items[i], less)
          {
            CanonicalIffAlike(items[i], b.items[i], less);
          }
          if Alike(a, b, less) {
            assert forall i :: 0 <= i < |items| ==> Alike(items[i], b.items[i], less);
            assert CanonicalItems(items, less) == CanonicalItems(b.items, less);
          }
          if Canonical(a, less) == Canonical(b, less) {
            forall i | 0 <= i < |items| ensures Alike(items[i], b.items[i], less) {
              assert CanonicalItems(items, less)[i] == CanonicalItems(b.items, less)[i];
            }
          }
        } else if b.Array? {
          assert |CanonicalItems(items, less)| != |CanonicalItems(b.items, less)|;
        }
      case Object(members) => if b.Object? { ObjectIffAlike(members, b.members, less); }
      case _ =>
    }
  }

  ghost predicate AlikeMember(m: Member, n: Member, less: (string, string) -> bool) {
    m.name == n.name && Alike(m.value, n.value, less)
  }

  /** `x` and `y` stand for `a` and `b`, and their members are equal where these are alike. */
  ghost predicate Stands(a: seq<Member>, b: seq<Member>, x: seq<Member>, y: seq<Member>,
                         less: (string, string) -> bool) {
    && |x| == |a| && |y| == |b|
    && (forall i :: 0 <= i < |a| ==> x[i].name == a[i].name)
    && (forall j :: 0 <= j < |b| ==> y[j].name == b[j].name)
    && (forall i, j :: 0 <= i < |a| && 0 <= j < |b| ==> (x[i] == y[j] <==> AlikeMember(a[i], b[j], less)))
  }

  lemma StandsForTies(a: seq<Member>, b: seq<Member>, x: seq<Member>, y: seq<Member>, less: (string, string) -> bool)
    requires Stands(a, b, x, y, less)
    ensures TiesKept(a, b, less) <==> TiesKept(x, y, less)
  {
    forall i: int, j: int, k: int, l: int
      ensures KeptAt(a, b, less, i, j, k, l) <==> KeptAt(x, y, less, i, j, k, l)
    {
    }
    if TiesKept(a, b, less) {
      forall i: int, j: int, k: int, l: int ensures KeptAt(x, y, less, i, j, k, l) {
        assert KeptAt(a, b, less, i, j, k, l);
      }
    }
    if TiesKept(x, y, less) {
      forall i: int, j: int, k: int, l: int ensures KeptAt(a, b, less, i, j, k, l) {
        assert KeptAt(x, y, less, i, j, k, l);
      }
    }
  }

  lemma AlikeMembers(a: seq<Member>, b: seq<Member>, x: seq<Member>, y: seq<Member>, less: (string, string) -> bool)
    requires Stands(a, b, x, y, less) && Alike(Object(a), Object(b), less)
    ensures forall m :: m in x <==> m in y
  {
    forall m ensures m in x <==> m in y {
      if m in x {
        var i :| 0 <= i < |x| && x[i] == m;
        assert HasPartner(a[i], b);
        var j :| 0 <= j < |b| && SameMember(a[i], b[j]);
        assert AlikeMember(a[i], b[j], less) && y[j] == x[i];
      }
      if m in y {
        var j :| 0 <= j < |y| && y[j] == m;
        assert IsPartner(a, b[j]);
        var i :| 0 <= i < |a| && SameMember(a[i], b[j]);
        assert AlikeMember(a[i], b[j], less) && x[i] == y[j];
      }
    }
  }

  lemma EqualMembersMatch(a: seq<Member>, b: seq<Member>, x: seq<Member>, y: seq<Member>,
          less: (string, string) -> bool)
    requires Stands(a, b, x, y, less) && forall m :: m in x <==> m in y
    ensures Same(Object(a), Object(b))
  {
    forall i | 0 <= i < |a| ensures HasPartner(a[i], b) {
      assert x[i] in y;
      var j :| 0 <= j < |y| && y[j] == x[i];
      assert AlikeMember(a[i], b[j], less) && SameMember(a[i], b[j]);
    }
    forall j | 0 <= j < |b| ensures IsPartner(a, b[j]) {
      assert y[j] in x;
      var i :| 0 <= i < |x| && x[i] == y[j];
      assert AlikeMember(a[i], b[j], less) && SameMember(a[i], b[j]);
    }
  }

  lemma EqualMembersAgree(a: seq<Member>, b: seq<Member>, x: seq<Member>, y: seq<Member>,
          i: nat, j: nat, less: (string, string) -> bool)
    requires Stands(a, b, x, y, less) && DistinctNames(b)
    requires i < |a| && j < |b| && a[i].name == b[j].name && x[i] in y
    ensures TiesAgree(a[i].value, b[j].value, less)
  {
    var k :| 0 <= k < |y| && y[k] == x[i];
    assert AlikeMember(a[i], b[k], less);
    assert k == j;
  }

  lemma EqualMembers(a: seq<Member>, b: seq<Member>, x: seq<Member>, y: seq<Member>, less: (string, string) -> bool)
    requires Stands(a, b, x, y, less) && DistinctNames(b) && TiesKept(a, b, less)
    requires forall m :: m in x <==> m in y
    ensures Alike(Object(a), Object(b), less)
  {
    EqualMembersMatch(a, b, x, y, less);
    forall i, j | 0 <= i < |a| && 0 <= j < |b| && a[i].name == b[j].name
      ensures TiesAgree(a[i].value, b[j].value, less)
    {
      assert x[i] in x;
      EqualMembersAgree(a, b, x, y, i, j, less);
    }
  }

  lemma {:induction false} ObjectIffAlike(a: seq<Member>, b: seq<Member>, less: (string, string) -> bool)
    requires WellFormed(Object(a)) && WellFormed(Object(b)) && StrictWeak(less)
    ensures
      Sort(CanonicalMembers(a, less), less) == Sort(CanonicalMembers(b, less), less) <==>
      Alike(Object(a), Object(b), less)
    decreases a, 3
  {
    var x, y := CanonicalMembers(a, less), CanonicalMembers(b, less);
    forall i, j | 0 <= i < |a| && 0 <= j < |b| ensures x[i] == y[j] <==> AlikeMember(a[i], b[j], less) {
      CanonicalIffAlike(a[i].value, b[j].value, less);
    }
    StandsForTies(a, b, x, y, less);
    if Alike(Object(a), Object(b), less) {
      AlikeMembers(a, b, x, y, less);
      SortedAlike(x, y, less);
    } else if Sort(x, less) == Sort(y, less) {
      SortMembers(x, less);
      SortMembers(y, less);
      SortedKeepsTies(x, y, less);
      EqualMembers(a, b, x, y, less);
    }
  }

  /** Two values get the same key exactly when they are equal up to the order of members whose names are not tied. */
  lemma OperationKeyIffAlike(a: Json, b: Json, less: (string, string) -> bool)
    requires WellFormed(a) && WellFormed(b) && StrictWeak(less)
    ensures OperationKey(a, less) == OperationKey(b, less) <==> Alike(a, b, less)
  {
    CanonicalIffAlike(a, b, less);
    CanonicalWellFormed(a, less);
    CanonicalWellFormed(b, less);
    if OperationKey(a, less) == OperationKey(b, less) {
      assert OperationKey(a, less) + "" == OperationKey(a, less) && OperationKey(b, less) + "" == OperationKey(b, less);
      TextInjective(Canonical(a, less), "", Canonical(b, less), "");
    }
  }

  // When the order of members does not matter at all.

  lemma {:induction false} NoTiesAgree(a: Json, b: Json, less: (string, string) -> bool)
    requires NoTies(a, less)
    ensures TiesAgree(a, b, less)
    decreases a
  {
    match a {
      case Array(items) =>
        if b.Array? {
          forall i | 0 <= i < |items| && i < |b.items| ensures TiesAgree(items[i], b.items[i], less) {
            NoTiesAgree(items[i], b.items[i], less);
          }
        }
      case Object(members) =>
        if b.Object? {
          forall i, j | 0 <= i < |members| && 0 <= j < |b.members|
            ensures TiesAgree(members[i].value, b.members[j].value, less)
          {
            NoTiesAgree(members[i].value, b.members[j].value, less);
          }
        }
      case _ =>
    }
  }

  lemma {:induction false} SameReflexive(v: Json)
    ensures Same(v, v)
    decreases v
  {
    match v {
      case Array(items) => forall i | 0 <= i < |items| ensures Same(items[i], items[i]) { SameReflexive(items[i]); }
      case Object(members) =>
        forall i | 0 <= i < |members| ensures HasPartner(members[i], members) && IsPartner(members, members[i]) {
          SameReflexive(members[i].value);
          assert SameMember(members[i], members[i]);
        }
      case _ =>
    }
  }

  /** One item replaced by one that is the same. */
  lemma ItemReplaced(items: seq<Json>, k: nat, item: Json)
    requires k < |items| && Same(items[k], item)
    ensures Same(Array(items), Array(items[k := item]))
  {
    forall i | 0 <= i < |items| ensures Same(items[i], items[k := item][i]) { SameReflexive(items[i]); }
  }

  /** Members permuted, each replaced by one that is the same. */
  lemma MembersPermuted(a: seq<Member>, b: seq<Member>, to: nat -> nat)
    requires |a| == |b| && forall i: nat :: i < |a| ==> to(i) < |a| && to(to(i)) == i && SameMember(a[i], b[to(i)])
    ensures Same(Object(a), Object(b))
  {
    forall i: nat | i < |a| ensures HasPartner(a[i], b) && IsPartner(a, b[i]) {
      assert SameMember(a[i], b[to(i)]) && SameMember(a[to(i)], b[to(to(i))]);
    }
  }

  lemma SwappedNames(members: seq<Member>, i: nat, j: nat)
    requires i < j < |members| && DistinctNames(members)
    ensures DistinctNames(members[i := members[j]][j := members[i]])
  {
  }

  /** Two tied members swapped. */
  lemma SwapTied(members: seq<Member>, i: nat, j: nat, less: (string, string) -> bool) returns (w: Json)
    requires WellFormed(Object(members)) && i < j < |members| && Tied(members[i].name, members[j].name, less)
    ensures WellFormed(w) && Same(Object(members), w) && !TiesAgree(Object(members), w, less)
  {
    var swapped := members[i := members[j]][j := members[i]];
    w := Object(swapped);
    SwappedNames(members, i, j);
    var to := (n: nat) => if n == i then j else if n == j then i else n;
    forall n: nat | n < |members| ensures SameMember(members[n], swapped[to(n)]) {
      SameReflexive(members[n].value);
    }
    MembersPermuted(members, swapped, to);
    assert !KeptAt(members, swapped, less, i, j, j, i);
  }

  /** One member's value replaced by a counterpart. */
  lemma ReplaceValue(members: seq<Member>, k: nat, value: Json, less: (string, string) -> bool) returns (w: Json)
    requires WellFormed(Object(members)) && k < |members|
    requires WellFormed(value) && Same(members[k].value, value) && !TiesAgree(members[k].value, value, less)
    ensures WellFormed(w) && Same(Object(members), w) && !TiesAgree(Object(members), w, less)
  {
    var replaced := members[k := Member(members[k].name, value)];
    w := Object(replaced);
    forall n: nat | n < |members| ensures SameMember(members[n], replaced[n]) {
      SameReflexive(members[n].value);
    }
    MembersPermuted(members, replaced, (n: nat) => n);
    assert !TiesAgree(members[k].value, replaced[k].value, less);
  }

  /** A value with tied names has a counterpart that differs in member order only, yet in that of tied members. */
  lemma {:induction false} TiesMatter(v: Json, less: (string, string) -> bool) returns (w: Json)
    requires WellFormed(v) && !NoTies(v, less)
    ensures WellFormed(w) && Same(v, w) && !TiesAgree(v, w, less)
    decreases v
  {
    match v {
      case Array(items) =>
        var k :| 0 <= k < |items| && !NoTies(items[k], less);
        var item := TiesMatter(items[k], less);
        w := Array(items[k := item]);
        ItemReplaced(items, k, item);
        assert !TiesAgree(items[k], w.items[k], less);
      case Object(members) =>
        if i, j :| 0 <= i < j < |members| && Tied(members[i].name, members[j].name, less) {
          w := SwapTied(members, i, j, less);
        } else {
          var k :| 0 <= k < |members| && !NoTies(members[k].value, less);
          var value := TiesMatter(members[k].value, less);
          w := ReplaceValue(members, k, value, less);
        }
    }
  }

  /** Every value that differs in member order only has the same key, exactly if no object has two tied names. */
  lemma MemberOrderIsFree(a: Json, less: (string, string) -> bool)
    requires WellFormed(a) && StrictWeak(less)
    ensures NoTies(a, less) <==>
      forall b :: WellFormed(b) && Same(a, b) ==> OperationKey(a, less) == OperationKey(b, less)
  {
    if NoTies(a, less) {
      forall b | WellFormed(b) && Same(a, b) ensures OperationKey(a, less) == OperationKey(b, less) {
        NoTiesAgree(a, b, less);
        OperationKeyIffAlike(a, b, less);
      }
    } else {
      var b := TiesMatter(a, less);
      OperationKeyIffAlike(a, b, less);
    }
  }

  /** Two values without tied names get the same key exactly when they are equal up to member order. */
  lemma OperationKeyIffSame(a: Json, b: Json, less: (string, string) -> bool)
    requires WellFormed(a) && WellFormed(b) && StrictWeak(less) && NoTies(a, less)
    ensures OperationKey(a, less) == OperationKey(b, less) <==> Same(a, b)
  {
    NoTiesAgree(a, b, less);
    OperationKeyIffAlike(a, b, less);
  }

  /** Composed and decomposed `e` with an acute accent: `localeCompare` calls these names equal. */
  lemma EquivalentNames(less: (string, string) -> bool) returns (a: Json, b: Json)
    requires StrictWeak(less) && Tied("\U{E9}", "e\U{301}", less)
    ensures WellFormed(a) && WellFormed(b) && Same(a, b) && OperationKey(a, less) != OperationKey(b, less)
  {
    var composed, decomposed := Member("\U{E9}", Null), Member("e\U{301}", Null);
    a, b := Object([composed, decomposed]), Object([decomposed, composed]);
    assert |composed.name| != |decomposed.name|;
    assert SameMember(composed, composed) && SameMember(decomposed, decomposed);
    assert a.members[0] == b.members[1] && a.members[1] == b.members[0];
    assert HasPartner(composed, b.members) && HasPartner(decomposed, b.members);
    assert IsPartner(a.members, composed) && IsPartner(a.members, decomposed);
    assert !KeptAt(a.members, b.members, less, 0, 1, 1, 0);
    OperationKeyIffAlike(a, b, less);
  }

  /** The key of a query: its document and its variables, absent ones as null. */
  function QueryKey(document: string, variables: Option<Json>, less: (string, string) -> bool): string {
    OperationKey(Array([String(document), if variables.Some? then variables.value else Null]), less)
  }

  /** Queries are shared exactly when document and variables agree; absent variables are null. */
  lemma QueryKeyIffAlike(d: string, v: Option<Json>, e: string, w: Option<Json>, less: (string, string) -> bool)
    requires (v.Some? ==> WellFormed(v.value)) && (w.Some? ==> WellFormed(w.value)) && StrictWeak(less)
    ensures QueryKey(d, v, less) == QueryKey(e, w, less) <==>
      d == e && Alike(if v.Some? then v.value else Null, if w.Some? then w.value else Null, less)
  {
    var a := Array([String(d), if v.Some? then v.value else Null]);
    var b := Array([String(e), if w.Some? then w.value else Null]);
    OperationKeyIffAlike(a, b, less);
    assert Same(a, b) <==> Same(a.items[0], b.items[0]) && Same(a.items[1], b.items[1]);
    assert TiesAgree(a, b, less) <==>
      TiesAgree(a.items[0], b.items[0], less) && TiesAgree(a.items[1], b.items[1], less);
  }

  /** `JSON.stringify([first, second])`, the key of a cached or grouped pair. */
  function PairKey(first: string, second: string): string {
    Text(Array([String(first), String(second)]))
  }

  lemma PairKeyInjective(a: string, b: string, c: string, d: string)
    ensures PairKey(a, b) == PairKey(c, d) <==> a == c && b == d
  {
    if PairKey(a, b) == PairKey(c, d) {
      assert PairKey(a, b) + "" == PairKey(a, b) && PairKey(c, d) + "" == PairKey(c, d);
      var x, y := Array([String(a), String(b)]), Array([String(c), String(d)]);
      TextInjective(x, "", y, "");
      assert x.items[0] == y.items[0] && x.items[1] == y.items[1];
    }
  }
}
