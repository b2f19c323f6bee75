/** The canonical JSON text that decides whether compiled artifacts are stale
    (crates/puffer-automation/src/hash.rs). Objects keep the order their fields were
    inserted in; the printer sorts the keys. */
module CanonicalJson {
  import opened Text

  datatype Field = Field(key: string, value: Json)

  /** A number is the token the serializer prints for it. */
  datatype Json =
    | Null
    | Bool(value: bool)
    | Number(token: string)
    | Str(text: string)
    | Array(items: seq<Json>)
    | Object(fields: seq<Field>)

  // ---- Well-formed values and equality of meaning --------------------------------

  predicate IsNumberChar(c: char) {
    '0' <= c <= '9' || c in "-+.eE"
  }

  /** Number tokens of section 6 of RFC 8259 start with a digit or a minus sign. */
  predicate IsNumberToken(t: string) {
    t != "" && ('0' <= t[0] <= '9' || t[0] == '-') && forall i | 0 <= i < |t| :: IsNumberChar(t[i])
  }

  function Keys(fields: seq<Field>): set<string> {
    set f | f in fields :: f.key
  }

  function FieldKey(f: Field): string { f.key }

  function KeyList(fields: seq<Field>): (keys: seq<string>)
    ensures |keys| == |fields| && forall i | 0 <= i < |keys| :: keys[i] == fields[i].key
  {
    KeysOf(fields, FieldKey)
  }

  predicate WellFormed(v: Json) {
    match v
    case Number(token) => IsNumberToken(token)
    case Array(items) => forall x | x in items :: WellFormed(x)
    case Object(fields) => Distinct(KeyList(fields)) && forall f | f in fields :: WellFormed(f.value)
    case _ => true
  }

  /** Equal as values: arrays item by item, objects key by key in any order. */
  predicate Same(a: Json, b: Json) {
    match (a, b)
    case (Array(xs), Array(ys)) =>
      |xs| == |ys| && forall i | 0 <= i < |xs| :: Same(xs[i], ys[i])
    case (Object(fs), Object(gs)) =>
      Keys(fs) == Keys(gs) && forall f, g | f in fs && g in gs && f.key == g.key :: Same(f.value, g.value)
    case (_, _) => a == b
  }

  // ---- The printer, as a function -------------------------------------------------

  function Hex(d: nat): char
    requires d < 16
  {
    "0123456789abcdef"[d]
  }

  /** String escapes of section 7 of RFC 8259, in the short forms the serializer picks. */
  function Escape(c: char): string {
    if c == '"' then "\\\""
    else if c == '\\' then "\\\\"
    else if c == '\U{8}' then "\\b"
    else if c == '\U{9}' then "\\t"
    else if c == '\U{A}' then "\\n"
    else if c == '\U{C}' then "\\f"
    else if c == '\U{D}' then "\\r"
    else if c < ' ' then "\\u00" + [Hex(c as int / 16), Hex(c as int % 16)]
    else [c]
  }

  function EscapeAll(s: string): string {
    if s == "" then "" else Escape(s[0]) + EscapeAll(s[1..])
  }

  function Quote(s: string): string {
    "\"" + EscapeAll(s) + "\""
  }

  function Lookup(fields: seq<Field>, key: string): (v: Json)
    requires key in Keys(fields)
    ensures Field(key, v) in fields
  {
    if fields[0].key == key then fields[0].value else Lookup(fields[1..], key)
  }

  function SortedKeys(fields: seq<Field>): (keys: seq<string>)
    ensures multiset(keys) == multiset(KeyList(fields))
    ensures forall k :: k in keys <==> k in Keys(fields)
  {
    var keys := SortBy(KeyList(fields), Itself);
    InMultiset(keys, KeyList(fields));
    assert forall f | f in fields :: f.key in KeyList(fields);
    keys
  }

  function Canonical(v: Json): string
    decreases v
  {
    match v
    case Null => "null"
    case Bool(b) => if b then "true" else "false"
    case Number(token) => token
    case Str(text) => Quote(text)
    case Array(items) => "[" + Items(items) + "]"
    case Object(fields) => "{" + Members(v, SortedKeys(fields)) + "}"
  }

  function Items(items: seq<Json>): string
    decreases items
  {
    if items == [] then "" else Canonical(items[0]) + ItemsTail(items[1..])
  }

  function ItemsTail(items: seq<Json>): string
    decreases items
  {
    if items == [] then "" else "," + Canonical(items[0]) + ItemsTail(items[1..])
  }

  predicate HasKeys(v: Json, keys: seq<string>) {
    v.Object? && forall k | k in keys :: k in Keys(v.fields)
  }

  function Member(v: Json, key: string): string
    requires v.Object? && key in Keys(v.fields)
    decreases v, 0
  {
    var value := Lookup(v.fields, key);
    assert Field(key, value) in v.fields;
    Quote(key) + ":" + Canonical(value)
  }

  function Members(v: Json, keys: seq<string>): string
    requires HasKeys(v, keys)
    decreases v, |keys|
  {
    if keys == [] then "" else Member(v, keys[0]) + MembersTail(v, keys[1..])
  }

  function MembersTail(v: Json, keys: seq<string>): string
    requires HasKeys(v, keys)
    decreases v, |keys|
  {
    if keys == [] then "" else "," + Member(v, keys[0]) + MembersTail(v, keys[1..])
  }

  // ---- The printer, as the loops that append to a buffer --------------------------

  method PrintCanonical(v: Json) returns (out: string)
    ensures out == Canonical(v)
    decreases v
  {
    match v {
      case Null => out := "null";
      case Bool(b) => out := if b then "true" else "false";
      case Number(token) => out := token;
      case Str(text) => out := Quote(text);
      case Array(items) => out := PrintArray(items);
      case Object(fields) => out := PrintObject(v);
    }
  }

  lemma Appended(before: string, comma: string, item: string, rest: string)
    ensures (before + comma + item) + rest == before + (comma + item + rest)
    ensures comma == "" ==> (before + comma + item) + rest == before + (item + rest)
  {
    assert (before + comma + item) + rest == before + (comma + item + rest);
    if comma == "" { assert comma + item == item; }
  }

  lemma ItemsStep(items: seq<Json>, idx: nat, before: string)
    requires idx < |items|
    ensures (before + (if idx > 0 then "," else "") + Canonical(items[idx])) + ItemsTail(items[idx + 1..])
         == before + (if idx == 0 then Items(items) else ItemsTail(items[idx..]))
  {
    assert items[idx..][0] == items[idx] && items[idx..][1..] == items[idx + 1..];
    Appended(before, if idx > 0 then "," else "", Canonical(items[idx]), ItemsTail(items[idx + 1..]));
  }

  method PrintArray(items: seq<Json>) returns (out: string)
    ensures out == "[" + Items(items) + "]"
    decreases items
  {
    out := "[";
    for idx := 0 to |items|
      invariant out + (if idx == 0 then Items(items) else ItemsTail(items[idx..])) == "[" + Items(items)
    {
      ghost var before := out;
      if idx > 0 { out := out + ","; }
      var item := PrintCanonical(items[idx]);
      out := out + item;
      ItemsStep(items, idx, before);
    }
    out := out + "]";
  }

  method PrintMember(v: Json, key: string) returns (out: string)
    requires v.Object? && key in Keys(v.fields)
    ensures out == Member(v, key)
    decreases v, 0
  {
    var value := Lookup(v.fields, key);
    assert Field(key, value) in v.fields;
    var text := PrintCanonical(value);
    out := Quote(key) + ":" + text;
  }

  lemma Associates(a: string, b: string, c: string)
    ensures (a + b) + c == a + (b + c)
  {
  }

  lemma Regroup(a: string, b: string, c: string, d: string)
    ensures ((a + b) + c) + d == a + ((b + c) + d)
  {
  }

  lemma Enclosed(open: string, m: string, close: string, s: string)
    ensures ((open + m) + close) + s == open + (m + (close + s))
  {
  }

  lemma MembersStep(v: Json, keys: seq<string>, idx: nat, before: string)
    requires HasKeys(v, keys) && idx < |keys|
    ensures (before + (if idx > 0 then "," else "") + Member(v, keys[idx])) + MembersTail(v, keys[idx + 1..])
         == before + (if idx == 0 then Members(v, keys) else MembersTail(v, keys[idx..]))
  {
    assert keys[idx..][0] == keys[idx] && keys[idx..][1..] == keys[idx + 1..];
    Appended(before, if idx > 0 then "," else "", Member(v, keys[idx]), MembersTail(v, keys[idx + 1..]));
  }

  method PrintObject(v: Json) returns (out: string)
    requires v.Object?
    ensures out == "{" + Members(v, SortedKeys(v.fields)) + "}"
    decreases v, 1
  {
    hide Members, MembersTail, Member, Quote;
    var keys := SortedKeys(v.fields);
    NoMembers(v);
    out := "{";
    for idx := 0 to |keys|
      invariant out + (if idx == 0 then Members(v, keys) else MembersTail(v, keys[idx..])) == "{" + Members(v, keys)
    {
      ghost var before := out;
      if idx > 0 { out := out + ","; }
      var member := PrintMember(v, keys[idx]);
      out := out + member;
      MembersStep(v, keys, idx, before);
    }
    assert keys[|keys|..] == [] && out + "" == out;
    out := out + "}";
  }

  lemma NoMembers(v: Json)
    requires v.Object?
    ensures Members(v, []) == "" && MembersTail(v, []) == ""
  {
  }

  // ---- Reading the text back ------------------------------------------------------

  /** What may follow a value inside a larger text. */
  predicate Stops(s: string) {
    s == "" || s[0] in ",]}"
  }

  lemma CancelPrefix(p: string, u: string, v: string)
    requires p + u == p + v
    ensures u == v
  {
    assert u == (p + u)[|p|..];
    assert v == (p + v)[|p|..];
  }

  function HexValue(h: char): nat {
    if '0' <= h <= '9' then h as int - '0' as int
    else if 'a' <= h <= 'f' then h as int - 'a' as int + 10
    else 0
  }

  /** The character at the front of an escaped text, and the length of its escape. */
  function ReadEscape(t: string): (char, nat)
    requires t != ""
  {
    if t[0] != '\\' || |t| < 2 then (t[0], 1)
    else if t[1] == 'b' then ('\U{8}', 2)
    else if t[1] == 't' then ('\U{9}', 2)
    else if t[1] == 'n' then ('\U{A}', 2)
    else if t[1] == 'f' then ('\U{C}', 2)
    else if t[1] == 'r' then ('\U{D}', 2)
    else if t[1] == 'u' && |t| >= 6 then ((16 * HexValue(t[4]) + HexValue(t[5])) as char, 6)
    else (t[1], 2)
  }

  lemma HexReads(d: nat)
    requires d < 16
    ensures HexValue(Hex(d)) == d
  {
  }

  lemma EscapeReads(c: char, u: string)
    ensures ReadEscape(Escape(c) + u) == (c, |Escape(c)|)
    ensures Escape(c)[0] != '"'
  {
    var t := Escape(c) + u;
    assert t[0] == Escape(c)[0];
    if |Escape(c)| == 2 {
      assert t[1] == Escape(c)[1];
    } else if |Escape(c)| == 6 {
      assert t[1] == Escape(c)[1] && t[4] == Escape(c)[4] && t[5] == Escape(c)[5];
      HexReads(c as int / 16);
      HexReads(c as int % 16);
    }
  }

  lemma QuoteEnds(x: string, s: string)
    ensures x == "" <==> (EscapeAll(x) + ("\"" + s))[0] == '"'
  {
    if x != "" {
      EscapeReads(x[0], "");
      assert (EscapeAll(x) + ("\"" + s))[0] == Escape(x[0])[0];
    }
  }

  lemma EscapeTextSplits(x: string, s: string)
    requires x != ""
    ensures EscapeAll(x) + ("\"" + s) == Escape(x[0]) + (EscapeAll(x[1..]) + ("\"" + s))
  {
    Associates(Escape(x[0]), EscapeAll(x[1..]), "\"" + s);
  }

  lemma {:induction false} EscapesRead(x: string, y: string, s: string, t: string)
    requires EscapeAll(x) + ("\"" + s) == EscapeAll(y) + ("\"" + t)
    ensures x == y && s == t
  {
    QuoteEnds(x, s);
    QuoteEnds(y, t);
    if x == "" {
      assert EscapeAll(x) + ("\"" + s) == "\"" + s && EscapeAll(y) + ("\"" + t) == "\"" + t;
      CancelPrefix("\"", s, t);
    } else {
      var u, v := EscapeAll(x[1..]) + ("\"" + s), EscapeAll(y[1..]) + ("\"" + t);
      EscapeTextSplits(x, s);
      EscapeTextSplits(y, t);
      EscapeReads(x[0], u);
      EscapeReads(y[0], v);
      CancelPrefix(Escape(x[0]), u, v);
      EscapesRead(x[1..], y[1..], s, t);
      assert x == [x[0]] + x[1..] && y == [y[0]] + y[1..];
    }
  }

  lemma QuoteReads(x: string, y: string, s: string, t: string)
    requires Quote(x) + s == Quote(y) + t
    ensures x == y && s == t
  {
    var u, v := EscapeAll(x) + ("\"" + s), EscapeAll(y) + ("\"" + t);
    assert Quote(x) + s == "\"" + u && Quote(y) + t == "\"" + v;
    CancelPrefix("\"", u, v);
    EscapesRead(x, y, s, t);
  }

  lemma NumberReads(x: string, y: string, s: string, t: string)
    requires IsNumberToken(x) && IsNumberToken(y) && Stops(s) && Stops(t)
    requires x + s == y + t
    ensures x == y && s == t
  {
    var l, r := x + s, y + t;
    assert forall i | 0 <= i < |x| :: IsNumberChar(l[i]);
    assert forall i | 0 <= i < |y| :: IsNumberChar(r[i]);
    assert s != "" ==> l[|x|] == s[0] && !IsNumberChar(l[|x|]);
    assert t != "" ==> r[|y|] == t[0] && !IsNumberChar(r[|y|]);
    assert |x| == |y|;
    assert l[..|x|] == x && r[..|y|] == y;
    CancelPrefix(x, s, t);
  }

  /** The first character tells the kind of a value. */
  function Head(v: Json): char
    requires WellFormed(v)
  {
    match v
    case Null => 'n'
    case Bool(b) => if b then 't' else 'f'
    case Number(token) => token[0]
    case Str(_) => '"'
    case Array(_) => '['
    case Object(_) => '{'
  }

  lemma HeadReads(v: Json)
    requires WellFormed(v)
    ensures Canonical(v) != "" && Canonical(v)[0] == Head(v)
  {
  }

  lemma SameHead(a: Json, b: Json, s: string, t: string)
    requires WellFormed(a) && WellFormed(b) && Canonical(a) + s == Canonical(b) + t
    ensures Head(a) == Head(b)
  {
    HeadReads(a);
    HeadReads(b);
    assert (Canonical(a) + s)[0] == Head(a) && (Canonical(b) + t)[0] == Head(b);
  }

  lemma {:induction false} ReadBack(a: Json, b: Json, s: string, t: string)
    requires WellFormed(a) && WellFormed(b) && Stops(s) && Stops(t)
    requires Canonical(a) + s == Canonical(b) + t
    ensures Same(a, b) && s == t
    decreases a
  {
    SameHead(a, b, s, t);
    match a {
      case Number(x) => NumberReads(x, b.token, s, t);
      case Str(x) => QuoteReads(x, b.text, s, t);
      case Array(xs) => ArraysRead(xs, b.items, s, t);
      case Object(fs) => ObjectsRead(a, b, s, t);
      case _ => CancelPrefix(Canonical(a), s, t);
    }
  }

  ghost predicate SameItems(xs: seq<Json>, ys: seq<Json>) {
    |xs| == |ys| && forall i | 0 <= i < |xs| :: Same(xs[i], ys[i])
  }

  lemma ItemsEnd(xs: seq<Json>, s: string)
    requires WellFormed(Array(xs))
    ensures xs == [] <==> (Items(xs) + ("]" + s))[0] == ']'
    ensures xs == [] <==> (ItemsTail(xs) + ("]" + s))[0] == ']'
    ensures xs != [] ==> (ItemsTail(xs) + ("]" + s))[0] == ','
  {
    if xs != [] {
      HeadReads(xs[0]);
      assert (Items(xs) + ("]" + s))[0] == Head(xs[0]);
    }
  }

  lemma {:induction false} ArraysRead(xs: seq<Json>, ys: seq<Json>, s: string, t: string)
    requires WellFormed(Array(xs)) && WellFormed(Array(ys)) && Stops(s) && Stops(t)
    requires ("[" + Items(xs) + "]") + s == ("[" + Items(ys) + "]") + t
    ensures SameItems(xs, ys) && s == t
    decreases xs, 1
  {
    var u, v := Items(xs) + ("]" + s), Items(ys) + ("]" + t);
    Enclosed("[", Items(xs), "]", s);
    Enclosed("[", Items(ys), "]", t);
    CancelPrefix("[", u, v);
    ItemsEnd(xs, s);
    ItemsEnd(ys, t);
    if xs == [] {
      assert u == "]" + s && v == "]" + t;
      CancelPrefix("]", s, t);
    } else {
      ItemPairReads(xs, ys, s, t);
    }
  }

  lemma {:induction false} ItemPairReads(xs: seq<Json>, ys: seq<Json>, s: string, t: string)
    requires xs != [] && ys != [] && WellFormed(Array(xs)) && WellFormed(Array(ys))
    requires (Canonical(xs[0]) + ItemsTail(xs[1..])) + ("]" + s) == (Canonical(ys[0]) + ItemsTail(ys[1..])) + ("]" + t)
    ensures SameItems(xs, ys) && s == t
    decreases xs, 0
  {
    var u, v := ItemsTail(xs[1..]) + ("]" + s), ItemsTail(ys[1..]) + ("]" + t);
    Associates(Canonical(xs[0]), ItemsTail(xs[1..]), "]" + s);
    Associates(Canonical(ys[0]), ItemsTail(ys[1..]), "]" + t);
    ItemsEnd(xs[1..], s);
    ItemsEnd(ys[1..], t);
    ReadBack(xs[0], ys[0], u, v);
    ItemsTailRead(xs[1..], ys[1..], s, t);
    forall i | 0 <= i < |xs| ensures Same(xs[i], ys[i]) {
      assert i > 0 ==> xs[i] == xs[1..][i - 1] && ys[i] == ys[1..][i - 1];
    }
  }

  lemma {:induction false} ItemsTailRead(xs: seq<Json>, ys: seq<Json>, s: string, t: string)
    requires WellFormed(Array(xs)) && WellFormed(Array(ys))
    requires ItemsTail(xs) + ("]" + s) == ItemsTail(ys) + ("]" + t)
    ensures SameItems(xs, ys) && s == t
    decreases xs, 1
  {
    var l, r := ItemsTail(xs) + ("]" + s), ItemsTail(ys) + ("]" + t);
    ItemsEnd(xs, s);
    ItemsEnd(ys, t);
    if xs == [] {
      assert l == "]" + s && r == "]" + t;
      CancelPrefix("]", s, t);
    } else {
      var u := (Canonical(xs[0]) + ItemsTail(xs[1..])) + ("]" + s);
      var v := (Canonical(ys[0]) + ItemsTail(ys[1..])) + ("]" + t);
      Regroup(",", Canonical(xs[0]), ItemsTail(xs[1..]), "]" + s);
      Regroup(",", Canonical(ys[0]), ItemsTail(ys[1..]), "]" + t);
      assert ItemsTail(xs) == "," + Canonical(xs[0]) + ItemsTail(xs[1..]);
      assert ItemsTail(ys) == "," + Canonical(ys[0]) + ItemsTail(ys[1..]);
      hide Canonical, ItemsTail, SameItems, WellFormed;
      CancelPrefix(",", u, v);
      ItemPairReads(xs, ys, s, t);
    }
  }

  ghost predicate SameAt(a: Json, b: Json, keys: seq<string>)
    requires HasKeys(a, keys) && HasKeys(b, keys)
  {
    forall k | k in keys :: Same(Lookup(a.fields, k), Lookup(b.fields, k))
  }

  lemma MemberSplits(a: Json, ks: seq<string>, s: string)
    requires HasKeys(a, ks) && ks != []
    ensures (Member(a, ks[0]) + MembersTail(a, ks[1..])) + ("}" + s)
         == Quote(ks[0]) + (":" + (Canonical(Lookup(a.fields, ks[0])) + (MembersTail(a, ks[1..]) + ("}" + s))))
  {
  }

  lemma MembersEnd(a: Json, ks: seq<string>, s: string)
    requires HasKeys(a, ks)
    ensures ks == [] <==> (Members(a, ks) + ("}" + s))[0] == '}'
    ensures (MembersTail(a, ks) + ("}" + s))[0] == (if ks == [] then '}' else ',')
  {
    if ks != [] { assert (Members(a, ks) + ("}" + s))[0] == '"'; }
  }

  lemma SameFrom(a: Json, b: Json, ks: seq<string>, ls: seq<string>)
    requires HasKeys(a, ks) && HasKeys(b, ls) && ks != [] && ls != [] && ks[0] == ls[0] && ks[1..] == ls[1..]
    requires Same(Lookup(a.fields, ks[0]), Lookup(b.fields, ls[0])) && SameAt(a, b, ks[1..])
    ensures ks == ls && SameAt(a, b, ks)
  {
    assert ks == [ks[0]] + ks[1..] && ls == [ls[0]] + ls[1..];
  }

  lemma {:induction false} MemberPairReads(a: Json, b: Json, ks: seq<string>, ls: seq<string>, s: string, t: string)
    requires WellFormed(a) && WellFormed(b) && HasKeys(a, ks) && HasKeys(b, ls) && ks != [] && ls != []
    requires (Member(a, ks[0]) + MembersTail(a, ks[1..])) + ("}" + s)
          == (Member(b, ls[0]) + MembersTail(b, ls[1..])) + ("}" + t)
    ensures ks == ls && SameAt(a, b, ks) && s == t
    decreases a, |ks|, 0
  {
    var u, v := MembersTail(a, ks[1..]) + ("}" + s), MembersTail(b, ls[1..]) + ("}" + t);
    var x, y := Lookup(a.fields, ks[0]), Lookup(b.fields, ls[0]);
    assert Field(ks[0], x) in a.fields && Field(ls[0], y) in b.fields;
    MemberSplits(a, ks, s);
    MemberSplits(b, ls, t);
    QuoteReads(ks[0], ls[0], ":" + (Canonical(x) + u), ":" + (Canonical(y) + v));
    CancelPrefix(":", Canonical(x) + u, Canonical(y) + v);
    MembersEnd(a, ks[1..], s);
    MembersEnd(b, ls[1..], t);
    ReadBack(x, y, u, v);
    MembersTailRead(a, b, ks[1..], ls[1..], s, t);
    hide Same, WellFormed, Canonical, MembersTail, Member, Lookup;
    SameFrom(a, b, ks, ls);
  }

  lemma {:induction false} MembersTailRead(a: Json, b: Json, ks: seq<string>, ls: seq<string>, s: string, t: string)
    requires WellFormed(a) && WellFormed(b) && HasKeys(a, ks) && HasKeys(b, ls)
    requires MembersTail(a, ks) + ("}" + s) == MembersTail(b, ls) + ("}" + t)
    ensures ks == ls && SameAt(a, b, ks) && s == t
    decreases a, |ks|, 1
  {
    var l, r := MembersTail(a, ks) + ("}" + s), MembersTail(b, ls) + ("}" + t);
    MembersEnd(a, ks, s);
    MembersEnd(b, ls, t);
    if ks == [] {
      assert l == "}" + s && r == "}" + t;
      CancelPrefix("}", s, t);
    } else {
      var u := (Member(a, ks[0]) + MembersTail(a, ks[1..])) + ("}" + s);
      var v := (Member(b, ls[0]) + MembersTail(b, ls[1..])) + ("}" + t);
      Regroup(",", Member(a, ks[0]), MembersTail(a, ks[1..]), "}" + s);
      Regroup(",", Member(b, ls[0]), MembersTail(b, ls[1..]), "}" + t);
      CancelPrefix(",", u, v);
      MemberPairReads(a, b, ks, ls, s, t);
    }
  }

  lemma {:induction false} LookupFinds(fields: seq<Field>, f: Field)
    requires f in fields && Distinct(KeyList(fields))
    ensures Lookup(fields, f.key) == f.value
  {
    if fields[0].key == f.key {
      var i :| 0 <= i < |fields| && fields[i] == f;
      assert KeyList(fields)[0] == KeyList(fields)[i];
    } else {
      assert KeyList(fields[1..]) == KeyList(fields)[1..];
      LookupFinds(fields[1..], f);
    }
  }

  lemma {:induction false} ObjectsRead(a: Json, b: Json, s: string, t: string)
    requires WellFormed(a) && WellFormed(b) && a.Object? && b.Object?
    requires Canonical(a) + s == Canonical(b) + t
    ensures Same(a, b) && s == t
    decreases a, |SortedKeys(a.fields)|, 2
  {
    var ks, ls := SortedKeys(a.fields), SortedKeys(b.fields);
    var l, r := Members(a, ks) + ("}" + s), Members(b, ls) + ("}" + t);
    Enclosed("{", Members(a, ks), "}", s);
    Enclosed("{", Members(b, ls), "}", t);
    CancelPrefix("{", l, r);
    MembersEnd(a, ks, s);
    MembersEnd(b, ls, t);
    if ks == [] {
      assert l == "}" + s && r == "}" + t;
      CancelPrefix("}", s, t);
    } else {
      MemberPairReads(a, b, ks, ls, s, t);
    }
    SameFields(a, b);
  }

  lemma SameFields(a: Json, b: Json)
    requires WellFormed(a) && WellFormed(b) && a.Object? && b.Object?
    requires SortedKeys(a.fields) == SortedKeys(b.fields) && SameAt(a, b, SortedKeys(a.fields))
    ensures Same(a, b)
  {
    assert Keys(a.fields) == Keys(b.fields);
    forall f, g | f in a.fields && g in b.fields && f.key == g.key ensures Same(f.value, g.value) {
      LookupFinds(a.fields, f);
      LookupFinds(b.fields, g);
      assert f.key in SortedKeys(a.fields);
    }
  }

  // ---- The main results -----------------------------------------------------------

  lemma {:induction false} DistinctSameMultiset(xs: seq<string>, ys: seq<string>)
    requires Distinct(xs) && Distinct(ys) && forall k :: k in xs <==> k in ys
    ensures multiset(xs) == multiset(ys)
  {
    DistinctCounts(xs);
    DistinctCounts(ys);
    forall k ensures multiset(xs)[k] == multiset(ys)[k] {
      assert k in xs <==> k in multiset(xs);
      assert k in ys <==> k in multiset(ys);
    }
  }

  lemma {:induction false} DistinctCounts(xs: seq<string>)
    requires Distinct(xs)
    ensures forall k | k in xs :: multiset(xs)[k] == 1
  {
    if xs != [] {
      MultisetTail(xs);
      DistinctCounts(xs[1..]);
      forall k | k in xs ensures multiset(xs)[k] == 1 {
        assert multiset(xs) == multiset(xs[1..]) + multiset{xs[0]};
        if k == xs[0] { assert k !in xs[1..]; assert k !in multiset(xs[1..]); }
        else { assert k in xs[1..]; }
      }
    }
  }

  lemma SameSortedKeys(fs: seq<Field>, gs: seq<Field>)
    requires Distinct(KeyList(fs)) && Distinct(KeyList(gs)) && Keys(fs) == Keys(gs)
    ensures SortedKeys(fs) == SortedKeys(gs)
  {
    forall k ensures k in KeyList(fs) <==> k in KeyList(gs) {
      InMultiset(SortedKeys(fs), KeyList(fs));
      InMultiset(SortedKeys(gs), KeyList(gs));
    }
    DistinctSameMultiset(KeyList(fs), KeyList(gs));
    SortSorts(KeyList(fs), Itself);
    SortSorts(KeyList(gs), Itself);
    SortedUnique(SortedKeys(fs), SortedKeys(gs));
  }

  /** Order-blindness: equal values print to the same text, whatever order their fields came in. */
  lemma {:induction false} SamePrintsSame(a: Json, b: Json)
    requires WellFormed(a) && WellFormed(b) && Same(a, b)
    ensures Canonical(a) == Canonical(b)
    decreases a
  {
    match a {
      case Array(xs) => ItemsPrintSame(xs, b.items);
      case Object(fs) =>
        SameSortedKeys(fs, b.fields);
        MembersPrintSame(a, b, SortedKeys(fs));
      case _ =>
    }
  }

  lemma {:induction false} ItemsPrintSame(xs: seq<Json>, ys: seq<Json>)
    requires WellFormed(Array(xs)) && WellFormed(Array(ys)) && SameItems(xs, ys)
    ensures Items(xs) == Items(ys) && ItemsTail(xs) == ItemsTail(ys)
    decreases xs
  {
    if xs != [] {
      SamePrintsSame(xs[0], ys[0]);
      ItemsPrintSame(xs[1..], ys[1..]);
    }
  }

  lemma {:induction false} MembersPrintSame(a: Json, b: Json, keys: seq<string>)
    requires WellFormed(a) && WellFormed(b) && HasKeys(a, keys) && HasKeys(b, keys) && Same(a, b)
    ensures Members(a, keys) == Members(b, keys) && MembersTail(a, keys) == MembersTail(b, keys)
    decreases a, |keys|
  {
    if keys != [] {
      var x, y := Lookup(a.fields, keys[0]), Lookup(b.fields, keys[0]);
      assert Field(keys[0], x) in a.fields && Field(keys[0], y) in b.fields;
      SamePrintsSame(x, y);
      MembersPrintSame(a, b, keys[1..]);
    }
  }

  /** The canonical text is injective and order-blind. */
  lemma CanonicalIffSame(a: Json, b: Json)
    requires WellFormed(a) && WellFormed(b)
    ensures Canonical(a) == Canonical(b) <==> Same(a, b)
  {
    if Canonical(a) == Canonical(b) {
      assert Canonical(a) + "" == Canonical(b) + "";
      ReadBack(a, b, "", "");
    }
    if Same(a, b) { SamePrintsSame(a, b); }
  }

  // ---- What the text looks like -----------------------------------------------------

  /** The members of an object as texts, in the order of the keys. */
  ghost predicate MemberTexts(v: Json, keys: seq<string>, texts: seq<string>)
    requires v.Object?
  {
    |texts| == |keys| && forall i | 0 <= i < |keys| ::
      exists f :: f in v.fields && f.key == keys[i] && texts[i] == Quote(f.key) + ":" + Canonical(f.value)
  }

  lemma {:induction false} MembersJoin(v: Json, keys: seq<string>) returns (texts: seq<string>)
    requires HasKeys(v, keys)
    ensures MemberTexts(v, keys, texts)
    ensures Members(v, keys) == Join(texts, ",")
    ensures MembersTail(v, keys) == if keys == [] then "" else "," + Join(texts, ",")
    decreases |keys|
  {
    if keys == [] {
      texts := [];
    } else {
      var rest := MembersJoin(v, keys[1..]);
      var own := Member(v, keys[0]);
      var f := Field(keys[0], Lookup(v.fields, keys[0]));
      assert f in v.fields && own == Quote(f.key) + ":" + Canonical(f.value);
      texts := [own] + rest;
      assert texts[1..] == rest;
      assert "," + own + MembersTail(v, keys[1..]) == "," + (own + MembersTail(v, keys[1..]));
      if keys[1..] == [] { assert own + "" == own; }
      else { assert own + ("," + Join(rest, ",")) == own + "," + Join(rest, ","); }
    }
  }

  /** An object prints as its members between braces, with commas, every key once, in code point order. */
  lemma ObjectText(v: Json) returns (keys: seq<string>, texts: seq<string>)
    requires v.Object? && WellFormed(v)
    ensures multiset(keys) == multiset(KeyList(v.fields)) && MemberTexts(v, keys, texts)
    ensures forall i, j | 0 <= i < j < |keys| :: InOrder(keys[i], keys[j]) && keys[i] != keys[j]
    ensures Canonical(v) == "{" + Join(texts, ",") + "}"
  {
    keys := SortedKeys(v.fields);
    assert Canonical(v) == "{" + Members(v, keys) + "}";
    assert Distinct(KeyList(v.fields));
    hide Canonical, WellFormed, Members, MemberTexts, SortedKeys, Distinct;
    texts := MembersJoin(v, keys);
    SortedAscend(v.fields);
  }

  lemma SortedAscend(fields: seq<Field>)
    requires Distinct(KeyList(fields))
    ensures var keys := SortedKeys(fields);
      forall i, j | 0 <= i < j < |keys| :: InOrder(keys[i], keys[j]) && keys[i] != keys[j]
  {
    var keys := SortedKeys(fields);
    SortSorts(KeyList(fields), Itself);
    ItselfIsKeys(KeyList(fields));
    SortKeepsDistinct(KeyList(fields), Itself);
    ItselfIsKeys(keys);
    forall i, j | 0 <= i < j < |keys| ensures InOrder(keys[i], keys[j]) {
      assert AtMost(Itself(keys[i]), Itself(keys[j]));
      AtMostIff(keys[i], keys[j]);
    }
  }

  lemma ItselfIsKeys(xs: seq<string>)
    ensures KeysOf(xs, Itself) == xs
  {
  }

  /** An array prints as its items between brackets, with commas, in their order. */
  lemma {:induction false} ArrayText(items: seq<Json>, texts: seq<string>)
    requires |texts| == |items| && forall i | 0 <= i < |items| :: texts[i] == Canonical(items[i])
    ensures Canonical(Array(items)) == "[" + Join(texts, ",") + "]"
    ensures ItemsTail(items) == if items == [] then "" else "," + Join(texts, ",")
    decreases |items|
  {
    if items != [] {
      ArrayText(items[1..], texts[1..]);
      var own, tail := texts[0], ItemsTail(items[1..]);
      assert "," + own + tail == "," + (own + tail);
      if items[1..] == [] { assert own + "" == own; }
      else { assert own + ("," + Join(texts[1..], ",")) == own + "," + Join(texts[1..], ","); }
    }
  }

  const TEXT_FIELD: Field := Field("a", Str("x"))
  const LIST_FIELD: Field := Field("b", Array([Null, Bool(true), Bool(false), Number("-1")]))
  const EMPTY_FIELD: Field := Field("B", Object([]))
  const SAMPLE: Json := Object([LIST_FIELD, TEXT_FIELD, EMPTY_FIELD])

  lemma SampleKeys()
    ensures SortedKeys(SAMPLE.fields) == ["B", "a", "b"]
  {
    var sorted := ["B", "a", "b"];
    assert KeyList(SAMPLE.fields) == ["b", "a", "B"];
    SortSorts(KeyList(SAMPLE.fields), Itself);
    ThreeSorted();
    hide SortedBy;
    SortedUnique(SortedKeys(SAMPLE.fields), sorted);
  }

  lemma ThreeSorted()
    ensures SortedBy(["B", "a", "b"], Itself) && multiset(["b", "a", "B"]) == multiset(["B", "a", "b"])
  {
    assert "B"[0] < "a"[0] && "a"[0] < "b"[0];
  }

  lemma {:induction false} EscapeStep(c: char, rest: string)
    ensures EscapeAll([c] + rest) == Escape(c) + EscapeAll(rest) && EscapeAll("") == ""
  {
    assert ([c] + rest)[1..] == rest;
  }

  lemma EscapeTable()
    ensures Escape('a') == "a" && Escape('b') == "b" && Escape('B') == "B" && Escape('x') == "x"
    ensures Escape('"') == "\\\"" && Escape('\\') == "\\\\" && Escape('\n') == "\\n" && Escape('\U{1}') == "\\u0001"
  {
    assert "\\u00" + [Hex(0), Hex(1)] == "\\u0001";
  }

  lemma SampleStrings()
    ensures Quote("a") == "\"a\"" && Quote("b") == "\"b\"" && Quote("B") == "\"B\"" && Quote("x") == "\"x\""
  {
    hide EscapeAll, Escape;
    EscapeTable();
    EscapeStep('a', "");
    EscapeStep('b', "");
    EscapeStep('B', "");
    EscapeStep('x', "");
    assert "a" == ['a'] + "" && "b" == ['b'] + "" && "B" == ['B'] + "" && "x" == ['x'] + "";
  }

  /** A text with a quote, a backslash, a line feed and a control character, to the letter. */
  lemma EscapedText()
    ensures Canonical(Str("x\"\\\n\U{1}")) == "\"x\\\"\\\\\\n\\u0001\""
  {
    hide EscapeAll, Escape;
    EscapeTable();
    EscapeStep('\U{1}', "");
    EscapeStep('\n', "\U{1}");
    EscapeStep('\\', "\n\U{1}");
    EscapeStep('"', "\\\n\U{1}");
    EscapeStep('x', "\"\\\n\U{1}");
    assert "\U{1}" == ['\U{1}'] + "";
    assert "\n\U{1}" == ['\n'] + "\U{1}";
    assert "\\\n\U{1}" == ['\\'] + "\n\U{1}";
    assert "\"\\\n\U{1}" == ['"'] + "\\\n\U{1}";
    assert "x\"\\\n\U{1}" == ['x'] + "\"\\\n\U{1}";
  }

  lemma SampleList()
    ensures Canonical(LIST_FIELD.value) == "[null,true,false,-1]"
  {
    var texts := ["null", "true", "false", "-1"];
    ArrayText(LIST_FIELD.value.items, texts);
    hide Canonical, Join;
    FourJoined();
  }

  lemma FourJoined()
    ensures "[" + Join(["null", "true", "false", "-1"], ",") + "]" == "[null,true,false,-1]"
  {
    var texts := ["null", "true", "false", "-1"];
    assert texts[1..] == ["true", "false", "-1"] && texts[1..][1..] == ["false", "-1"];
    assert texts[1..][1..][1..] == ["-1"];
  }

  lemma SampleMember(f: Field)
    requires f in SAMPLE.fields
    ensures f.key in Keys(SAMPLE.fields) && Member(SAMPLE, f.key) == Quote(f.key) + ":" + Canonical(f.value)
  {
    assert SAMPLE.fields[1..][0] == TEXT_FIELD && SAMPLE.fields[1..][1..][0] == EMPTY_FIELD;
    assert "a"[0] != "b"[0] && "a"[0] != "B"[0] && "b"[0] != "B"[0];
  }

  lemma ThreeMembers(v: Json, a: string, b: string, c: string)
    requires HasKeys(v, [a, b, c])
    ensures a in Keys(v.fields) && b in Keys(v.fields) && c in Keys(v.fields)
    ensures Members(v, [a, b, c]) == Member(v, a) + ("," + Member(v, b) + ("," + Member(v, c) + ""))
  {
    hide Member;
    assert a in [a, b, c] && b in [a, b, c] && c in [a, b, c];
    assert [a, b, c][1..] == [b, c] && [b, c][1..] == [c] && [c][1..] == [];
    assert MembersTail(v, [c]) == "," + Member(v, c) + "";
    assert MembersTail(v, [b, c]) == "," + Member(v, b) + MembersTail(v, [c]);
  }

  lemma EmptyObject()
    ensures Canonical(Object([])) == "{}"
  {
    assert KeyList([]) == [] && SortedKeys([]) == [];
  }

  lemma SampleMembers()
    ensures HasKeys(SAMPLE, ["B", "a", "b"])
    ensures Canonical(SAMPLE) == "{" + Members(SAMPLE, ["B", "a", "b"]) + "}"
  {
    SampleKeys();
    hide Members, SortedKeys;
  }

  lemma SampleLetters()
    ensures "\"B\"" + ":" + "{}" == "\"B\":{}" && "\"a\"" + ":" + "\"x\"" == "\"a\":\"x\""
  {
  }

  lemma ListLetters()
    ensures "\"b\"" + ":" + "[null,true,false,-1]" == "\"b\":[null,true,false,-1]"
  {
  }

  lemma Braces(a: string, b: string, c: string)
    ensures "{" + (a + ("," + b + ("," + c + ""))) + "}" == "{" + a + "," + b + "," + c + "}"
  {
  }

  /** One text to the letter: keys sorted, capitals first, no spaces. */
  lemma SampleText()
    ensures Canonical(SAMPLE) == "{" + "\"B\":{}" + "," + "\"a\":\"x\"" + "," + "\"b\":[null,true,false,-1]" + "}"
  {
    hide Member, Members, Quote, SortedKeys, Canonical;
    SampleMembers();
    ThreeMembers(SAMPLE, "B", "a", "b");
    SampleStrings();
    SampleMember(EMPTY_FIELD);
    SampleMember(TEXT_FIELD);
    SampleMember(LIST_FIELD);
    EmptyObject();
    SampleList();
    TextIsQuoted("x");
    SampleLetters();
    ListLetters();
    Braces(Member(SAMPLE, "B"), Member(SAMPLE, "a"), Member(SAMPLE, "b"));
  }

  lemma TextIsQuoted(text: string)
    ensures Canonical(Str(text)) == Quote(text)
  {
  }

  /** The other short escapes, and a character that needs none. */
  lemma ShortEscapes()
    ensures Canonical(Str("\U{8}\t")) == "\"\\b\\t\"" && Canonical(Str("\U{C}\r/")) == "\"\\f\\r/\""
  {
    assert Escape('\U{8}') == "\\b" && Escape('\t') == "\\t" && Escape('\U{C}') == "\\f" && Escape('\r') == "\\r";
    assert Escape('/') == "/";
    hide EscapeAll, Escape;
    EscapeStep('\t', "");
    EscapeStep('\U{8}', "\t");
    assert "\t" == ['\t'] + "" && "\U{8}\t" == ['\U{8}'] + "\t";
    EscapeStep('/', "");
    EscapeStep('\r', "/");
    EscapeStep('\U{C}', "\r/");
    assert "/" == ['/'] + "" && "\r/" == ['\r'] + "/" && "\U{C}\r/" == ['\U{C}'] + "\r/";
  }
}
