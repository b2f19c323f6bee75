/** Strings as the repository uses them: trimming, substring search, joining, and the
    code-point order behind every sort. A string is a sequence of Unicode scalar values. */
module Text {

  // ---- White space and trimming -------------------------------------------------

  /** The Unicode White_Space property. */
  predicate IsSpace(c: char) {
    || '\U{9}' <= c <= '\U{D}'
    || c == ' ' || c == '\U{85}' || c == '\U{A0}' || c == '\U{1680}'
    || '\U{2000}' <= c <= '\U{200A}'
    || c == '\U{2028}' || c == '\U{2029}' || c == '\U{202F}' || c == '\U{205F}' || c == '\U{3000}'
  }

  function TrimStart(s: string): string {
    if s != "" && IsSpace(s[0]) then TrimStart(s[1..]) else s
  }

  function TrimEnd(s: string): string {
    if s != "" && IsSpace(s[|s| - 1]) then TrimEnd(s[..|s| - 1]) else s
  }

  function Trim(s: string): string {
    TrimEnd(TrimStart(s))
  }

  predicate IsTrimmed(s: string) {
    s != "" ==> !IsSpace(s[0]) && !IsSpace(s[|s| - 1])
  }

  predicate AllSpace(s: string) {
    forall i | 0 <= i < |s| :: IsSpace(s[i])
  }

  /** Trimming cuts a blank prefix and a blank suffix and nothing else. */
  lemma {:induction false} TrimStartCuts(s: string) returns (pre: string)
    ensures s == pre + TrimStart(s) && AllSpace(pre)
    ensures TrimStart(s) != "" ==> !IsSpace(TrimStart(s)[0])
  {
    if s != "" && IsSpace(s[0]) {
      var p := TrimStartCuts(s[1..]);
      pre := [s[0]] + p;
    } else {
      pre := "";
    }
  }

  lemma {:induction false} TrimEndCuts(s: string) returns (post: string)
    ensures s == TrimEnd(s) + post && AllSpace(post)
    ensures TrimEnd(s) != "" ==> !IsSpace(TrimEnd(s)[|TrimEnd(s)| - 1]) && TrimEnd(s)[0] == s[0]
  {
    if s != "" && IsSpace(s[|s| - 1]) {
      var p := TrimEndCuts(s[..|s| - 1]);
      post := p + [s[|s| - 1]];
      assert s == s[..|s| - 1] + [s[|s| - 1]];
    } else {
      post := "";
    }
  }

  lemma TrimCuts(s: string) returns (pre: string, post: string)
    ensures s == pre + Trim(s) + post && AllSpace(pre) && AllSpace(post)
    ensures IsTrimmed(Trim(s))
  {
    pre := TrimStartCuts(s);
    post := TrimEndCuts(TrimStart(s));
  }

  /** A trimmed text is what trimming it inside blank margins gives back. */
  lemma {:induction false} TrimMargins(pre: string, s: string, post: string)
    requires AllSpace(pre) && AllSpace(post) && IsTrimmed(s)
    ensures Trim(pre + s + post) == s
    decreases |pre|, |post|
  {
    if pre != "" {
      assert (pre + s + post)[1..] == pre[1..] + s + post;
      TrimMargins(pre[1..], s, post);
    } else if s == "" {
      assert pre + s + post == post;
      BlankTrims(post);
    } else {
      assert pre + s + post == s + post;
      TrimEndMargin(s, post);
    }
  }

  lemma {:induction false} BlankTrims(s: string)
    requires AllSpace(s)
    ensures TrimStart(s) == "" && Trim(s) == ""
  {
    if s != "" { BlankTrims(s[1..]); }
  }

  lemma {:induction false} TrimEndMargin(s: string, post: string)
    requires AllSpace(post) && (s != "" ==> !IsSpace(s[|s| - 1]))
    ensures TrimEnd(s + post) == s
  {
    if post == "" {
      assert s + post == s;
    } else {
      assert (s + post)[..|s + post| - 1] == s + post[..|post| - 1];
      TrimEndMargin(s, post[..|post| - 1]);
    }
  }

  lemma NotBlank(raw: string)
    requires raw != "" && !IsSpace(raw[0])
    ensures Trim(raw) != ""
  {
    var pre, post := TrimCuts(raw);
    assert Trim(raw) == "" ==> raw == pre + post && AllSpace(pre + post);
  }

  const WHITE_SPACE: string :=
    "\t\n\U{B}\U{C}\r \U{85}\U{A0}\U{1680}" +
    "\U{2000}\U{2001}\U{2002}\U{2003}\U{2004}\U{2005}\U{2006}\U{2007}" +
    "\U{2008}\U{2009}\U{200A}\U{2028}\U{2029}\U{202F}\U{205F}\U{3000}"

  /** The 25 characters with the property, one by one. */
  lemma WhiteSpaceIs(c: char)
    ensures IsSpace(c) <==> c in WHITE_SPACE
  {
  }

  // ---- Substrings and joining ---------------------------------------------------

  predicate OccursAt(needle: string, s: string, i: nat) {
    i + |needle| <= |s| && s[i..i + |needle|] == needle
  }

  predicate Contains(s: string, needle: string) {
    exists i: nat | i <= |s| :: OccursAt(needle, s, i)
  }

  function Join(parts: seq<string>, sep: string): string {
    if parts == [] then ""
    else if |parts| == 1 then parts[0]
    else parts[0] + sep + Join(parts[1..], sep)
  }

  predicate Distinct<T(==)>(xs: seq<T>) {
    forall i, j | 0 <= i < j < |xs| :: xs[i] != xs[j]
  }

  // ---- The order of strings, and stable sorting by a string key ------------------

  predicate AtMost(a: string, b: string) {
    a == "" || (b != "" && (a[0] < b[0] || (a[0] == b[0] && AtMost(a[1..], b[1..]))))
  }

  lemma {:induction false} AtMostTotal(a: string, b: string)
    ensures AtMost(a, b) || AtMost(b, a)
  {
    if a != "" && b != "" && a[0] == b[0] { AtMostTotal(a[1..], b[1..]); }
  }

  lemma {:induction false} AtMostAntisymmetric(a: string, b: string)
    requires AtMost(a, b) && AtMost(b, a)
    ensures a == b
  {
    if a != "" {
      AtMostAntisymmetric(a[1..], b[1..]);
      assert a == [a[0]] + a[1..] && b == [b[0]] + b[1..];
    }
  }

  lemma {:induction false} AtMostTransitive(a: string, b: string, c: string)
    requires AtMost(a, b) && AtMost(b, c)
    ensures AtMost(a, c)
  {
    if a != "" && a[0] == b[0] && b[0] == c[0] { AtMostTransitive(a[1..], b[1..], c[1..]); }
  }

  /** The order of code points: a prefix comes first, otherwise the smaller character at the first difference. */
  predicate InOrder(a: string, b: string) {
    a <= b || exists i: nat | i < |a| && i < |b| :: a[..i] == b[..i] && a[i] < b[i]
  }

  lemma {:induction false} AtMostIff(a: string, b: string)
    ensures AtMost(a, b) <==> InOrder(a, b)
  {
    if a != "" && b != "" {
      if a[0] == b[0] {
        AtMostIff(a[1..], b[1..]);
        DifferLater(a, b);
      } else {
        assert a[0] < b[0] ==> a[..0] == b[..0];
        forall i: nat | 0 < i < |a| && i < |b| ensures a[..i] != b[..i] {
          assert a[..i][0] == a[0] && b[..i][0] == b[0];
        }
      }
    }
  }

  lemma DifferLater(a: string, b: string)
    requires a != "" && b != "" && a[0] == b[0]
    ensures InOrder(a, b) <==> InOrder(a[1..], b[1..])
  {
    assert a == [a[0]] + a[1..] && b == [b[0]] + b[1..];
    if i: nat :| i < |a| && i < |b| && a[..i] == b[..i] && a[i] < b[i] { DifferBefore(a, b, i); }
    if i: nat :| i < |a[1..]| && i < |b[1..]| && a[1..][..i] == b[1..][..i] && a[1..][i] < b[1..][i] {
      DifferAfter(a, b, i);
    }
  }

  lemma DifferBefore(a: string, b: string, i: nat)
    requires i < |a| && i < |b| && a[..i] == b[..i] && a[i] < b[i] && a[0] == b[0]
    ensures InOrder(a[1..], b[1..])
  {
    var k := i - 1;
    assert a[1..][..k] == a[..i][1..] && b[1..][..k] == b[..i][1..] && a[1..][k] < b[1..][k];
  }

  lemma DifferAfter(a: string, b: string, i: nat)
    requires a != "" && b != "" && a[0] == b[0]
    requires i < |a[1..]| && i < |b[1..]| && a[1..][..i] == b[1..][..i] && a[1..][i] < b[1..][i]
    ensures InOrder(a, b)
  {
    var k := i + 1;
    assert a[..k] == [a[0]] + a[1..][..i] && b[..k] == [b[0]] + b[1..][..i] && a[k] < b[k];
  }

  ghost predicate SortedBy<T>(xs: seq<T>, key: T -> string) {
    forall i, j | 0 <= i < j < |xs| :: AtMost(key(xs[i]), key(xs[j]))
  }

  function InsertBy<T>(x: T, xs: seq<T>, key: T -> string): (r: seq<T>)
    ensures multiset(r) == multiset(xs) + multiset{x}
  {
    if xs == [] || AtMost(key(x), key(xs[0])) then
      [x] + xs
    else
      assert xs == [xs[0]] + xs[1..];
      [xs[0]] + InsertBy(x, xs[1..], key)
  }

  function SortBy<T>(xs: seq<T>, key: T -> string): (r: seq<T>)
    ensures multiset(r) == multiset(xs)
  {
    if xs == [] then []
    else
      assert xs == [xs[0]] + xs[1..];
      InsertBy(xs[0], SortBy(xs[1..], key), key)
  }

  lemma InMultiset<T>(xs: seq<T>, ys: seq<T>)
    requires multiset(xs) == multiset(ys)
    ensures forall x :: x in xs <==> x in ys
    ensures |xs| == |ys|
  {
    forall x ensures x in xs <==> x in ys {
      assert x in xs <==> x in multiset(xs);
      assert x in ys <==> x in multiset(ys);
    }
    assert |multiset(xs)| == |multiset(ys)|;
  }

  lemma {:induction false} InsertKeepsOrder<T>(x: T, xs: seq<T>, key: T -> string)
    requires SortedBy(xs, key)
    ensures SortedBy(InsertBy(x, xs, key), key)
  {
    if xs == [] {
    } else if AtMost(key(x), key(xs[0])) {
      forall j | 0 <= j < |xs| ensures AtMost(key(x), key(xs[j])) {
        if j > 0 { AtMostTransitive(key(x), key(xs[0]), key(xs[j])); }
      }
    } else {
      var rest := InsertBy(x, xs[1..], key);
      InsertKeepsOrder(x, xs[1..], key);
      AtMostTotal(key(x), key(xs[0]));
      forall j | 0 <= j < |rest| ensures AtMost(key(xs[0]), key(rest[j])) {
        assert rest[j] in multiset(rest);
        assert rest[j] == x || rest[j] in xs[1..];
      }
    }
  }

  lemma {:induction false} SortSorts<T>(xs: seq<T>, key: T -> string)
    ensures SortedBy(SortBy(xs, key), key)
  {
    if xs != [] {
      SortSorts(xs[1..], key);
      InsertKeepsOrder(xs[0], SortBy(xs[1..], key), key);
    }
  }

  function Itself(s: string): string { s }

  lemma SortedHeadIsLeast(xs: seq<string>, x: string)
    requires SortedBy(xs, Itself) && x in xs
    ensures AtMost(xs[0], x)
  {
    var i :| 0 <= i < |xs| && xs[i] == x;
    if i == 0 { AtMostTotal(x, x); } else { assert AtMost(Itself(xs[0]), Itself(xs[i])); }
  }

  /** A sorted list of strings is determined by the strings in it. */
  lemma {:induction false} SortedUnique(xs: seq<string>, ys: seq<string>)
    requires SortedBy(xs, Itself) && SortedBy(ys, Itself) && multiset(xs) == multiset(ys)
    ensures xs == ys
  {
    InMultiset(xs, ys);
    if xs != [] {
      assert xs[0] in ys && ys[0] in xs;
      SortedHeadIsLeast(xs, ys[0]);
      SortedHeadIsLeast(ys, xs[0]);
      AtMostAntisymmetric(xs[0], ys[0]);
      MultisetTail(xs);
      MultisetTail(ys);
      SortedTail(xs, Itself);
      SortedTail(ys, Itself);
      SortedUnique(xs[1..], ys[1..]);
    }
  }

  lemma MultisetTail<T>(xs: seq<T>)
    requires xs != []
    ensures multiset(xs[1..]) == multiset(xs) - multiset{xs[0]}
    ensures xs == [xs[0]] + xs[1..]
  {
    assert xs == [xs[0]] + xs[1..];
  }

  lemma SortedTail<T>(xs: seq<T>, key: T -> string)
    requires xs != [] && SortedBy(xs, key)
    ensures SortedBy(xs[1..], key)
  {
    forall i, j | 0 <= i < j < |xs| - 1 ensures AtMost(key(xs[1..][i]), key(xs[1..][j])) {
      assert AtMost(key(xs[i + 1]), key(xs[j + 1]));
    }
  }

  // ---- Lists looked up by a string key -------------------------------------------

  function KeysOf<T>(xs: seq<T>, key: T -> string): (keys: seq<string>)
    ensures |keys| == |xs| && forall i | 0 <= i < |keys| :: keys[i] == key(xs[i])
  {
    seq(|xs|, i requires 0 <= i < |xs| => key(xs[i]))
  }

  /** The first element with the key from `from` on; the length of the list when there is none. */
  function FindBy<T>(xs: seq<T>, key: T -> string, id: string, from: nat): (i: nat)
    requires from <= |xs|
    ensures from <= i <= |xs| && (i < |xs| ==> key(xs[i]) == id)
    ensures forall j | from <= j < i :: key(xs[j]) != id
    decreases |xs| - from
  {
    if from == |xs| || key(xs[from]) == id then from else FindBy(xs, key, id, from + 1)
  }

  /** The elements without the key, in order. */
  function Dropping<T>(xs: seq<T>, key: T -> string, id: string): (kept: seq<T>)
    ensures |kept| <= |xs|
  {
    if xs == [] then []
    else if key(xs[0]) == id then Dropping(xs[1..], key, id)
    else [xs[0]] + Dropping(xs[1..], key, id)
  }

  lemma {:induction false} DroppingHolds<T>(xs: seq<T>, key: T -> string, id: string)
    ensures forall x :: x in Dropping(xs, key, id) <==> x in xs && key(x) != id
    ensures |Dropping(xs, key, id)| == |xs| ==> Dropping(xs, key, id) == xs
  {
    if xs != [] {
      assert xs == [xs[0]] + xs[1..];
      DroppingHolds(xs[1..], key, id);
    }
  }

  lemma DroppedFrom<T>(xs: seq<T>, key: T -> string, id: string, x: T)
    requires x in Dropping(xs, key, id)
    ensures x in xs && key(x) != id
  {
    DroppingHolds(xs, key, id);
  }

  lemma HeadKeyIsNew<T>(xs: seq<T>, key: T -> string, x: T)
    requires xs != [] && Distinct(KeysOf(xs, key)) && x in xs[1..]
    ensures key(x) != key(xs[0])
  {
    var i :| 0 <= i < |xs[1..]| && xs[1..][i] == x;
    assert KeysOf(xs, key)[0] != KeysOf(xs, key)[i + 1];
  }

  lemma DistinctPush<T>(x: T, xs: seq<T>)
    requires Distinct(xs) && x !in xs
    ensures Distinct([x] + xs)
  {
  }

  lemma NewHeadKeepsDistinct<T>(x: T, xs: seq<T>, key: T -> string)
    requires Distinct(KeysOf(xs, key)) && forall y | y in xs :: key(y) != key(x)
    ensures Distinct(KeysOf([x] + xs, key))
  {
    hide Distinct;
    var keys := KeysOf(xs, key);
    forall i | 0 <= i < |keys| ensures keys[i] != key(x) { assert xs[i] in xs; }
    DistinctPush(key(x), keys);
    assert KeysOf([x] + xs, key) == [key(x)] + keys;
  }

  lemma {:induction false} DroppingKeepsDistinct<T>(xs: seq<T>, key: T -> string, id: string)
    requires Distinct(KeysOf(xs, key))
    ensures Distinct(KeysOf(Dropping(xs, key, id), key))
  {
    if xs != [] {
      hide Distinct;
      var kept := Dropping(xs[1..], key, id);
      TailKeysDistinct(xs, key);
      DroppingKeepsDistinct(xs[1..], key, id);
      forall y | y in kept ensures key(y) != key(xs[0]) {
        DroppedFrom(xs[1..], key, id, y);
        HeadKeyIsNew(xs, key, y);
      }
      NewHeadKeepsDistinct(xs[0], kept, key);
    }
  }

  lemma TailKeysDistinct<T>(xs: seq<T>, key: T -> string)
    requires xs != [] && Distinct(KeysOf(xs, key))
    ensures Distinct(KeysOf(xs[1..], key))
  {
    assert KeysOf(xs[1..], key) == KeysOf(xs, key)[1..];
  }

  lemma NewLastKeepsDistinct<T>(xs: seq<T>, x: T, key: T -> string)
    requires Distinct(KeysOf(xs, key)) && forall y | y in xs :: key(y) != key(x)
    ensures Distinct(KeysOf(xs + [x], key))
  {
    forall i | 0 <= i < |xs| ensures KeysOf(xs, key)[i] != key(x) { assert xs[i] in xs; }
    assert KeysOf(xs + [x], key) == KeysOf(xs, key) + [key(x)];
  }

  lemma InsertedFrom<T>(x: T, xs: seq<T>, key: T -> string, y: T)
    requires y in InsertBy(x, xs, key)
    ensures y == x || y in xs
  {
    InMultiset(InsertBy(x, xs, key), xs + [x]);
    assert y in xs + [x];
  }

  lemma {:induction false} InsertKeepsDistinct<T>(x: T, xs: seq<T>, key: T -> string)
    requires Distinct(KeysOf(xs, key)) && forall y | y in xs :: key(y) != key(x)
    ensures Distinct(KeysOf(InsertBy(x, xs, key), key))
  {
    if xs == [] || AtMost(key(x), key(xs[0])) {
      hide Distinct;
      NewHeadKeepsDistinct(x, xs, key);
    } else {
      var rest := InsertBy(x, xs[1..], key);
      assert InsertBy(x, xs, key) == [xs[0]] + rest;
      hide Distinct, InsertBy, AtMost;
      TailKeysDistinct(xs, key);
      InsertKeepsDistinct(x, xs[1..], key);
      forall y | y in rest ensures key(y) != key(xs[0]) {
        InsertedFrom(x, xs[1..], key, y);
        if y in xs[1..] { HeadKeyIsNew(xs, key, y); }
      }
      NewHeadKeepsDistinct(xs[0], rest, key);
    }
  }

  lemma {:induction false} SortKeepsDistinct<T>(xs: seq<T>, key: T -> string)
    requires Distinct(KeysOf(xs, key))
    ensures Distinct(KeysOf(SortBy(xs, key), key))
  {
    if xs != [] {
      var rest := SortBy(xs[1..], key);
      assert SortBy(xs, key) == InsertBy(xs[0], rest, key);
      hide Distinct, SortBy, InsertBy;
      TailKeysDistinct(xs, key);
      SortKeepsDistinct(xs[1..], key);
      InMultiset(rest, xs[1..]);
      forall y | y in rest ensures key(y) != key(xs[0]) { HeadKeyIsNew(xs, key, y); }
      InsertKeepsDistinct(xs[0], rest, key);
    }
  }

  lemma {:induction false} DroppingKeepsOrder<T>(xs: seq<T>, key: T -> string, id: string)
    requires SortedBy(xs, key)
    ensures SortedBy(Dropping(xs, key, id), key)
  {
    if xs != [] {
      var kept := Dropping(xs[1..], key, id);
      SortedTail(xs, key);
      DroppingKeepsOrder(xs[1..], key, id);
      forall j | 0 <= j < |kept| ensures AtMost(key(xs[0]), key(kept[j])) {
        DroppedFrom(xs[1..], key, id, kept[j]);
        var i :| 0 <= i < |xs[1..]| && xs[1..][i] == kept[j];
        assert AtMost(key(xs[0]), key(xs[i + 1]));
      }
    }
  }

  // ---- ASCII ------------------------------------------------------------------------

  function LowerChar(c: char): char {
    if 'A' <= c <= 'Z' then (c as int + 32) as char else c
  }

  function LowerAscii(s: string): (r: string)
    ensures |r| == |s|
  {
    seq(|s|, i requires 0 <= i < |s| => LowerChar(s[i]))
  }

  predicate IsSlugChar(c: char) {
    'a' <= c <= 'z' || '0' <= c <= '9' || c == '-'
  }
}
