/** Unix paths as the standard library reads and edits them, character by character: components, push and pop.
    The normalisers of crates/puffer-core/workspace_paths.rs and crates/puffer-core/permissions.rs are built on
    these. */
module UnixPath {

  datatype Component = RootDir | CurDir | ParentDir | Normal(name: string)

  predicate Rooted(p: string) {
    p != "" && p[0] == '/'
  }

  // ---- Reading: the segments between slashes, and the components they stand for -----------------

  function SegmentEnd(p: string): (n: nat)
    ensures n <= |p| && '/' !in p[..n] && (n < |p| ==> p[n] == '/')
  {
    if p == "" || p[0] == '/' then 0 else 1 + SegmentEnd(p[1..])
  }

  /** The non-empty pieces between slashes. */
  function Segments(p: string): seq<string>
    decreases |p|
  {
    if p == "" then []
    else if p[0] == '/' then Segments(p[1..])
    else [p[..SegmentEnd(p)]] + Segments(p[SegmentEnd(p)..])
  }

  function Part(segment: string): Component {
    if segment == "." then CurDir else if segment == ".." then ParentDir else Normal(segment)
  }

  /** A `.` survives only at the head of a relative path. */
  function Parts(segments: seq<string>): seq<Component> {
    if segments == [] then []
    else (if segments[0] == "." then [] else [Part(segments[0])]) + Parts(segments[1..])
  }

  predicate LeadsWithDot(p: string) {
    !Rooted(p) && Segments(p) != [] && Segments(p)[0] == "."
  }

  function Components(p: string): seq<Component> {
    (if Rooted(p) then [RootDir] else if LeadsWithDot(p) then [CurDir] else []) + Parts(Segments(p))
  }

  // ---- Editing ----------------------------------------------------------------------------------

  /** A rooted part replaces the buffer; any other is appended after a slash, if one is missing. */
  function Push(p: string, part: string): string {
    if Rooted(part) then part
    else if p != "" && p[|p| - 1] != '/' then p + "/" + part
    else p + part
  }

  /** Where the segments begin: after the root, or after a leading `.`. */
  function Body(p: string): nat {
    if Rooted(p) || LeadsWithDot(p) then 1 else 0
  }

  /** Drops trailing slashes and trailing `.` segments, down to `body`. */
  function TrimBack(p: string, body: nat): string {
    if |p| <= body then p
    else if p[|p| - 1] == '/' then TrimBack(p[..|p| - 1], body)
    else if p[|p| - 1] == '.' && (|p| - 1 == body || (|p| >= 2 && p[|p| - 2] == '/')) then TrimBack(p[..|p| - 1], body)
    else p
  }

  function DropSegment(p: string, body: nat): string {
    if |p| <= body || p[|p| - 1] == '/' then p else DropSegment(p[..|p| - 1], body)
  }

  /** Truncates to the parent; a bare root has none and stays. */
  function Pop(p: string): string {
    var body := Body(p);
    var trimmed := TrimBack(p, body);
    if |trimmed| > body then TrimBack(DropSegment(trimmed, body), body)
    else if Rooted(p) then p else ""
  }

  // ---- What the segments of an edited path are ---------------------------------------------------

  predicate Named(segment: string) {
    segment != "" && '/' !in segment
  }

  predicate AllNamed(segments: seq<string>) {
    forall s | s in segments :: Named(s)
  }

  lemma {:induction false} SegmentsNamed(p: string)
    ensures AllNamed(Segments(p))
    decreases |p|
  {
    if p == "" {
    } else if p[0] == '/' {
      SegmentsNamed(p[1..]);
    } else {
      SegmentsNamed(p[SegmentEnd(p)..]);
    }
  }

  lemma {:induction false} SegmentEndIs(p: string, n: nat)
    requires n <= |p| && '/' !in p[..n] && (n < |p| ==> p[n] == '/')
    ensures SegmentEnd(p) == n
  {
    if n > 0 {
      assert p[..n][0] == p[0] && p[1..][..n - 1] == p[..n][1..];
      SegmentEndIs(p[1..], n - 1);
    }
  }

  lemma OneSegment(s: string)
    requires Named(s)
    ensures Segments(s) == [s]
  {
    assert s[..|s|] == s;
    assert s[0] in s;
    SegmentEndIs(s, |s|);
    assert s[|s|..] == "";
  }

  lemma FirstSegment(p: string)
    requires p != "" && p[0] != '/'
    ensures Segments(p) == [p[..SegmentEnd(p)]] + Segments(p[SegmentEnd(p)..])
  {
  }

  /** A slash separates, whatever is on its two sides. */
  lemma {:induction false} SegmentsAcross(a: string, b: string)
    ensures Segments(a + "/" + b) == Segments(a) + Segments(b)
    decreases |a|
  {
    var p := a + "/" + b;
    if a == "" {
      assert p[1..] == b;
      assert [] + Segments(b) == Segments(b);
    } else if a[0] == '/' {
      assert p[1..] == a[1..] + "/" + b;
      SegmentsAcross(a[1..], b);
    } else {
      var n := SegmentEnd(a);
      EndBeforeSlash(a, b);
      SegmentsAcross(a[n..], b);
      assert p[0] == a[0];
      FirstSegment(p);
      FirstSegment(a);
      hide Segments, SegmentEnd;
      assert [a[..n]] + (Segments(a[n..]) + Segments(b)) == ([a[..n]] + Segments(a[n..])) + Segments(b);
    }
  }

  /** A slash after a path does not move the end of its first segment. */
  lemma EndBeforeSlash(a: string, b: string)
    ensures var p, n := a + "/" + b, SegmentEnd(a);
      SegmentEnd(p) == n && p[..n] == a[..n] && p[n..] == a[n..] + "/" + b
  {
    hide SegmentEnd;
    var p, n := a + "/" + b, SegmentEnd(a);
    assert p[..n] == a[..n] && p[n] == (a + "/")[n];
    SegmentEndIs(p, n);
  }

  lemma NoSegments()
    ensures Segments("") == []
  {
  }

  lemma SegmentsOfPush(p: string, part: string)
    requires !Rooted(part)
    ensures Segments(Push(p, part)) == Segments(p) + Segments(part) && Rooted(Push(p, part)) == Rooted(p)
  {
    NoSegments();
    hide Segments;
    if p == "" {
      assert p + part == part && [] + Segments(part) == Segments(part);
    } else if p[|p| - 1] != '/' {
      SegmentsAcross(p, part);
    } else {
      var q := p[..|p| - 1];
      assert p == q + "/" + "" && p + part == q + "/" + part;
      SegmentsAcross(q, part);
      SegmentsAcross(q, "");
      assert Segments(q) + [] == Segments(q);
    }
  }

  // ---- Paths written from a list of names --------------------------------------------------------

  function Render(rooted: bool, names: seq<string>): string {
    if names == [] then if rooted then "/" else ""
    else Push(Render(rooted, names[..|names| - 1]), names[|names| - 1])
  }

  lemma RenderPush(rooted: bool, names: seq<string>, name: string)
    ensures Render(rooted, names + [name]) == Push(Render(rooted, names), name)
  {
    assert (names + [name])[..|names + [name]| - 1] == names;
  }

  /** Reading back a written path gives its names. */
  lemma {:induction false} ReadsBack(rooted: bool, names: seq<string>)
    requires AllNamed(names)
    ensures Segments(Render(rooted, names)) == names && Rooted(Render(rooted, names)) == rooted
  {
    if names != [] {
      var init, last := names[..|names| - 1], names[|names| - 1];
      assert names == init + [last] && last in names;
      ReadsBack(rooted, init);
      OneSegment(last);
      SegmentsOfPush(Render(rooted, init), last);
    }
  }

  /** Neither `.` nor a name with a slash in it; `..` is let through. */
  predicate Plain(names: seq<string>) {
    AllNamed(names) && "." !in names
  }

  lemma {:induction false} PartsOfPlain(names: seq<string>)
    requires "." !in names
    ensures |Parts(names)| == |names| && forall i | 0 <= i < |names| :: Parts(names)[i] == Part(names[i])
  {
    if names != [] { PartsOfPlain(names[1..]); }
  }

  lemma ComponentsOfRender(rooted: bool, names: seq<string>)
    requires Plain(names)
    ensures Components(Render(rooted, names)) == (if rooted then [RootDir] else []) + Parts(names)
    ensures Body(Render(rooted, names)) == if rooted then 1 else 0
  {
    ReadsBack(rooted, names);
    if names != [] { assert names[0] in names; }
  }

  /** A written path ends in its last name. */
  lemma RenderEnds(rooted: bool, names: seq<string>) returns (front: string)
    requires Plain(names) && names != []
    ensures Render(rooted, names) == front + names[|names| - 1]
    ensures var init := Render(rooted, names[..|names| - 1]);
      if |names| == 1 then front == init else front == init + "/" && |init| > Body(init)
  {
    var init, last := names[..|names| - 1], names[|names| - 1];
    assert last in names;
    if |names| == 1 {
      return Render(rooted, init);
    }
    assert Plain(init) && init[|init| - 1] in names;
    var before := RenderEnds(rooted, init);
    ComponentsOfRender(rooted, init);
    ComponentsOfRender(rooted, init[..|init| - 1]);
    return Render(rooted, init) + "/";
  }

  /** A path that ends in a name has nothing to trim. */
  lemma NameStaysTrimmed(front: string, last: string, body: nat)
    requires Named(last) && last != "." && body <= |front|
    requires |front| > body ==> front[|front| - 1] == '/'
    ensures TrimBack(front + last, body) == front + last
  {
    var p := front + last;
    assert last[|last| - 1] in last && p[|p| - 1] == last[|last| - 1];
    if |last| >= 2 {
      assert last[|last| - 2] in last && p[|p| - 2] == last[|last| - 2];
    } else {
      assert last == [last[0]];
    }
  }

  lemma RenderStaysTrimmed(rooted: bool, names: seq<string>)
    requires Plain(names)
    ensures TrimBack(Render(rooted, names), if rooted then 1 else 0) == Render(rooted, names)
    ensures names != [] ==> |Render(rooted, names)| > if rooted then 1 else 0
  {
    if names != [] {
      var init, last := names[..|names| - 1], names[|names| - 1];
      assert last in names;
      var front := RenderEnds(rooted, names);
      ComponentsOfRender(rooted, init);
      if |names| == 1 { assert init == [] && front == Render(rooted, []); }
      hide Render, TrimBack, Body;
      NameStaysTrimmed(front, last, if rooted then 1 else 0);
    }
  }

  lemma {:induction false} DropLastName(front: string, last: string, body: nat)
    requires '/' !in last && body <= |front| && (|front| == body || front[|front| - 1] == '/')
    ensures DropSegment(front + last, body) == front
    decreases |last|
  {
    if last == "" {
      assert front + last == front;
    } else {
      var p := front + last;
      assert p[|p| - 1] == last[|last| - 1] && last[|last| - 1] in last;
      assert p[..|p| - 1] == front + last[..|last| - 1];
      DropLastName(front, last[..|last| - 1], body);
    }
  }

  lemma TrimOneSlash(p: string, body: nat)
    requires |p| >= body && TrimBack(p, body) == p
    ensures TrimBack(p + "/", body) == p
  {
    assert (p + "/")[..|p + "/"| - 1] == p;
  }

  /** Popping drops the last name and the slash before it. */
  lemma PopDropsName(front: string, last: string, body: nat)
    requires Named(last) && Body(front + last) == body && body <= |front|
    requires |front| == body || front[|front| - 1] == '/'
    requires TrimBack(front + last, body) == front + last
    ensures Pop(front + last) == TrimBack(front, body)
  {
    DropLastName(front, last, body);
  }

  lemma PopEmpty(rooted: bool)
    ensures |Render(rooted, [])| == (if rooted then 1 else 0) && Pop(Render(rooted, [])) == Render(rooted, [])
  {
  }

  /** Popping undoes the last push. */
  lemma PopUndoesPush(rooted: bool, names: seq<string>)
    requires Plain(names)
    ensures Pop(Render(rooted, names)) == Render(rooted, if names == [] then [] else names[..|names| - 1])
  {
    if names == [] {
      PopEmpty(rooted);
    } else {
      var init, last := names[..|names| - 1], names[|names| - 1];
      var body := if rooted then 1 else 0;
      assert last in names && Plain(init);
      ComponentsOfRender(rooted, names);
      ComponentsOfRender(rooted, init);
      RenderStaysTrimmed(rooted, names);
      RenderStaysTrimmed(rooted, init);
      hide Pop, TrimBack, Components, Body, Segments, Render;
      var front := RenderEnds(rooted, names);
      if |names| == 1 { PopEmpty(rooted); } else { TrimOneSlash(front[..|front| - 1], body); }
      PopDropsName(front, last, body);
    }
  }

  // ---- Containment -------------------------------------------------------------------------------

  /** Component by component, not character by character. */
  predicate StartsWith(p: string, root: string) {
    Components(root) <= Components(p)
  }

  lemma {:induction false} PartsKeepPrefix(names: seq<string>, more: seq<string>)
    requires Plain(names) && Plain(more)
    ensures Parts(names) <= Parts(more) <==> names <= more
  {
    PartsOfPlain(names);
    PartsOfPlain(more);
    if Parts(names) <= Parts(more) {
      forall i | 0 <= i < |names| ensures names[i] == more[i] {
        assert Parts(names)[i] == Parts(more)[i];
      }
    }
  }
}
