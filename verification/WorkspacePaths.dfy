/** The two lexical path normalisers and what is built on them
    (crates/puffer-core/workspace_paths.rs and crates/puffer-core/permissions.rs). */
module WorkspacePaths {
  import opened Text
  import opened UnixPath
  import opened Wrappers

  // ---- What a path denotes: a walk over a tree of directories without links ----------------------------

  type Position = seq<string>

  /** `.` stays, `..` goes up and stays at the root, a name goes down. */
  function Move(at: Position, c: Component): Position {
    match c
    case Normal(name) => at + [name]
    case ParentDir => if at == [] then [] else at[..|at| - 1]
    case _ => at
  }

  function Go(at: Position, segments: seq<string>): Position
    decreases |segments|
  {
    if segments == [] then at else Go(Move(at, Part(segments[0])), segments[1..])
  }

  function GoParts(at: Position, parts: seq<Component>): Position
    decreases |parts|
  {
    if parts == [] then at else GoParts(Move(at, parts[0]), parts[1..])
  }

  // ---- The stack of names that normalize_path keeps -----------------------------------------------------

  function Step(rooted: bool, stack: seq<string>, c: Component): seq<string> {
    match c
    case Normal(name) => stack + [name]
    case ParentDir =>
      if stack != [] && stack[|stack| - 1] != ".." then stack[..|stack| - 1]
      else if rooted then stack
      else stack + [".."]
    case _ => stack
  }

  function Walk(rooted: bool, stack: seq<string>, segments: seq<string>): seq<string>
    decreases |segments|
  {
    if segments == [] then stack else Walk(rooted, Step(rooted, stack, Part(segments[0])), segments[1..])
  }

  function WalkParts(rooted: bool, stack: seq<string>, parts: seq<Component>): seq<string>
    decreases |parts|
  {
    if parts == [] then stack else WalkParts(rooted, Step(rooted, stack, parts[0]), parts[1..])
  }

  function Resolved(p: string): seq<string> {
    Walk(Rooted(p), [], Segments(p))
  }

  function Normalized(p: string): string {
    if !Rooted(p) && Resolved(p) == [] then "." else Render(Rooted(p), Resolved(p))
  }

  function FilesystemNormalized(p: string): string {
    Render(Rooted(p), Go([], Segments(p)))
  }

  // ---- What every stack satisfies ------------------------------------------------------------------------

  /** Real names, after a run of `..` that only a relative path has. */
  ghost predicate Settled(rooted: bool, stack: seq<string>) {
    && Plain(stack)
    && forall i | 0 <= i < |stack| && stack[i] == ".." :: !rooted && forall j | 0 <= j < i :: stack[j] == ".."
  }

  /** What a component read from a path can be. */
  predicate Honest(c: Component) {
    c.Normal? ==> Named(c.name) && c.name != "." && c.name != ".."
  }

  lemma StepSettles(rooted: bool, stack: seq<string>, c: Component)
    requires Settled(rooted, stack) && Honest(c)
    ensures Settled(rooted, Step(rooted, stack, c))
  {
  }

  lemma {:induction false} WalkSettles(rooted: bool, stack: seq<string>, segments: seq<string>)
    requires Settled(rooted, stack) && AllNamed(segments)
    ensures Settled(rooted, Walk(rooted, stack, segments))
    decreases |segments|
  {
    hide Settled;
    if segments != [] {
      assert segments[0] in segments;
      StepSettles(rooted, stack, Part(segments[0]));
      WalkSettles(rooted, Step(rooted, stack, Part(segments[0])), segments[1..]);
    }
  }

  lemma ResolvedSettles(p: string)
    ensures Settled(Rooted(p), Resolved(p))
  {
    SegmentsNamed(p);
    WalkSettles(Rooted(p), [], Segments(p));
  }

  lemma {:induction false} GoStaysPlain(at: Position, segments: seq<string>)
    requires Plain(at) && ".." !in at && AllNamed(segments)
    ensures Plain(Go(at, segments)) && ".." !in Go(at, segments)
    decreases |segments|
  {
    if segments != [] {
      assert segments[0] in segments;
      GoStaysPlain(Move(at, Part(segments[0])), segments[1..]);
    }
  }

  // ---- The loops -------------------------------------------------------------------------------------------

  lemma {:induction false} DotsDropOut(rooted: bool, stack: seq<string>, segments: seq<string>)
    ensures WalkParts(rooted, stack, Parts(segments)) == Walk(rooted, stack, segments)
    ensures GoParts(stack, Parts(segments)) == Go(stack, segments)
    decreases |segments|
  {
    if segments != [] {
      var rest := Parts(segments[1..]);
      if segments[0] == "." {
        assert [] + rest == rest;
        DotsDropOut(rooted, stack, segments[1..]);
      } else {
        assert ([Part(segments[0])] + rest)[1..] == rest;
        DotsDropOut(rooted, Step(rooted, stack, Part(segments[0])), segments[1..]);
        DotsDropOut(rooted, Move(stack, Part(segments[0])), segments[1..]);
      }
    }
  }

  lemma {:induction false} PartsHonest(segments: seq<string>)
    requires AllNamed(segments)
    ensures forall c | c in Parts(segments) :: Honest(c) && !c.RootDir?
  {
    if segments != [] {
      assert segments[0] in segments;
      PartsHonest(segments[1..]);
    }
  }

  /** The components fold to the same names as the segments; the root comes first, if at all. */
  lemma ComponentsFold(p: string)
    ensures WalkParts(Rooted(p), [], Components(p)) == Resolved(p)
    ensures GoParts([], Components(p)) == Go([], Segments(p))
    ensures forall i | 0 <= i < |Components(p)| :: Honest(Components(p)[i])
    ensures forall i | 0 <= i < |Components(p)| :: Components(p)[i].RootDir? <==> Rooted(p) && i == 0
    ensures Rooted(p) ==> Components(p) != []
  {
    SegmentsNamed(p);
    PartsHonest(Segments(p));
    DotsDropOut(Rooted(p), [], Segments(p));
    var rest := Parts(Segments(p));
    assert ([RootDir] + rest)[1..] == rest && ([CurDir] + rest)[1..] == rest && [] + rest == rest;
  }

  /** The last component is a name: neither the root nor `..`. */
  predicate EndsInName(buffer: string) {
    var parts := Components(buffer);
    parts != [] && parts[|parts| - 1].Normal?
  }

  lemma EndsInNameIff(rooted: bool, stack: seq<string>)
    requires Plain(stack)
    ensures EndsInName(Render(rooted, stack)) <==> stack != [] && stack[|stack| - 1] != ".."
  {
    ComponentsOfRender(rooted, stack);
    PartsOfPlain(stack);
  }

  method NormalizePath(path: string) returns (normalized: string)
    ensures normalized == Normalized(path)
  {
    hide Honest, Render, Components, Push, Pop, EndsInName;
    var parts := Components(path);
    ghost var rooted, stack := Rooted(path), [];
    ComponentsFold(path);
    normalized := "";
    for k := 0 to |parts|
      invariant Settled(rooted, stack) && (k == 0 ==> stack == [])
      invariant normalized == if k == 0 then "" else Render(rooted, stack)
      invariant WalkParts(rooted, stack, parts[k..]) == WalkParts(rooted, [], parts)
    {
      assert parts[k..][0] == parts[k] && parts[k..][1..] == parts[k + 1..];
      StepSettles(rooted, stack, parts[k]);
      StackFacts(rooted, stack);
      match parts[k] {
        case RootDir => normalized := Push(normalized, "/");
        case CurDir =>
        case ParentDir =>
          if EndsInName(normalized) {
            normalized := Pop(normalized);
          } else if !Rooted(normalized) {
            normalized := Push(normalized, "..");
          }
        case Normal(name) => normalized := Push(normalized, name);
      }
      stack := Step(rooted, stack, parts[k]);
    }
    StackFacts(rooted, stack);
    if normalized == "" {
      normalized := ".";
    }
  }

  /** What the loops know of their buffer when it is written from `stack`. */
  lemma StackFacts(rooted: bool, stack: seq<string>)
    requires Settled(rooted, stack)
    ensures EndsInName(Render(rooted, stack)) <==> stack != [] && stack[|stack| - 1] != ".."
    ensures Rooted(Render(rooted, stack)) == rooted
    ensures Render(rooted, stack) == "" <==> !rooted && stack == []
    ensures Push("", "/") == Render(true, []) && Render(false, []) == ""
    ensures Pop(Render(rooted, stack)) == Render(rooted, if stack == [] then [] else stack[..|stack| - 1])
    ensures forall name :: Push(Render(rooted, stack), name) == Render(rooted, stack + [name])
  {
    EndsInNameIff(rooted, stack);
    ReadsBack(rooted, stack);
    RenderStaysTrimmed(rooted, stack);
    PopUndoesPush(rooted, stack);
    forall name ensures Push(Render(rooted, stack), name) == Render(rooted, stack + [name]) {
      RenderPush(rooted, stack, name);
    }
  }

  method NormalizeFilesystemPath(path: string) returns (normalized: string)
    ensures normalized == FilesystemNormalized(path)
  {
    hide Honest, Render, Components, Push, Pop, EndsInName;
    var parts := Components(path);
    ghost var rooted, stack := Rooted(path), [];
    ComponentsFold(path);
    normalized := "";
    for k := 0 to |parts|
      invariant Settled(rooted, stack) && ".." !in stack && (k == 0 ==> stack == [])
      invariant normalized == if k == 0 then "" else Render(rooted, stack)
      invariant GoParts(stack, parts[k..]) == GoParts([], parts)
    {
      assert parts[k..][0] == parts[k] && parts[k..][1..] == parts[k + 1..];
      StackFacts(rooted, stack);
      MoveSettles(rooted, stack, parts[k]);
      match parts[k] {
        case CurDir =>
        case ParentDir => normalized := Pop(normalized);
        case RootDir => normalized := Push(normalized, "/");
        case Normal(name) => normalized := Push(normalized, name);
      }
      stack := Move(stack, parts[k]);
    }
    StackFacts(rooted, stack);
  }

  lemma MoveSettles(rooted: bool, stack: seq<string>, c: Component)
    requires Settled(rooted, stack) && ".." !in stack && Honest(c)
    ensures Settled(rooted, Move(stack, c)) && ".." !in Move(stack, c)
  {
  }

  // ---- What normalising means ---------------------------------------------------------------------------------

  lemma {:induction false} GoAppend(at: Position, xs: seq<string>, ys: seq<string>)
    ensures Go(at, xs + ys) == Go(Go(at, xs), ys)
    decreases |xs|
  {
    if xs == [] {
      assert xs + ys == ys;
    } else {
      assert (xs + ys)[0] == xs[0] && (xs + ys)[1..] == xs[1..] + ys;
      GoAppend(Move(at, Part(xs[0])), xs[1..], ys);
    }
  }

  lemma {:induction false} WalkAppend(rooted: bool, stack: seq<string>, xs: seq<string>, ys: seq<string>)
    ensures Walk(rooted, stack, xs + ys) == Walk(rooted, Walk(rooted, stack, xs), ys)
    decreases |xs|
  {
    if xs == [] {
      assert xs + ys == ys;
    } else {
      assert (xs + ys)[0] == xs[0] && (xs + ys)[1..] == xs[1..] + ys;
      WalkAppend(rooted, Step(rooted, stack, Part(xs[0])), xs[1..], ys);
    }
  }

  lemma GoOne(at: Position, s: string)
    ensures Go(at, [s]) == Move(at, Part(s))
  {
    assert Go(at, [s]) == Go(Move(at, Part(s)), [s][1..]);
  }

  lemma WalkOne(rooted: bool, stack: seq<string>, s: string)
    ensures Walk(rooted, stack, [s]) == Step(rooted, stack, Part(s))
  {
    assert Walk(rooted, stack, [s]) == Walk(rooted, Step(rooted, stack, Part(s)), [s][1..]);
  }

  lemma {:induction false} WalkOfSettled(rooted: bool, stack: seq<string>)
    requires Settled(rooted, stack)
    ensures Walk(rooted, [], stack) == stack
  {
    if stack != [] {
      var init, last := stack[..|stack| - 1], stack[|stack| - 1];
      assert stack == init + [last] && last in stack;
      WalkOfSettled(rooted, init);
      WalkAppend(rooted, [], init, [last]);
      WalkOne(rooted, init, last);
    }
  }

  lemma {:induction false} GoOfNames(at: Position, names: seq<string>)
    requires "." !in names && ".." !in names
    ensures Go(at, names) == at + names
    decreases |names|
  {
    if names != [] {
      assert names[0] in names;
      GoOfNames(at + [names[0]], names[1..]);
      assert at + [names[0]] + names[1..] == at + names;
    }
  }

  /** One step of the stack is one step of the walk it stands for, wherever the walk started. */
  lemma StepMeansMove(rooted: bool, at: Position, stack: seq<string>, c: Component)
    requires Settled(rooted, stack) && Honest(c) && (rooted ==> at == [])
    ensures Go(at, Step(rooted, stack, c)) == Move(Go(at, stack), c)
  {
    match c {
      case Normal(name) =>
        GoAppend(at, stack, [name]);
        GoOne(Go(at, stack), name);
      case ParentDir =>
        if stack != [] && stack[|stack| - 1] != ".." {
          var init, last := stack[..|stack| - 1], stack[|stack| - 1];
          assert stack == init + [last] && last in stack;
          GoAppend(at, init, [last]);
          GoOne(Go(at, init), last);
        } else {
          GoAppend(at, stack, [".."]);
          GoOne(Go(at, stack), "..");
        }
      case _ =>
    }
  }

  lemma {:induction false} WalkMeansGo(rooted: bool, at: Position, stack: seq<string>, segments: seq<string>)
    requires Settled(rooted, stack) && AllNamed(segments) && (rooted ==> at == [])
    ensures Go(at, Walk(rooted, stack, segments)) == Go(Go(at, stack), segments)
    decreases |segments|
  {
    hide Settled, Step, Move;
    if segments != [] {
      assert segments[0] in segments;
      StepSettles(rooted, stack, Part(segments[0]));
      StepMeansMove(rooted, at, stack, Part(segments[0]));
      WalkMeansGo(rooted, at, Step(rooted, stack, Part(segments[0])), segments[1..]);
    }
  }

  lemma SegmentsOfNormalized(p: string)
    ensures Rooted(Normalized(p)) == Rooted(p)
    ensures Segments(Normalized(p)) == (if !Rooted(p) && Resolved(p) == [] then ["."] else Resolved(p))
  {
    ResolvedSettles(p);
    ReadsBack(Rooted(p), Resolved(p));
    OneSegment(".");
  }

  /** Normalising keeps what a path denotes: from the root for a rooted path, from anywhere for a relative one. */
  lemma NormalizeKeepsMeaning(p: string, at: Position)
    requires Rooted(p) ==> at == []
    ensures Go(at, Segments(Normalized(p))) == Go(at, Segments(p))
  {
    SegmentsOfNormalized(p);
    SegmentsNamed(p);
    WalkMeansGo(Rooted(p), at, [], Segments(p));
    GoOne(at, ".");
  }

  lemma NormalizeIsIdempotent(p: string)
    ensures Normalized(Normalized(p)) == Normalized(p)
  {
    SegmentsOfNormalized(p);
    ResolvedSettles(p);
    WalkOfSettled(Rooted(p), Resolved(p));
    WalkOne(false, [], ".");
  }

  /** A rooted path normalises to the root and the names of the place it denotes: no `.` and no `..` is left. */
  lemma RootedNormalizesToNames(p: string)
    requires Rooted(p)
    ensures Resolved(p) == Go([], Segments(p))
    ensures Components(Normalized(p)) == [RootDir] + Parts(Go([], Segments(p)))
    ensures forall c | c in Components(Normalized(p))[1..] :: c.Normal?
  {
    hide Settled;
    SegmentsNamed(p);
    GoStaysPlain([], Segments(p));
    RootedWalkIsGo(Segments(p));
    ComponentsOfRender(true, Resolved(p));
    PartsOfPlain(Resolved(p));
  }

  lemma RootedWalkIsGo(segments: seq<string>)
    requires AllNamed(segments)
    ensures Walk(true, [], segments) == Go([], segments)
  {
    var stack := Walk(true, [], segments);
    WalkSettles(true, [], segments);
    WalkMeansGo(true, [], [], segments);
    GoOfNames([], stack);
    assert [] + stack == stack;
  }

  /** Two rooted paths normalise alike exactly when they denote the same place. */
  lemma SamePlaceIff(p: string, q: string)
    requires Rooted(p) && Rooted(q)
    ensures Normalized(p) == Normalized(q) <==> Go([], Segments(p)) == Go([], Segments(q))
  {
    RootedNormalizesToNames(p);
    RootedNormalizesToNames(q);
    SegmentsOfNormalized(p);
    SegmentsOfNormalized(q);
  }

  /** Normalising the directory first changes nothing, for any directory and any path joined to it. */
  lemma JoinNormalizesEither(cwd: string, path: string)
    ensures Normalized(Push(cwd, path)) == Normalized(Push(Normalized(cwd), path))
  {
    if !Rooted(path) {
      SegmentsOfPush(cwd, path);
      SegmentsOfPush(Normalized(cwd), path);
      SegmentsOfNormalized(cwd);
      ResolvedSettles(cwd);
      WalkOfSettled(Rooted(cwd), Resolved(cwd));
      WalkOne(false, [], ".");
      WalkAppend(Rooted(cwd), [], Segments(cwd), Segments(path));
      WalkAppend(Rooted(cwd), [], Segments(Normalized(cwd)), Segments(path));
    }
  }

  // ---- When the two normalisers agree --------------------------------------------------------------------------

  /** How deep a relative path ends below where it starts, or nothing if it climbs above that place. */
  function Depth(segments: seq<string>, d: nat): Option<nat> {
    if segments == [] then Some(d)
    else if segments[0] == "." then Depth(segments[1..], d)
    else if segments[0] != ".." then Depth(segments[1..], d + 1)
    else if d == 0 then None
    else Depth(segments[1..], d - 1)
  }

  lemma {:induction false} ClimbedStaysClimbed(stack: seq<string>, segments: seq<string>)
    requires Settled(false, stack) && AllNamed(segments) && stack != [] && stack[0] == ".."
    ensures Walk(false, stack, segments) != [] && Walk(false, stack, segments)[0] == ".."
    decreases |segments|
  {
    if segments != [] {
      assert segments[0] in segments;
      StepSettles(false, stack, Part(segments[0]));
      ClimbedStaysClimbed(Step(false, stack, Part(segments[0])), segments[1..]);
    }
  }

  lemma {:induction false} DepthTells(stack: seq<string>, segments: seq<string>)
    requires Settled(false, stack) && ".." !in stack && AllNamed(segments)
    ensures match Depth(segments, |stack|)
      case None => Walk(false, stack, segments) != [] && Walk(false, stack, segments)[0] == ".."
      case Some(d) => Walk(false, stack, segments) == Go(stack, segments) && |Go(stack, segments)| == d
    decreases |segments|
  {
    if segments != [] {
      assert segments[0] in segments;
      var next := Step(false, stack, Part(segments[0]));
      StepSettles(false, stack, Part(segments[0]));
      if segments[0] == ".." && stack == [] {
        ClimbedStaysClimbed(next, segments[1..]);
      } else {
        assert ".." !in next;
        DepthTells(next, segments[1..]);
      }
    }
  }

  /** The two normalisers give the same path exactly for rooted paths and for relative ones that never climb above
      their start and end strictly below it. */
  lemma NormalizersAgreeIff(p: string)
    ensures FilesystemNormalized(p) == Normalized(p) <==>
      (Rooted(p) || (Depth(Segments(p), 0).Some? && Depth(Segments(p), 0).value > 0))
  {
    hide Settled, Render;
    SegmentsNamed(p);
    GoStaysPlain([], Segments(p));
    ReadsBack(Rooted(p), Go([], Segments(p)));
    SegmentsOfNormalized(p);
    if Rooted(p) {
      RootedWalkIsGo(Segments(p));
    } else {
      NothingSettles();
      DepthTells([], Segments(p));
      if Resolved(p) != [] { assert Resolved(p)[0] in Resolved(p); }
    }
  }

  lemma NothingSettles()
    ensures Settled(false, []) && Settled(true, [])
  {
  }

  // ---- Paths as users type them --------------------------------------------------------------------------------

  function AfterTilde(raw: string): Option<string> {
    if |raw| >= 2 && raw[0] == '~' && (raw[1] == '/' || raw[1] == '\\') then Some(raw[2..]) else None
  }

  /** `home` is the value of HOME, if it is set. */
  function ExpandTilde(home: Option<string>, raw: string): Option<string> {
    if raw == "~" then home
    else if AfterTilde(raw).Some? && home.Some? then Some(Push(home.value, AfterTilde(raw).value))
    else None
  }

  function UserPath(home: Option<string>, cwd: string, raw: string): string {
    var expanded := ExpandTilde(home, raw);
    Normalized(Push(cwd, if expanded.Some? then expanded.value else raw))
  }

  method NormalizeUserPath(home: Option<string>, cwd: string, raw: string) returns (path: string)
    ensures path == UserPath(home, cwd, raw)
  {
    var expanded := ExpandTilde(home, raw);
    var typed := if expanded.Some? then expanded.value else raw;
    if Rooted(typed) {
      path := NormalizePath(typed);
    } else {
      path := NormalizePath(Push(cwd, typed));
    }
  }

  /** From a rooted directory, every path a user can type denotes a place, and typing the result again changes
      nothing. */
  lemma UserPathIsRooted(home: Option<string>, cwd: string, raw: string)
    requires Rooted(cwd)
    ensures Rooted(UserPath(home, cwd, raw))
      && UserPath(home, cwd, UserPath(home, cwd, raw)) == UserPath(home, cwd, raw)
  {
    hide Normalized, Resolved, Segments;
    var expanded := ExpandTilde(home, raw);
    var typed := if expanded.Some? then expanded.value else raw;
    if !Rooted(typed) { SegmentsOfPush(cwd, typed); }
    SegmentsOfNormalized(Push(cwd, typed));
    NormalizeIsIdempotent(Push(cwd, typed));
  }

  /** The place a path denotes from the root of the tree. */
  function Place(p: string): Position {
    Go([], Segments(p))
  }

  /** The place denoted by a path read in a directory. */
  function PlaceIn(dir: string, p: string): Position {
    if Rooted(p) then Place(p) else Go(Place(dir), Segments(p))
  }

  lemma NormalizedPush(dir: string, p: string)
    requires Rooted(dir)
    ensures Place(Normalized(Push(dir, p))) == PlaceIn(dir, p)
  {
    hide Normalized, Segments, Go;
    if !Rooted(p) {
      SegmentsOfPush(dir, p);
      GoAppend([], Segments(dir), Segments(p));
    }
    NormalizeKeepsMeaning(Push(dir, p), []);
  }

  /** A typed path denotes, from a rooted directory: the user's home for `~`; what follows `~/` or `~\`, read in the
      home; anything else, and everything when no home is set, read in the directory. */
  lemma TypedPathDenotes(home: Option<string>, cwd: string, raw: string)
    requires Rooted(cwd) && (home.Some? ==> Rooted(home.value))
    ensures Place(UserPath(home, cwd, raw)) ==
      if home.Some? && raw == "~" then Place(home.value)
      else if home.Some? && BelowHome(raw) then PlaceIn(home.value, raw[2..])
      else PlaceIn(cwd, raw)
  {
    ExpandIs(home, raw);
    hide Normalized, Segments, Go, ExpandTilde, Push, PlaceIn;
    var expanded := ExpandTilde(home, raw);
    var typed := if expanded.Some? then expanded.value else raw;
    assert UserPath(home, cwd, raw) == Normalized(Push(cwd, typed));
    NormalizedPush(cwd, typed);
    if expanded.Some? {
      PlaceOfRooted(cwd, typed);
      if raw != "~" { PushPlace(home.value, raw[2..]); }
    }
  }

  lemma PlaceOfRooted(dir: string, p: string)
    ensures Rooted(p) ==> PlaceIn(dir, p) == Place(p)
  {
  }

  predicate BelowHome(raw: string) {
    |raw| >= 2 && raw[..2] in {"~/", "~\\"}
  }

  lemma ExpandIs(home: Option<string>, raw: string)
    requires home.Some? ==> Rooted(home.value)
    ensures raw == "~" ==> !BelowHome(raw)
    ensures ExpandTilde(home, raw) ==
      if home.Some? && raw == "~" then home
      else if home.Some? && BelowHome(raw) then Some(Push(home.value, raw[2..])) else None
    ensures ExpandTilde(home, raw).Some? ==> Rooted(ExpandTilde(home, raw).value)
  {
    if |raw| >= 2 {
      assert raw[..2] == [raw[0], raw[1]];
      assert raw[..2] == "~/" <==> raw[0] == '~' && raw[1] == '/';
      assert raw[..2] == "~\\" <==> raw[0] == '~' && raw[1] == '\\';
    }
  }

  lemma PushPlace(dir: string, p: string)
    requires Rooted(dir)
    ensures Rooted(Push(dir, p)) && Place(Push(dir, p)) == PlaceIn(dir, p)
  {
    hide Segments, Go;
    if !Rooted(p) {
      SegmentsOfPush(dir, p);
      GoAppend([], Segments(dir), Segments(p));
    }
  }

  /** The directory a path is typed in may be normalised first. */
  lemma UserPathFromEither(home: Option<string>, cwd: string, raw: string)
    ensures UserPath(home, cwd, raw) == UserPath(home, Normalized(cwd), raw)
  {
    var expanded := ExpandTilde(home, raw);
    JoinNormalizesEither(cwd, if expanded.Some? then expanded.value else raw);
  }

  // ---- Workspace roots ---------------------------------------------------------------------------------------------

  /** What is kept of a list when each entry is kept once, at its first place. */
  function FirstOnly(xs: seq<string>): seq<string> {
    if xs == [] then []
    else
      var kept := FirstOnly(xs[..|xs| - 1]);
      if xs[|xs| - 1] in kept then kept else kept + [xs[|xs| - 1]]
  }

  function UserPaths(home: Option<string>, cwd: string, raws: seq<string>): (r: seq<string>)
    ensures |r| == |raws| && forall i | 0 <= i < |raws| :: r[i] == UserPath(home, cwd, raws[i])
  {
    seq(|raws|, i requires 0 <= i < |raws| => UserPath(home, cwd, raws[i]))
  }

  function ExplicitRoots(home: Option<string>, cwd: string, additional: seq<string>): seq<string> {
    FirstOnly(UserPaths(home, cwd, [cwd] + additional))
  }

  lemma FirstOnlyPush(xs: seq<string>, x: string)
    ensures FirstOnly(xs + [x]) == if x in FirstOnly(xs) then FirstOnly(xs) else FirstOnly(xs) + [x]
  {
    assert (xs + [x])[..|xs + [x]| - 1] == xs;
  }

  method PushNormalizedRoot(roots: seq<string>, seen: set<string>, home: Option<string>, cwd: string, raw: string)
    returns (rootsAfter: seq<string>, seenAfter: set<string>)
    requires forall x :: x in seen <==> x in roots
    ensures rootsAfter == if UserPath(home, cwd, raw) in roots then roots else roots + [UserPath(home, cwd, raw)]
    ensures forall x :: x in seenAfter <==> x in rootsAfter
  {
    rootsAfter, seenAfter := roots, seen;
    var normalized := NormalizeUserPath(home, cwd, raw);
    if normalized !in seen {
      seenAfter := seenAfter + {normalized};
      rootsAfter := rootsAfter + [normalized];
    }
  }

  lemma UserPathsPush(home: Option<string>, cwd: string, raws: seq<string>, raw: string)
    ensures var before := FirstOnly(UserPaths(home, cwd, raws));
      var path := UserPath(home, cwd, raw);
      FirstOnly(UserPaths(home, cwd, raws + [raw])) == if path in before then before else before + [path]
  {
    hide UserPath;
    assert UserPaths(home, cwd, raws + [raw]) == UserPaths(home, cwd, raws) + [UserPath(home, cwd, raw)];
    FirstOnlyPush(UserPaths(home, cwd, raws), UserPath(home, cwd, raw));
  }

  method ExplicitWorkspaceRoots(home: Option<string>, cwd: string, additional: seq<string>) returns (roots: seq<string>)
    ensures roots == ExplicitRoots(home, cwd, additional)
  {
    hide UserPath, FirstOnly, UserPaths;
    ghost var raws: seq<string> := [];
    NoRoots(home, cwd);
    roots := [];
    var seen: set<string> := {};
    UserPathsPush(home, cwd, raws, cwd);
    roots, seen := PushNormalizedRoot(roots, seen, home, cwd, cwd);
    raws := raws + [cwd];
    for k := 0 to |additional|
      invariant raws == [cwd] + additional[..k]
      invariant roots == FirstOnly(UserPaths(home, cwd, raws)) && forall x :: x in seen <==> x in roots
    {
      UserPathsPush(home, cwd, raws, additional[k]);
      roots, seen := PushNormalizedRoot(roots, seen, home, cwd, additional[k]);
      raws := raws + [additional[k]];
    }
    assert raws == [cwd] + additional;
  }

  lemma NoRoots(home: Option<string>, cwd: string)
    ensures FirstOnly(UserPaths(home, cwd, [])) == []
  {
  }

  lemma {:induction false} FirstOnlyKeeps(xs: seq<string>)
    ensures Distinct(FirstOnly(xs)) && forall x :: x in FirstOnly(xs) <==> x in xs
  {
    if xs != [] {
      FirstOnlyKeeps(xs[..|xs| - 1]);
      assert xs == xs[..|xs| - 1] + [xs[|xs| - 1]];
    }
  }

  lemma {:induction false} FirstOnlyGrows(xs: seq<string>, ys: seq<string>)
    ensures FirstOnly(xs) <= FirstOnly(xs + ys)
    decreases |ys|
  {
    if ys == [] {
      assert xs + ys == xs;
    } else {
      var init := ys[..|ys| - 1];
      assert xs + ys == xs + init + [ys[|ys| - 1]];
      FirstOnlyGrows(xs, init);
      FirstOnlyPush(xs + init, ys[|ys| - 1]);
    }
  }

  lemma {:induction false} FirstOnlyOfRepeated(x: string, xs: seq<string>)
    requires Distinct(xs) && xs != [] && xs[0] == x
    ensures FirstOnly([x] + xs) == xs
  {
    var init, last := xs[..|xs| - 1], xs[|xs| - 1];
    assert [x] + xs == [x] + init + [last];
    FirstOnlyPush([x] + init, last);
    FirstOnlyOne(x);
    if init == [] {
      assert [x] + init == [x] && xs == [x];
    } else {
      FirstOnlyOfRepeated(x, init);
      assert xs == init + [last];
    }
  }

  lemma FirstOnlyOne(x: string)
    ensures FirstOnly([x]) == [x]
  {
    FirstOnlyPush([], x);
    assert [] + [x] == [x];
  }

  /** The roots are exactly the places asked for, each once; asking for more never moves or drops one. */
  lemma RootsAreThePlacesAskedFor(home: Option<string>, cwd: string, additional: seq<string>, more: seq<string>)
    ensures Distinct(ExplicitRoots(home, cwd, additional))
    ensures forall x :: x in ExplicitRoots(home, cwd, additional) <==>
      (exists raw :: raw in [cwd] + additional && UserPath(home, cwd, raw) == x)
    ensures ExplicitRoots(home, cwd, additional) <= ExplicitRoots(home, cwd, additional + more)
  {
    hide UserPath;
    var raws := [cwd] + additional;
    var paths := UserPaths(home, cwd, raws);
    FirstOnlyKeeps(paths);
    forall x ensures x in paths <==> exists raw :: raw in raws && UserPath(home, cwd, raw) == x {
      if raw :| raw in raws && UserPath(home, cwd, raw) == x {
        var i :| 0 <= i < |raws| && raws[i] == raw;
        assert paths[i] == x;
      }
    }
    assert UserPaths(home, cwd, [cwd] + (additional + more)) == paths + UserPaths(home, cwd, more);
    FirstOnlyGrows(paths, UserPaths(home, cwd, more));
  }

  /** Asking again for the roots of a rooted working directory gives the same roots in the same order. */
  lemma RootsAreStable(home: Option<string>, cwd: string, additional: seq<string>)
    requires Rooted(cwd)
    ensures var roots := ExplicitRoots(home, cwd, additional);
      ExplicitRoots(home, cwd, roots) == roots
  {
    var roots, first := ExplicitRoots(home, cwd, additional), UserPath(home, cwd, cwd);
    var paths := UserPaths(home, cwd, [cwd] + additional);
    hide UserPath, Rooted;
    RootsAreThePlacesAskedFor(home, cwd, additional, []);
    forall i | 0 <= i < |roots| ensures UserPath(home, cwd, roots[i]) == roots[i] {
      assert roots[i] in roots;
      var raw :| raw in [cwd] + additional && UserPath(home, cwd, raw) == roots[i];
      UserPathIsRooted(home, cwd, raw);
    }
    assert paths == [first] + paths[1..];
    FirstOnlyGrows([first], paths[1..]);
    FirstOnlyOne(first);
    FirstOnlyOfRepeated(first, roots);
    assert UserPaths(home, cwd, [cwd] + roots) == [first] + roots;
  }

  /** Containment in a root, which compares components, is containment of the places the two paths denote. */
  lemma ContainmentIsOfPlaces(p: string, root: string)
    requires Rooted(p) && Rooted(root)
    ensures StartsWith(Normalized(p), Normalized(root)) <==> Go([], Segments(root)) <= Go([], Segments(p))
  {
    RootedNormalizesToNames(p);
    RootedNormalizesToNames(root);
    SegmentsNamed(p);
    SegmentsNamed(root);
    var inner, outer := Go([], Segments(p)), Go([], Segments(root));
    GoStaysPlain([], Segments(p));
    GoStaysPlain([], Segments(root));
    PartsKeepPrefix(outer, inner);
    assert [RootDir] + Parts(outer) <= [RootDir] + Parts(inner) <==> Parts(outer) <= Parts(inner) by {
      PrefixUnder(RootDir, Parts(outer), Parts(inner));
    }
  }

  lemma PrefixUnder<T>(x: T, xs: seq<T>, ys: seq<T>)
    ensures [x] + xs <= [x] + ys <==> xs <= ys
  {
    assert ([x] + xs)[1..] == xs && ([x] + ys)[1..] == ys;
  }

  // ---- The active plan file ---------------------------------------------------------------------------------------

  function PermissionPath(home: Option<string>, raw: string): Option<string> {
    if raw == "~" || AfterTilde(raw).Some? then
      match ExpandTilde(home, raw)
      case Some(p) => Some(FilesystemNormalized(p))
      case None => None
    else Some(FilesystemNormalized(raw))
  }

  /** `plan` is the path of the active plan, if there is one; `raw` the tool's file_path, if it is a string. */
  predicate TargetsActivePlan(home: Option<string>, raw: Option<string>, plan: Option<string>) {
    plan.Some? && raw.Some? && PermissionPath(home, raw.value) == Some(FilesystemNormalized(plan.value))
  }

  /** A tool targets the active plan exactly when the path it names, read from the session's directory, denotes the
      plan's place: for every rooted plan and every path that is rooted or starts with the user's home. */
  lemma TargetsPlanIffSamePlace(home: Option<string>, cwd: string, raw: string, plan: string)
    requires Rooted(plan) && (home.Some? ==> Rooted(home.value))
    requires Rooted(raw) || ((raw == "~" || AfterTilde(raw).Some?) && home.Some?)
    ensures TargetsActivePlan(home, Some(raw), Some(plan)) <==> UserPath(home, cwd, raw) == Normalized(plan)
  {
    NormalizersAgreeIff(plan);
    var expanded := ExpandTilde(home, raw);
    var typed := if expanded.Some? then expanded.value else raw;
    if !Rooted(raw) && raw != "~" && !Rooted(AfterTilde(raw).value) {
      SegmentsOfPush(home.value, AfterTilde(raw).value);
    }
    NormalizersAgreeIff(typed);
  }

  /** A relative path never targets a rooted plan, wherever the session works. */
  lemma RelativeNeverTargetsPlan(home: Option<string>, raw: string, plan: string)
    requires Rooted(plan) && !Rooted(raw) && raw != "~" && AfterTilde(raw).None?
    ensures !TargetsActivePlan(home, Some(raw), Some(plan))
  {
    SegmentsNamed(raw);
    SegmentsNamed(plan);
    GoStaysPlain([], Segments(raw));
    GoStaysPlain([], Segments(plan));
    ReadsBack(false, Go([], Segments(raw)));
    ReadsBack(true, Go([], Segments(plan)));
  }

  // ---- Paths to the letter ---------------------------------------------------------------------------------------

  lemma SampleSegments()
    ensures Segments("/home" + "/" + "a/../b") == ["home", "a", "..", "b"]
    ensures Segments("a/../..") == ["a", "..", ".."]
  {
    hide Segments;
    assert "/home" == "" + "/" + "home" && "a/../b" == "a" + "/" + ".." + "/" + "b";
    assert "a/../.." == "a" + "/" + ".." + "/" + "..";
    NoSegments();
    OneSegment("home");
    OneSegment("a");
    OneSegment("..");
    OneSegment("b");
    SegmentsAcross("", "home");
    SegmentsAcross("a", "..");
    SegmentsAcross("a" + "/" + "..", "b");
    SegmentsAcross("a" + "/" + "..", "..");
    SegmentsAcross("/home", "a/../b");
  }

  lemma WalkSamples()
    ensures Walk(true, [], ["home", "a", "..", "b"]) == ["home", "b"]
    ensures Walk(false, [], ["a", "..", ".."]) == [".."] && Go([], ["a", "..", ".."]) == []
  {
    var up, climb := ["home", "a", "..", "b"], ["a", "..", ".."];
    assert up[1..] == ["a", "..", "b"] && up[1..][1..] == ["..", "b"] && up[1..][1..][1..] == ["b"];
    assert up[1..][1..][1..][1..] == [] && climb[1..] == ["..", ".."] && climb[1..][1..] == [".."];
    assert climb[1..][1..][1..] == [];
    assert ["home", "a"][..1] == ["home"] && ["a"][..0] == [] && [] + ["home"] == ["home"] && [] + ["a"] == ["a"];
    assert "a"[0] != '.' && "home"[0] != '.' && "b"[0] != '.';
  }

  lemma RenderSamples()
    ensures Render(true, ["home", "b"]) == "/home/b" && Render(false, [".."]) == ".." && Render(false, []) == ""
  {
    assert ["home", "b"][..1] == ["home"] && ["home"][..0] == [];
    assert Render(true, ["home"]) == "/home";
    assert [".."][..0] == [];
  }

  lemma HomeSample(cwd: string)
    ensures UserPath(Some("/home"), cwd, "~/a/../b") == Normalized("/home" + "/" + "a/../b")
    ensures Rooted("/home" + "/" + "a/../b") && !Rooted("a/../..")
  {
    hide Normalized;
    assert "~/a/../b"[2..] == "a/../b";
    var typed := "/home" + "/" + "a/../b";
    assert ExpandTilde(Some("/home"), "~/a/../b") == Some(typed) && Push(cwd, typed) == typed;
  }

  lemma NormalizedFrom(p: string, segments: seq<string>)
    requires Segments(p) == segments
    ensures var names := Walk(Rooted(p), [], segments);
      Normalized(p) == if !Rooted(p) && names == [] then "." else Render(Rooted(p), names)
    ensures FilesystemNormalized(p) == Render(Rooted(p), Go([], segments))
  {
  }

  /** A path below the home with a step up, and a relative path that climbs. */
  lemma PathSamples(cwd: string)
    ensures UserPath(Some("/home"), cwd, "~/a/../b") == "/home/b"
    ensures Normalized("a/../..") == ".." && FilesystemNormalized("a/../..") == ""
  {
    hide Walk, Go, Render, Segments, Normalized, FilesystemNormalized, Rooted, UserPath;
    SampleSegments();
    HomeSample(cwd);
    NormalizedFrom("/home" + "/" + "a/../b", ["home", "a", "..", "b"]);
    NormalizedFrom("a/../..", ["a", "..", ".."]);
    WalkSamples();
    RenderSamples();
  }
}
