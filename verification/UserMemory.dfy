/** The global user memory: keyed blocks printed as `## key` sections and parsed back line by
    line (crates/puffer-core/user_memory.rs). */
module UserMemory {
  import opened Text
  import opened Wrappers

  const MAX_BLOCKS: nat := 200
  const MAX_BODY_CHARS: nat := 4000
  const HEADER: string := "## "

  datatype Block = Block(key: string, body: string)

  // ---- Keys -------------------------------------------------------------------------

  /** What the standard library knows of characters: lower case, of whole texts since it may depend on the context and
      change the length, which characters are their own lower case, and which are letters or digits. */
  datatype Alphabet = Alphabet(lower: string -> string, isLow: char -> bool, isWord: char -> bool)

  predicate IsAscii(c: char) {
    c < '\U{80}'
  }

  /** Lower case is made of characters that are their own lower case, changes no text of such characters, and is the
      familiar one in ASCII. */
  predicate LowerLaw(a: Alphabet, s: string) {
    && (forall i | 0 <= i < |a.lower(s)| :: a.isLow(a.lower(s)[i]))
    && ((forall i | 0 <= i < |s| :: a.isLow(s[i])) ==> a.lower(s) == s)
    && ((forall i | 0 <= i < |s| :: IsAscii(s[i])) ==> a.lower(s) == LowerAscii(s))
  }

  /** Letters and digits are not white space; in ASCII they are the familiar ones. */
  predicate WordLaw(a: Alphabet, c: char) {
    && (a.isWord(c) ==> !IsSpace(c))
    && (IsAscii(c) ==> (a.isWord(c) <==> 'a' <= c <= 'z' || 'A' <= c <= 'Z' || '0' <= c <= '9'))
    && (IsSlugChar(c) ==> a.isLow(c))
  }

  /** The laws of Unicode used here. */
  ghost predicate Lawful(a: Alphabet) {
    (forall s :: LowerLaw(a, s)) && (forall c :: WordLaw(a, c))
  }

  const ASCII: Alphabet :=
    Alphabet(LowerAscii, c => !('A' <= c <= 'Z'), c => 'a' <= c <= 'z' || 'A' <= c <= 'Z' || '0' <= c <= '9')

  type LawfulAlphabet = a: Alphabet | Lawful(a) witness ASCII

  /** The alphabet of the library, of which nothing but the laws is known. */
  const LETTERS: LawfulAlphabet

  predicate IsWordChar(c: char) {
    LETTERS.isWord(c)
  }

  predicate IsLowWord(w: string) {
    w != "" && forall i | 0 <= i < |w| :: IsWordChar(w[i]) && LETTERS.isLow(w[i])
  }

  /** The non-empty runs of letters and digits, the first one continuing `current`. */
  function Words(s: string, current: string): seq<string> {
    if s == "" then (if current == "" then [] else [current])
    else if IsWordChar(s[0]) then Words(s[1..], current + [s[0]])
    else if current == "" then Words(s[1..], "")
    else [current] + Words(s[1..], "")
  }

  function NormalizeKey(key: string): string {
    Join(Words(LETTERS.lower(Trim(key)), ""), "-")
  }

  lemma {:induction false} WordsAreLow(s: string, current: string)
    requires forall i | 0 <= i < |s| :: LETTERS.isLow(s[i])
    requires current == "" || IsLowWord(current)
    ensures forall w | w in Words(s, current) :: IsLowWord(w)
  {
    if s != "" {
      if IsWordChar(s[0]) { WordsAreLow(s[1..], current + [s[0]]); } else { WordsAreLow(s[1..], ""); }
    }
  }

  lemma {:induction false} WordPrefix(w: string, rest: string, current: string)
    requires forall i | 0 <= i < |w| :: IsWordChar(w[i])
    ensures Words(w + rest, current) == Words(rest, current + w)
  {
    if w == "" {
      assert w + rest == rest && current + w == current;
    } else {
      assert (w + rest)[1..] == w[1..] + rest;
      WordPrefix(w[1..], rest, current + [w[0]]);
      assert current + [w[0]] + w[1..] == current + w;
    }
  }

  lemma {:induction false} WordsUndoJoin(words: seq<string>)
    requires forall w | w in words :: IsLowWord(w)
    ensures Words(Join(words, "-"), "") == words
  {
    if words != [] {
      var w := words[0];
      assert w in words;
      assert "" + w == w && words == [w] + words[1..];
      if |words| == 1 {
        WordPrefix(w, "", "");
        assert w + "" == w;
      } else {
        assert WordLaw(LETTERS, '-');
        var rest := "-" + Join(words[1..], "-");
        assert Join(words, "-") == w + rest;
        WordPrefix(w, rest, "");
        assert rest[1..] == Join(words[1..], "-");
        WordsUndoJoin(words[1..]);
      }
    }
  }

  predicate IsKeyChar(c: char) {
    c == '-' || (IsWordChar(c) && LETTERS.isLow(c))
  }

  lemma {:induction false} JoinedWordsAreKeys(words: seq<string>)
    requires forall w | w in words :: IsLowWord(w)
    ensures forall c | c in Join(words, "-") :: IsKeyChar(c)
  {
    if |words| == 1 {
      assert words[0] in words;
    } else if |words| > 1 {
      assert words[0] in words;
      JoinedWordsAreKeys(words[1..]);
    }
  }

  /** Keys are words in lower case joined by dashes, and normalising a key twice is normalising it once, whatever the
      alphabet. */
  lemma NormalizeKeyIdempotent(key: string)
    ensures NormalizeKey(NormalizeKey(key)) == NormalizeKey(key)
    ensures forall c | c in NormalizeKey(key) :: IsKeyChar(c)
  {
    var lowered := LETTERS.lower(Trim(key));
    var words, slug := Words(lowered, ""), NormalizeKey(key);
    assert LowerLaw(LETTERS, Trim(key)) && LowerLaw(LETTERS, slug);
    WordsAreLow(lowered, "");
    JoinedWordsAreKeys(words);
    KeyCharIsPlain('-');
    forall i | 0 <= i < |slug| ensures LETTERS.isLow(slug[i]) && !IsSpace(slug[i]) {
      assert slug[i] in slug;
      KeyCharIsPlain(slug[i]);
    }
    TrimMargins("", slug, "");
    assert "" + slug + "" == slug;
    WordsUndoJoin(words);
  }

  lemma KeyCharIsPlain(c: char)
    requires IsKeyChar(c)
    ensures LETTERS.isLow(c) && !IsSpace(c) && !IsWordChar('-')
  {
    assert WordLaw(LETTERS, c) && WordLaw(LETTERS, '-');
  }

  // ---- What a key keeps -------------------------------------------------------------

  /** A letter or digit of a text, and whether something else stands before it. */
  datatype Mark = Mark(letter: char, apart: bool)

  /** The letters and digits of a text in order; `apart` tells of the first one. */
  function Marks(s: string, apart: bool): seq<Mark> {
    if s == "" then []
    else if IsWordChar(s[0]) then [Mark(s[0], apart)] + Marks(s[1..], false)
    else Marks(s[1..], true)
  }

  predicate AllWordChars(w: string) {
    forall i | 0 <= i < |w| :: IsWordChar(w[i])
  }

  lemma {:induction false} MarksAcross(w: string, rest: string, apart: bool)
    requires AllWordChars(w) && w != ""
    ensures Marks(w + rest, apart) == Marks(w, apart) + Marks(rest, false)
    decreases |w|
  {
    assert (w + rest)[1..] == w[1..] + rest;
    if |w| == 1 {
      assert w[1..] == "" && "" + rest == rest;
      assert Marks(w, apart) == [Mark(w[0], apart)];
    } else {
      MarksAcross(w[1..], rest, false);
    }
  }

  lemma {:induction false} JoinedMarks(s: string, current: string)
    requires AllWordChars(current)
    ensures Marks(Join(Words(s, current), "-"), true) == Marks(current + s, true)
    decreases |s|
  {
    assert WordLaw(LETTERS, '-');
    if s == "" {
      assert current + s == current;
    } else if IsWordChar(s[0]) {
      assert (current + [s[0]]) + s[1..] == current + s;
      JoinedMarks(s[1..], current + [s[0]]);
    } else {
      var words := Words(s[1..], "");
      assert "" + s[1..] == s[1..];
      JoinedMarks(s[1..], "");
      if current == "" {
        assert current + s == s;
      } else {
        MarksAcross(current, s, true);
        JoinHead(current, words);
        if words == [] {
          assert Marks(current, true) + [] == Marks(current, true);
        } else {
          assert ("-" + Join(words, "-"))[1..] == Join(words, "-");
          MarksAcross(current, "-" + Join(words, "-"), true);
        }
      }
    }
  }

  lemma JoinHead(w: string, words: seq<string>)
    ensures Join([w] + words, "-") == if words == [] then w else w + ("-" + Join(words, "-"))
  {
    assert ([w] + words)[1..] == words;
  }

  /** No dash at the end, none doubled, and else only letters and digits. */
  predicate DashesBetween(k: string) {
    forall i | 0 <= i < |k| && !IsWordChar(k[i]) :: k[i] == '-' && i + 1 < |k| && IsWordChar(k[i + 1])
  }

  lemma DashKeepsBetween(w: string, rest: string)
    requires AllWordChars(w) && DashesBetween(rest) && rest != "" && IsWordChar(rest[0])
    ensures DashesBetween(w + ("-" + rest))
  {
    var k := w + ("-" + rest);
    forall i | 0 <= i < |k| && !IsWordChar(k[i]) ensures k[i] == '-' && i + 1 < |k| && IsWordChar(k[i + 1]) {
      if i > |w| { assert k[i] == rest[i - |w| - 1]; }
    }
  }

  lemma {:induction false} JoinedDashes(words: seq<string>)
    requires forall w | w in words :: IsLowWord(w)
    ensures var k := Join(words, "-"); DashesBetween(k) && (k != "" ==> IsWordChar(k[0])) && (words != [] ==> k != "")
  {
    if words != [] {
      var w := words[0];
      assert w in words && words == [w] + words[1..];
      assert AllWordChars(w) && DashesBetween(w);
      JoinedDashes(words[1..]);
      JoinHead(w, words[1..]);
      hide Join, DashesBetween, AllWordChars;
      if words[1..] != [] { DashKeepsBetween(w, Join(words[1..], "-")); }
    }
  }

  /** A text spelled from its letters, a dash before each that stands apart. */
  function Spelled(marks: seq<Mark>): string {
    if marks == [] then ""
    else (if marks[0].apart then "-" else "") + [marks[0].letter] + Spelled(marks[1..])
  }

  lemma {:induction false} SpelledBack(k: string, apart: bool)
    requires DashesBetween(k)
    ensures Spelled(Marks(k, apart)) == if k != "" && IsWordChar(k[0]) && apart then "-" + k else k
    decreases |k|
  {
    if k != "" {
      assert k == [k[0]] + k[1..];
      forall i | 0 <= i < |k[1..]| && !IsWordChar(k[1..][i])
        ensures k[1..][i] == '-' && i + 1 < |k[1..]| && IsWordChar(k[1..][i + 1])
      {
        assert !IsWordChar(k[i + 1]) && k[1..][i] == k[i + 1];
      }
      SpelledBack(k[1..], !IsWordChar(k[0]));
      if IsWordChar(k[0]) {
        var marks := Marks(k, apart);
        assert marks[1..] == Marks(k[1..], false);
      }
    }
  }

  /** The letters and digits of a key are those of the trimmed text in lower case, in order; a dash stands between two
      of them exactly when something else stood between them there, and nowhere else. */
  lemma KeyKeepsLetters(key: string)
    ensures var text, k := LETTERS.lower(Trim(key)), NormalizeKey(key);
      && Marks(k, true) == Marks(text, true) && DashesBetween(k) && (k != "" ==> IsWordChar(k[0]))
      && Spelled(Marks(text, true)) == if k == "" then "" else "-" + k
  {
    var text := LETTERS.lower(Trim(key));
    assert LowerLaw(LETTERS, Trim(key)) && "" + text == text;
    JoinedMarks(text, "");
    WordsAreLow(text, "");
    JoinedDashes(Words(text, ""));
    SpelledBack(NormalizeKey(key), true);
  }

  /** Two keys address one block exactly when their texts in lower case have the same letters and digits, apart at the
      same places. */
  lemma SameKeyIff(a: string, b: string)
    ensures NormalizeKey(a) == NormalizeKey(b) <==>
      Marks(LETTERS.lower(Trim(a)), true) == Marks(LETTERS.lower(Trim(b)), true)
  {
    KeyKeepsLetters(a);
    KeyKeepsLetters(b);
    var k, l := NormalizeKey(a), NormalizeKey(b);
    assert k != "" ==> ("-" + k)[1..] == k;
    assert l != "" ==> ("-" + l)[1..] == l;
  }

  lemma TwoWords(first: string, between: char, second: string)
    requires first != "" && second != "" && AllWordChars(first) && AllWordChars(second) && !IsWordChar(between)
    ensures Join(Words(first + [between] + second, ""), "-") == first + "-" + second
  {
    var rest := [between] + second;
    assert first + [between] + second == first + rest && "" + first == first && "" + second == second;
    WordPrefix(first, rest, "");
    assert rest[1..] == second && second + "" == second;
    WordPrefix(second, "", "");
    assert Words(rest, first) == [first] + [second];
    assert [first, second][1..] == [second];
  }

  lemma AsciiKey(key: string, first: string, between: char, second: string)
    requires forall i | 0 <= i < |key| :: IsAscii(key[i])
    requires IsTrimmed(key) && LowerAscii(key) == first + [between] + second
    requires first != "" && second != "" && AllWordChars(first) && AllWordChars(second) && !IsWordChar(between)
    ensures NormalizeKey(key) == first + "-" + second
  {
    TrimMargins("", key, "");
    assert "" + key + "" == key;
    assert LowerLaw(LETTERS, key);
    TwoWords(first, between, second);
  }

  lemma LettersOfSamples()
    ensures AllWordChars("home") && AllWordChars("address") && AllWordChars("phone")
    ensures !IsWordChar(' ') && !IsWordChar('_') && !IsWordChar('-')
  {
    assert WordLaw(LETTERS, ' ') && WordLaw(LETTERS, '_') && WordLaw(LETTERS, '-');
    SmallLettersAreWords("home");
    SmallLettersAreWords("address");
    SmallLettersAreWords("phone");
  }

  lemma SmallLettersAreWords(w: string)
    requires forall i | 0 <= i < |w| :: 'a' <= w[i] <= 'z'
    ensures AllWordChars(w)
  {
    forall i | 0 <= i < |w| ensures IsWordChar(w[i]) { assert WordLaw(LETTERS, w[i]); }
  }

  /** Three spellings of one key, and another key. */
  lemma HomeAddress()
    ensures NormalizeKey("Home Address") == "home" + "-" + "address"
    ensures NormalizeKey("home_address") == NormalizeKey("home-address") == NormalizeKey("Home Address")
    ensures NormalizeKey("Home Phone") == "home" + "-" + "phone"
  {
    LettersOfSamples();
    LoweredSamples();
    AsciiKey("Home Address", "home", ' ', "address");
    AsciiKey("home_address", "home", '_', "address");
    AsciiKey("home-address", "home", '-', "address");
    AsciiKey("Home Phone", "home", ' ', "phone");
  }

  lemma LoweredSamples()
    ensures LowerAscii("Home Address") == "home" + [' '] + "address"
    ensures LowerAscii("home_address") == "home" + ['_'] + "address"
    ensures LowerAscii("home-address") == "home" + ['-'] + "address"
    ensures LowerAscii("Home Phone") == "home" + [' '] + "phone"
  {
  }

  // ---- Lines -----------------------------------------------------------------------

  function NewlineFrom(s: string, from: nat): (i: nat)
    requires from <= |s|
    ensures from <= i <= |s|
    ensures i < |s| ==> s[i] == '\n'
    ensures forall j | from <= j < i :: s[j] != '\n'
    decreases |s| - from
  {
    if from == |s| || s[from] == '\n' then from else NewlineFrom(s, from + 1)
  }

  function DropCr(line: string): string {
    if line != "" && line[|line| - 1] == '\r' then line[..|line| - 1] else line
  }

  /** Lines end at `\n` or `\r\n`; a last line without a terminator is taken whole. */
  function Lines(s: string): seq<string> {
    if s == "" then []
    else
      var i := NewlineFrom(s, 0);
      if i == |s| then [s] else [DropCr(s[..i])] + Lines(s[i + 1..])
  }

  predicate IsHeader(line: string) {
    HEADER <= line
  }

  // ---- Parsing and printing, as functions --------------------------------------------

  function Flush(key: Option<string>, body: seq<string>, blocks: seq<Block>): seq<Block> {
    var joined := Trim(Join(body, "\n"));
    if key.None? || joined == "" then blocks else blocks + [Block(key.value, joined)]
  }

  function ParseLines(lines: seq<string>, key: Option<string>, body: seq<string>, blocks: seq<Block>): seq<Block>
    decreases |lines|
  {
    if lines == [] then Flush(key, body, blocks)
    else if IsHeader(lines[0]) then
      ParseLines(lines[1..], Some(NormalizeKey(lines[0][|HEADER|..])), [], Flush(key, body, blocks))
    else
      ParseLines(lines[1..], key, if key.Some? then body + [lines[0]] else body, blocks)
  }

  function ParseBlocks(raw: string): seq<Block> {
    ParseLines(Lines(raw), None, [], [])
  }

  function Rendered(blocks: seq<Block>): string {
    if blocks == [] then ""
    else HEADER + blocks[0].key + "\n\n" + Trim(blocks[0].body) + "\n\n" + Rendered(blocks[1..])
  }

  function SerializeBlocks(blocks: seq<Block>): string {
    var trimmed := TrimEnd(Rendered(blocks));
    if trimmed == "" then "" else trimmed + "\n"
  }

  // ---- Parsing and printing, as loops ---------------------------------------------------

  method Parse(raw: string) returns (blocks: seq<Block>)
    ensures blocks == ParseBlocks(raw)
  {
    blocks := [];
    var key: Option<string> := None;
    var body: seq<string> := [];
    var lines := Lines(raw);
    for k := 0 to |lines|
      invariant ParseLines(lines[k..], key, body, blocks) == ParseBlocks(raw)
    {
      assert lines[k..][0] == lines[k] && lines[k..][1..] == lines[k + 1..];
      if IsHeader(lines[k]) {
        blocks := Flush(key, body, blocks);
        key := Some(NormalizeKey(lines[k][|HEADER|..]));
        body := [];
      } else if key.Some? {
        body := body + [lines[k]];
      }
    }
    blocks := Flush(key, body, blocks);
  }

  method Serialize(blocks: seq<Block>) returns (text: string)
    ensures text == SerializeBlocks(blocks)
  {
    var out := "";
    for k := 0 to |blocks|
      invariant out + Rendered(blocks[k..]) == Rendered(blocks)
    {
      var section := HEADER + blocks[k].key + "\n\n" + Trim(blocks[k].body) + "\n\n";
      assert blocks[k..][0] == blocks[k] && blocks[k..][1..] == blocks[k + 1..];
      assert (out + section) + Rendered(blocks[k + 1..]) == out + (section + Rendered(blocks[k + 1..]));
      out := out + section;
    }
    assert out + "" == out;
    var trimmed := TrimEnd(out);
    text := if trimmed == "" then "" else trimmed + "\n";
  }

  // ---- When a print parses back unchanged -------------------------------------------------

  predicate NoCrLf(s: string) {
    forall i | 0 <= i < |s| - 1 :: !(s[i] == '\r' && s[i + 1] == '\n')
  }

  predicate NoHeaderLine(body: string) {
    forall l | l in Lines(body) :: !IsHeader(l)
  }

  predicate TidyBlock(b: Block) {
    NormalizeKey(b.key) == b.key && b.body != "" && IsTrimmed(b.body)
  }

  predicate TidyBlocks(blocks: seq<Block>) {
    forall b | b in blocks :: TidyBlock(b)
  }

  /** The exact side condition of the round trip. */
  predicate ParsesBack(blocks: seq<Block>) {
    TidyBlocks(blocks) && forall b | b in blocks :: NoHeaderLine(b.body) && NoCrLf(b.body)
  }

  function Section(b: Block): string {
    (HEADER + b.key + "\n") + ("\n" + (b.body + "\n"))
  }

  /** The text printed for tidy blocks: sections with one blank line between them. */
  function Sections(blocks: seq<Block>): string {
    if blocks == [] then ""
    else if |blocks| == 1 then Section(blocks[0])
    else Section(blocks[0]) + ("\n" + Sections(blocks[1..]))
  }

  lemma TrimTidy(s: string)
    requires IsTrimmed(s)
    ensures Trim(s) == s
  {
    TrimMargins("", s, "");
    assert "" + s + "" == s;
  }

  lemma Regroup(h: string, k: string, b: string, rest: string)
    ensures h + k + "\n\n" + b + "\n\n" + rest == ((h + k + "\n") + ("\n" + (b + "\n"))) + ("\n" + rest)
  {
  }

  lemma {:induction false} RenderedIsSections(blocks: seq<Block>)
    requires blocks != [] && TidyBlocks(blocks)
    ensures Rendered(blocks) == Sections(blocks) + "\n"
  {
    var b, rest := blocks[0], blocks[1..];
    assert b in blocks;
    TrimTidy(b.body);
    Regroup(HEADER, b.key, b.body, Rendered(rest));
    if rest == [] {
      assert "\n" + Rendered(rest) == "\n";
    } else {
      RenderedIsSections(rest);
      assert Section(b) + ("\n" + (Sections(rest) + "\n")) == (Section(b) + ("\n" + Sections(rest))) + "\n";
    }
  }

  /** A printed text is a core that does not end in white space, and one newline. */
  lemma {:induction false} SectionsCore(blocks: seq<Block>) returns (core: string)
    requires blocks != [] && TidyBlocks(blocks)
    ensures Sections(blocks) == core + "\n" && core != "" && !IsSpace(core[|core| - 1])
  {
    var b, rest := blocks[0], blocks[1..];
    assert b in blocks;
    if rest == [] {
      core := (HEADER + b.key + "\n") + ("\n" + b.body);
    } else {
      var c := SectionsCore(rest);
      core := Section(b) + ("\n" + c);
    }
  }

  lemma SerializeIsSections(blocks: seq<Block>)
    requires TidyBlocks(blocks)
    ensures SerializeBlocks(blocks) == Sections(blocks)
  {
    if blocks != [] {
      RenderedIsSections(blocks);
      var core := SectionsCore(blocks);
      assert (core + "\n") + "\n" == core + "\n\n";
      TrimEndMargin(core, "\n\n");
    }
  }

  lemma FirstNewline(s: string, i: nat)
    requires i <= |s| && (i < |s| ==> s[i] == '\n') && forall j | 0 <= j < i :: s[j] != '\n'
    ensures NewlineFrom(s, 0) == i
  {
    var k := NewlineFrom(s, 0);
    assert k <= i;
  }

  predicate OneLine(line: string) {
    forall i | 0 <= i < |line| :: line[i] != '\n'
  }

  lemma LinesStep(line: string, rest: string)
    requires OneLine(line)
    ensures Lines(line + ("\n" + rest)) == [DropCr(line)] + Lines(rest)
  {
    var s := line + ("\n" + rest);
    FirstNewline(s, |line|);
    assert s[..|line|] == line && s[|line| + 1..] == rest;
  }

  /** A text with a newline in it is a first line, the newline, and the rest. */
  lemma Break(s: string) returns (line: string, rest: string)
    requires NewlineFrom(s, 0) < |s|
    ensures s == line + ("\n" + rest) && OneLine(line)
    ensures line == s[..NewlineFrom(s, 0)] && rest == s[NewlineFrom(s, 0) + 1..]
  {
    var i := NewlineFrom(s, 0);
    line, rest := s[..i], s[i + 1..];
  }

  lemma JoinRegroup(line: string, rest: string, y: string)
    ensures (line + ("\n" + rest)) + y == line + ("\n" + (rest + y))
    ensures rest != "" ==> (line + ("\n" + rest))[|line + ("\n" + rest)| - 1] == rest[|rest| - 1]
  {
  }

  lemma ListRegroup(a: string, b: seq<string>, c: seq<string>)
    ensures ([a] + b) + c == [a] + (b + c)
  {
  }

  lemma {:induction false} LinesAppend(x: string, y: string)
    requires x == "" || x[|x| - 1] == '\n'
    ensures Lines(x + y) == Lines(x) + Lines(y)
    decreases |x|
  {
    if x == "" {
      assert x + y == y;
    } else {
      var line, rest := Break(x);
      JoinRegroup(line, rest, y);
      LinesStep(line, rest);
      LinesStep(line, rest + y);
      LinesAppend(rest, y);
      ListRegroup(DropCr(line), Lines(rest), Lines(y));
    }
  }

  /** A final newline after a text that does not end in white space adds no line. */
  lemma {:induction false} LinesClose(s: string)
    requires s != "" && !IsSpace(s[|s| - 1])
    ensures Lines(s + "\n") == Lines(s)
    decreases |s|
  {
    if NewlineFrom(s, 0) == |s| {
      LinesStep(s, "");
      assert s + ("\n" + "") == s + "\n";
    } else {
      var line, rest := Break(s);
      LinesStep(line, rest);
      LinesStep(line, rest + "\n");
      JoinRegroup(line, rest, "\n");
      assert rest != "";
      LinesClose(rest);
    }
  }

  lemma TitleIsLine(b: Block)
    requires TidyBlock(b)
    ensures OneLine(HEADER + b.key) && DropCr(HEADER + b.key) == HEADER + b.key
  {
    NormalizeKeyIdempotent(b.key);
    forall i | 0 <= i < |b.key| ensures !IsSpace(b.key[i]) {
      assert b.key[i] in b.key;
      KeyCharIsPlain(b.key[i]);
    }
  }

  /** The lines of one section, and of whatever follows it. */
  lemma SectionLines(b: Block, rest: string)
    requires TidyBlock(b)
    ensures Lines(Section(b) + rest) == [HEADER + b.key] + ([""] + (Lines(b.body) + Lines(rest)))
  {
    TitleIsLine(b);
    hide Lines, TidyBlock, DropCr;
    var tail := (b.body + "\n") + rest;
    SectionText(b, rest);
    LinesStep(HEADER + b.key, "" + ("\n" + tail));
    LinesStep("", tail);
    LinesAppend(b.body + "\n", rest);
    LinesClose(b.body);
    assert DropCr("") == "";
  }

  lemma SectionText(b: Block, rest: string)
    ensures Section(b) + rest == (HEADER + b.key) + ("\n" + ("" + ("\n" + ((b.body + "\n") + rest))))
  {
  }

  // ---- Parsing what was printed -------------------------------------------------------------

  lemma {:induction false} SkipLines(plain: seq<string>, more: seq<string>, key: string, body: seq<string>,
                                     done: seq<Block>)
    requires forall l | l in plain :: !IsHeader(l)
    ensures ParseLines(plain + more, Some(key), body, done) == ParseLines(more, Some(key), body + plain, done)
  {
    if plain == [] {
      assert plain + more == more && body + plain == body;
    } else {
      assert plain[0] in plain && (plain + more)[0] == plain[0] && (plain + more)[1..] == plain[1..] + more;
      SkipLines(plain[1..], more, key, body + [plain[0]], done);
      assert (body + [plain[0]]) + plain[1..] == body + plain;
    }
  }

  /** A body after its line ends have been unified. */
  function Unfolded(body: string): string {
    Join(Lines(body), "\n")
  }

  lemma UnfoldedStep(line: string, rest: string)
    requires OneLine(line) && Lines(rest) != []
    ensures Unfolded(line + ("\n" + rest)) == DropCr(line) + "\n" + Unfolded(rest)
    ensures Lines(line + ("\n" + rest)) != []
  {
    LinesStep(line, rest);
    assert ([DropCr(line)] + Lines(rest))[1..] == Lines(rest);
  }

  lemma UnfoldedOneLine(s: string)
    requires s != "" && NewlineFrom(s, 0) == |s|
    ensures Lines(s) == [s] && Unfolded(s) == s && NoCrLf(s)
  {
  }

  lemma {:induction false} UnfoldedKeepsEnds(s: string)
    requires s != "" && !IsSpace(s[|s| - 1])
    ensures Lines(s) != [] && Unfolded(s) != "" && Unfolded(s)[|Unfolded(s)| - 1] == s[|s| - 1]
    ensures !IsSpace(s[0]) ==> Unfolded(s)[0] == s[0]
    ensures |Unfolded(s)| <= |s| && (Unfolded(s) == s <==> NoCrLf(s))
    decreases |s|
  {
    hide Unfolded, Lines, NoCrLf;
    if NewlineFrom(s, 0) < |s| {
      var line, rest := Break(s);
      JoinRegroup(line, rest, "");
      UnfoldedKeepsEnds(rest);
      UnfoldedStep(line, rest);
      CrLfSplits(line, rest);
      PartsEqual(DropCr(line), Unfolded(rest), line, rest);
      EndsKept(DropCr(line), Unfolded(rest));
    } else {
      UnfoldedOneLine(s);
    }
  }

  lemma PartsEqual(kept: string, unfolded: string, line: string, rest: string)
    requires |kept| <= |line| && |unfolded| <= |rest|
    ensures kept + "\n" + unfolded == line + ("\n" + rest) <==> kept == line && unfolded == rest
  {
    var l, r := kept + "\n" + unfolded, line + ("\n" + rest);
    assert r[..|line|] == line && r[|line| + 1..] == rest;
    assert l[..|kept|] == kept && l[|kept| + 1..] == unfolded;
    if kept == line && unfolded == rest { assert l == r; }
  }

  lemma EndsKept(kept: string, unfolded: string)
    requires unfolded != ""
    ensures var s := kept + "\n" + unfolded;
      s[|s| - 1] == unfolded[|unfolded| - 1] && (kept != "" ==> s[0] == kept[0]) && |s| == |kept| + 1 + |unfolded|
  {
  }

  lemma CrLfSplits(line: string, rest: string)
    requires OneLine(line)
    ensures NoCrLf(line + ("\n" + rest)) <==> DropCr(line) == line && NoCrLf(rest)
  {
    var s := line + ("\n" + rest);
    assert s[|line|] == '\n';
    assert forall i | 0 <= i < |rest| :: rest[i] == s[i + |line| + 1];
    assert forall i | |line| < i < |s| :: s[i] == rest[i - |line| - 1];
    if DropCr(line) != line { assert s[|line| - 1] == '\r'; }
    if NoCrLf(s) {
      forall i | 0 <= i < |rest| - 1 ensures !(rest[i] == '\r' && rest[i + 1] == '\n') {
        var k := i + |line| + 1;
        assert !(s[k] == '\r' && s[k + 1] == '\n');
      }
    }
  }

  lemma {:induction false} JoinPad(lines: seq<string>)
    requires lines != []
    ensures Join([""] + lines, "\n") == "\n" + Join(lines, "\n")
    ensures Join(lines + [""], "\n") == Join(lines, "\n") + "\n"
  {
    assert ([""] + lines)[1..] == lines;
    if |lines| > 1 {
      assert (lines + [""])[1..] == lines[1..] + [""];
      JoinPad(lines[1..]);
    } else {
      assert (lines + [""])[1..] == [""];
    }
  }

  /** The lines collected for a section, blank margins included, flush to its body. */
  lemma FlushSection(b: Block, pad: seq<string>, done: seq<Block>)
    requires TidyBlock(b) && (pad == [] || pad == [""])
    ensures Flush(Some(b.key), [""] + (Lines(b.body) + pad), done) == done + [Block(b.key, Unfolded(b.body))]
  {
    var lines, body := Lines(b.body), Unfolded(b.body);
    UnfoldedKeepsEnds(b.body);
    JoinPad(lines);
    JoinPad(lines + pad);
    assert lines + [] == lines;
    var post := if pad == [] then "" else "\n";
    assert Join([""] + (lines + pad), "\n") == "\n" + body + post;
    TrimMargins("\n", body, post);
  }

  function UnfoldAll(blocks: seq<Block>): seq<Block> {
    if blocks == [] then [] else [Block(blocks[0].key, Unfolded(blocks[0].body))] + UnfoldAll(blocks[1..])
  }

  lemma TitleParses(b: Block, more: seq<string>, key: Option<string>, body: seq<string>, done: seq<Block>)
    requires TidyBlock(b)
    ensures ParseLines([HEADER + b.key] + more, key, body, done) ==
      ParseLines(more, Some(b.key), [], Flush(key, body, done))
  {
    var title := HEADER + b.key;
    assert ([title] + more)[0] == title && ([title] + more)[1..] == more;
    assert title[..|HEADER|] == HEADER && title[|HEADER|..] == b.key;
  }

  /** The blank lines after the body of the first of these sections. */
  function Pad(blocks: seq<Block>): seq<string> {
    if |blocks| <= 1 then [] else [""]
  }

  /** The lines of all sections but the first. */
  function More(blocks: seq<Block>): seq<string> {
    if |blocks| <= 1 then [] else Lines(Sections(blocks[1..]))
  }

  lemma PadRegroup(body: seq<string>, more: seq<string>)
    ensures [""] + (body + ([""] + more)) == ([""] + (body + [""])) + more
  {
  }

  lemma SectionsSplit(blocks: seq<Block>)
    requires blocks != [] && TidyBlock(blocks[0])
    ensures Lines(Sections(blocks)) ==
      [HEADER + blocks[0].key] + (([""] + (Lines(blocks[0].body) + Pad(blocks))) + More(blocks))
  {
    var b := blocks[0];
    if |blocks| == 1 {
      SectionLines(b, "");
      assert Section(b) + "" == Section(b);
      assert ([""] + (Lines(b.body) + [])) + [] == [""] + (Lines(b.body) + []);
    } else {
      SectionLines(b, "\n" + Sections(blocks[1..]));
      LinesStep("", Sections(blocks[1..]));
      assert "" + ("\n" + Sections(blocks[1..])) == "\n" + Sections(blocks[1..]);
      PadRegroup(Lines(b.body), More(blocks));
    }
  }

  lemma ParseFirstSection(blocks: seq<Block>, key: Option<string>, body: seq<string>, done: seq<Block>)
    requires blocks != [] && TidyBlock(blocks[0]) && NoHeaderLine(blocks[0].body)
    ensures ParseLines(Lines(Sections(blocks)), key, body, done)
         == ParseLines(More(blocks), Some(blocks[0].key), [""] + (Lines(blocks[0].body) + Pad(blocks)),
                       Flush(key, body, done))
  {
    var b := blocks[0];
    var plain := [""] + (Lines(b.body) + Pad(blocks));
    assert forall l | l in plain :: l == "" || l in Lines(b.body);
    SectionsSplit(blocks);
    TitleParses(b, plain + More(blocks), key, body, done);
    SkipLines(plain, More(blocks), b.key, [], Flush(key, body, done));
    assert [] + plain == plain;
  }

  lemma {:induction false} ParseSections(blocks: seq<Block>, key: Option<string>, body: seq<string>, done: seq<Block>)
    requires blocks != [] && TidyBlocks(blocks) && forall b | b in blocks :: NoHeaderLine(b.body)
    ensures ParseLines(Lines(Sections(blocks)), key, body, done) == Flush(key, body, done) + UnfoldAll(blocks)
    decreases |blocks|
  {
    var flushed := Flush(key, body, done);
    assert blocks[0] in blocks;
    ParseFirstSection(blocks, key, body, done);
    UnfoldAllSplits(flushed, blocks);
    FlushSection(blocks[0], Pad(blocks), flushed);
    BlocksRegroup(flushed, Block(blocks[0].key, Unfolded(blocks[0].body)), []);
    if |blocks| > 1 {
      ParseSections(blocks[1..], Some(blocks[0].key), [""] + (Lines(blocks[0].body) + Pad(blocks)), flushed);
    }
  }

  lemma UnfoldAllSplits(done: seq<Block>, blocks: seq<Block>)
    requires blocks != []
    ensures (done + [Block(blocks[0].key, Unfolded(blocks[0].body))]) + UnfoldAll(blocks[1..]) ==
      done + UnfoldAll(blocks)
    ensures |blocks| == 1 ==> UnfoldAll(blocks[1..]) == []
  {
    BlocksRegroup(done, Block(blocks[0].key, Unfolded(blocks[0].body)), UnfoldAll(blocks[1..]));
  }

  lemma BlocksRegroup(done: seq<Block>, b: Block, rest: seq<Block>)
    ensures (done + [b]) + rest == done + ([b] + rest)
    ensures rest == [] ==> done + ([b] + rest) == done + [b]
  {
  }

  // ---- Nothing is parsed back when a body holds a header line: counting ink --------------------

  /** The number of characters that are not white space. */
  function Ink(s: string): nat {
    if s == "" then 0 else (if IsSpace(s[0]) then 0 else 1) + Ink(s[1..])
  }

  function LinesInk(lines: seq<string>): nat {
    if lines == [] then 0 else Ink(lines[0]) + LinesInk(lines[1..])
  }

  /** The ink on the lines that are not headers. */
  function PlainInk(lines: seq<string>): nat {
    if lines == [] then 0 else (if IsHeader(lines[0]) then 0 else Ink(lines[0])) + PlainInk(lines[1..])
  }

  function BodiesInk(blocks: seq<Block>): nat {
    if blocks == [] then 0 else Ink(blocks[0].body) + BodiesInk(blocks[1..])
  }

  lemma {:induction false} InkAppend(s: string, t: string)
    ensures Ink(s + t) == Ink(s) + Ink(t)
  {
    if s == "" {
      assert s + t == t;
    } else {
      assert (s + t)[1..] == s[1..] + t;
      InkAppend(s[1..], t);
    }
  }

  lemma {:induction false} BlankHasNoInk(s: string)
    requires AllSpace(s)
    ensures Ink(s) == 0
  {
    if s != "" { BlankHasNoInk(s[1..]); }
  }

  lemma TrimKeepsInk(s: string)
    ensures Ink(Trim(s)) == Ink(s)
  {
    var pre, post := TrimCuts(s);
    BlankHasNoInk(pre);
    BlankHasNoInk(post);
    InkAppend(pre + Trim(s), post);
    InkAppend(pre, Trim(s));
  }

  lemma {:induction false} JoinKeepsInk(lines: seq<string>)
    ensures Ink(Join(lines, "\n")) == LinesInk(lines)
  {
    if |lines| > 1 {
      JoinKeepsInk(lines[1..]);
      InkAppend(lines[0] + "\n", Join(lines[1..], "\n"));
      InkAppend(lines[0], "\n");
      BlankHasNoInk("\n");
    } else if |lines| == 1 {
      assert LinesInk(lines[1..]) == 0;
    }
  }

  lemma {:induction false} LinesInkAppend(lines: seq<string>, line: string)
    ensures LinesInk(lines + [line]) == LinesInk(lines) + Ink(line)
  {
    if lines == [] {
      assert LinesInk([line][1..]) == 0;
    } else {
      assert (lines + [line])[1..] == lines[1..] + [line];
      LinesInkAppend(lines[1..], line);
    }
  }

  lemma {:induction false} PlainInkAppend(xs: seq<string>, ys: seq<string>)
    ensures PlainInk(xs + ys) == PlainInk(xs) + PlainInk(ys)
  {
    if xs == [] {
      assert xs + ys == ys;
    } else {
      assert (xs + ys)[1..] == xs[1..] + ys;
      PlainInkAppend(xs[1..], ys);
    }
  }

  lemma {:induction false} BodiesInkAppend(blocks: seq<Block>, b: Block)
    ensures BodiesInk(blocks + [b]) == BodiesInk(blocks) + Ink(b.body)
  {
    if blocks == [] {
      assert BodiesInk([b][1..]) == 0;
    } else {
      assert (blocks + [b])[1..] == blocks[1..] + [b];
      BodiesInkAppend(blocks[1..], b);
    }
  }

  lemma FlushInk(key: Option<string>, body: seq<string>, done: seq<Block>)
    ensures BodiesInk(Flush(key, body, done)) <= BodiesInk(done) + LinesInk(body)
  {
    var joined := Trim(Join(body, "\n"));
    TrimKeepsInk(Join(body, "\n"));
    JoinKeepsInk(body);
    BodiesInkAppend(done, Block(if key.Some? then key.value else "", joined));
  }

  /** Parsing puts on bodies no ink but that of the plain lines. */
  lemma {:induction false} ParseInk(lines: seq<string>, key: Option<string>, body: seq<string>, done: seq<Block>)
    ensures BodiesInk(ParseLines(lines, key, body, done)) <= BodiesInk(done) + LinesInk(body) + PlainInk(lines)
    decreases |lines|
  {
    FlushInk(key, body, done);
    if lines != [] {
      LinesInkAppend(body, lines[0]);
      if IsHeader(lines[0]) {
        ParseInk(lines[1..], Some(NormalizeKey(lines[0][|HEADER|..])), [], Flush(key, body, done));
      } else {
        ParseInk(lines[1..], key, if key.Some? then body + [lines[0]] else body, done);
      }
    }
  }

  lemma HeaderHasInk(line: string)
    requires IsHeader(line)
    ensures Ink(line) >= 2
  {
    assert line == HEADER + line[|HEADER|..];
    InkAppend(HEADER, line[|HEADER|..]);
    InkAppend("##", " ");
    assert HEADER == "##" + " ";
    InkAppend("#", "#");
    assert "#" + "#" == "##";
    assert "#"[1..] == "" && Ink("#") == 1;
  }

  lemma DropCrKeepsInk(line: string)
    ensures Ink(DropCr(line)) == Ink(line)
  {
    if DropCr(line) != line {
      assert line == DropCr(line) + "\r";
      InkAppend(DropCr(line), "\r");
      BlankHasNoInk("\r");
    }
  }

  lemma {:induction false} BodyInk(s: string)
    ensures PlainInk(Lines(s)) <= Ink(s)
    ensures PlainInk(Lines(s)) == Ink(s) ==> NoHeaderLine(s)
    decreases |s|
  {
    if s != "" {
      if NewlineFrom(s, 0) == |s| {
        assert Lines(s)[1..] == [];
        if IsHeader(s) { HeaderHasInk(s); }
      } else {
        var line, rest := Break(s);
        LinesStep(line, rest);
        BodyInk(rest);
        DropCrKeepsInk(line);
        InkAppend(line, "\n" + rest);
        InkAppend("\n", rest);
        BlankHasNoInk("\n");
        var kept := DropCr(line);
        assert Lines(s)[0] == kept && Lines(s)[1..] == Lines(rest);
        if IsHeader(kept) { HeaderHasInk(kept); }
      }
    }
  }

  lemma FirstSectionInk(blocks: seq<Block>)
    requires blocks != [] && TidyBlock(blocks[0])
    ensures PlainInk(Lines(Sections(blocks))) == PlainInk(Lines(blocks[0].body)) + PlainInk(More(blocks))
  {
    var body, pad, more := Lines(blocks[0].body), Pad(blocks), More(blocks);
    var title, plain := HEADER + blocks[0].key, [""] + (body + pad);
    SectionsSplit(blocks);
    assert title[..|HEADER|] == HEADER;
    PlainInkAppend([title], plain + more);
    PlainInkAppend(plain, more);
    PlainInkAppend([""], body + pad);
    PlainInkAppend(body, pad);
    assert PlainInk([title]) == 0 && PlainInk([""]) == 0 && PlainInk(pad) == 0;
  }

  /** The text printed for tidy blocks carries the ink of the bodies only when no body line is a header. */
  lemma {:induction false} SectionsInk(blocks: seq<Block>)
    requires TidyBlocks(blocks)
    ensures PlainInk(Lines(Sections(blocks))) <= BodiesInk(blocks)
    ensures PlainInk(Lines(Sections(blocks))) == BodiesInk(blocks) ==> forall b | b in blocks :: NoHeaderLine(b.body)
  {
    if blocks != [] {
      assert blocks[0] in blocks && blocks == [blocks[0]] + blocks[1..];
      FirstSectionInk(blocks);
      BodyInk(blocks[0].body);
      SectionsInk(blocks[1..]);
    }
  }

  // ---- The round trip, exactly --------------------------------------------------------------------

  lemma FlushIsTidy(key: Option<string>, body: seq<string>, done: seq<Block>)
    requires TidyBlocks(done) && (key.Some? ==> NormalizeKey(key.value) == key.value)
    ensures TidyBlocks(Flush(key, body, done))
  {
    var pre, post := TrimCuts(Join(body, "\n"));
  }

  lemma {:induction false} ParsedIsTidy(lines: seq<string>, key: Option<string>, body: seq<string>, done: seq<Block>)
    requires TidyBlocks(done) && (key.Some? ==> NormalizeKey(key.value) == key.value)
    ensures TidyBlocks(ParseLines(lines, key, body, done))
    decreases |lines|
  {
    FlushIsTidy(key, body, done);
    if lines != [] {
      if IsHeader(lines[0]) {
        NormalizeKeyIdempotent(lines[0][|HEADER|..]);
        ParsedIsTidy(lines[1..], Some(NormalizeKey(lines[0][|HEADER|..])), [], Flush(key, body, done));
      } else {
        ParsedIsTidy(lines[1..], key, if key.Some? then body + [lines[0]] else body, done);
      }
    }
  }

  lemma {:induction false} UnfoldAllIsSame(blocks: seq<Block>)
    requires TidyBlocks(blocks)
    ensures UnfoldAll(blocks) == blocks <==> forall b | b in blocks :: NoCrLf(b.body)
  {
    if blocks != [] {
      var b, rest := blocks[0], blocks[1..];
      assert b in blocks && blocks == [b] + rest;
      UnfoldedKeepsEnds(b.body);
      UnfoldAllIsSame(rest);
      assert UnfoldAll(blocks)[0] == Block(b.key, Unfolded(b.body)) && UnfoldAll(blocks)[1..] == UnfoldAll(rest);
    }
  }

  /** Printing and parsing back returns the same blocks exactly under `ParsesBack`. */
  lemma PrintThenParse(blocks: seq<Block>)
    ensures ParseBlocks(SerializeBlocks(blocks)) == blocks <==> ParsesBack(blocks)
  {
    ParsedIsTidy(Lines(SerializeBlocks(blocks)), None, [], []);
    if TidyBlocks(blocks) && blocks != [] {
      SerializeIsSections(blocks);
      SectionsInk(blocks);
      ParseInk(Lines(Sections(blocks)), None, [], []);
      if forall b | b in blocks :: NoHeaderLine(b.body) {
        ParseSections(blocks, None, [], []);
        assert Flush(None, [], []) + UnfoldAll(blocks) == UnfoldAll(blocks);
        UnfoldAllIsSame(blocks);
      }
    }
  }
}
