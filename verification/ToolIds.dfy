/** The ids under which permissions are kept for tools (crates/puffer-core/permissions.rs). */
module ToolIds {
  import opened Text

  predicate IsUpper(c: char) { 'A' <= c <= 'Z' }

  predicate IsLowOrDigit(c: char) { 'a' <= c <= 'z' || '0' <= c <= '9' }

  predicate IsAlphanumeric(c: char) { IsUpper(c) || IsLowOrDigit(c) }

  // ---- The words of an id -------------------------------------------------------------------

  /** Words end before anything that is neither letter nor digit, and before a capital that follows a small letter or a
      digit; `current` is the word begun, `low` whether its last character was no capital. */
  function Words(s: string, current: string, low: bool): seq<string> {
    if s == "" then (if current == "" then [] else [current])
    else if !IsAlphanumeric(s[0]) then (if current == "" then [] else [current]) + Words(s[1..], "", false)
    else if IsUpper(s[0]) && low then [current] + Words(s[1..], [LowerChar(s[0])], false)
    else Words(s[1..], current + [LowerChar(s[0])], !IsUpper(s[0]))
  }

  function WordsOf(tool: string): seq<string> {
    Words(Trim(tool), "", false)
  }

  function ToolId(tool: string): string {
    Join(WordsOf(tool), "_")
  }

  predicate IsWord(w: string) {
    w != "" && forall i | 0 <= i < |w| :: IsLowOrDigit(w[i])
  }

  predicate AllWords(words: seq<string>) {
    forall w | w in words :: IsWord(w)
  }

  lemma {:induction false} JoinPush(words: seq<string>, w: string)
    ensures Join(words + [w], "_") == if words == [] then w else Join(words, "_") + "_" + w
  {
    if words == [] {
      assert words + [w] == [w];
    } else {
      assert (words + [w])[1..] == words[1..] + [w];
      JoinPush(words[1..], w);
      if |words| > 1 { Regroup(words[0], Join(words[1..], "_"), w); }
    }
  }

  lemma Regroup(a: string, b: string, c: string)
    ensures a + "_" + (b + "_" + c) == (a + "_" + b) + "_" + c
  {
  }

  // ---- The loop with its two flags ---------------------------------------------------------------

  function TrimUnderscores(s: string): string {
    if s != "" && s[0] == '_' then TrimUnderscores(s[1..])
    else if s != "" && s[|s| - 1] == '_' then TrimUnderscores(s[..|s| - 1])
    else s
  }

  /** The buffer when `done` are the finished words and `current` is the one begun. */
  function Buffer(done: seq<string>, current: string): string {
    if current != "" then Join(done + [current], "_")
    else if done == [] then "" else Join(done, "_") + "_"
  }

  lemma BufferGrows(done: seq<string>, current: string, c: char)
    ensures Buffer(done, current + [c]) == Buffer(done, current) + [c]
    ensures current != "" ==> Buffer(done + [current], "") == Buffer(done, current) + "_"
    ensures current != "" ==> Buffer(done + [current], [c]) == Buffer(done, current) + "_" + [c]
  {
    JoinPush(done, current + [c]);
    JoinPush(done, current);
    JoinPush(done + [current], [c]);
  }

  lemma BufferEnds(done: seq<string>, current: string)
    requires AllWords(done) && (current == "" || IsWord(current))
    ensures Buffer(done, current) == "" <==> done == [] && current == ""
    ensures current != "" ==> Buffer(done, current)[|Buffer(done, current)| - 1] == current[|current| - 1]
  {
    JoinPush(done, current);
  }

  /** One character more: the finished words, the word begun, and whether it ends low. */
  lemma WordsStep(s: string, done: seq<string>, current: string, low: bool)
    requires s != ""
    ensures var finished := if current == "" then done else done + [current];
      done + Words(s, current, low) ==
        if !IsAlphanumeric(s[0]) then finished + Words(s[1..], "", false)
        else if IsUpper(s[0]) && low then (done + [current]) + Words(s[1..], [LowerChar(s[0])], false)
        else done + Words(s[1..], current + [LowerChar(s[0])], !IsUpper(s[0]))
  {
    assert (done + [current]) + Words(s[1..], [LowerChar(s[0])], false) ==
      done + ([current] + Words(s[1..], [LowerChar(s[0])], false));
    assert (done + [current]) + Words(s[1..], "", false) == done + ([current] + Words(s[1..], "", false));
    assert [] + Words(s[1..], "", false) == Words(s[1..], "", false);
  }

  method NormalizeToolId(tool: string) returns (id: string)
    ensures id == ToolId(tool)
  {
    hide Buffer, TrimUnderscores, Words;
    var trimmed := Trim(tool);
    var normalized := "";
    var afterSeparator, afterLow := false, false;
    ghost var done: seq<string>, current := [], "";
    NothingYet();
    assert trimmed[0..] == trimmed && done + WordsOf(tool) == WordsOf(tool);
    for k := 0 to |trimmed|
      invariant AllWords(done) && (current == "" || IsWord(current)) && normalized == Buffer(done, current)
      invariant afterSeparator <==> current == "" && done != []
      invariant afterLow ==> current != ""
      invariant done + Words(trimmed[k..], current, afterLow) == WordsOf(tool)
    {
      var c := trimmed[k];
      assert trimmed[k..][0] == c && trimmed[k..][1..] == trimmed[k + 1..];
      WordsStep(trimmed[k..], done, current, afterLow);
      BufferGrows(done, current, LowerChar(c));
      BufferEnds(done, current);
      if IsAlphanumeric(c) {
        if IsUpper(c) && afterLow && (normalized == "" || normalized[|normalized| - 1] != '_') {
          normalized := normalized + "_";
          done, current := done + [current], "";
        }
        assert "" + [LowerChar(c)] == [LowerChar(c)];
        normalized := normalized + [LowerChar(c)];
        current := current + [LowerChar(c)];
        afterSeparator, afterLow := false, IsLowOrDigit(c);
      } else {
        if normalized != "" && !afterSeparator {
          normalized := normalized + "_";
          afterSeparator := true;
          done, current := done + [current], "";
        }
        afterLow := false;
      }
    }
    assert trimmed[|trimmed|..] == "";
    WordsEnd(done, current, afterLow);
    BufferTrims(done, current);
    id := TrimUnderscores(normalized);
  }

  lemma NothingYet()
    ensures Buffer([], "") == ""
  {
  }

  lemma WordsEnd(done: seq<string>, current: string, low: bool)
    ensures done + Words("", current, low) == if current == "" then done else done + [current]
  {
    assert done + [] == done;
  }

  lemma {:induction false} JoinedEnds(words: seq<string>)
    requires AllWords(words) && words != []
    ensures var s := Join(words, "_");
      s != "" && IsLowOrDigit(s[0]) && IsLowOrDigit(s[|s| - 1])
  {
    var init, last := words[..|words| - 1], words[|words| - 1];
    assert words == init + [last] && last in words && words[0] in words;
    JoinPush(init, last);
    if |words| > 1 { assert Join(words, "_")[0] == words[0][0]; }
  }

  lemma BufferTrims(done: seq<string>, current: string)
    requires AllWords(done) && (current == "" || IsWord(current))
    ensures TrimUnderscores(Buffer(done, current)) == Join(if current == "" then done else done + [current], "_")
  {
    var words := if current == "" then done else done + [current];
    if words != [] {
      JoinedEnds(words);
      var s := Join(words, "_");
      assert (s + "_")[..|s|] == s && (s + "_")[0] == s[0];
    }
  }

  // ---- What the id tells ------------------------------------------------------------------------------

  lemma {:induction false} WordsAreLow(s: string, current: string, low: bool)
    requires (current == "" || IsWord(current)) && (low ==> current != "")
    ensures AllWords(Words(s, current, low))
  {
    if s != "" {
      if !IsAlphanumeric(s[0]) { WordsAreLow(s[1..], "", false); }
      else if IsUpper(s[0]) && low { WordsAreLow(s[1..], [LowerChar(s[0])], false); }
      else { WordsAreLow(s[1..], current + [LowerChar(s[0])], !IsUpper(s[0])); }
    }
  }

  lemma {:induction false} WordRead(w: string, rest: string, current: string, low: bool)
    requires forall i | 0 <= i < |w| :: IsLowOrDigit(w[i])
    ensures Words(w + rest, current, low) == Words(rest, current + w, low || w != "")
    decreases |w|
  {
    if w == "" {
      assert w + rest == rest && current + w == current;
    } else {
      assert (w + rest)[0] == w[0] && (w + rest)[1..] == w[1..] + rest;
      WordRead(w[1..], rest, current + [w[0]], true);
      assert current + [w[0]] + w[1..] == current + w;
    }
  }

  /** The words of an id are the words it was joined from. */
  lemma {:induction false} WordsUndoJoin(words: seq<string>)
    requires AllWords(words)
    ensures Words(Join(words, "_"), "", false) == words
  {
    if words != [] {
      var w := words[0];
      assert w in words && "" + w == w && words == [w] + words[1..];
      if |words| == 1 {
        WordRead(w, "", "", false);
        assert w + "" == w;
      } else {
        var rest := "_" + Join(words[1..], "_");
        assert Join(words, "_") == w + rest;
        WordRead(w, rest, "", false);
        assert rest[1..] == Join(words[1..], "_");
        WordsUndoJoin(words[1..]);
      }
    }
  }

  lemma IdHasTheWords(tool: string)
    ensures WordsOf(ToolId(tool)) == WordsOf(tool)
  {
    var words := WordsOf(tool);
    WordsAreLow(Trim(tool), "", false);
    WordsUndoJoin(words);
    var id := ToolId(tool);
    if words != [] { JoinedEnds(words); }
    TrimMargins("", id, "");
    assert "" + id + "" == id;
  }

  /** Ids read back from a settings file are found again: normalising twice is normalising once. */
  lemma ToolIdIdempotent(tool: string)
    ensures ToolId(ToolId(tool)) == ToolId(tool)
  {
    IdHasTheWords(tool);
  }

  /** Two spellings share their settings exactly when they have the same words. */
  lemma SameIdIff(a: string, b: string)
    ensures ToolId(a) == ToolId(b) <==> WordsOf(a) == WordsOf(b)
  {
    IdHasTheWords(a);
    IdHasTheWords(b);
  }

  // ---- The id, letter by letter --------------------------------------------------------------------------

  /** A letter or digit in lower case, and whether an underscore belongs before it. */
  datatype Mark = Mark(letter: char, apart: bool)

  /** The letters and digits in order. One stands apart when something else stands before it, or when it is a capital
      after a small letter or a digit; `apart` and `low` tell what stands before the text. */
  function Marks(s: string, apart: bool, low: bool): seq<Mark> {
    if s == "" then []
    else if !IsAlphanumeric(s[0]) then Marks(s[1..], true, false)
    else [Mark(LowerChar(s[0]), apart || (low && IsUpper(s[0])))] + Marks(s[1..], false, IsLowOrDigit(s[0]))
  }

  function Spelled(marks: seq<Mark>): string {
    if marks == [] then ""
    else (if marks[0].apart then "_" else "") + [marks[0].letter] + Spelled(marks[1..])
  }

  function Led(words: seq<string>): string {
    if words == [] then "" else "_" + Join(words, "_")
  }

  lemma LedHead(w: string, words: seq<string>)
    ensures Led([w] + words) == ("_" + w) + Led(words)
  {
    assert ([w] + words)[1..] == words;
    if words == [] { assert ("_" + w) + "" == "_" + w; } else {
      assert "_" + (w + "_" + Join(words, "_")) == ("_" + w) + ("_" + Join(words, "_"));
    }
  }

  lemma SpelledHead(m: Mark, marks: seq<Mark>)
    ensures Spelled([m] + marks) == (if m.apart then "_" else "") + [m.letter] + Spelled(marks)
  {
    assert ([m] + marks)[1..] == marks;
  }

  /** One character of the words and of the marks. */
  lemma OneCharacter(s: string, current: string, apart: bool, low: bool)
    requires s != "" && (low ==> current != "")
    ensures var c, rest := LowerChar(s[0]), s[1..];
      && (!IsAlphanumeric(s[0]) ==>
            && Words(s, current, low) == (if current == "" then [] else [current]) + Words(rest, "", false)
            && Marks(s, apart, low) == Marks(rest, true, false))
      && (IsUpper(s[0]) && low ==>
            && Words(s, current, low) == [current] + Words(rest, [c], false)
            && Marks(s, apart, low) == [Mark(c, true)] + Marks(rest, false, false))
      && (IsAlphanumeric(s[0]) && !(IsUpper(s[0]) && low) ==>
            && Words(s, current, low) == Words(rest, current + [c], !IsUpper(s[0]))
            && Marks(s, apart, low) == [Mark(c, apart)] + Marks(rest, false, !IsUpper(s[0])))
  {
  }

  lemma {:induction false} WordsSpelled(s: string, current: string, low: bool)
    requires low ==> current != ""
    ensures Led(Words(s, current, low)) ==
      (if current == "" then "" else "_" + current) + Spelled(Marks(s, current == "", low))
    decreases |s|
  {
    if s == "" {
      if current != "" { LedHead(current, []); }
    } else {
      OneCharacter(s, current, current == "", low);
      hide Words, Marks, Led, Spelled;
      var c, rest := LowerChar(s[0]), s[1..];
      if !IsAlphanumeric(s[0]) {
        var words := Words(rest, "", false);
        WordsSpelled(rest, "", false);
        LedHead(current, words);
        assert [] + words == words && "" + Spelled(Marks(rest, true, false)) == Spelled(Marks(rest, true, false));
      } else if IsUpper(s[0]) && low {
        WordsSpelled(rest, [c], false);
        LedHead(current, Words(rest, [c], false));
        SpelledHead(Mark(c, true), Marks(rest, false, false));
      } else {
        var marks := Marks(rest, false, !IsUpper(s[0]));
        WordsSpelled(rest, current + [c], !IsUpper(s[0]));
        SpelledHead(Mark(c, current == ""), marks);
        Glue(current, [c], Spelled(marks));
      }
    }
  }

  lemma Glue(b: string, c: string, d: string)
    ensures "_" + (b + c) + d == ("_" + b) + ("" + c + d)
    ensures b == "" ==> "_" + (b + c) + d == "" + ("_" + c + d)
  {
  }

  /** The id is the trimmed text's letters and digits in lower case, with one underscore before each that stands apart,
      but the first. */
  lemma IdIsSpelled(tool: string)
    ensures Spelled(Marks(Trim(tool), true, false)) == if ToolId(tool) == "" then "" else "_" + ToolId(tool)
  {
    WordsSpelled(Trim(tool), "", false);
    WordsAreLow(Trim(tool), "", false);
    var words := WordsOf(tool);
    if words != [] { JoinedEnds(words); }
    assert "" + Spelled(Marks(Trim(tool), true, false)) == Spelled(Marks(Trim(tool), true, false));
  }

  lemma CapitalStep(c: char, rest: string, current: string, low: bool)
    requires IsUpper(c) && (low ==> current != "")
    ensures Words([c] + rest, current, low) ==
      if low then [current] + Words(rest, [LowerChar(c)], false) else Words(rest, current + [LowerChar(c)], false)
  {
    assert ([c] + rest)[1..] == rest;
  }

  lemma CapitalWords()
    ensures Words("WebSearch", "", false) == ["web", "search"]
  {
    hide Words;
    assert "WebSearch" == ['W'] + ("eb" + "Search") && "Search" == ['S'] + "earch" && "earch" == "earch" + "";
    CapitalStep('W', "eb" + "Search", "", false);
    WordRead("eb", "Search", "" + ['w'], false);
    CapitalStep('S', "earch", "web", true);
    assert "" + ['w'] + "eb" == "web" && ['s'] + "earch" == "search";
    WordRead("earch", "", ['s'], false);
    WordsEnd([], "search", true);
    assert ["web"] + ["search"] == ["web", "search"] && [] + ["search"] == ["search"];
    assert [] + Words("", "search", true) == Words("", "search", true);
  }

  lemma SeparatorStep(c: char, rest: string, current: string, low: bool)
    requires !IsAlphanumeric(c)
    ensures Words([c] + rest, current, low) == (if current == "" then [] else [current]) + Words(rest, "", false)
  {
    assert ([c] + rest)[1..] == rest;
  }

  lemma SeparatedWords()
    ensures Words("web--search", "", false) == ["web", "search"]
  {
    hide Words;
    assert "web--search" == "web" + "--search" && "--search" == ['-'] + "-search" && "-search" == ['-'] + "search";
    assert "" + "web" == "web" && "" + "search" == "search" && "search" == "search" + "";
    WordRead("web", "--search", "", false);
    SeparatorStep('-', "-search", "web", true);
    SeparatorStep('-', "search", "", false);
    WordRead("search", "", "", false);
    WordsEnd([], "search", true);
    assert [] + Words("", "search", true) == Words("", "search", true) == ["search"];
    assert [] + ["search"] == ["search"] && ["web"] + ["search"] == ["web", "search"];
  }

  /** Two spellings of one id, to the letter. */
  lemma IdSamples()
    ensures ToolId("WebSearch") == "web" + "_" + "search" && ToolId(" web--search ") == ToolId("WebSearch")
  {
    TrimMargins("", "WebSearch", "");
    assert "" + "WebSearch" + "" == "WebSearch";
    TrimMargins(" ", "web--search", " ");
    assert " " + "web--search" + " " == " web--search ";
    CapitalWords();
    SeparatedWords();
    assert ["web", "search"][1..] == ["search"];
  }
}
