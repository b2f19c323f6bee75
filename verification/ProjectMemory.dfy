/** The per-project memory file: entries joined by a delimiter line, read back by splitting
    at the leftmost delimiters, trimming, and dropping blanks and repeats
    (crates/puffer-core/memory.rs). */
module ProjectMemory {
  import opened Text
  import opened Wrappers

  const DELIMITER: string := "\n\U{A7}\n"
  const DELIMITER_STEM: string := "\n\U{A7}"

  // ---- Reading and writing --------------------------------------------------------

  /** The leftmost place from `from` on where the delimiter occurs; the length of the text
      when there is none. */
  function DelimiterFrom(raw: string, from: nat): (i: nat)
    requires from <= |raw|
    ensures from <= i <= |raw|
    ensures i < |raw| ==> OccursAt(DELIMITER, raw, i)
    ensures forall j: nat | from <= j < i :: !OccursAt(DELIMITER, raw, j)
    decreases |raw| - from
  {
    if from == |raw| || OccursAt(DELIMITER, raw, from) then from else DelimiterFrom(raw, from + 1)
  }

  function FirstDelimiter(raw: string): nat {
    DelimiterFrom(raw, 0)
  }

  function Split(raw: string): (pieces: seq<string>)
    ensures pieces != []
  {
    var i := FirstDelimiter(raw);
    if i == |raw| then [raw] else [raw[..i]] + Split(raw[i + |DELIMITER|..])
  }

  /** One turn of the reading loop. */
  function Keep(entries: seq<string>, piece: string): seq<string> {
    var trimmed := Trim(piece);
    if trimmed == "" || trimmed in entries then entries else entries + [trimmed]
  }

  function Collect(pieces: seq<string>, entries: seq<string>): seq<string> {
    if pieces == [] then entries else Collect(pieces[1..], Keep(entries, pieces[0]))
  }

  function ReadEntries(raw: string): seq<string> {
    if Trim(raw) == "" then [] else Collect(Split(raw), [])
  }

  function WriteEntries(entries: seq<string>): string {
    Join(entries, DELIMITER)
  }

  method ReadFile(raw: string) returns (entries: seq<string>)
    ensures entries == ReadEntries(raw)
  {
    entries := [];
    if Trim(raw) == "" { return; }
    var pieces := Split(raw);
    for k := 0 to |pieces|
      invariant Collect(pieces[k..], entries) == Collect(pieces, [])
    {
      var trimmed := Trim(pieces[k]);
      assert pieces[k..][1..] == pieces[k + 1..];
      if trimmed == "" { continue; }
      if trimmed !in entries {
        entries := entries + [trimmed];
      }
    }
  }

  // ---- When a write reads back unchanged --------------------------------------------

  predicate EndsInStem(e: string) {
    |e| >= 2 && e[|e| - 2..] == DELIMITER_STEM
  }

  predicate Tidy(entries: seq<string>) {
    Distinct(entries) && forall e | e in entries :: e != "" && IsTrimmed(e)
  }

  /** No entry holds the delimiter, and only the last may end in its first two characters. */
  predicate Joinable(entries: seq<string>) {
    && (forall e | e in entries :: !Contains(e, DELIMITER))
    && (forall i | 0 <= i < |entries| - 1 :: !EndsInStem(entries[i]))
  }

  /** The exact side condition of the round trip. */
  predicate RoundTrips(entries: seq<string>) {
    Tidy(entries) && Joinable(entries)
  }

  lemma OccursIn(raw: string, i: nat, whole: string, at: nat)
    requires at + |raw| <= |whole| && whole[at..at + |raw|] == raw
    requires i + |DELIMITER| <= |raw|
    ensures OccursAt(DELIMITER, raw, i) <==> OccursAt(DELIMITER, whole, at + i)
  {
    var part := whole[at..at + |raw|];
    assert part[i] == whole[at + i] && part[i + 1] == whole[at + i + 1] && part[i + 2] == whole[at + i + 2];
    assert raw[i..i + 3] == [raw[i], raw[i + 1], raw[i + 2]];
    assert whole[at + i..at + i + 3] == [whole[at + i], whole[at + i + 1], whole[at + i + 2]];
  }

  /** In `e + DELIMITER + rest`, the leftmost delimiter is the joint exactly when `e` neither
      contains one nor ends in its first two characters. */
  lemma JointIsFirst(e: string, rest: string)
    ensures FirstDelimiter(e + DELIMITER + rest) == |e| <==> !Contains(e, DELIMITER) && !EndsInStem(e)
  {
    var raw := e + DELIMITER + rest;
    assert raw[|e|..|e| + 3] == DELIMITER;
    assert OccursAt(DELIMITER, raw, |e|);
    assert FirstDelimiter(raw) <= |e|;
    if Contains(e, DELIMITER) {
      var i: nat :| i <= |e| && OccursAt(DELIMITER, e, i);
      assert raw[0..|e|] == e;
      OccursIn(e, i, raw, 0);
    } else if EndsInStem(e) {
      var i := |e| - 2;
      assert raw[i..i + 3] == e[i..] + ['\n'];
      assert OccursAt(DELIMITER, raw, i);
    } else if FirstDelimiter(raw) < |e| {
      var i := FirstDelimiter(raw);
      NoEarlierJoint(e, rest, i);
      assert false;
    }
  }

  lemma NoEarlierJoint(e: string, rest: string, i: nat)
    requires i < |e| && OccursAt(DELIMITER, e + DELIMITER + rest, i)
    ensures Contains(e, DELIMITER) || EndsInStem(e)
  {
    var raw := e + DELIMITER + rest;
    assert raw[i..i + 3][0] == raw[i] && raw[i..i + 3][1] == raw[i + 1] && raw[i..i + 3][2] == raw[i + 2];
    assert raw[|e|] == '\n';
    if i + 3 <= |e| {
      assert raw[0..|e|] == e;
      OccursIn(e, i, raw, 0);
    } else if i + 2 == |e| {
      assert e[i..] == [raw[i], raw[i + 1]];
    }
  }

  lemma LastPieceWhole(e: string)
    ensures FirstDelimiter(e) == |e| <==> !Contains(e, DELIMITER)
  {
    var i := FirstDelimiter(e);
    assert Contains(e, DELIMITER) <==> i < |e|;
  }

  lemma JoinSplits(entries: seq<string>)
    requires |entries| > 1
    ensures WriteEntries(entries) == entries[0] + DELIMITER + WriteEntries(entries[1..])
    ensures WriteEntries(entries)[|entries[0]| + |DELIMITER|..] == WriteEntries(entries[1..])
    ensures WriteEntries(entries)[..|entries[0]|] == entries[0]
  {
  }

  /** Splitting undoes joining exactly when no joint is preceded by an earlier delimiter. */
  lemma {:induction false} SplitUndoesJoin(entries: seq<string>)
    requires entries != []
    ensures Split(WriteEntries(entries)) == entries <==> Joinable(entries)
  {
    var raw := WriteEntries(entries);
    if |entries| == 1 {
      LastPieceWhole(entries[0]);
      SinglePiece(raw, entries[0]);
    } else {
      var e, rest := entries[0], entries[1..];
      JoinSplits(entries);
      JointIsFirst(e, WriteEntries(rest));
      SplitUndoesJoin(rest);
      assert entries == [e] + rest;
      FirstPiece(raw, e, rest);
      JoinableSplits(e, rest);
    }
  }

  lemma JoinableSplits(e: string, rest: seq<string>)
    requires rest != []
    ensures Joinable([e] + rest) <==> !Contains(e, DELIMITER) && !EndsInStem(e) && Joinable(rest)
  {
    var all := [e] + rest;
    assert all[0] == e && forall i | 0 <= i < |rest| :: all[i + 1] == rest[i];
    assert forall x :: x in all <==> x == e || x in rest;
    if Joinable(all) {
      forall i | 0 <= i < |rest| - 1 ensures !EndsInStem(rest[i]) { assert rest[i] == all[i + 1]; }
    }
    if !EndsInStem(e) && Joinable(rest) {
      forall i | 0 <= i < |all| - 1 ensures !EndsInStem(all[i]) {
        assert i > 0 ==> all[i] == rest[i - 1];
      }
    }
  }

  lemma SinglePiece(raw: string, e: string)
    requires raw == e
    ensures Split(raw) == [e] <==> FirstDelimiter(raw) == |raw|
  {
    var i := FirstDelimiter(raw);
    if i < |raw| {
      assert Split(raw)[0] == raw[..i];
      assert |Split(raw)[0]| < |e|;
    }
  }

  lemma FirstPiece(raw: string, e: string, rest: seq<string>)
    requires rest != [] && raw == e + DELIMITER + WriteEntries(rest)
    requires raw[|e| + |DELIMITER|..] == WriteEntries(rest) && raw[..|e|] == e
    ensures Split(raw) == [e] + rest <==> FirstDelimiter(raw) == |e| && Split(WriteEntries(rest)) == rest
  {
    var i := FirstDelimiter(raw);
    if i == |raw| {
      assert |Split(raw)| == 1;
    } else {
      assert Split(raw)[0] == raw[..i] && Split(raw)[1..] == Split(raw[i + |DELIMITER|..]);
      assert ([e] + rest)[0] == e && ([e] + rest)[1..] == rest;
    }
  }

  // ---- What reading can lose: the length argument -----------------------------------

  function Cost(entries: seq<string>): nat {
    if entries == [] then 0 else |entries[0]| + |DELIMITER| + Cost(entries[1..])
  }

  lemma {:induction false} JoinCost(entries: seq<string>)
    requires entries != []
    ensures |WriteEntries(entries)| + |DELIMITER| == Cost(entries)
  {
    if |entries| == 1 {
      assert Cost(entries[1..]) == 0;
    } else {
      JoinCost(entries[1..]);
    }
  }

  lemma {:induction false} CostAppend(entries: seq<string>, e: string)
    ensures Cost(entries + [e]) == Cost(entries) + |e| + |DELIMITER|
  {
    if entries == [] {
      assert Cost([e][1..]) == 0;
    } else {
      assert (entries + [e])[1..] == entries[1..] + [e];
      CostAppend(entries[1..], e);
    }
  }

  lemma KeepShrinks(entries: seq<string>, piece: string)
    ensures Cost(Keep(entries, piece)) <= Cost(entries) + |piece| + |DELIMITER|
    ensures Cost(Keep(entries, piece)) == Cost(entries) + |piece| + |DELIMITER| ==>
      Keep(entries, piece) == entries + [piece]
  {
    var pre, post := TrimCuts(piece);
    CostAppend(entries, Trim(piece));
    assert |Trim(piece)| == |piece| ==> piece == Trim(piece);
  }

  /** Reading never lengthens the list. */
  lemma {:induction false} CollectShrinks(pieces: seq<string>, entries: seq<string>)
    ensures Cost(Collect(pieces, entries)) <= Cost(entries) + Cost(pieces)
  {
    if pieces != [] {
      KeepShrinks(entries, pieces[0]);
      CollectShrinks(pieces[1..], Keep(entries, pieces[0]));
    }
  }

  /** Reading keeps the length of the list only if it keeps every piece as it is. */
  lemma {:induction false} CollectKeepsAll(pieces: seq<string>, entries: seq<string>)
    requires Cost(Collect(pieces, entries)) == Cost(entries) + Cost(pieces)
    ensures Collect(pieces, entries) == entries + pieces
  {
    if pieces == [] {
      assert entries + pieces == entries;
    } else {
      KeepShrinks(entries, pieces[0]);
      CollectShrinks(pieces[1..], Keep(entries, pieces[0]));
      CollectKeepsAll(pieces[1..], Keep(entries, pieces[0]));
      Associate(entries, pieces);
    }
  }

  lemma Associate(entries: seq<string>, pieces: seq<string>)
    requires pieces != []
    ensures (entries + [pieces[0]]) + pieces[1..] == entries + pieces
  {
  }

  lemma {:induction false} JoinUndoesSplit(raw: string)
    ensures WriteEntries(Split(raw)) == raw
    decreases |raw|
  {
    var i := FirstDelimiter(raw);
    if i < |raw| {
      var rest := raw[i + |DELIMITER|..];
      assert Split(raw) == [raw[..i]] + Split(rest);
      hide Split, WriteEntries, FirstDelimiter, OccursAt;
      JoinUndoesSplit(rest);
      JoinMore(raw[..i], Split(rest));
      CutAtDelimiter(raw, i);
    }
  }

  lemma JoinMore(e: string, more: seq<string>)
    requires more != []
    ensures WriteEntries([e] + more) == e + DELIMITER + WriteEntries(more)
  {
    assert ([e] + more)[1..] == more;
  }

  lemma CutAtDelimiter(raw: string, i: nat)
    requires OccursAt(DELIMITER, raw, i)
    ensures raw == raw[..i] + DELIMITER + raw[i + |DELIMITER|..]
  {
    assert raw == raw[..i] + raw[i..i + |DELIMITER|] + raw[i + |DELIMITER|..];
  }

  /** Re-reading what is on file never yields a longer file. */
  lemma RereadShrinks(raw: string)
    ensures |WriteEntries(ReadEntries(raw))| <= |raw|
  {
    if Trim(raw) != "" && ReadEntries(raw) != [] {
      JoinUndoesSplit(raw);
      JoinCost(Split(raw));
      JoinCost(ReadEntries(raw));
      CollectShrinks(Split(raw), []);
    }
  }

  // ---- What every list that was read satisfies --------------------------------------

  lemma {:induction false} CollectIsTidy(pieces: seq<string>, entries: seq<string>)
    requires Tidy(entries)
    ensures Tidy(Collect(pieces, entries))
  {
    if pieces != [] {
      var pre, post := TrimCuts(pieces[0]);
      CollectIsTidy(pieces[1..], Keep(entries, pieces[0]));
    }
  }

  lemma {:induction false} CollectTidy(pieces: seq<string>, entries: seq<string>)
    requires Tidy(entries + pieces)
    ensures Collect(pieces, entries) == entries + pieces
  {
    if pieces == [] {
      assert entries + pieces == entries;
    } else {
      var piece := pieces[0];
      assert (entries + pieces)[|entries|] == piece;
      assert piece in entries + pieces;
      TrimMargins("", piece, "");
      assert "" + piece + "" == piece;
      assert forall i | 0 <= i < |entries| :: (entries + pieces)[i] == entries[i];
      assert piece !in entries;
      assert entries + pieces == (entries + [piece]) + pieces[1..];
      CollectTidy(pieces[1..], entries + [piece]);
    }
  }

  lemma WriteStarts(entries: seq<string>)
    requires entries != [] && entries[0] != ""
    ensures WriteEntries(entries) != "" && WriteEntries(entries)[0] == entries[0][0]
  {
  }

  /** Writing and reading back returns the same list exactly under `RoundTrips`. */
  lemma WriteThenRead(entries: seq<string>)
    ensures ReadEntries(WriteEntries(entries)) == entries <==> RoundTrips(entries)
  {
    var raw := WriteEntries(entries);
    if entries == [] {
      assert Trim(raw) == "";
    } else {
      SplitUndoesJoin(entries);
      if RoundTrips(entries) {
        assert entries[0] in entries;
        WriteStarts(entries);
        NotBlank(raw);
        assert [] + entries == entries;
        CollectTidy(entries, []);
      }
      if ReadEntries(raw) == entries {
        CollectIsTidy(Split(raw), []);
        JoinUndoesSplit(raw);
        JoinCost(entries);
        JoinCost(Split(raw));
        CollectKeepsAll(Split(raw), []);
        assert [] + Split(raw) == Split(raw);
      }
    }
  }

  // ---- The three commands -------------------------------------------------------------

  datatype Command =
    | Add(content: Option<string>)
    | Replace(oldText: Option<string>, newContent: Option<string>)
    | Remove(oldText: Option<string>)

  datatype Error =
    | ContentRequired
    | OldTextRequired
    | Blocked
    | Full(chars: nat, limit: nat)
    | NoMatch(text: string)
    | Ambiguous(text: string)

  datatype Note = AlreadyExists | Added | Replaced | Removed

  datatype Mutation = Mutation(note: Note, entries: seq<string>, percent: nat, chars: nat, count: nat)

  const NEEDLES: seq<string> := [
    "ignore previous instructions", "ignore all instructions", "system prompt override",
    "authorized_keys", "~/.ssh", "$api_key", "$token"]

  /** The content guard: no unsafe phrase in any ASCII case, no invisible character. */
  predicate SafeContent(content: string) {
    && (forall n | n in NEEDLES :: !Contains(LowerAscii(content), n))
    && (forall i | 0 <= i < |content| :: content[i] !in "\U{200B}\U{200C}\U{200D}\U{2060}\U{FEFF}")
  }

  function Given(text: Option<string>): string {
    Trim(if text.Some? then text.value else "")
  }

  function UsageParts(entries: seq<string>, limit: nat): (nat, nat) {
    var chars := |WriteEntries(entries)|;
    var percent := if limit == 0 then 0 else chars * 100 / limit;
    (if percent > 100 then 100 else percent, chars)
  }

  function Report(entries: seq<string>, limit: nat, note: Note): Mutation {
    var (percent, chars) := UsageParts(entries, limit);
    Mutation(note, entries, percent, chars, |entries|)
  }

  /** The list a write would leave, refused when its file would exceed the limit. */
  function Projected(entries: seq<string>, limit: nat): Result<seq<string>, Error> {
    var chars := UsageParts(entries, limit).1;
    if chars > limit then Err(Full(chars, limit)) else Ok(entries)
  }

  function Matches(entries: seq<string>, text: string, from: nat): (indices: seq<nat>)
    requires from <= |entries|
    ensures forall i: nat :: i in indices <==> from <= i < |entries| && Contains(entries[i], text)
    ensures Distinct(indices)
    decreases |entries| - from
  {
    if from == |entries| then []
    else if Contains(entries[from], text) then [from] + Matches(entries, text, from + 1)
    else Matches(entries, text, from + 1)
  }

  /** The one entry that contains the text. */
  function UniqueMatch(entries: seq<string>, text: string): (r: Result<nat, Error>)
    ensures forall i: nat :: r == Ok(i) <==>
      && i < |entries| && Contains(entries[i], text)
      && forall j: nat | j < |entries| && j != i :: !Contains(entries[j], text)
    ensures r == Err(NoMatch(text)) <==> forall j: nat | j < |entries| :: !Contains(entries[j], text)
  {
    var indices := Matches(entries, text, 0);
    if indices == [] then
      assert forall j: nat | j < |entries| :: j !in indices;
      Err(NoMatch(text))
    else
      assert indices[0] in indices;
      if |indices| == 1 then
        assert forall j: nat :: j in indices <==> j == indices[0];
        Ok(indices[0])
      else
        assert indices[1] in indices && indices[0] != indices[1];
        Err(Ambiguous(text))
  }

  function RemoveAt(entries: seq<string>, index: nat): seq<string>
    requires index < |entries|
  {
    entries[..index] + entries[index + 1..]
  }

  /** What a command does to the list that was read. */
  function Mutate(entries: seq<string>, limit: nat, command: Command): Result<Mutation, Error> {
    match command
    case Add(content) =>
      var text := Given(content);
      if text == "" then Err(ContentRequired)
      else if !SafeContent(text) then Err(Blocked)
      else if text in entries then Ok(Report(entries, limit, AlreadyExists))
      else (match Projected(entries + [text], limit)
            case Err(e) => Err(e)
            case Ok(next) => Ok(Report(next, limit, Added)))
    case Replace(oldText, newContent) =>
      var text := Given(newContent);
      if Given(oldText) == "" then Err(OldTextRequired)
      else if text == "" then Err(ContentRequired)
      else if !SafeContent(text) then Err(Blocked)
      else (match UniqueMatch(entries, Given(oldText))
            case Err(e) => Err(e)
            case Ok(index) =>
              match Projected(entries[index := text], limit)
              case Err(e) => Err(e)
              case Ok(next) => Ok(Report(next, limit, Replaced)))
    case Remove(oldText) =>
      if Given(oldText) == "" then Err(OldTextRequired)
      else (match UniqueMatch(entries, Given(oldText))
            case Err(e) => Err(e)
            case Ok(index) => Ok(Report(RemoveAt(entries, index), limit, Removed)))
  }

  /** What a command does to the file: a failed command writes nothing. */
  function FileAfter(file: string, limit: nat, command: Command): string {
    match Mutate(ReadEntries(file), limit, command)
    case Ok(m) => WriteEntries(m.entries)
    case Err(_) => file
  }

  class MemoryFile {
    var file: string
    const limit: nat

    constructor (limit: nat)
      ensures file == "" && this.limit == limit
    {
      this.limit := limit;
      file := "";
    }

    method AddEntry(content: Option<string>) returns (r: Result<Mutation, Error>)
      modifies this
      ensures r == Mutate(ReadEntries(old(file)), limit, Add(content))
      ensures file == FileAfter(old(file), limit, Add(content))
    {
      var text := Given(content);
      if text == "" { return Err(ContentRequired); }
      if !SafeContent(text) { return Err(Blocked); }
      var entries := ReadFile(file);
      var note := AlreadyExists;
      if text !in entries {
        var usage := UsageParts(entries + [text], limit);
        if usage.1 > limit { return Err(Full(usage.1, limit)); }
        entries := entries + [text];
        note := Added;
      }
      file := WriteEntries(entries);
      r := Ok(Report(entries, limit, note));
    }

    method ReplaceEntry(oldText: Option<string>, newContent: Option<string>) returns (r: Result<Mutation, Error>)
      modifies this
      ensures r == Mutate(ReadEntries(old(file)), limit, Replace(oldText, newContent))
      ensures file == FileAfter(old(file), limit, Replace(oldText, newContent))
      ensures r.Ok? ==> ReplacesMatch(ReadEntries(old(file)), Given(oldText), Given(newContent), r.value.entries)
    {
      var text := Given(newContent);
      if Given(oldText) == "" { return Err(OldTextRequired); }
      if text == "" { return Err(ContentRequired); }
      if !SafeContent(text) { return Err(Blocked); }
      var entries := ReadFile(file);
      var found := UniqueMatch(entries, Given(oldText));
      if found.Err? { return Err(found.error); }
      var usage := UsageParts(entries[found.value := text], limit);
      if usage.1 > limit { return Err(Full(usage.1, limit)); }
      entries := entries[found.value := text];
      file := WriteEntries(entries);
      r := Ok(Report(entries, limit, Replaced));
      ghost var index := ReplaceChangesMatch(ReadEntries(old(file)), limit, oldText, newContent);
    }

    method RemoveEntry(oldText: Option<string>) returns (r: Result<Mutation, Error>)
      modifies this
      ensures r == Mutate(ReadEntries(old(file)), limit, Remove(oldText))
      ensures file == FileAfter(old(file), limit, Remove(oldText))
      ensures r.Ok? ==> RemovesMatch(ReadEntries(old(file)), Given(oldText), r.value.entries)
    {
      if Given(oldText) == "" { return Err(OldTextRequired); }
      var entries := ReadFile(file);
      var found := UniqueMatch(entries, Given(oldText));
      if found.Err? { return Err(found.error); }
      entries := RemoveAt(entries, found.value);
      file := WriteEntries(entries);
      r := Ok(Report(entries, limit, Removed));
      ghost var index := RemoveDropsMatch(ReadEntries(old(file)), limit, oldText);
    }
  }

  // ---- Capacity over runs ---------------------------------------------------------------

  function Run(file: string, limit: nat, commands: seq<Command>): string
    decreases |commands|
  {
    if commands == [] then file else Run(FileAfter(file, limit, commands[0]), limit, commands[1..])
  }

  lemma {:induction false} RemoveCost(entries: seq<string>, index: nat)
    requires index < |entries|
    ensures Cost(RemoveAt(entries, index)) < Cost(entries)
  {
    if index == 0 {
      assert RemoveAt(entries, 0) == entries[1..];
    } else {
      assert RemoveAt(entries, index)[1..] == RemoveAt(entries[1..], index - 1);
      RemoveCost(entries[1..], index - 1);
    }
  }

  lemma RemoveShortens(entries: seq<string>, index: nat)
    requires index < |entries|
    ensures |WriteEntries(RemoveAt(entries, index))| <= |WriteEntries(entries)|
  {
    RemoveCost(entries, index);
    JoinCost(entries);
    if RemoveAt(entries, index) != [] { JoinCost(RemoveAt(entries, index)); }
  }

  lemma CommandKeepsCapacity(file: string, limit: nat, command: Command)
    ensures |FileAfter(file, limit, command)| <= limit || |FileAfter(file, limit, command)| <= |file|
  {
    var entries := ReadEntries(file);
    RereadShrinks(file);
    match command {
      case Remove(oldText) =>
        var found := UniqueMatch(entries, Given(oldText));
        if found.Ok? { RemoveShortens(entries, found.value); }
      case _ =>
    }
  }

  /** A file within the limit stays within it under every run of commands, failed ones included. */
  lemma {:induction false} CapacityOverRuns(file: string, limit: nat, commands: seq<Command>)
    requires |file| <= limit
    ensures |Run(file, limit, commands)| <= limit
    decreases |commands|
  {
    if commands != [] {
      CommandKeepsCapacity(file, limit, commands[0]);
      CapacityOverRuns(FileAfter(file, limit, commands[0]), limit, commands[1..]);
    }
  }

  // ---- The file refines a list -----------------------------------------------------------

  /** Content that no later write can tear apart. */
  predicate Whole(text: string) {
    !Contains(text, DELIMITER) && !EndsInStem(text)
  }

  predicate WholeContent(command: Command) {
    match command
    case Add(content) => Whole(Given(content))
    case Replace(_, newContent) => Whole(Given(newContent))
    case Remove(_) => true
  }

  /** The same command on a plain list, where a repeated entry counts once. */
  function ListAfter(entries: seq<string>, limit: nat, command: Command): seq<string> {
    match Mutate(entries, limit, command)
    case Ok(m) => Collect(m.entries, [])
    case Err(_) => entries
  }

  function ListRun(entries: seq<string>, limit: nat, commands: seq<Command>): seq<string>
    decreases |commands|
  {
    if commands == [] then entries else ListRun(ListAfter(entries, limit, commands[0]), limit, commands[1..])
  }

  predicate AllWhole(entries: seq<string>) {
    forall e | e in entries :: e != "" && IsTrimmed(e) && Whole(e)
  }

  lemma {:induction false} CollectKeepsWhole(pieces: seq<string>, entries: seq<string>)
    requires AllWhole(pieces) && AllWhole(entries)
    ensures AllWhole(Collect(pieces, entries))
  {
    if pieces != [] {
      assert pieces[0] in pieces;
      TrimMargins("", pieces[0], "");
      assert "" + pieces[0] + "" == pieces[0];
      CollectKeepsWhole(pieces[1..], Keep(entries, pieces[0]));
    }
  }

  lemma ReadsAsCollected(entries: seq<string>)
    requires (forall e | e in entries :: e != "" && IsTrimmed(e)) && Joinable(entries)
    ensures ReadEntries(WriteEntries(entries)) == Collect(entries, [])
  {
    if entries != [] {
      assert forall i | 0 <= i < |entries| :: entries[i] in entries;
      SplitUndoesJoin(entries);
      WriteStarts(entries);
      NotBlank(WriteEntries(entries));
    }
  }

  lemma MutateKeepsWhole(entries: seq<string>, limit: nat, command: Command)
    requires AllWhole(entries) && WholeContent(command) && Mutate(entries, limit, command).Ok?
    ensures AllWhole(Mutate(entries, limit, command).value.entries)
  {
    MutateKeepsTrimmed(entries, limit, command);
    MutateBringsIn(entries, limit, command);
    hide Mutate, Whole;
  }

  /** An entry that a command brings in is the given content. */
  lemma MutateBringsIn(entries: seq<string>, limit: nat, command: Command)
    requires Mutate(entries, limit, command).Ok?
    ensures forall e | e in Mutate(entries, limit, command).value.entries :: e in entries || IsContent(command, e)
  {
  }

  predicate IsContent(command: Command, e: string) {
    match command
    case Add(content) => e == Given(content) && e != ""
    case Replace(_, content) => e == Given(content) && e != ""
    case Remove(_) => false
  }

  predicate AllTrimmed(entries: seq<string>) {
    forall e | e in entries :: e != "" && IsTrimmed(e)
  }

  /** Every list that a command of the run writes is joinable. */
  predicate StaysJoinable(entries: seq<string>, limit: nat, commands: seq<Command>)
    decreases |commands|
  {
    commands == [] ||
    ((Mutate(entries, limit, commands[0]).Ok? ==> Joinable(Mutate(entries, limit, commands[0]).value.entries))
     && StaysJoinable(ListAfter(entries, limit, commands[0]), limit, commands[1..]))
  }

  lemma MutateKeepsTrimmed(entries: seq<string>, limit: nat, command: Command)
    requires AllTrimmed(entries) && Mutate(entries, limit, command).Ok?
    ensures AllTrimmed(Mutate(entries, limit, command).value.entries)
  {
    MutateBringsIn(entries, limit, command);
    hide Mutate;
    match command {
      case Add(content) => var pre, post := TrimCuts(if content.Some? then content.value else "");
      case Replace(_, content) => var pre, post := TrimCuts(if content.Some? then content.value else "");
      case Remove(_) =>
    }
  }

  /** A run whose written lists stay joinable acts on the file as on the list it stands for. */
  lemma {:induction false} RunRefinesList(file: string, limit: nat, commands: seq<Command>)
    requires StaysJoinable(ReadEntries(file), limit, commands)
    ensures ReadEntries(Run(file, limit, commands)) == ListRun(ReadEntries(file), limit, commands)
    decreases |commands|
  {
    hide ReadEntries, Mutate, Joinable;
    if commands != [] {
      var entries, c := ReadEntries(file), commands[0];
      match Mutate(entries, limit, c) {
        case Err(_) =>
        case Ok(m) =>
          ReadIsTidy(file);
          MutateKeepsTrimmed(entries, limit, c);
          ReadsAsCollected(m.entries);
      }
      RunRefinesList(FileAfter(file, limit, c), limit, commands[1..]);
    }
  }

  /** Contents that neither hold the delimiter nor end in its first two characters keep every list joinable. */
  lemma {:induction false} WholeContentsStayJoinable(entries: seq<string>, limit: nat, commands: seq<Command>)
    requires AllWhole(entries) && forall c | c in commands :: WholeContent(c)
    ensures StaysJoinable(entries, limit, commands)
    decreases |commands|
  {
    hide Mutate;
    if commands != [] {
      var c := commands[0];
      assert c in commands;
      if Mutate(entries, limit, c).Ok? {
        MutateKeepsWhole(entries, limit, c);
        WholeIsJoinable(Mutate(entries, limit, c).value.entries);
        CollectKeepsWhole(Mutate(entries, limit, c).value.entries, []);
      }
      WholeContentsStayJoinable(ListAfter(entries, limit, c), limit, commands[1..]);
    }
  }

  lemma WholeIsJoinable(entries: seq<string>)
    requires AllWhole(entries)
    ensures Joinable(entries) && AllTrimmed(entries)
  {
    assert forall i | 0 <= i < |entries| :: entries[i] in entries;
  }

  /** An added entry is there on the next read exactly when the new list is joinable. */
  lemma AddedIsReadBack(file: string, limit: nat, content: Option<string>)
    requires Mutate(ReadEntries(file), limit, Add(content)).Ok?
    requires Mutate(ReadEntries(file), limit, Add(content)).value.note == Added
    ensures ReadEntries(FileAfter(file, limit, Add(content))) == ReadEntries(file) + [Given(content)]
       <==> Joinable(ReadEntries(file) + [Given(content)])
  {
    var entries, text := ReadEntries(file), Given(content);
    assert text != "" && text !in entries;
    var pre, post := TrimCuts(if content.Some? then content.value else "");
    CollectIsTidy(Split(file), []);
    TidyAppend(entries, text);
    WriteThenRead(entries + [text]);
    assert FileAfter(file, limit, Add(content)) == WriteEntries(entries + [text]);
  }

  lemma TidyAppend(entries: seq<string>, text: string)
    requires Tidy(entries) && text != "" && IsTrimmed(text) && text !in entries
    ensures Tidy(entries + [text])
  {
  }

  lemma WholeRereads(entries: seq<string>)
    requires AllWhole(entries) && Tidy(entries)
    ensures ReadEntries(WriteEntries(entries)) == entries
  {
    WholeIsJoinable(entries);
    hide Whole, ReadEntries, WriteEntries, Joinable;
    ReadsAsCollected(entries);
    assert [] + entries == entries;
    CollectTidy(entries, []);
  }

  /** An entry is the only one to contain its own text exactly when no other does. */
  lemma LastIsUniqueMatch(entries: seq<string>, text: string)
    ensures var r := UniqueMatch(entries + [text], text);
      if forall e | e in entries :: !Contains(e, text) then r == Ok(|entries|) else r.Err?
  {
    assert OccursAt(text, text, 0);
    hide OccursAt;
    var both := entries + [text];
    assert Contains(both[|entries|], text);
    assert forall i | 0 <= i < |entries| :: both[i] == entries[i];
    if e :| e in entries && Contains(e, text) {
      var i :| 0 <= i < |entries| && entries[i] == e;
      assert Contains(both[i], text);
    }
  }

  lemma AddWrites(file: string, limit: nat, content: Option<string>)
    requires Mutate(ReadEntries(file), limit, Add(content)).Ok?
    requires Mutate(ReadEntries(file), limit, Add(content)).value.note == Added
    ensures FileAfter(file, limit, Add(content)) == WriteEntries(ReadEntries(file) + [Given(content)])
    ensures Given(content) != "" && IsTrimmed(Given(content)) && Given(content) !in ReadEntries(file)
  {
    hide ReadEntries, WriteEntries, SafeContent;
    var pre, post := TrimCuts(if content.Some? then content.value else "");
  }

  lemma RemoveWrites(file: string, limit: nat, text: string)
    requires text != "" && IsTrimmed(text)
    ensures var entries := ReadEntries(file);
      FileAfter(file, limit, Remove(Some(text))) ==
        match UniqueMatch(entries, text)
        case Ok(i) => WriteEntries(RemoveAt(entries, i))
        case Err(_) => file
  {
    hide ReadEntries, WriteEntries, UniqueMatch;
    TrimMargins("", text, "");
    assert "" + text + "" == text;
  }

  /** Removing by its own text undoes an addition exactly when no other entry contains that text; otherwise the
      removal is refused as ambiguous and the entry stays. */
  lemma RemoveUndoesAddIff(file: string, limit: nat, content: Option<string>)
    requires AllWhole(ReadEntries(file)) && Whole(Given(content))
    requires Mutate(ReadEntries(file), limit, Add(content)).Ok?
    requires Mutate(ReadEntries(file), limit, Add(content)).value.note == Added
    ensures var added := FileAfter(file, limit, Add(content));
      ReadEntries(FileAfter(added, limit, Remove(Some(Given(content))))) == ReadEntries(file)
      <==> forall e | e in ReadEntries(file) :: !Contains(e, Given(content))
  {
    hide Whole, ReadEntries, WriteEntries, Contains, UniqueMatch, Tidy, FileAfter, Mutate;
    var entries, text := ReadEntries(file), Given(content);
    var both := entries + [text];
    AddWrites(file, limit, content);
    RemoveWrites(WriteEntries(both), limit, text);
    ReadIsTidy(file);
    TidyAppend(entries, text);
    WholeRereads(both);
    WholeRereads(entries);
    LastIsUniqueMatch(entries, text);
    assert RemoveAt(both, |entries|) == entries && both != entries;
  }

  lemma ReadIsTidy(file: string)
    ensures Tidy(ReadEntries(file))
  {
    CollectIsTidy(Split(file), []);
  }

  /** An entry that ends in the first two characters of the delimiter is torn by what follows it. */
  lemma TornEntry()
    ensures ReadEntries(WriteEntries(["a" + DELIMITER_STEM, "b"])) != ["a" + DELIMITER_STEM, "b"]
  {
    WriteThenRead(["a" + DELIMITER_STEM, "b"]);
    assert EndsInStem(["a" + DELIMITER_STEM, "b"][0]);
  }

  // ---- What each command does to the entries ---------------------------------------------------------

  /** The entry at `index` is the only one that contains the text. */
  predicate OnlyAt(entries: seq<string>, text: string, index: nat) {
    index < |entries| && Contains(entries[index], text)
    && forall j | 0 <= j < |entries| && j != index :: !Contains(entries[j], text)
  }

  /** The new text stands in place of the one entry that contains the old text, every other entry where it was. */
  predicate ReplacesMatch(entries: seq<string>, oldText: string, newText: string, next: seq<string>) {
    |next| == |entries| && exists index | 0 <= index < |entries| ::
      && OnlyAt(entries, oldText, index) && next[index] == newText
      && forall j | 0 <= j < |entries| && j != index :: next[j] == entries[j]
  }

  /** The one entry that contains the text is gone, the others are there in their order. */
  predicate RemovesMatch(entries: seq<string>, text: string, next: seq<string>) {
    |next| == |entries| - 1 && exists index | 0 <= index < |entries| ::
      && OnlyAt(entries, text, index)
      && (forall j | 0 <= j < index :: next[j] == entries[j])
      && (forall j | index < j < |entries| :: next[j - 1] == entries[j])
  }

  lemma ReplaceChangesMatch(entries: seq<string>, limit: nat, oldText: Option<string>, newContent: Option<string>)
    returns (index: nat)
    requires Mutate(entries, limit, Replace(oldText, newContent)).Ok?
    ensures OnlyAt(entries, Given(oldText), index)
    ensures var next := Mutate(entries, limit, Replace(oldText, newContent)).value.entries;
      next == entries[index := Given(newContent)] && ReplacesMatch(entries, Given(oldText), Given(newContent), next)
  {
    hide Contains, Given, SafeContent, WriteEntries;
    index := UniqueMatch(entries, Given(oldText)).value;
  }

  lemma RemoveDropsMatch(entries: seq<string>, limit: nat, oldText: Option<string>) returns (index: nat)
    requires Mutate(entries, limit, Remove(oldText)).Ok?
    ensures OnlyAt(entries, Given(oldText), index)
    ensures var next := Mutate(entries, limit, Remove(oldText)).value.entries;
      next == entries[..index] + entries[index + 1..] && RemovesMatch(entries, Given(oldText), next)
  {
    hide Contains, Given, WriteEntries;
    index := UniqueMatch(entries, Given(oldText)).value;
    RemovedMatches(entries, Given(oldText), index);
  }

  lemma RemovedMatches(entries: seq<string>, text: string, index: nat)
    requires OnlyAt(entries, text, index)
    ensures RemovesMatch(entries, text, entries[..index] + entries[index + 1..])
  {
  }

  /** An addition that succeeds puts a content that is not there at the end, and changes nothing when it is. */
  lemma AddAppends(entries: seq<string>, limit: nat, content: Option<string>)
    requires Mutate(entries, limit, Add(content)).Ok?
    ensures var next := Mutate(entries, limit, Add(content)).value.entries;
      if Given(content) in entries then next == entries
      else |next| == |entries| + 1 && next[..|entries|] == entries && next[|entries|] == Given(content)
  {
    hide Given, SafeContent, WriteEntries;
  }

  lemma MatchIff(entries: seq<string>, text: string)
    ensures forall index: nat :: OnlyAt(entries, text, index) <==> UniqueMatch(entries, text) == Ok(index)
  {
    hide Contains;
  }

  /** When a command is refused: a blank text, an unsafe content, no or more than one match, or too large a file. */
  lemma RefusedIff(entries: seq<string>, limit: nat, command: Command)
    ensures Mutate(entries, limit, command).Err? <==>
      match command
      case Add(content) =>
        || Given(content) == "" || !SafeContent(Given(content))
        || (Given(content) !in entries && |WriteEntries(entries + [Given(content)])| > limit)
      case Replace(oldText, newContent) =>
        || Given(oldText) == "" || Given(newContent) == "" || !SafeContent(Given(newContent))
        || forall index: nat | OnlyAt(entries, Given(oldText), index) ::
             |WriteEntries(entries[index := Given(newContent)])| > limit
      case Remove(oldText) =>
        || Given(oldText) == "" || forall index: nat | index < |entries| :: !OnlyAt(entries, Given(oldText), index)
  {
    hide Contains, Given, SafeContent, WriteEntries, UniqueMatch, OnlyAt;
    match command {
      case Add(_) =>
      case Replace(oldText, _) => MatchIff(entries, Given(oldText));
      case Remove(oldText) => MatchIff(entries, Given(oldText));
    }
  }

  /** On the file: the next read finds the list with that one entry changed, exactly when the list is joinable and holds
      the new content once. */
  lemma ReplaceReadsBack(file: string, limit: nat, oldText: Option<string>, newContent: Option<string>)
    requires Mutate(ReadEntries(file), limit, Replace(oldText, newContent)).Ok?
    ensures var entries := ReadEntries(file);
      var next := Mutate(entries, limit, Replace(oldText, newContent)).value.entries;
      ReadEntries(FileAfter(file, limit, Replace(oldText, newContent))) == next <==>
        Joinable(next) && Distinct(next)
  {
    var entries := ReadEntries(file);
    var next := Mutate(entries, limit, Replace(oldText, newContent)).value.entries;
    ReadIsTidy(file);
    MutateKeepsTrimmed(entries, limit, Replace(oldText, newContent));
    WriteThenRead(next);
  }

  /** A removal leaves a list that is read back exactly when it is joinable. */
  lemma RemoveReadsBack(file: string, limit: nat, oldText: Option<string>)
    requires Mutate(ReadEntries(file), limit, Remove(oldText)).Ok?
    ensures var next := Mutate(ReadEntries(file), limit, Remove(oldText)).value.entries;
      ReadEntries(FileAfter(file, limit, Remove(oldText))) == next <==> Joinable(next)
  {
    var entries := ReadEntries(file);
    var next := Mutate(entries, limit, Remove(oldText)).value.entries;
    ReadIsTidy(file);
    MutateKeepsTrimmed(entries, limit, Remove(oldText));
    var index := RemoveDropsMatch(entries, limit, oldText);
    assert Distinct(next);
    WriteThenRead(next);
  }

  /** What a command reports: the size of the file it writes, the number of its entries, and how much of the limit is
      used, in whole percent and at most 100. */
  lemma ReportTells(file: string, limit: nat, command: Command)
    requires Mutate(ReadEntries(file), limit, command).Ok?
    ensures var m := Mutate(ReadEntries(file), limit, command).value;
      && m.chars == |FileAfter(file, limit, command)| && m.count == |m.entries|
      && (limit == 0 ==> m.percent == 0)
      && (limit > 0 && m.chars < limit ==> m.percent * limit <= 100 * m.chars < (m.percent + 1) * limit)
      && (limit > 0 && m.chars >= limit ==> m.percent == 100)
  {
    hide ReadEntries, WriteEntries, SafeContent, Given, UniqueMatch;
    var m := Mutate(ReadEntries(file), limit, command).value;
    assert m == Report(m.entries, limit, m.note);
    if limit > 0 { Percent(m.chars, limit); }
  }

  lemma Percent(chars: nat, limit: nat)
    requires limit > 0
    ensures var percent := chars * 100 / limit;
      && percent * limit <= 100 * chars < (percent + 1) * limit
      && (chars < limit ==> percent < 100) && (chars >= limit ==> percent >= 100)
  {
    var percent := chars * 100 / limit;
    assert chars * 100 == percent * limit + chars * 100 % limit;
    assert (percent + 1) * limit == percent * limit + limit;
    assert percent >= 100 ==> percent * limit >= 100 * limit;
    assert percent <= 99 ==> (percent + 1) * limit <= 100 * limit;
  }

  /** A content that holds one of the phrases, in any ASCII case and whatever stands around it, is refused. */
  lemma UnsafeRefused(before: string, phrase: string, after: string)
    requires LowerAscii(phrase) in {
      "ignore previous instructions", "ignore all instructions", "system prompt override",
      "authorized_keys", "~/.ssh", "$api_key", "$token"}
    ensures !SafeContent(before + phrase + after)
  {
    var content, needle := before + phrase + after, LowerAscii(phrase);
    var lowered, at := LowerAscii(content), |before|;
    forall i | 0 <= i < |needle| ensures lowered[at + i] == needle[i] { assert content[at + i] == phrase[i]; }
    assert lowered[at..at + |needle|] == needle;
    assert OccursAt(needle, lowered, at);
    PhrasesAreNeedles(needle);
  }

  lemma PhrasesAreNeedles(phrase: string)
    requires phrase in {
      "ignore previous instructions", "ignore all instructions", "system prompt override",
      "authorized_keys", "~/.ssh", "$api_key", "$token"}
    ensures phrase in NEEDLES
  {
    assert NEEDLES[0] == "ignore previous instructions" && NEEDLES[1] == "ignore all instructions";
    assert NEEDLES[2] == "system prompt override" && NEEDLES[3] == "authorized_keys" && NEEDLES[4] == "~/.ssh";
    assert NEEDLES[5] == "$api_key" && NEEDLES[6] == "$token";
  }

  /** So is one with a zero-width character in it. */
  lemma InvisibleRefused(before: string, c: char, after: string)
    requires c in {'\U{200B}', '\U{200C}', '\U{200D}', '\U{2060}', '\U{FEFF}'}
    ensures !SafeContent(before + [c] + after)
  {
    assert (before + [c] + after)[|before|] == c;
  }

  // ---- One file to the letter ------------------------------------------------------------------------------

  lemma TwoEntries(a: string, b: string)
    ensures WriteEntries([a, b]) == a + "\n\U{A7}\n" + b && WriteEntries([b]) == b
  {
    assert [a, b][1..] == [b] && Join([b], DELIMITER) == b;
    assert Join([a, b], DELIMITER) == a + DELIMITER + b;
  }

  lemma WordGiven(word: string)
    requires word in {"alpha", "beta", "gamma"}
    ensures Given(Some(word)) == word && word != "" && IsTrimmed(word) && Whole(word) && SafeContent(word)
  {
    TrimMargins("", word, "");
    assert "" + word + "" == word;
    ShortWordIsSafe(word);
  }

  lemma ShortWordIsSafe(word: string)
    requires |word| <= 5 && forall i | 0 <= i < |word| :: word[i] < '\U{A7}'
    ensures SafeContent(word) && (|word| >= 1 && word[|word| - 1] != '\U{A7}' ==> Whole(word))
  {
    forall n | n in NEEDLES ensures !Contains(LowerAscii(word), n) { assert |n| > 5; }
    forall i: nat | i <= |word| ensures !OccursAt(DELIMITER, word, i) {
      if i + |DELIMITER| <= |word| { assert word[i..i + |DELIMITER|][1] == word[i + 1]; }
    }
  }

  lemma AlphaBetaReads()
    ensures ReadEntries("alpha" + "\n\U{A7}\n" + "beta") == ["alpha", "beta"]
  {
    WordGiven("alpha");
    WordGiven("beta");
    TwoEntries("alpha", "beta");
    assert "alpha"[0] != "beta"[0];
    hide Whole, ReadEntries, WriteEntries;
    var entries := ["alpha", "beta"];
    assert Tidy(entries) && AllWhole(entries);
    WholeRereads(entries);
  }

  /** Replacing the second of two entries, and removing the first. */
  lemma AlphaBeta(limit: nat)
    requires limit >= 20
    ensures var file := "alpha" + "\n\U{A7}\n" + "beta";
      && FileAfter(file, limit, Replace(Some("beta"), Some("gamma"))) == "alpha" + "\n\U{A7}\n" + "gamma"
      && FileAfter(file, limit, Remove(Some("alpha"))) == "beta"
  {
    hide ReadEntries, WriteEntries, SafeContent, Contains, Given, UniqueMatch, FileAfter;
    AlphaBetaReads();
    AlphaBetaMatches();
    WordGiven("alpha");
    WordGiven("beta");
    WordGiven("gamma");
    TwoEntries("alpha", "gamma");
    TwoEntries("alpha", "beta");
    assert ["alpha", "beta"][1 := "gamma"] == ["alpha", "gamma"] && RemoveAt(["alpha", "beta"], 0) == ["beta"];
    KnownReplace("alpha" + "\n\U{A7}\n" + "beta", limit, "beta", "gamma");
    KnownRemove("alpha" + "\n\U{A7}\n" + "beta", limit, "alpha");
  }

  lemma AlphaBetaMatches()
    ensures UniqueMatch(["alpha", "beta"], "beta") == Ok(1) && UniqueMatch(["alpha", "beta"], "alpha") == Ok(0)
  {
    hide Contains, UniqueMatch;
    ApartWords();
    var entries := ["alpha", "beta"];
    assert entries[1] == "beta" && OnlyAt(entries, "beta", 1) && OnlyAt(entries, "alpha", 0);
    MatchIff(entries, "beta");
    MatchIff(entries, "alpha");
  }

  lemma KnownReplace(file: string, limit: nat, oldText: string, newText: string)
    requires Given(Some(oldText)) == oldText != "" && Given(Some(newText)) == newText != "" && SafeContent(newText)
    requires UniqueMatch(ReadEntries(file), oldText).Ok?
    ensures var next := ReadEntries(file)[UniqueMatch(ReadEntries(file), oldText).value := newText];
      |WriteEntries(next)| <= limit ==>
        FileAfter(file, limit, Replace(Some(oldText), Some(newText))) == WriteEntries(next)
  {
    hide ReadEntries, WriteEntries, SafeContent, Given, UniqueMatch;
  }

  lemma KnownRemove(file: string, limit: nat, oldText: string)
    requires Given(Some(oldText)) == oldText != "" && UniqueMatch(ReadEntries(file), oldText).Ok?
    ensures FileAfter(file, limit, Remove(Some(oldText))) ==
      WriteEntries(RemoveAt(ReadEntries(file), UniqueMatch(ReadEntries(file), oldText).value))
  {
    hide ReadEntries, WriteEntries, Given, UniqueMatch;
  }

  lemma ApartWords()
    ensures Contains("alpha", "alpha") && Contains("beta", "beta")
    ensures !Contains("alpha", "beta") && !Contains("beta", "alpha")
  {
    assert OccursAt("alpha", "alpha", 0) && OccursAt("beta", "beta", 0);
    assert "alpha"[0..4][0] == 'a' && "alpha"[1..5][0] == 'l';
  }
}
