/** The operations on the user memory file, and the ordered map they implement
    (crates/puffer-core/user_memory.rs). */
module UserMemoryStore {
  import opened Text
  import opened Wrappers
  import opened UserMemory
  import ProjectMemory

  datatype Command = Set(key: string, body: string) | Append(key: string, body: string) | Delete(key: string)

  datatype Error = KeyRequired | ValueRequired | Blocked | TooLong(chars: nat) | BlockTooLong(key: string) | Full

  datatype Outcome = Stored(block: Block) | Deleted(removed: bool)

  datatype Change = Change(blocks: seq<Block>, outcome: Outcome)

  // ---- The operations, on the parsed blocks ---------------------------------------------

  function BlockKey(b: Block): string { b.key }

  /** The first block with the key; the number of blocks when there is none. */
  function Find(blocks: seq<Block>, key: string): (i: nat)
    ensures i <= |blocks| && (i < |blocks| ==> blocks[i].key == key)
    ensures forall j | 0 <= j < i :: blocks[j].key != key
  {
    FindBy(blocks, BlockKey, key, 0)
  }

  function Retain(blocks: seq<Block>, key: string): (kept: seq<Block>)
    ensures |kept| <= |blocks|
  {
    Dropping(blocks, BlockKey, key)
  }

  function Upsert(blocks: seq<Block>, key: string, body: string): Result<Change, Error> {
    var i := Find(blocks, key);
    var b := Block(key, body);
    if i < |blocks| then Ok(Change(blocks[i := b], Stored(b)))
    else if |blocks| >= MAX_BLOCKS then Err(Full)
    else Ok(Change(blocks + [b], Stored(b)))
  }

  function Mutate(blocks: seq<Block>, command: Command): Result<Change, Error> {
    var key := NormalizeKey(command.key);
    match command
    case Set(_, body) =>
      var text := Trim(body);
      if key == "" then Err(KeyRequired)
      else if text == "" then Err(ValueRequired)
      else if |text| > MAX_BODY_CHARS then Err(TooLong(|text|))
      else if !ProjectMemory.SafeContent(text) then Err(Blocked)
      else Upsert(blocks, key, text)
    case Append(_, body) =>
      var text := Trim(body);
      if key == "" then Err(KeyRequired)
      else if text == "" then Err(ValueRequired)
      else if !ProjectMemory.SafeContent(text) then Err(Blocked)
      else
        var i := Find(blocks, key);
        var merged := if i < |blocks| then blocks[i].body + "\n" + text else text;
        if |merged| > MAX_BODY_CHARS then Err(BlockTooLong(key)) else Upsert(blocks, key, merged)
    case Delete(_) =>
      var kept := Retain(blocks, key);
      Ok(Change(kept, Deleted(|kept| != |blocks|)))
  }

  function FileAfter(file: string, command: Command): string {
    match Mutate(ParseBlocks(file), command)
    case Ok(change) => SerializeBlocks(change.blocks)
    case Err(_) => file
  }

  function OutcomeOf(file: string, command: Command): Result<Outcome, Error> {
    match Mutate(ParseBlocks(file), command)
    case Ok(change) => Ok(change.outcome)
    case Err(e) => Err(e)
  }

  // ---- The operations, on the file ------------------------------------------------------------

  class Store {
    var file: string

    constructor ()
      ensures file == ""
    {
      file := "";
    }

    method List() returns (blocks: seq<Block>)
      ensures blocks == ParseBlocks(file)
    {
      blocks := Parse(file);
    }

    method Get(key: string) returns (body: Option<string>)
      ensures body.Some? <==> exists b :: b in ParseBlocks(file) && b.key == NormalizeKey(key)
      ensures body.Some? ==> Block(NormalizeKey(key), body.value) in ParseBlocks(file)
    {
      var blocks := Parse(file);
      var i := Find(blocks, NormalizeKey(key));
      if i < |blocks| {
        assert blocks[i] in blocks;
        body := Some(blocks[i].body);
      } else {
        body := None;
      }
    }

    method SetBlock(rawKey: string, rawBody: string) returns (r: Result<Outcome, Error>)
      modifies this
      ensures file == FileAfter(old(file), Set(rawKey, rawBody)) && r == OutcomeOf(old(file), Set(rawKey, rawBody))
    {
      var key, body := NormalizeKey(rawKey), Trim(rawBody);
      if key == "" { return Err(KeyRequired); }
      if body == "" { return Err(ValueRequired); }
      if |body| > MAX_BODY_CHARS { return Err(TooLong(|body|)); }
      if !ProjectMemory.SafeContent(body) { return Err(Blocked); }
      var blocks := Parse(file);
      var i := Find(blocks, key);
      if i < |blocks| {
        blocks := blocks[i := Block(key, body)];
      } else {
        if |blocks| >= MAX_BLOCKS { return Err(Full); }
        blocks := blocks + [Block(key, body)];
      }
      file := Serialize(blocks);
      r := Ok(Stored(Block(key, body)));
    }

    method AppendBlock(rawKey: string, rawBody: string) returns (r: Result<Outcome, Error>)
      modifies this
      ensures file == FileAfter(old(file), Append(rawKey, rawBody))
        && r == OutcomeOf(old(file), Append(rawKey, rawBody))
    {
      var key, addition := NormalizeKey(rawKey), Trim(rawBody);
      if key == "" { return Err(KeyRequired); }
      if addition == "" { return Err(ValueRequired); }
      if !ProjectMemory.SafeContent(addition) { return Err(Blocked); }
      var blocks := Parse(file);
      var i := Find(blocks, key);
      var merged := addition;
      if i < |blocks| { merged := blocks[i].body + "\n" + addition; }
      if |merged| > MAX_BODY_CHARS { return Err(BlockTooLong(key)); }
      if i < |blocks| {
        blocks := blocks[i := Block(key, merged)];
      } else {
        if |blocks| >= MAX_BLOCKS { return Err(Full); }
        blocks := blocks + [Block(key, merged)];
      }
      file := Serialize(blocks);
      r := Ok(Stored(Block(key, merged)));
    }

    method DeleteBlock(rawKey: string) returns (r: Result<Outcome, Error>)
      modifies this
      ensures file == FileAfter(old(file), Delete(rawKey)) && r == OutcomeOf(old(file), Delete(rawKey))
    {
      var blocks := Parse(file);
      var before := |blocks|;
      blocks := Retain(blocks, NormalizeKey(rawKey));
      file := Serialize(blocks);
      r := Ok(Deleted(|blocks| != before));
    }
  }

  // ---- The ordered map ------------------------------------------------------------------------

  /** What the file stands for: bodies by key, and the keys in the order they were created. */
  datatype Notebook = Notebook(order: seq<string>, body: map<string, string>)

  function Put(n: Notebook, key: string, text: string): Notebook {
    if key in n.body then n.(body := n.body[key := text])
    else if |n.order| >= MAX_BLOCKS then n
    else Notebook(n.order + [key], n.body[key := text])
  }

  function Without(order: seq<string>, key: string): seq<string> {
    if order == [] then []
    else if order[0] == key then Without(order[1..], key)
    else [order[0]] + Without(order[1..], key)
  }

  function NotebookAfter(n: Notebook, command: Command): Notebook {
    var key := NormalizeKey(command.key);
    match command
    case Delete(_) => Notebook(Without(n.order, key), n.body - {key})
    case Set(_, body) =>
      var text := Trim(body);
      if key == "" || text == "" || |text| > MAX_BODY_CHARS || !ProjectMemory.SafeContent(text) then n
      else Put(n, key, text)
    case Append(_, body) =>
      var text := Trim(body);
      var merged := if key in n.body then n.body[key] + "\n" + text else text;
      if key == "" || text == "" || |merged| > MAX_BODY_CHARS || !ProjectMemory.SafeContent(text) then n
      else Put(n, key, merged)
  }

  function KeyList(blocks: seq<Block>): (keys: seq<string>)
    ensures |keys| == |blocks| && forall i | 0 <= i < |keys| :: keys[i] == blocks[i].key
  {
    KeysOf(blocks, BlockKey)
  }

  function AsMap(blocks: seq<Block>): map<string, string> {
    if blocks == [] then map[] else AsMap(blocks[1..])[blocks[0].key := blocks[0].body]
  }

  function AsNotebook(blocks: seq<Block>): Notebook {
    Notebook(KeyList(blocks), AsMap(blocks))
  }

  /** What every file written by the operations satisfies. */
  predicate Good(blocks: seq<Block>) {
    && ParsesBack(blocks)
    && Distinct(KeyList(blocks))
    && |blocks| <= MAX_BLOCKS
    && forall b | b in blocks :: b.key != "" && |b.body| <= MAX_BODY_CHARS
  }

  /** Text with no line that starts a block and no carriage return before a line feed. */
  predicate CleanText(command: Command) {
    command.Delete? || (NoHeaderLine(Trim(command.body)) && NoCrLf(Trim(command.body)))
  }

  lemma {:induction false} AsMapHolds(blocks: seq<Block>)
    requires Distinct(KeyList(blocks))
    ensures forall b | b in blocks :: b.key in AsMap(blocks) && AsMap(blocks)[b.key] == b.body
    ensures forall k | k in AsMap(blocks) :: Block(k, AsMap(blocks)[k]) in blocks
  {
    if blocks != [] {
      assert KeyList(blocks[1..]) == KeyList(blocks)[1..];
      AsMapHolds(blocks[1..]);
      forall b | b in blocks ensures b.key in AsMap(blocks) && AsMap(blocks)[b.key] == b.body {
        if b in blocks[1..] {
          var i :| 0 <= i < |blocks[1..]| && blocks[1..][i] == b;
          assert KeyList(blocks)[i + 1] == b.key && KeyList(blocks)[0] == blocks[0].key;
        }
      }
    }
  }

  /** A map that holds exactly the blocks is the map of the blocks. */
  lemma AsMapIs(blocks: seq<Block>, m: map<string, string>)
    requires Distinct(KeyList(blocks))
    requires forall b | b in blocks :: b.key in m && m[b.key] == b.body
    requires forall k | k in m :: Block(k, m[k]) in blocks
    ensures AsMap(blocks) == m
  {
    AsMapHolds(blocks);
    var n := AsMap(blocks);
    forall k | k in m ensures k in n && n[k] == m[k] { assert Block(k, m[k]) in blocks; }
    forall k | k in n ensures k in m { assert Block(k, n[k]) in blocks; }
  }

  lemma FoundInMap(blocks: seq<Block>, key: string)
    requires Distinct(KeyList(blocks))
    ensures var i := Find(blocks, key);
      (key in AsMap(blocks) <==> i < |blocks|) && (i < |blocks| ==> AsMap(blocks)[key] == blocks[i].body)
  {
    hide KeyList, Find, AsMap, Distinct;
    AsMapHolds(blocks);
    var i := Find(blocks, key);
    if i < |blocks| { assert blocks[i] in blocks; }
    if key in AsMap(blocks) { assert exists j | 0 <= j < |blocks| :: blocks[j] == Block(key, AsMap(blocks)[key]); }
  }

  lemma PutReplaces(blocks: seq<Block>, i: nat, text: string)
    requires Distinct(KeyList(blocks)) && i < |blocks|
    ensures var next := blocks[i := Block(blocks[i].key, text)];
      KeyList(next) == KeyList(blocks) && AsMap(next) == AsMap(blocks)[blocks[i].key := text]
  {
    var key := blocks[i].key;
    var next := blocks[i := Block(key, text)];
    assert KeyList(next) == KeyList(blocks);
    AsMapHolds(blocks);
    var m := AsMap(blocks)[key := text];
    forall b | b in next ensures b.key in m && m[b.key] == b.body {
      var j :| 0 <= j < |next| && next[j] == b;
      if j != i { assert blocks[j] in blocks; assert KeyList(blocks)[j] != KeyList(blocks)[i]; }
    }
    forall k | k in m ensures Block(k, m[k]) in next {
      if k == key {
        assert next[i] in next;
      } else {
        var j :| 0 <= j < |blocks| && blocks[j] == Block(k, AsMap(blocks)[k]);
        assert next[j] == blocks[j];
      }
    }
    AsMapIs(next, m);
  }

  lemma PutAppends(blocks: seq<Block>, key: string, text: string)
    requires Distinct(KeyList(blocks)) && key !in AsMap(blocks)
    ensures var next := blocks + [Block(key, text)];
      KeyList(next) == KeyList(blocks) + [key] && Distinct(KeyList(next)) && AsMap(next) == AsMap(blocks)[key := text]
  {
    var next := blocks + [Block(key, text)];
    AsMapHolds(blocks);
    forall j | 0 <= j < |blocks| ensures KeyList(next)[j] != key { assert blocks[j] in blocks; }
    AsMapIs(next, AsMap(blocks)[key := text]);
  }

  lemma RetainHolds(blocks: seq<Block>, key: string)
    ensures forall b :: b in Retain(blocks, key) <==> b in blocks && b.key != key
  {
    DroppingHolds(blocks, BlockKey, key);
  }

  lemma {:induction false} RetainKeys(blocks: seq<Block>, key: string)
    ensures KeyList(Retain(blocks, key)) == Without(KeyList(blocks), key)
  {
    if blocks != [] {
      assert KeyList(blocks)[1..] == KeyList(blocks[1..]);
      RetainKeys(blocks[1..], key);
      assert KeyList([blocks[0]] + Retain(blocks[1..], key)) == [blocks[0].key] + KeyList(Retain(blocks[1..], key));
    }
  }

  lemma {:induction false} WithoutKeepsDistinct(order: seq<string>, key: string)
    requires Distinct(order)
    ensures Distinct(Without(order, key)) && forall k | k in Without(order, key) :: k in order
  {
    if order != [] {
      var kept := Without(order[1..], key);
      WithoutKeepsDistinct(order[1..], key);
      assert order[0] !in order[1..];
      forall j | 0 <= j < |kept| ensures kept[j] != order[0] { assert kept[j] in kept; }
    }
  }

  lemma RetainKeeps(blocks: seq<Block>, key: string)
    requires Distinct(KeyList(blocks))
    ensures KeyList(Retain(blocks, key)) == Without(KeyList(blocks), key)
    ensures Distinct(KeyList(Retain(blocks, key)))
    ensures forall b :: b in Retain(blocks, key) <==> b in blocks && b.key != key
  {
    RetainHolds(blocks, key);
    RetainKeys(blocks, key);
    WithoutKeepsDistinct(KeyList(blocks), key);
  }

  lemma DeleteRefines(blocks: seq<Block>, key: string)
    requires Distinct(KeyList(blocks))
    ensures AsNotebook(Retain(blocks, key)) == Notebook(Without(KeyList(blocks), key), AsMap(blocks) - {key})
  {
    RetainKeeps(blocks, key);
    AsMapHolds(blocks);
    AsMapIs(Retain(blocks, key), AsMap(blocks) - {key});
  }

  // ---- Every step keeps the file good and acts as the map step -------------------------------------

  lemma MergedIsClean(stored: string, text: string)
    requires stored != "" && IsTrimmed(stored) && text != "" && IsTrimmed(text)
    requires NoHeaderLine(stored) && NoCrLf(stored) && NoHeaderLine(text) && NoCrLf(text)
    ensures NoHeaderLine(stored + "\n" + text) && NoCrLf(stored + "\n" + text) && IsTrimmed(stored + "\n" + text)
  {
    var merged := stored + "\n" + text;
    LinesAppend(stored + "\n", text);
    LinesClose(stored);
    assert forall l | l in Lines(merged) :: l in Lines(stored) || l in Lines(text);
    forall i | 0 <= i < |merged| - 1 ensures !(merged[i] == '\r' && merged[i + 1] == '\n') {
      if i < |stored| - 1 {
        assert merged[i] == stored[i] && merged[i + 1] == stored[i + 1];
      } else if i > |stored| {
        var k := i - |stored| - 1;
        assert merged[i] == text[k] && merged[i + 1] == text[k + 1];
      }
    }
  }

  /** A key and a text that may be stored. */
  predicate Storable(key: string, text: string) {
    && key != "" && NormalizeKey(key) == key
    && text != "" && IsTrimmed(text) && |text| <= MAX_BODY_CHARS && NoHeaderLine(text) && NoCrLf(text)
  }

  predicate GoodBlock(b: Block) {
    Storable(b.key, b.body)
  }

  lemma GoodMeans(blocks: seq<Block>)
    ensures Good(blocks) <==>
      (forall b | b in blocks :: GoodBlock(b)) && Distinct(KeyList(blocks)) && |blocks| <= MAX_BLOCKS
  {
  }

  lemma UpsertRefines(blocks: seq<Block>, key: string, text: string)
    requires Good(blocks) && Storable(key, text)
    ensures Upsert(blocks, key, text).Ok? ==> Good(Upsert(blocks, key, text).value.blocks)
    ensures Upsert(blocks, key, text).Ok? ==>
      AsNotebook(Upsert(blocks, key, text).value.blocks) == Put(AsNotebook(blocks), key, text)
    ensures Upsert(blocks, key, text).Err? ==> AsNotebook(blocks) == Put(AsNotebook(blocks), key, text)
  {
    hide KeyList, Find, AsMap, Distinct, ParsesBack, Storable;
    var i := Find(blocks, key);
    var next := if i < |blocks| then blocks[i := Block(key, text)] else blocks + [Block(key, text)];
    FoundInMap(blocks, key);
    GoodMeans(blocks);
    GoodMeans(next);
    if i < |blocks| { PutReplaces(blocks, i, text); } else { PutAppends(blocks, key, text); }
    assert forall b | b in next :: b in blocks || b == Block(key, text);
  }

  lemma SetRefines(blocks: seq<Block>, command: Command)
    requires command.Set? && Good(blocks) && CleanText(command)
    ensures Mutate(blocks, command).Ok? ==> Good(Mutate(blocks, command).value.blocks)
    ensures Mutate(blocks, command).Ok? ==>
      AsNotebook(Mutate(blocks, command).value.blocks) == NotebookAfter(AsNotebook(blocks), command)
    ensures Mutate(blocks, command).Err? ==> NotebookAfter(AsNotebook(blocks), command) == AsNotebook(blocks)
  {
    var key, text := NormalizeKey(command.key), Trim(command.body);
    NormalizeKeyIdempotent(command.key);
    var pre, post := TrimCuts(command.body);
    if Storable(key, text) { UpsertRefines(blocks, key, text); }
  }

  lemma MergedIsStorable(blocks: seq<Block>, i: nat, key: string, text: string)
    requires Good(blocks) && i <= |blocks| && NormalizeKey(key) == key
    requires IsTrimmed(text) && NoHeaderLine(text) && NoCrLf(text)
    ensures var merged := if i < |blocks| then blocks[i].body + "\n" + text else text;
      key != "" && text != "" && |merged| <= MAX_BODY_CHARS ==> Storable(key, merged)
  {
    if i < |blocks| && text != "" {
      assert blocks[i] in blocks;
      MergedIsClean(blocks[i].body, text);
    }
  }

  lemma AppendRefines(blocks: seq<Block>, command: Command)
    requires command.Append? && Good(blocks) && CleanText(command)
    ensures Mutate(blocks, command).Ok? ==> Good(Mutate(blocks, command).value.blocks)
    ensures Mutate(blocks, command).Ok? ==>
      AsNotebook(Mutate(blocks, command).value.blocks) == NotebookAfter(AsNotebook(blocks), command)
    ensures Mutate(blocks, command).Err? ==> NotebookAfter(AsNotebook(blocks), command) == AsNotebook(blocks)
  {
    hide Find, KeyList, AsMap, Upsert, Put, NoHeaderLine, NoCrLf, NormalizeKey, Trim, IsTrimmed, ParsesBack;
    var key, text := NormalizeKey(command.key), Trim(command.body);
    NormalizeKeyIdempotent(command.key);
    var pre, post := TrimCuts(command.body);
    var i := Find(blocks, key);
    FoundInMap(blocks, key);
    var merged := if i < |blocks| then blocks[i].body + "\n" + text else text;
    MergedIsStorable(blocks, i, key, text);
    if key != "" && text != "" && |merged| <= MAX_BODY_CHARS { UpsertRefines(blocks, key, merged); }
  }

  lemma MutateRefines(blocks: seq<Block>, command: Command)
    requires Good(blocks) && CleanText(command)
    ensures Mutate(blocks, command).Ok? ==> Good(Mutate(blocks, command).value.blocks)
    ensures Mutate(blocks, command).Ok? ==>
      AsNotebook(Mutate(blocks, command).value.blocks) == NotebookAfter(AsNotebook(blocks), command)
    ensures Mutate(blocks, command).Err? ==> NotebookAfter(AsNotebook(blocks), command) == AsNotebook(blocks)
  {
    match command {
      case Set(_, _) => SetRefines(blocks, command);
      case Append(_, _) => AppendRefines(blocks, command);
      case Delete(_) =>
        DeleteRefines(blocks, NormalizeKey(command.key));
        RetainKeeps(blocks, NormalizeKey(command.key));
    }
  }

  function Run(file: string, commands: seq<Command>): string
    decreases |commands|
  {
    if commands == [] then file else Run(FileAfter(file, commands[0]), commands[1..])
  }

  function NotebookRun(n: Notebook, commands: seq<Command>): Notebook
    decreases |commands|
  {
    if commands == [] then n else NotebookRun(NotebookAfter(n, commands[0]), commands[1..])
  }

  lemma {:induction false} RunRefines(file: string, commands: seq<Command>)
    requires Good(ParseBlocks(file)) && forall c | c in commands :: CleanText(c)
    ensures Good(ParseBlocks(Run(file, commands)))
    ensures AsNotebook(ParseBlocks(Run(file, commands))) == NotebookRun(AsNotebook(ParseBlocks(file)), commands)
    decreases |commands|
  {
    if commands != [] {
      var blocks, c := ParseBlocks(file), commands[0];
      assert c in commands;
      MutateRefines(blocks, c);
      if Mutate(blocks, c).Ok? { PrintThenParse(Mutate(blocks, c).value.blocks); }
      RunRefines(FileAfter(file, c), commands[1..]);
    }
  }

  /** Any run of clean commands on an empty file leaves a file that stands for the ordered map the
      same commands build: keys in creation order, at most 200 of them, none over the body limit. */
  lemma RunIsOrderedMap(commands: seq<Command>)
    requires forall c | c in commands :: CleanText(c)
    ensures Good(ParseBlocks(Run("", commands)))
    ensures AsNotebook(ParseBlocks(Run("", commands))) == NotebookRun(Notebook([], map[]), commands)
  {
    assert Lines("") == [];
    assert ParseBlocks("") == [];
    assert KeyList([]) == [];
    RunRefines("", commands);
  }

  /** A stored body is what the next read finds exactly when its text is clean. */
  lemma SetReadsBack(file: string, key: string, body: string)
    requires Good(ParseBlocks(file)) && Mutate(ParseBlocks(file), Set(key, body)).Ok?
    ensures ParseBlocks(FileAfter(file, Set(key, body))) == Mutate(ParseBlocks(file), Set(key, body)).value.blocks
       <==> CleanText(Set(key, body))
  {
    var blocks, next := ParseBlocks(file), Mutate(ParseBlocks(file), Set(key, body)).value.blocks;
    var b := Block(NormalizeKey(key), Trim(body));
    NormalizeKeyIdempotent(key);
    var pre, post := TrimCuts(body);
    var i := Find(blocks, b.key);
    assert next[if i < |blocks| then i else |blocks|] == b;
    assert b in next;
    assert forall x | x in next :: x in blocks || x == b;
    PrintThenParse(next);
  }

  lemma ShortIsSafe(content: string)
    requires 0 < |content| <= 6 && content[0] == 'a' && forall i | 0 <= i < |content| :: content[i] < '\U{200B}'
    ensures ProjectMemory.SafeContent(content)
  {
    var lowered := LowerAscii(content);
    assert lowered[0] == 'a';
    forall n | n in ProjectMemory.NEEDLES ensures !Contains(lowered, n) {
      assert |n| > 6 || (|n| == 6 && n[0] != 'a');
      forall i: nat | i <= |lowered| ensures !OccursAt(n, lowered, i) {
        if |n| == 6 && i + |n| <= |lowered| { assert lowered[i..i + |n|][0] == 'a'; }
      }
    }
  }

  lemma StoredButLost(key: string, body: string)
    requires key != "" && NormalizeKey(key) == key && ProjectMemory.SafeContent(body)
    requires body != "" && IsTrimmed(body) && |body| <= MAX_BODY_CHARS && !(NoHeaderLine(body) && NoCrLf(body))
    ensures OutcomeOf("", Set(key, body)) == Ok(Stored(Block(key, body)))
    ensures ParseBlocks(FileAfter("", Set(key, body))) != [Block(key, body)]
  {
    hide NoHeaderLine, NoCrLf;
    assert Lines("") == [];
    assert ParseBlocks("") == [] && KeyList([]) == [];
    TrimTidy(body);
    SetReadsBack("", key, body);
  }

  /** A body with a line that starts a block is accepted and lost, under every key. */
  lemma HeaderLineLost(key: string)
    requires key != "" && NormalizeKey(key) == key
    ensures OutcomeOf("", Set(key, "a\n## b")) == Ok(Stored(Block(key, "a\n## b")))
    ensures ParseBlocks(FileAfter("", Set(key, "a\n## b"))) != [Block(key, "a\n## b")]
  {
    var body := "a\n## b";
    ShortIsSafe(body);
    LinesStep("a", "## b");
    assert body == "a" + ("\n" + "## b");
    assert Lines(body)[1] == "## b" by { assert NewlineFrom("## b", 0) == 4; }
    assert IsHeader("## b") && Lines(body)[1] in Lines(body);
    StoredButLost(key, body);
  }

  /** So is a body with a carriage return before a line feed. */
  lemma CarriageReturnLost(key: string)
    requires key != "" && NormalizeKey(key) == key
    ensures OutcomeOf("", Set(key, "a\r\nb")) == Ok(Stored(Block(key, "a\r\nb")))
    ensures ParseBlocks(FileAfter("", Set(key, "a\r\nb"))) != [Block(key, "a\r\nb")]
  {
    var body := "a\r\nb";
    ShortIsSafe(body);
    assert body[1] == '\r' && body[1 + 1] == '\n';
    StoredButLost(key, body);
  }

  // ---- What the map does -------------------------------------------------------------------------------

  /** The key now has this body, every other key what it had; a new key comes last. */
  predicate Puts(before: Notebook, after: Notebook, key: string, text: string) {
    && after.body.Keys == before.body.Keys + {key} && after.body[key] == text
    && (forall k | k in before.body && k != key :: after.body[k] == before.body[k])
    && after.order == if key in before.body then before.order else before.order + [key]
  }

  predicate Refused(text: string, size: nat, n: Notebook, key: string) {
    || key == "" || text == "" || size > 4000 || !ProjectMemory.SafeContent(text)
    || (key !in n.body && |n.order| >= 200)
  }

  /** A set puts the trimmed body there, or is refused and changes nothing. */
  lemma SetOnMap(n: Notebook, rawKey: string, rawBody: string)
    ensures var key, text, after := NormalizeKey(rawKey), Trim(rawBody), NotebookAfter(n, Set(rawKey, rawBody));
      if Refused(text, |text|, n, key) then after == n else Puts(n, after, key, text)
  {
    hide NormalizeKey, Trim, ProjectMemory.SafeContent;
  }

  /** An append puts the old body, a line feed and the trimmed addition there; a new key gets the addition alone. */
  lemma AppendOnMap(n: Notebook, rawKey: string, rawBody: string)
    ensures var key, text, after := NormalizeKey(rawKey), Trim(rawBody), NotebookAfter(n, Append(rawKey, rawBody));
      var merged := if key in n.body then n.body[key] + "\n" + text else text;
      if Refused(text, |merged|, n, key) then after == n else Puts(n, after, key, merged)
  {
    hide NormalizeKey, Trim, ProjectMemory.SafeContent;
  }

  /** A deletion takes the key out of its place in the order and leaves every other body. */
  lemma DeleteOnMap(n: Notebook, rawKey: string, front: seq<string>, back: seq<string>)
    requires NormalizeKey(rawKey) !in front && NormalizeKey(rawKey) !in back
    requires n.order == front + [NormalizeKey(rawKey)] + back || n.order == front + back
    ensures var key, after := NormalizeKey(rawKey), NotebookAfter(n, Delete(rawKey));
      && after.order == front + back && after.body.Keys == n.body.Keys - {key}
      && forall k | k in after.body :: after.body[k] == n.body[k]
  {
    WithoutDrops(front, back, NormalizeKey(rawKey));
    hide NormalizeKey, Without;
  }

  lemma WithoutDrops(front: seq<string>, back: seq<string>, key: string)
    requires key !in front && key !in back
    ensures Without(front + [key] + back, key) == front + back && Without(front + back, key) == front + back
  {
    WithoutNone(back, key);
    assert ([key] + back)[1..] == back;
    assert Without([key] + back, key) == back;
    hide Without;
    WithoutAcross(front, [key] + back, key);
    WithoutAcross(front, back, key);
    assert front + [key] + back == front + ([key] + back);
  }

  lemma {:induction false} WithoutNone(order: seq<string>, key: string)
    requires key !in order
    ensures Without(order, key) == order
  {
    if order != [] { WithoutNone(order[1..], key); }
  }

  lemma {:induction false} WithoutAcross(front: seq<string>, rest: seq<string>, key: string)
    requires key !in front
    ensures Without(front + rest, key) == front + Without(rest, key)
  {
    if front == [] {
      assert front + rest == rest;
    } else {
      assert (front + rest)[1..] == front[1..] + rest;
      WithoutAcross(front[1..], rest, key);
    }
  }

  // ---- One file to the letter -----------------------------------------------------------------------------

  lemma TidyText(text: string)
    requires text in {"a1", "a2"}
    ensures Trim(text) == text && ProjectMemory.SafeContent(text) && NoHeaderLine(text) && NoCrLf(text)
    ensures ProjectMemory.SafeContent(text)
  {
    TrimTidy(text);
    ShortIsSafe(text);
    OneLineText(text);
  }

  lemma OneLineText(text: string)
    requires text != "" && text[0] == 'a' && forall i | 0 <= i < |text| :: text[i] != '\n' && text[i] != '\r'
    ensures NoHeaderLine(text) && NoCrLf(text)
  {
    assert NewlineFrom(text, 0) == |text|;
    assert Lines(text) == [text];
  }

  lemma FileIs(blocks: seq<Block>, command: Command)
    requires ParsesBack(blocks) && Mutate(blocks, command).Ok? && TidyBlocks(Mutate(blocks, command).value.blocks)
    ensures FileAfter(SerializeBlocks(blocks), command) == SerializeBlocks(Mutate(blocks, command).value.blocks)
    ensures SerializeBlocks(Mutate(blocks, command).value.blocks) == Sections(Mutate(blocks, command).value.blocks)
  {
    PrintThenParse(blocks);
    SerializeIsSections(Mutate(blocks, command).value.blocks);
  }

  lemma SetKnown(key: string, text: string, rawKey: string, rawBody: string)
    requires NormalizeKey(rawKey) == key && Trim(rawBody) == text && key != "" && text != ""
    requires |text| <= MAX_BODY_CHARS && ProjectMemory.SafeContent(text) && NoHeaderLine(text) && NoCrLf(text)
    ensures FileAfter("", Set(rawKey, rawBody)) == HEADER + key + "\n" + "\n" + text + "\n"
    ensures FileAfter("", Set(rawKey, rawBody)) == SerializeBlocks([Block(key, text)])
    ensures ParsesBack([Block(key, text)])
  {
    NormalizeKeyIdempotent(rawKey);
    var pre, post := TrimCuts(rawBody);
    assert Rendered([]) == "" && SerializeBlocks([]) == "";
    assert Find([], key) == 0 && [] + [Block(key, text)] == [Block(key, text)];
    hide NormalizeKey, Trim, NoHeaderLine, NoCrLf, SerializeBlocks;
    FileIs([], Set(rawKey, rawBody));
    SectionLetters(key, text);
  }

  lemma SectionLetters(key: string, text: string)
    ensures Sections([Block(key, text)]) == HEADER + key + "\n" + "\n" + text + "\n"
  {
  }

  lemma AppendKnown(key: string, text: string, more: string, rawKey: string)
    requires ParsesBack([Block(key, text)]) && NormalizeKey(rawKey) == key && Trim(more) == more && more != ""
      && key != ""
    requires |text + "\n" + more| <= MAX_BODY_CHARS && ProjectMemory.SafeContent(more)
    ensures FileAfter(SerializeBlocks([Block(key, text)]), Append(rawKey, more)) ==
      HEADER + key + "\n" + "\n" + (text + "\n" + more) + "\n"
  {
    var b := Block(key, text);
    assert b in [b];
    var pre, post := TrimCuts(more);
    assert Find([b], key) == 0;
    assert [b][0 := Block(key, text + "\n" + more)] == [Block(key, text + "\n" + more)];
    hide NormalizeKey, Trim, NoHeaderLine, NoCrLf, SerializeBlocks;
    FileIs([b], Append(rawKey, more));
    SectionLetters(key, text + "\n" + more);
  }

  /** What a set and an append under two spellings of one key leave in an empty file. */
  lemma HomeAddressFile()
    ensures var once := FileAfter("", Set("Home Address", " a1 "));
      && once == "## " + ("home" + "-" + "address") + "\n" + "\n" + "a1" + "\n"
      && FileAfter(once, Append("home_address", "a2")) ==
           "## " + ("home" + "-" + "address") + "\n" + "\n" + ("a1" + "\n" + "a2") + "\n"
  {
    HomeAddress();
    TidyText("a1");
    TidyText("a2");
    TrimMargins(" ", "a1", " ");
    assert " " + "a1" + " " == " a1 ";
    var key := "home" + "-" + "address";
    hide NormalizeKey, Trim, NoHeaderLine, NoCrLf, SerializeBlocks, ProjectMemory.SafeContent, FileAfter, ParsesBack;
    SetKnown(key, "a1", "Home Address", " a1 ");
    AppendKnown(key, "a1", "a2", "home_address");
  }
}
