/** The check of a dependency lock: a walk over its lines with a few variables, and the grammar of
    blocks that it decides. */
module DependencyLock {
  import opened Options
  import opened Texts

  datatype Kind = Runtime | TestCpu

  datatype Error = Unhashed | HashEntry | Requirement | Provider | CpuProvider | Required

  datatype Pin = Pin(name: string, version: string)

  // ---------------------------------------------------------------- single lines

  predicate NameFirst(c: char) { Lower(c) || Digit(c) }

  predicate NameChar(c: char) { NameFirst(c) || c in "._-" }

  predicate VersionFirst(c: char) { Lower(c) || Upper(c) || Digit(c) }

  predicate VersionChar(c: char) { VersionFirst(c) || c in ".!+_-" }

  predicate ValidName(s: string) {
    s != [] && NameFirst(s[0]) && forall i :: 0 <= i < |s| ==> NameChar(s[i])
  }

  predicate ValidVersion(s: string) {
    s != [] && VersionFirst(s[0]) && forall i :: 0 <= i < |s| ==> VersionChar(s[i])
  }

  const CONTINUED := " \\"
  const COMMENT_INDENT := "    #"
  const HASH_PREFIX := "    --hash=sha256:"

  /** A line without the mark that the entry goes on. */
  function Body(line: string): string {
    if |line| >= 2 && line[|line| - 2..] == CONTINUED then line[..|line| - 2] else line
  }

  predicate Skipped(line: string) {
    line == "" || line[0] == '#' || StartsWith(line, COMMENT_INDENT)
  }

  predicate HashLine(line: string) {
    var s := Body(line);
    StartsWith(s, HASH_PREFIX) && |s| == |HASH_PREFIX| + 64 &&
    forall i :: |HASH_PREFIX| <= i < |s| ==> Digit(s[i]) || 'a' <= s[i] <= 'f'
  }

  /** The pinned requirement on a line. */
  function ParseRequirement(line: string): Option<Pin> {
    var s := Body(line);
    var n := BeforeEquals(s);
    if n + 2 <= |s| && s[n..n + 2] == "==" && ValidName(s[..n]) && ValidVersion(s[n + 2..])
    then Some(Pin(s[..n], s[n + 2..]))
    else None
  }

  /** What a requirement line looks like. */
  predicate WrittenAs(line: string, pin: Pin) {
    ValidName(pin.name) && ValidVersion(pin.version) &&
    (line == pin.name + "==" + pin.version || line == pin.name + "==" + pin.version + CONTINUED)
  }

  /** Parsing finds the pin of a line exactly when the line is a way to write it. */
  lemma {:induction false} ParseIsExact(line: string, pin: Pin)
    ensures ParseRequirement(line) == Some(pin) <==> WrittenAs(line, pin)
  {
    var s := Body(line);
    var n := BeforeEquals(s);
    if ParseRequirement(line) == Some(pin) {
      assert s == s[..n] + s[n..n + 2] + s[n + 2..];
      assert line == s || line == s + line[|line| - 2..];
    }
    if WrittenAs(line, pin) {
      var text := pin.name + "==" + pin.version;
      BodyOfPin(line, pin);
      EqualsAt(text, |pin.name|);
      assert text[..|pin.name|] == pin.name && text[|pin.name| + 2..] == pin.version;
    }
  }

  lemma {:induction false} BodyOfPin(line: string, pin: Pin)
    requires WrittenAs(line, pin)
    ensures Body(line) == pin.name + "==" + pin.version
  {
    var text := pin.name + "==" + pin.version;
    assert VersionChar(pin.version[|pin.version| - 1]);
    assert text[|text| - 1] == pin.version[|pin.version| - 1];
    if line == text {
      assert line[|line| - 2..][1] == line[|line| - 1];
    } else {
      assert line[|line| - 2..] == CONTINUED && line[..|line| - 2] == text;
    }
  }

  /** A requirement line is no hash line and no comment. */
  lemma {:induction false} PinStartsALine(line: string)
    requires ParseRequirement(line).Some?
    ensures line != "" && !Skipped(line) && !Space(line[0]) && !HashLine(line)
  {
    var pin := ParseRequirement(line).value;
    ParseIsExact(line, pin);
    assert line[0] == pin.name[0] && NameFirst(line[0]);
    assert Body(line)[0] == line[0];
    assert HASH_PREFIX[0] == ' ';
  }

  /** A hash line is indented and no comment. */
  lemma {:induction false} HashIsIndented(line: string)
    requires HashLine(line)
    ensures line != "" && Space(line[0]) && !Skipped(line)
  {
    assert HASH_PREFIX[0] == ' ' && HASH_PREFIX[4] == '-' && COMMENT_INDENT[4] == '#';
    assert line[4] == Body(line)[..|HASH_PREFIX|][4];
  }

  /** A hash line is the prefix, 64 lower-case hexadecimal digits and perhaps the mark. */
  lemma {:induction false} HashLineIsExact(line: string)
    ensures HashLine(line) <==> exists digits :: WritesHash(line, digits)
  {
    if HashLine(line) {
      var s := Body(line);
      assert s == HASH_PREFIX + s[|HASH_PREFIX|..];
      assert line == s || line == s + line[|line| - 2..];
      assert WritesHash(line, s[|HASH_PREFIX|..]);
    }
    forall digits | HexDigits(digits)
      ensures HashLine(HASH_PREFIX + digits) && HashLine(HASH_PREFIX + digits + CONTINUED)
    {
      var text := HASH_PREFIX + digits;
      assert text[..|HASH_PREFIX|] == HASH_PREFIX && text[|HASH_PREFIX|..] == digits;
      assert forall i :: |HASH_PREFIX| <= i < |text| ==> text[i] == digits[i - |HASH_PREFIX|];
      assert text[|text| - 2..][1] == digits[63] != CONTINUED[1];
      assert (text + CONTINUED)[|text|..] == CONTINUED && (text + CONTINUED)[..|text|] == text;
    }
  }

  predicate HexDigits(s: string) {
    |s| == 64 && forall i :: 0 <= i < |s| ==> '0' <= s[i] <= '9' || 'a' <= s[i] <= 'f'
  }

  predicate WritesHash(line: string, digits: string) {
    HexDigits(digits) &&
    (line == "    --hash=sha256:" + digits || line == "    --hash=sha256:" + digits + " \\")
  }

  // ---------------------------------------------------------------- which pins are allowed

  function LowerChar(c: char): char {
    if Upper(c) then (c as int + 32) as char else c
  }

  function Lowered(s: string): string {
    seq(|s|, i requires 0 <= i < |s| => LowerChar(s[i]))
  }

  function Dashed(s: string, replaced: set<char>): string {
    seq(|s|, i requires 0 <= i < |s| => if s[i] in replaced then '-' else s[i])
  }

  predicate CanonicalName(name: string) {
    name == Dashed(Lowered(name), {'_', '.'})
  }

  function Normalized(providers: set<string>): set<string> {
    set p | p in providers :: Dashed(Lowered(p), {'_'})
  }

  const TORCH := Pin("torch", "2.6.0+cpu")
  const SETUPTOOLS := Pin("setuptools", "75.8.0")
  const WHEEL := Pin("wheel", "0.45.1")

  /** What is wrong with a pin, apart from its place in the lock. */
  function PinError(kind: Kind, providers: set<string>, pin: Pin): Option<Error> {
    match kind
    case Runtime => if pin.name in Normalized(providers) then Some(Provider) else None
    case TestCpu =>
      if (pin.name in Normalized(providers) && pin.name !in {"setuptools", "wheel", "torch"})
        || Contains(Lowered(pin.version), "+cu") || (pin.name == "torch" && pin != TORCH)
      then Some(CpuProvider) else None
  }

  /** The provider's name in lower case, with dashes for its underscores. */
  predicate Provides(provider: string, name: string) {
    |provider| == |name| && forall i :: 0 <= i < |name| ==>
      if provider[i] == '_' then name[i] == '-'
      else if 'A' <= provider[i] <= 'Z' then name[i] as int == provider[i] as int - 'A' as int + 'a' as int
      else name[i] == provider[i]
  }

  predicate Provided(providers: set<string>, name: string) {
    exists p :: p in providers && Provides(p, name)
  }

  /** The version asks for a CUDA build. */
  predicate Cuda(version: string) {
    exists i :: 0 <= i < |version| - 2 && version[i] == '+' && version[i + 1] in "cC" && version[i + 2] in "uU"
  }

  /** The pins of a lock, without the walk's own terms. */
  predicate Allowed(kind: Kind, providers: set<string>, pin: Pin) {
    && '_' !in pin.name && '.' !in pin.name
    && match kind
       case Runtime => !Provided(providers, pin.name)
       case TestCpu =>
         && (Provided(providers, pin.name) ==> pin.name == "setuptools" || pin.name == "wheel" || pin.name == "torch")
         && !Cuda(pin.version) && (pin.name == "torch" ==> pin.version == "2.6.0+cpu")
  }

  lemma {:induction false} NormalizedIsProvided(providers: set<string>, name: string)
    ensures name in Normalized(providers) <==> Provided(providers, name)
  {
    forall p ensures Provides(p, name) <==> name == Dashed(Lowered(p), {'_'}) {
      if Provides(p, name) {
        assert forall i :: 0 <= i < |name| ==> name[i] == Dashed(Lowered(p), {'_'})[i];
      }
    }
  }

  lemma {:induction false} LowerLetters(c: char)
    ensures LowerChar(c) == '+' <==> c == '+'
    ensures LowerChar(c) == 'c' <==> c in "cC"
    ensures LowerChar(c) == 'u' <==> c in "uU"
  {
  }

  lemma {:induction false} CudaAt(version: string, i: nat)
    requires i < |version| - 2
    ensures StartsWith(Lowered(version)[i..], "+cu") <==>
      version[i] == '+' && version[i + 1] in "cC" && version[i + 2] in "uU"
  {
    LowerLetters(version[i]);
    LowerLetters(version[i + 1]);
    LowerLetters(version[i + 2]);
    var rest := Lowered(version)[i..];
    assert rest[..3] == [LowerChar(version[i]), LowerChar(version[i + 1]), LowerChar(version[i + 2])];
  }

  lemma {:induction false} ContainsCuda(version: string)
    ensures Contains(Lowered(version), "+cu") <==> Cuda(version)
  {
    if Contains(Lowered(version), "+cu") {
      var i :| 0 <= i <= |version| && StartsWith(Lowered(version)[i..], "+cu");
      CudaAt(version, i);
    }
    if Cuda(version) {
      var i :| 0 <= i < |version| - 2 && version[i] == '+' && version[i + 1] in "cC" && version[i + 2] in "uU";
      CudaAt(version, i);
    }
  }

  /** The walk takes exactly the allowed pins. */
  lemma {:induction false} TakesAllowed(kind: Kind, providers: set<string>, pin: Pin)
    requires ValidName(pin.name)
    ensures CanonicalName(pin.name) && PinError(kind, providers, pin).None? <==> Allowed(kind, providers, pin)
  {
    var name := pin.name;
    NormalizedIsProvided(providers, name);
    ContainsCuda(pin.version);
    var dashed := Dashed(Lowered(name), {'_', '.'});
    assert forall i :: 0 <= i < |name| ==> NameChar(name[i]) && !Upper(name[i]);
    assert forall i :: 0 <= i < |name| ==> dashed[i] == if name[i] in {'_', '.'} then '-' else name[i];
    if '_' !in name && '.' !in name {
      assert name == dashed;
    }
  }

  predicate Complete(kind: Kind, parsed: map<string, string>) {
    kind.TestCpu? ==>
      forall pin :: pin in {TORCH, SETUPTOOLS, WHEEL} ==> pin.name in parsed && parsed[pin.name] == pin.version
  }

  // ---------------------------------------------------------------- the walk

  /** The walk's variables: the pins so far, and the hashes of the block that is open, if one is. */
  datatype Walk = Walk(parsed: map<string, string>, hashes: Option<nat>) {
    predicate Unfinished() {
      hashes == Some(0)
    }
  }

  /** One line: the new variables or an error. */
  datatype Turn = Goes(walk: Walk) | Stops(error: Error)

  function Step(kind: Kind, providers: set<string>, w: Walk, line: string): Turn {
    if Skipped(line) then Goes(w)
    else if Space(line[0]) then
      if Contains(line, "--hash=") && !HashLine(line) then Stops(HashEntry)
      else if w.hashes.None? || !HashLine(line) then Stops(Requirement)
      else Goes(w.(hashes := Some(w.hashes.value + 1)))
    else if w.Unfinished() then Stops(Unhashed)
    else
      match ParseRequirement(line)
      case None => Stops(Requirement)
      case Some(pin) =>
        if !CanonicalName(pin.name) || pin.name in w.parsed then Stops(Requirement)
        else match PinError(kind, providers, pin)
          case Some(error) => Stops(error)
          case None => Goes(Walk(w.parsed[pin.name := pin.version], Some(0)))
  }

  /** What the walk says from some point on. */
  function Verdict(kind: Kind, providers: set<string>, w: Walk, lines: seq<string>): Option<Error>
    decreases |lines|
  {
    if lines == [] then
      if w.Unfinished() then Some(Unhashed)
      else if !Complete(kind, w.parsed) then Some(Required)
      else None
    else match Step(kind, providers, w, lines[0])
      case Stops(error) => Some(error)
      case Goes(next) => Verdict(kind, providers, next, lines[1..])
  }

  /** The check, past the searches over the whole text. */
  method ValidateLock(kind: Kind, providers: set<string>, lines: seq<string>) returns (error: Option<Error>)
    ensures error == Verdict(kind, providers, Walk(map[], None), lines)
    ensures error.None? <==> exists blocks :: IsLock(kind, providers, blocks, lines)
  {
    error := WalkLines(kind, providers, lines);
    LockDecided(kind, providers, lines);
  }

  lemma {:induction false} VerdictStep(kind: Kind, providers: set<string>, w: Walk, lines: seq<string>, k: nat)
    requires k < |lines|
    ensures Verdict(kind, providers, w, lines[k..]) == match Step(kind, providers, w, lines[k])
      case Stops(error) => Some(error)
      case Goes(next) => Verdict(kind, providers, next, lines[k + 1..])
  {
    assert lines[k..][0] == lines[k] && lines[k..][1..] == lines[k + 1..];
  }

  /** One turn of the loop, on the program's own variables. */
  method TakeLine(kind: Kind, providers: set<string>, parsed: map<string, string>, open: bool, hashes: nat,
                  line: string) returns (turn: Turn)
    ensures turn == Step(kind, providers, Walk(parsed, if open then Some(hashes) else None), line)
  {
    var walk := Walk(parsed, if open then Some(hashes) else None);
    if Skipped(line) {
      return Goes(walk);
    }
    if Space(line[0]) {
      if Contains(line, "--hash=") && !HashLine(line) {
        return Stops(HashEntry);
      }
      if !open || !HashLine(line) {
        return Stops(Requirement);
      }
      return Goes(Walk(parsed, Some(hashes + 1)));
    }
    if open && hashes == 0 {
      return Stops(Unhashed);
    }
    var pin := ParseRequirement(line);
    if pin.None? || !CanonicalName(pin.value.name) || pin.value.name in parsed {
      return Stops(Requirement);
    }
    var wrong := PinError(kind, providers, pin.value);
    if wrong.Some? {
      return Stops(wrong.value);
    }
    return Goes(Walk(parsed[pin.value.name := pin.value.version], Some(0)));
  }

  method WalkLines(kind: Kind, providers: set<string>, lines: seq<string>) returns (error: Option<Error>)
    ensures error == Verdict(kind, providers, Walk(map[], None), lines)
  {
    var parsed: map<string, string> := map[];
    var open, hashes := false, 0;
    assert lines[0..] == lines;
    for k := 0 to |lines|
      invariant Verdict(kind, providers, Walk(map[], None), lines) ==
        Verdict(kind, providers, Walk(parsed, if open then Some(hashes) else None), lines[k..])
    {
      VerdictStep(kind, providers, Walk(parsed, if open then Some(hashes) else None), lines, k);
      var turn := TakeLine(kind, providers, parsed, open, hashes, lines[k]);
      if turn.Stops? {
        return Some(turn.error);
      }
      parsed, open := turn.walk.parsed, turn.walk.hashes.Some?;
      if open {
        hashes := turn.walk.hashes.value;
      }
    }
    if open && hashes == 0 {
      return Some(Unhashed);
    }
    return if Complete(kind, parsed) then None else Some(Required);
  }

  // ---------------------------------------------------------------- the grammar

  /** One requirement and the hashes of its files. */
  datatype Block = Block(pin: Pin, requirement: string, hashes: seq<string>)

  predicate AllHashes(lines: seq<string>) {
    forall i :: 0 <= i < |lines| ==> HashLine(lines[i])
  }

  predicate ValidBlock(kind: Kind, providers: set<string>, b: Block) {
    WrittenAs(b.requirement, b.pin) && Allowed(kind, providers, b.pin) &&
    b.hashes != [] && AllHashes(b.hashes)
  }

  function Lines(blocks: seq<Block>): seq<string> {
    if blocks == [] then [] else [blocks[0].requirement] + (blocks[0].hashes + Lines(blocks[1..]))
  }

  /** The lines that are neither empty nor comments. */
  function Significant(lines: seq<string>): seq<string> {
    if lines == [] then []
    else if Skipped(lines[0]) then Significant(lines[1..])
    else [lines[0]] + Significant(lines[1..])
  }

  predicate DistinctNames(blocks: seq<Block>) {
    forall i, j :: 0 <= i < j < |blocks| ==> blocks[i].pin.name != blocks[j].pin.name
  }

  predicate ValidBlocks(kind: Kind, providers: set<string>, blocks: seq<Block>) {
    forall i :: 0 <= i < |blocks| ==> ValidBlock(kind, providers, blocks[i])
  }

  predicate Holds(blocks: seq<Block>, pin: Pin) {
    exists i :: 0 <= i < |blocks| && blocks[i].pin == pin
  }

  /** The blocks are a reading of the lines as a lock. */
  predicate IsLock(kind: Kind, providers: set<string>, blocks: seq<Block>, lines: seq<string>) {
    Significant(lines) == Lines(blocks) && ValidBlocks(kind, providers, blocks) && DistinctNames(blocks) &&
    (kind.TestCpu? ==>
       Holds(blocks, Pin("torch", "2.6.0+cpu")) && Holds(blocks, Pin("setuptools", "75.8.0")) &&
       Holds(blocks, Pin("wheel", "0.45.1")))
  }

  // ---------------------------------------------------------------- the walk decides the grammar

  /** The pins of some blocks added to those already read. */
  function Pins(parsed: map<string, string>, blocks: seq<Block>): map<string, string>
    decreases |blocks|
  {
    if blocks == [] then parsed else Pins(parsed[blocks[0].pin.name := blocks[0].pin.version], blocks[1..])
  }

  predicate NewNames(parsed: map<string, string>, blocks: seq<Block>)
    decreases |blocks|
  {
    blocks == [] ||
    (blocks[0].pin.name !in parsed && NewNames(parsed[blocks[0].pin.name := blocks[0].pin.version], blocks[1..]))
  }

  /** A reading of the lines that are left: more hashes for the open block, then whole blocks. */
  predicate Continues(kind: Kind, providers: set<string>, w: Walk, more: seq<string>, blocks: seq<Block>,
                      lines: seq<string>)
  {
    Significant(lines) == more + Lines(blocks) && AllHashes(more) && ValidBlocks(kind, providers, blocks) &&
    NewNames(w.parsed, blocks) && Complete(kind, Pins(w.parsed, blocks)) &&
    match w.hashes
    case None => more == []
    case Some(n) => n > 0 || more != []
  }

  lemma {:induction false} ConsHash(line: string, more: seq<string>, rest: seq<string>)
    requires HashLine(line) && AllHashes(more)
    ensures AllHashes([line] + more) && ([line] + more) + rest == [line] + (more + rest)
  {
  }

  lemma {:induction false} UnconsHash(line: string, others: seq<string>, more: seq<string>, rest: seq<string>)
    requires more != [] && AllHashes(more) && [line] + others == more + rest
    ensures line == more[0] && HashLine(line) && AllHashes(more[1..]) && others == more[1..] + rest
  {
    assert ([line] + others)[0] == (more + rest)[0];
    assert ([line] + others)[1..] == (more + rest)[1..];
    assert (more + rest)[1..] == more[1..] + rest;
  }

  /** A reading of what follows a hash line, or a requirement line, read backwards over that line. */
  lemma {:induction false} HashBefore(kind: Kind, providers: set<string>, w: Walk, more: seq<string>,
                                      blocks: seq<Block>, lines: seq<string>)
    requires lines != [] && !Skipped(lines[0]) && HashLine(lines[0]) && w.hashes.Some?
    requires Continues(kind, providers, w.(hashes := Some(w.hashes.value + 1)), more, blocks, lines[1..])
    ensures Continues(kind, providers, w, [lines[0]] + more, blocks, lines)
  {
    ConsHash(lines[0], more, Lines(blocks));
  }

  lemma {:induction false} PinBefore(kind: Kind, providers: set<string>, w: Walk, pin: Pin, more: seq<string>,
                                     blocks: seq<Block>, lines: seq<string>)
    requires lines != [] && !Skipped(lines[0]) && WrittenAs(lines[0], pin) && Allowed(kind, providers, pin)
    requires pin.name !in w.parsed && !w.Unfinished()
    requires Continues(kind, providers, Walk(w.parsed[pin.name := pin.version], Some(0)), more, blocks, lines[1..])
    ensures Continues(kind, providers, w, [], [Block(pin, lines[0], more)] + blocks, lines)
  {
    var b := Block(pin, lines[0], more);
    Prepended(kind, providers, w, b, blocks);
    assert [] + Lines([b] + blocks) == Lines([b] + blocks);
  }

  lemma {:induction false} WalkSound(kind: Kind, providers: set<string>, w: Walk, lines: seq<string>)
      returns (more: seq<string>, blocks: seq<Block>)
    requires Verdict(kind, providers, w, lines).None?
    ensures Continues(kind, providers, w, more, blocks, lines)
    decreases |lines|
  {
    if lines == [] {
      more, blocks := [], [];
    } else {
      var line := lines[0];
      var next := Step(kind, providers, w, line).walk;
      more, blocks := WalkSound(kind, providers, next, lines[1..]);
      if !Skipped(line) {
        if Space(line[0]) {
          HashBefore(kind, providers, w, more, blocks, lines);
          more := [line] + more;
        } else {
          var pin := ParseRequirement(line).value;
          ParseIsExact(line, pin);
          TakesAllowed(kind, providers, pin);
          PinBefore(kind, providers, w, pin, more, blocks, lines);
          more, blocks := [], [Block(pin, line, more)] + blocks;
        }
      }
    }
  }

  lemma {:induction false} Prepended(kind: Kind, providers: set<string>, w: Walk, b: Block, blocks: seq<Block>)
    requires ValidBlock(kind, providers, b) && ValidBlocks(kind, providers, blocks) && b.pin.name !in w.parsed
    requires var read := w.parsed[b.pin.name := b.pin.version];
      NewNames(read, blocks) && Complete(kind, Pins(read, blocks))
    ensures ValidBlocks(kind, providers, [b] + blocks)
    ensures NewNames(w.parsed, [b] + blocks) && Complete(kind, Pins(w.parsed, [b] + blocks))
    ensures Lines([b] + blocks) == [b.requirement] + (b.hashes + Lines(blocks))
  {
    assert ([b] + blocks)[1..] == blocks;
  }

  /** A reading of the lines that are left, taken over the first of them. */
  lemma {:induction false} OverHash(kind: Kind, providers: set<string>, w: Walk, more: seq<string>,
                                    blocks: seq<Block>, lines: seq<string>)
    requires Continues(kind, providers, w, more, blocks, lines) && lines != [] && !Skipped(lines[0]) && more != []
    ensures w.hashes.Some? && HashLine(lines[0]) && Space(lines[0][0])
    ensures Continues(kind, providers, w.(hashes := Some(w.hashes.value + 1)), more[1..], blocks, lines[1..])
  {
    UnconsHash(lines[0], Significant(lines[1..]), more, Lines(blocks));
    HashIsIndented(lines[0]);
  }

  lemma {:induction false} OverPin(kind: Kind, providers: set<string>, w: Walk, blocks: seq<Block>, lines: seq<string>)
    requires Continues(kind, providers, w, [], blocks, lines) && lines != [] && !Skipped(lines[0])
    ensures blocks != [] && ParseRequirement(lines[0]) == Some(blocks[0].pin) && !Space(lines[0][0])
    ensures CanonicalName(blocks[0].pin.name) && PinError(kind, providers, blocks[0].pin).None?
    ensures ValidBlock(kind, providers, blocks[0]) && blocks[0].pin.name !in w.parsed && !w.Unfinished()
    ensures var pin := blocks[0].pin;
      Continues(kind, providers, Walk(w.parsed[pin.name := pin.version], Some(0)), blocks[0].hashes, blocks[1..],
        lines[1..])
  {
    assert [] + Lines(blocks) == Lines(blocks);
    assert ([lines[0]] + Significant(lines[1..]))[1..] == Significant(lines[1..]);
    assert |Lines(blocks)| > 0;
    var b := blocks[0];
    assert Lines(blocks)[1..] == b.hashes + Lines(blocks[1..]);
    assert ValidBlock(kind, providers, b);
    ParseIsExact(lines[0], b.pin);
    TakesAllowed(kind, providers, b.pin);
    PinStartsALine(lines[0]);
  }

  lemma {:induction false} WalkComplete(kind: Kind, providers: set<string>, w: Walk, more: seq<string>,
                                        blocks: seq<Block>, lines: seq<string>)
    requires Continues(kind, providers, w, more, blocks, lines)
    ensures Verdict(kind, providers, w, lines).None?
    decreases |lines|
  {
    if lines == [] {
      assert |more + Lines(blocks)| == 0;
    } else if Skipped(lines[0]) {
      WalkComplete(kind, providers, w, more, blocks, lines[1..]);
    } else if more != [] {
      OverHash(kind, providers, w, more, blocks, lines);
      WalkComplete(kind, providers, w.(hashes := Some(w.hashes.value + 1)), more[1..], blocks, lines[1..]);
    } else {
      OverPin(kind, providers, w, blocks, lines);
      var pin := blocks[0].pin;
      WalkComplete(kind, providers, Walk(w.parsed[pin.name := pin.version], Some(0)), blocks[0].hashes, blocks[1..],
        lines[1..]);
    }
  }

  /** New names are pairwise distinct names that were not read before. */
  lemma {:induction false} NewNamesAreDistinct(parsed: map<string, string>, blocks: seq<Block>)
    ensures NewNames(parsed, blocks) <==>
      DistinctNames(blocks) && forall i :: 0 <= i < |blocks| ==> blocks[i].pin.name !in parsed
    decreases |blocks|
  {
    if blocks != [] {
      var b, rest := blocks[0], blocks[1..];
      NewNamesAreDistinct(parsed[b.pin.name := b.pin.version], rest);
      assert forall i :: 0 < i < |blocks| ==> blocks[i] == rest[i - 1];
      if NewNames(parsed, blocks) {
        assert forall i, j :: 0 <= i < j < |blocks| ==>
          j > 0 && (i > 0 ==> rest[i - 1] == blocks[i]) && rest[j - 1] == blocks[j];
      }
      if DistinctNames(blocks) {
        assert forall i, j :: 0 <= i < j < |rest| ==> rest[i] == blocks[i + 1] && rest[j] == blocks[j + 1];
        assert forall j :: 0 <= j < |rest| ==> rest[j] == blocks[j + 1];
      }
    }
  }

  /** With new names, a pin is among those read in the end exactly when it was before or is that of a block. */
  lemma {:induction false} PinsHold(parsed: map<string, string>, blocks: seq<Block>, pin: Pin)
    requires NewNames(parsed, blocks)
    ensures pin.name in Pins(parsed, blocks) && Pins(parsed, blocks)[pin.name] == pin.version <==>
      (pin.name in parsed && parsed[pin.name] == pin.version) || Holds(blocks, pin)
    decreases |blocks|
  {
    if blocks != [] {
      var b, rest := blocks[0], blocks[1..];
      PinsHold(parsed[b.pin.name := b.pin.version], rest, pin);
      assert Holds(blocks, pin) <==> b.pin == pin || Holds(rest, pin) by {
        if Holds(rest, pin) {
          var i :| 0 <= i < |rest| && rest[i].pin == pin;
          assert blocks[i + 1].pin == pin;
        }
        if Holds(blocks, pin) && b.pin != pin {
          var i :| 0 <= i < |blocks| && blocks[i].pin == pin;
          assert rest[i - 1].pin == pin;
        }
      }
      NewNamesAreDistinct(parsed[b.pin.name := b.pin.version], rest);
      if Holds(rest, pin) {
        var i :| 0 <= i < |rest| && rest[i].pin == pin;
        assert rest[i].pin.name !in parsed[b.pin.name := b.pin.version];
      }
    }
  }

  lemma {:induction false} LockIsContinuation(kind: Kind, providers: set<string>, blocks: seq<Block>,
                                              lines: seq<string>)
    ensures IsLock(kind, providers, blocks, lines) <==> Continues(kind, providers, Walk(map[], None), [], blocks, lines)
  {
    assert [] + Lines(blocks) == Lines(blocks);
    NewNamesAreDistinct(map[], blocks);
    if NewNames(map[], blocks) {
      PinsHold(map[], blocks, TORCH);
      PinsHold(map[], blocks, SETUPTOOLS);
      PinsHold(map[], blocks, WHEEL);
    }
  }

  /** The walk accepts exactly the texts whose lines, without comments, split into blocks of one pinned
      requirement and at least one hash, with distinct canonical names that are all allowed. */
  lemma {:induction false} LockDecided(kind: Kind, providers: set<string>, lines: seq<string>)
    ensures Verdict(kind, providers, Walk(map[], None), lines).None? <==>
      exists blocks :: IsLock(kind, providers, blocks, lines)
  {
    if Verdict(kind, providers, Walk(map[], None), lines).None? {
      var more, blocks := WalkSound(kind, providers, Walk(map[], None), lines);
      LockIsContinuation(kind, providers, blocks, lines);
    }
    if exists blocks :: IsLock(kind, providers, blocks, lines) {
      var blocks :| IsLock(kind, providers, blocks, lines);
      LockIsContinuation(kind, providers, blocks, lines);
      WalkComplete(kind, providers, Walk(map[], None), [], blocks, lines);
    }
  }
}
