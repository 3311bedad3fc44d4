/** The text of an image selection and its two readers. A promotion reads a selection as any other
    environment file, with blank lines and comments; recovery reads the copy in the journal with the
    closed parser, which wants an entry on every line, and wants the keys in order. */
module SelectionFiles {
  import opened Options
  import opened Documents
  import opened Texts

  // ---------------------------------------------------------------- single lines

  datatype Entry = Entry(key: string, value: string)

  predicate ValidKey(k: string) {
    k != "" && Upper(k[0]) && forall i :: 0 <= i < |k| ==> Upper(k[i]) || Digit(k[i]) || k[i] == '_'
  }

  /** The entry on a line, if it has an equals sign and a key before it. */
  function EntryOn(line: string): Option<Entry> {
    var n := BeforeEquals(line);
    if n < |line| && ValidKey(line[..n]) then Some(Entry(line[..n], line[n + 1..])) else None
  }

  function LeftStripped(line: string): string {
    if line == "" || !Space(line[0]) then line else LeftStripped(line[1..])
  }

  /** Blank, or a comment. */
  predicate Skipped(line: string) {
    var s := LeftStripped(line);
    s == "" || s[0] == '#'
  }

  predicate BlankTo(line: string, n: nat) {
    n <= |line| && (n < |line| ==> line[n] == '#') && forall i :: 0 <= i < n ==> Space(line[i])
  }

  /** Such a line has only blanks, or only blanks before a number sign. */
  lemma {:induction false} SkippedIs(line: string)
    ensures Skipped(line) <==> exists n: nat :: BlankTo(line, n)
  {
    if line != "" && Space(line[0]) {
      var rest := line[1..];
      SkippedIs(rest);
      if Skipped(rest) {
        var n: nat :| BlankTo(rest, n);
        assert forall i :: 1 <= i < n + 1 ==> line[i] == rest[i - 1];
        assert BlankTo(line, n + 1);
      }
      if exists n: nat :: BlankTo(line, n) {
        var n: nat :| BlankTo(line, n);
        assert n > 0;
        assert BlankTo(rest, n - 1);
      }
    } else {
      assert Skipped(line) <==> BlankTo(line, 0);
      assert forall n: nat :: n > 0 ==> !BlankTo(line, n);
    }
  }

  predicate Controlled(value: string) {
    exists i :: 0 <= i < |value| && value[i] in {'\0', '\r', '\n'}
  }

  predicate HasKey(entries: seq<Entry>, key: string) {
    exists i :: 0 <= i < |entries| && entries[i].key == key
  }

  // ---------------------------------------------------------------- the two parsers

  function ClosedLine(line: string, read: seq<Entry>): Option<Entry> {
    var e := EntryOn(line);
    if line == "" || line[0] == '#' || e.None? || HasKey(read, e.value.key) then None else e
  }

  /** The closed parser, after what it has read. */
  function ClosedFrom(lines: seq<string>, read: seq<Entry>): Option<seq<Entry>>
    decreases |lines|
  {
    if lines == [] then Some(read)
    else match ClosedLine(lines[0], read)
      case None => None
      case Some(e) => ClosedFrom(lines[1..], read + [e])
  }

  function OpenLine(line: string, read: seq<Entry>): Option<Entry> {
    var e := EntryOn(line);
    if e.None? || HasKey(read, e.value.key) || Controlled(e.value.value) then None else e
  }

  /** The parser of environment files, after what it has read. */
  function OpenFrom(lines: seq<string>, read: seq<Entry>): Option<seq<Entry>>
    decreases |lines|
  {
    if lines == [] then Some(read)
    else if Skipped(lines[0]) then OpenFrom(lines[1..], read)
    else match OpenLine(lines[0], read)
      case None => None
      case Some(e) => OpenFrom(lines[1..], read + [e])
  }

  method ParseClosedEnvironment(lines: seq<string>) returns (result: Option<seq<Entry>>)
    ensures result == ClosedFrom(lines, [])
  {
    var read: seq<Entry> := [];
    assert lines[0..] == lines;
    for k := 0 to |lines|
      invariant ClosedFrom(lines, []) == ClosedFrom(lines[k..], read)
    {
      assert lines[k..][0] == lines[k] && lines[k..][1..] == lines[k + 1..];
      var entry := ClosedLine(lines[k], read);
      if entry.None? {
        return None;
      }
      read := read + [entry.value];
    }
    return Some(read);
  }

  method ParseEnvironmentFile(lines: seq<string>) returns (result: Option<seq<Entry>>)
    ensures result == OpenFrom(lines, [])
  {
    var read: seq<Entry> := [];
    assert lines[0..] == lines;
    for k := 0 to |lines|
      invariant OpenFrom(lines, []) == OpenFrom(lines[k..], read)
    {
      assert lines[k..][0] == lines[k] && lines[k..][1..] == lines[k + 1..];
      if Skipped(lines[k]) {
        continue;
      }
      var entry := OpenLine(lines[k], read);
      if entry.None? {
        return None;
      }
      read := read + [entry.value];
    }
    return Some(read);
  }

  // ---------------------------------------------------------------- from entries to a selection

  const SHARED_KEYS := ["API_IMAGE", "WEB_IMAGE", "RELEASE_REVISION", "API_IMAGE_ID", "WEB_IMAGE_ID"]
  const SPLIT_KEYS := ["API_IMAGE", "WEB_IMAGE", "API_REVISION", "WEB_REVISION", "API_IMAGE_ID", "WEB_IMAGE_ID"]

  function Keys(entries: seq<Entry>): seq<string> {
    seq(|entries|, i requires 0 <= i < |entries| => entries[i].key)
  }

  function Elements(keys: seq<string>): set<string> {
    set k | k in keys
  }

  function ValueOf(entries: seq<Entry>, key: string): string {
    if entries == [] then "" else if entries[0].key == key then entries[0].value else ValueOf(entries[1..], key)
  }

  /** The selection of some entries with one of the two key sets, in whatever order. */
  function SelectionFrom(entries: seq<Entry>): Option<Selection> {
    var keys := Elements(Keys(entries));
    if keys == Elements(SHARED_KEYS) then
      Some(Shared(ValueOf(entries, "API_IMAGE"), ValueOf(entries, "WEB_IMAGE"), ValueOf(entries, "RELEASE_REVISION"),
                  ValueOf(entries, "API_IMAGE_ID"), ValueOf(entries, "WEB_IMAGE_ID")))
    else if keys == Elements(SPLIT_KEYS) then
      Some(Split(ValueOf(entries, "API_IMAGE"), ValueOf(entries, "WEB_IMAGE"), ValueOf(entries, "API_REVISION"),
                 ValueOf(entries, "WEB_REVISION"), ValueOf(entries, "API_IMAGE_ID"), ValueOf(entries, "WEB_IMAGE_ID")))
    else None
  }

  predicate Says(entries: seq<Entry>, key: string, value: string) {
    Entry(key, value) in entries
  }

  predicate OnlyKeys(entries: seq<Entry>, keys: set<string>) {
    forall e :: e in entries ==> e.key in keys
  }

  /** The entries say just this selection, each part under its own key. */
  predicate SaysSelection(entries: seq<Entry>, s: Selection) {
    Says(entries, "API_IMAGE", s.apiImage) && Says(entries, "WEB_IMAGE", s.webImage) &&
    Says(entries, "API_IMAGE_ID", s.apiImageId) && Says(entries, "WEB_IMAGE_ID", s.webImageId) &&
    match s
    case Shared(_, _, revision, _, _) =>
      Says(entries, "RELEASE_REVISION", revision) &&
      OnlyKeys(entries, {"API_IMAGE", "WEB_IMAGE", "API_IMAGE_ID", "WEB_IMAGE_ID", "RELEASE_REVISION"})
    case Split(_, _, api, web, _, _) =>
      Says(entries, "API_REVISION", api) && Says(entries, "WEB_REVISION", web) &&
      OnlyKeys(entries, {"API_IMAGE", "WEB_IMAGE", "API_IMAGE_ID", "WEB_IMAGE_ID", "API_REVISION", "WEB_REVISION"})
  }

  lemma {:induction false} ValueIs(entries: seq<Entry>, key: string, value: string)
    requires DistinctKeys(entries)
    ensures Says(entries, key, value) <==> key in Elements(Keys(entries)) && ValueOf(entries, key) == value
  {
    if HasKey(entries, key) {
      var i :| 0 <= i < |entries| && entries[i].key == key;
      ValueAt(entries, i);
      assert Keys(entries)[i] == key;
    }
  }

  predicate Alphanumeric(c: char) {
    Lower(c) || Upper(c) || Digit(c)
  }

  predicate Hexadecimal(s: string) {
    forall i :: 0 <= i < |s| ==> Digit(s[i]) || 'a' <= s[i] <= 'f'
  }

  predicate ImageName(s: string) {
    1 <= |s| <= 255 && Alphanumeric(s[0]) &&
    (forall i :: 0 <= i < |s| ==> Alphanumeric(s[i]) || s[i] in "._:/-") &&
    !Contains(s, "..") && !Contains(s, "//")
  }

  predicate Revision(s: string) {
    |s| == 40 && Hexadecimal(s)
  }

  const SHA256 := "sha256:"

  predicate ImageId(s: string) {
    StartsWith(s, SHA256) && |s| == |SHA256| + 64 && Hexadecimal(s[|SHA256|..])
  }

  predicate ValidSelection(s: Selection) {
    ImageName(s.apiImage) && ImageName(s.webImage) && ImageId(s.apiImageId) && ImageId(s.webImageId) &&
    match s
    case Shared(_, _, revision, _, _) => Revision(revision)
    case Split(_, _, api, web, _, _) => Revision(api) && Revision(web)
  }

  /** The operator's arguments as the command accepts them. */
  predicate ValidRequest(r: Request) {
    ImageName(r.webImage) && ImageId(r.webImageId) && Revision(r.webRevision)
  }

  lemma {:induction false} OnlyIs(entries: seq<Entry>, keys: set<string>)
    ensures OnlyKeys(entries, keys) <==> Elements(Keys(entries)) <= keys
  {
    assert forall i :: 0 <= i < |entries| ==> Keys(entries)[i] == entries[i].key && Keys(entries)[i] in Keys(entries);
  }

  lemma {:induction false} KeySets(entries: seq<Entry>)
    ensures OnlyKeys(entries, {"API_IMAGE", "WEB_IMAGE", "API_IMAGE_ID", "WEB_IMAGE_ID", "RELEASE_REVISION"}) <==>
      Elements(Keys(entries)) <= Elements(SHARED_KEYS)
    ensures
      OnlyKeys(entries, {"API_IMAGE", "WEB_IMAGE", "API_IMAGE_ID", "WEB_IMAGE_ID", "API_REVISION", "WEB_REVISION"})
      <==> Elements(Keys(entries)) <= Elements(SPLIT_KEYS)
  {
    OnlyIs(entries, {"API_IMAGE", "WEB_IMAGE", "API_IMAGE_ID", "WEB_IMAGE_ID", "RELEASE_REVISION"});
    OnlyIs(entries, {"API_IMAGE", "WEB_IMAGE", "API_IMAGE_ID", "WEB_IMAGE_ID", "API_REVISION", "WEB_REVISION"});
    assert Elements(SHARED_KEYS) == {"API_IMAGE", "WEB_IMAGE", "API_IMAGE_ID", "WEB_IMAGE_ID", "RELEASE_REVISION"};
    assert Elements(SPLIT_KEYS) ==
      {"API_IMAGE", "WEB_IMAGE", "API_IMAGE_ID", "WEB_IMAGE_ID", "API_REVISION", "WEB_REVISION"};
  }

  lemma {:induction false} AllPresent(keys: set<string>)
    ensures Elements(SHARED_KEYS) <= keys <==>
      "API_IMAGE" in keys && "WEB_IMAGE" in keys && "API_IMAGE_ID" in keys && "WEB_IMAGE_ID" in keys &&
      "RELEASE_REVISION" in keys
    ensures Elements(SPLIT_KEYS) <= keys <==>
      "API_IMAGE" in keys && "WEB_IMAGE" in keys && "API_IMAGE_ID" in keys && "WEB_IMAGE_ID" in keys &&
      "API_REVISION" in keys && "WEB_REVISION" in keys
  {
    assert forall k :: k in SHARED_KEYS ==> k in Elements(SHARED_KEYS);
    assert forall k :: k in SPLIT_KEYS ==> k in Elements(SPLIT_KEYS);
  }

  /** A selection is read exactly if the entries say it, whatever their order. */
  lemma {:induction false} SelectionIsSaid(entries: seq<Entry>, s: Selection)
    requires DistinctKeys(entries)
    ensures SelectionFrom(entries) == Some(s) <==> SaysSelection(entries, s)
  {
    KeySetsDiffer();
    KeySets(entries);
    AllPresent(Elements(Keys(entries)));
    ValueIs(entries, "API_IMAGE", s.apiImage);
    ValueIs(entries, "WEB_IMAGE", s.webImage);
    ValueIs(entries, "API_IMAGE_ID", s.apiImageId);
    ValueIs(entries, "WEB_IMAGE_ID", s.webImageId);
    match s
    case Shared(_, _, revision, _, _) =>
      ValueIs(entries, "RELEASE_REVISION", revision);
    case Split(_, _, api, web, _, _) =>
      ValueIs(entries, "API_REVISION", api);
      ValueIs(entries, "WEB_REVISION", web);
  }

  // ---------------------------------------------------------------- the two readers

  /** How a promotion reads a selection. */
  function PromotionReads(lines: seq<string>): Option<Selection> {
    match OpenFrom(lines, [])
    case None => None
    case Some(entries) =>
      var s := SelectionFrom(entries);
      if s.Some? && ValidSelection(s.value) then s else None
  }

  /** How recovery reads the copy of it in the journal. The check of the values reads it once more. */
  function RecoveryReads(lines: seq<string>): Option<Selection> {
    match ClosedFrom(lines, [])
    case None => None
    case Some(entries) =>
      if Keys(entries) in {SHARED_KEYS, SPLIT_KEYS} && PromotionReads(lines).Some? then SelectionFrom(entries) else None
  }

  /** A promotion reads a selection exactly if the entries of the text say it and it is valid. */
  lemma {:induction false} PromotionReadsWhatIsSaid(lines: seq<string>, s: Selection)
    ensures PromotionReads(lines) == Some(s) <==>
      var entries := OpenFrom(lines, []);
      entries.Some? && SaysSelection(entries.value, s) && ValidSelection(s)
  {
    if OpenFrom(lines, []).Some? {
      ReadIsWritten(lines, []);
      SelectionIsSaid(OpenFrom(lines, []).value, s);
    }
  }

  function LineKeys(lines: seq<string>): seq<string> {
    seq(|lines|, i requires 0 <= i < |lines| => lines[i][..BeforeEquals(lines[i])])
  }

  /** No blank line and no comment, and the keys in the prescribed order. */
  predicate ClosedLines(lines: seq<string>) {
    (forall i :: 0 <= i < |lines| ==> !Skipped(lines[i])) && LineKeys(lines) in {SHARED_KEYS, SPLIT_KEYS}
  }

  // ---------------------------------------------------------------- how they differ

  lemma {:induction false} EntryIsNotSkipped(line: string)
    requires EntryOn(line).Some?
    ensures line != "" && line[0] != '#' && !Skipped(line)
  {
    var n := BeforeEquals(line);
    assert line[..n][0] == line[0];
  }

  predicate Clean(entries: seq<Entry>) {
    forall i :: 0 <= i < |entries| ==> !Controlled(entries[i].value)
  }

  /** The closed parser reads one entry from every line. */
  lemma {:induction false} ClosedReadsEveryLine(lines: seq<string>, read: seq<Entry>)
    requires ClosedFrom(lines, read).Some?
    ensures var all := ClosedFrom(lines, read).value;
      |all| == |read| + |lines| && all[..|read|] == read && Keys(all[|read|..]) == LineKeys(lines)
    ensures forall i :: 0 <= i < |lines| ==> !Skipped(lines[i])
    decreases |lines|
  {
    if lines != [] {
      var e := ClosedLine(lines[0], read).value;
      EntryIsNotSkipped(lines[0]);
      ClosedReadsEveryLine(lines[1..], read + [e]);
      var all := ClosedFrom(lines, read).value;
      assert all[..|read| + 1] == read + [e];
      assert all[|read|] == e && e.key == lines[0][..BeforeEquals(lines[0])];
      assert LineKeys(lines) == [e.key] + LineKeys(lines[1..]);
      assert all[|read|..] == [e] + all[|read| + 1..];
      assert Keys([e] + all[|read| + 1..]) == [e.key] + Keys(all[|read| + 1..]);
    }
  }

  /** On lines without blanks and comments the two parsers agree, but for control characters. */
  lemma {:induction false} ParsersAgree(lines: seq<string>, read: seq<Entry>)
    requires Clean(read) && forall i :: 0 <= i < |lines| ==> !Skipped(lines[i])
    ensures OpenFrom(lines, read).Some? ==> OpenFrom(lines, read) == ClosedFrom(lines, read)
    decreases |lines|
  {
    if lines != [] {
      var e := OpenLine(lines[0], read);
      if e.Some? {
        EntryIsNotSkipped(lines[0]);
        ParsersAgree(lines[1..], read + [e.value]);
      }
    }
  }

  /** Recovery reads a selection exactly if a promotion reads it and its text is closed, and then
      reads the same. */
  lemma {:induction false} RecoveryReadsClosed(lines: seq<string>)
    ensures RecoveryReads(lines) == if ClosedLines(lines) then PromotionReads(lines) else None
  {
    var closed := ClosedFrom(lines, []);
    if closed.Some? {
      ClosedReadsEveryLine(lines, []);
      assert closed.value[0..] == closed.value;
    }
    if PromotionReads(lines).Some? && forall i :: 0 <= i < |lines| ==> !Skipped(lines[i]) {
      ParsersAgree(lines, []);
    }
  }

  /** The payload of a text: its lines, and what else tells texts with these lines apart. */
  function PayloadOf(lines: seq<string>, detail: string): Payload {
    match PromotionReads(lines)
    case None => Bytes(detail)
    case Some(s) => SelectionText(s, Layout(ClosedLines(lines), detail))
  }

  /** So a payload says exactly what each of the two readers makes of its text. */
  lemma {:induction false} PayloadIsWhatIsRead(lines: seq<string>, detail: string)
    ensures PayloadOf(lines, detail).SelectionText? <==> PromotionReads(lines).Some?
    ensures Closed(PayloadOf(lines, detail)) <==> RecoveryReads(lines).Some?
    ensures PromotionReads(lines).Some? ==> PayloadOf(lines, detail).selection == PromotionReads(lines).value
    ensures RecoveryReads(lines).Some? ==> PayloadOf(lines, detail).selection == RecoveryReads(lines).value
  {
    RecoveryReadsClosed(lines);
  }

  // ---------------------------------------------------------------- the text that a promotion writes

  function Line(e: Entry): string {
    e.key + "=" + e.value
  }

  function Lines(entries: seq<Entry>): seq<string> {
    seq(|entries|, i requires 0 <= i < |entries| => Line(entries[i]))
  }

  function SplitEntries(s: Selection): seq<Entry>
    requires s.Split?
  {
    [Entry("API_IMAGE", s.apiImage), Entry("WEB_IMAGE", s.webImage), Entry("API_REVISION", s.apiRevision),
     Entry("WEB_REVISION", s.webRevision), Entry("API_IMAGE_ID", s.apiImageId), Entry("WEB_IMAGE_ID", s.webImageId)]
  }

  lemma {:induction false} EntryOnLine(e: Entry)
    requires ValidKey(e.key)
    ensures EntryOn(Line(e)) == Some(e)
  {
    var line, n := Line(e), |e.key|;
    assert line[n] == '=' && line[..n] == e.key && line[n + 1..] == e.value;
    forall i | 0 <= i < n ensures line[i] != '=' {
      assert line[i] == e.key[i];
    }
    EqualsAt(line, n);
  }

  predicate DistinctKeys(entries: seq<Entry>) {
    forall i, j :: 0 <= i < j < |entries| ==> entries[i].key != entries[j].key
  }

  predicate Writable(entries: seq<Entry>) {
    Clean(entries) && forall i :: 0 <= i < |entries| ==> ValidKey(entries[i].key)
  }

  /** Both parsers read back what was written, one entry a line. */
  lemma {:induction false} WrittenIsRead(read: seq<Entry>, entries: seq<Entry>)
    requires DistinctKeys(read + entries) && Writable(entries)
    ensures ClosedFrom(Lines(entries), read) == Some(read + entries)
    ensures OpenFrom(Lines(entries), read) == Some(read + entries)
    decreases |entries|
  {
    if entries == [] {
      assert read + entries == read;
    } else {
      var e, rest := entries[0], entries[1..];
      EntryOnLine(e);
      EntryIsNotSkipped(Line(e));
      assert Lines(entries)[1..] == Lines(rest);
      assert (read + [e]) + rest == read + entries;
      assert !HasKey(read, e.key) by {
        assert (read + entries)[|read|] == e;
        assert forall i :: 0 <= i < |read| ==> (read + entries)[i] == read[i];
      }
      assert !Controlled(e.value);
      WrittenIsRead(read + [e], rest);
    }
  }

  /** The lines that the parser of environment files does not skip. */
  function Kept(lines: seq<string>): seq<string> {
    if lines == [] then [] else if Skipped(lines[0]) then Kept(lines[1..]) else [lines[0]] + Kept(lines[1..])
  }

  lemma {:induction false} EntryIsLine(line: string)
    requires EntryOn(line).Some?
    ensures Line(EntryOn(line).value) == line && ValidKey(EntryOn(line).value.key)
  {
    var n := BeforeEquals(line);
    FirstEquals(line);
    assert line == line[..n] + [line[n]] + line[n + 1..];
  }

  lemma {:induction false} FirstEquals(line: string)
    requires BeforeEquals(line) < |line|
    ensures line[BeforeEquals(line)] == '='
  {
    if line[0] != '=' {
      FirstEquals(line[1..]);
    }
  }

  /** What the parser of environment files reads is exactly what is written on the lines that it does
      not skip, with distinct valid keys and no control characters. */
  lemma {:induction false} ReadIsWritten(lines: seq<string>, read: seq<Entry>)
    requires DistinctKeys(read) && OpenFrom(lines, read).Some?
    ensures var all := OpenFrom(lines, read).value;
      && |read| <= |all| && all[..|read|] == read && DistinctKeys(all)
      && Lines(all[|read|..]) == Kept(lines) && Writable(all[|read|..])
    decreases |lines|
  {
    if lines != [] {
      if Skipped(lines[0]) {
        ReadIsWritten(lines[1..], read);
      } else {
        var e := OpenLine(lines[0], read).value;
        EntryIsLine(lines[0]);
        assert forall i :: 0 <= i < |read| ==> read[i].key != e.key;
        ReadIsWritten(lines[1..], read + [e]);
        var all := OpenFrom(lines, read).value;
        assert all[..|read|] == all[..|read| + 1][..|read|] == read;
        var rest := all[|read| + 1..];
        assert all[|read|..] == [e] + rest;
        assert Lines([e] + rest) == [Line(e)] + Lines(rest);
      }
    }
  }

  lemma {:induction false} OnlyKept(lines: seq<string>, read: seq<Entry>)
    ensures OpenFrom(Kept(lines), read) == OpenFrom(lines, read)
    decreases |lines|
  {
    if lines != [] {
      if Skipped(lines[0]) {
        OnlyKept(lines[1..], read);
      } else {
        var rest := Kept(lines[1..]);
        assert ([lines[0]] + rest)[1..] == rest;
        var e := OpenLine(lines[0], read);
        if e.Some? {
          OnlyKept(lines[1..], read + [e.value]);
        }
      }
    }
  }

  /** So the parser is exact: it reads some entries if and only if the lines that it does not skip are
      these entries, written one a line. */
  lemma {:induction false} OpenIsExact(lines: seq<string>, entries: seq<Entry>)
    ensures OpenFrom(lines, []) == Some(entries) <==>
      Kept(lines) == Lines(entries) && DistinctKeys(entries) && Writable(entries)
  {
    if OpenFrom(lines, []) == Some(entries) {
      ReadIsWritten(lines, []);
      assert entries[0..] == entries;
    }
    if Kept(lines) == Lines(entries) && DistinctKeys(entries) && Writable(entries) {
      OnlyKept(lines, []);
      assert [] + entries == entries;
      WrittenIsRead([], entries);
    }
  }

  lemma {:induction false} ValueAt(entries: seq<Entry>, i: nat)
    requires DistinctKeys(entries) && i < |entries|
    ensures ValueOf(entries, entries[i].key) == entries[i].value
  {
    if i > 0 {
      assert entries[0].key != entries[i].key;
      ValueAt(entries[1..], i - 1);
    }
  }

  lemma {:induction false} SplitKeysDiffer()
    ensures forall i, j :: 0 <= i < j < 6 ==> SPLIT_KEYS[i] != SPLIT_KEYS[j]
    ensures forall i :: 0 <= i < 6 ==> ValidKey(SPLIT_KEYS[i])
    ensures "RELEASE_REVISION" !in SPLIT_KEYS
  {
    forall i, j | 0 <= i < j < 6 ensures SPLIT_KEYS[i] != SPLIT_KEYS[j] {
      var a, b := SPLIT_KEYS[i], SPLIT_KEYS[j];
      assert |a| != |b| || a[0] != b[0] || a[4] != b[4];
    }
    forall i | 0 <= i < 6 ensures SPLIT_KEYS[i] != "RELEASE_REVISION" {
      assert |SPLIT_KEYS[i]| != 16;
    }
  }

  lemma {:induction false} ImageNameIsClean(s: string)
    requires ImageName(s) || Revision(s) || ImageId(s)
    ensures !Controlled(s)
  {
    if ImageId(s) {
      forall i | 0 <= i < |s| ensures s[i] !in {'\0', '\r', '\n'} {
        if i < |SHA256| {
          assert s[i] == s[..|SHA256|][i] == SHA256[i];
        } else {
          assert s[i] == s[|SHA256|..][i - |SHA256|];
        }
      }
    }
  }

  lemma {:induction false} SplitIsClean(s: Selection)
    requires s.Split? && ValidSelection(s)
    ensures Clean(SplitEntries(s))
  {
    ImageNameIsClean(s.apiImage);
    ImageNameIsClean(s.webImage);
    ImageNameIsClean(s.apiRevision);
    ImageNameIsClean(s.webRevision);
    ImageNameIsClean(s.apiImageId);
    ImageNameIsClean(s.webImageId);
  }

  lemma {:induction false} SplitIsWritable(s: Selection)
    requires s.Split? && ValidSelection(s)
    ensures Keys(SplitEntries(s)) == SPLIT_KEYS && DistinctKeys(SplitEntries(s)) && Writable(SplitEntries(s))
  {
    var entries := SplitEntries(s);
    SplitKeysDiffer();
    SplitIsClean(s);
    assert Keys(entries) == SPLIT_KEYS;
    forall i, j | 0 <= i < j < |entries| ensures entries[i].key != entries[j].key {
      assert entries[i].key == SPLIT_KEYS[i] && entries[j].key == SPLIT_KEYS[j];
    }
  }

  lemma {:induction false} KeySetsDiffer()
    ensures Elements(SPLIT_KEYS) != Elements(SHARED_KEYS)
  {
    SplitKeysDiffer();
    assert SHARED_KEYS[2] in Elements(SHARED_KEYS);
    assert SHARED_KEYS[2] !in Elements(SPLIT_KEYS);
  }

  lemma {:induction false} SplitFromEntries(s: Selection)
    requires s.Split? && ValidSelection(s)
    ensures SelectionFrom(SplitEntries(s)) == Some(s)
  {
    var entries := SplitEntries(s);
    SplitIsWritable(s);
    SplitKeysDiffer();
    KeySetsDiffer();
    ValueAt(entries, 0);
    ValueAt(entries, 1);
    ValueAt(entries, 2);
    ValueAt(entries, 3);
    ValueAt(entries, 4);
    ValueAt(entries, 5);
  }

  /** Both readers read back the selection that a promotion writes. */
  lemma {:induction false} RenderedIsRead(s: Selection)
    requires s.Split? && ValidSelection(s)
    ensures PromotionReads(Lines(SplitEntries(s))) == Some(s) && RecoveryReads(Lines(SplitEntries(s))) == Some(s)
    ensures PayloadOf(Lines(SplitEntries(s)), "") == Rendered(s)
  {
    var entries := SplitEntries(s);
    SplitIsWritable(s);
    assert [] + entries == entries;
    WrittenIsRead([], entries);
    SplitFromEntries(s);
    RecoveryReadsClosed(Lines(entries));
  }

  lemma {:induction false} ForwardIsValid(source: Selection, request: Request)
    requires ValidSelection(source) && ValidRequest(request)
    ensures ValidSelection(ForwardSelection(source, request))
  {
  }

  const COMMENT := "# edited by hand"

  /** With a comment put before it, the same text is still what a promotion reads, and no longer what
      recovery reads. */
  lemma {:induction false} CommentedIsNotClosed(s: Selection)
    requires s.Split? && ValidSelection(s)
    ensures PromotionReads([COMMENT] + Lines(SplitEntries(s))) == Some(s)
    ensures RecoveryReads([COMMENT] + Lines(SplitEntries(s))) == None
  {
    RenderedIsRead(s);
    var lines := [COMMENT] + Lines(SplitEntries(s));
    assert COMMENT[0] == '#' && LeftStripped(COMMENT) == COMMENT && Skipped(lines[0]);
    assert lines[1..] == Lines(SplitEntries(s));
    RecoveryReadsClosed(lines);
  }
}
