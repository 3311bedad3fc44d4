/** Single-quoted paths in environment files: one program writes them, another reads them back. */
module QuotedPath {
  import opened Options

  const QUOTE: char := '\''
  const SLASH: char := '\\'

  predicate Control(c: char) {
    c == '\0' || c == '\r' || c == '\n'
  }

  predicate HasControl(s: string) {
    exists i :: 0 <= i < |s| && Control(s[i])
  }

  // ---------------------------------------------------------------- writing

  function EscapeChar(c: char): string {
    if c == QUOTE then [SLASH, QUOTE] else [c]
  }

  /** Every quote gets a backslash before it; nothing else is changed. */
  function Escape(path: string): string {
    if path == [] then [] else EscapeChar(path[0]) + Escape(path[1..])
  }

  function DotenvLiteral(path: string): Option<string> {
    if HasControl(path) then None else Some([QUOTE] + Escape(path) + [QUOTE])
  }

  // ---------------------------------------------------------------- reading

  /** The number of backslashes at the start. */
  function Run(s: string): (n: nat)
    ensures n <= |s|
  {
    if s == [] || s[0] != SLASH then 0 else 1 + Run(s[1..])
  }

  lemma {:induction false} RunFacts(s: string)
    ensures forall i :: 0 <= i < Run(s) ==> s[i] == SLASH
    ensures Run(s) < |s| ==> s[Run(s)] != SLASH
  {
    if s != [] && s[0] == SLASH {
      RunFacts(s[1..]);
    }
  }

  /** The first piece of a body: `length` characters that stand for `text`, or no legal piece. */
  datatype Piece = Bad | Piece(text: string, length: nat)

  function FirstPiece(s: string): (p: Piece)
    requires s != []
    ensures p.Piece? ==> 0 < p.length <= |s|
  {
    var n := Run(s);
    if n == 0 then (if s[0] == QUOTE then Bad else Piece(s[..1], 1))
    else if n == |s| then (if n % 2 == 0 then Piece(s, n) else Bad)
    else if s[n] == QUOTE then (if n % 2 == 0 then Bad else Piece(s[..n - 1] + [QUOTE], n + 1))
    else Piece(s[..n], n)
  }

  /** What the reader makes of the text between the quotes, piece by piece. */
  function Unescape(s: string): Option<string>
    decreases |s|
  {
    if s == [] then Some([])
    else match FirstPiece(s)
      case Bad => None
      case Piece(text, length) => Before(text, Unescape(s[length..]))
  }

  function Before(text: string, rest: Option<string>): Option<string> {
    match rest
    case None => None
    case Some(r) => Some(text + r)
  }

  /** The reader as a function. */
  function Read(literal: string): Option<string> {
    if |literal| < 2 || literal[0] != QUOTE || literal[|literal| - 1] != QUOTE then None
    else
      var path := Unescape(literal[1..|literal| - 1]);
      if path.None? || path.value == [] || HasControl(path.value) then None else path
  }

  lemma {:induction false} RunIs(s: string, n: nat)
    requires n <= |s| && (forall i :: 0 <= i < n ==> s[i] == SLASH) && (n < |s| ==> s[n] != SLASH)
    ensures Run(s) == n
  {
    if n > 0 {
      RunIs(s[1..], n - 1);
    }
  }

  /** One turn of the reader's loop: the run of backslashes and what follows it. */
  method ReadPiece(body: string, index: nat) returns (p: Piece)
    requires index < |body|
    ensures p == FirstPiece(body[index..])
  {
    ghost var rest := body[index..];
    var runEnd := index;
    while runEnd < |body| && body[runEnd] == SLASH
      invariant index <= runEnd <= |body|
      invariant forall k :: index <= k < runEnd ==> body[k] == SLASH
    {
      runEnd := runEnd + 1;
    }
    var count := runEnd - index;
    RunIs(rest, count);
    if count == 0 {
      assert rest[..1] == body[index..index + 1];
      return if body[index] == QUOTE then Bad else Piece(body[index..index + 1], 1);
    }
    if runEnd == |body| {
      assert rest == body[index..runEnd];
      return if count % 2 != 0 then Bad else Piece(body[index..runEnd], count);
    }
    if body[runEnd] == QUOTE {
      assert rest[..count - 1] == body[index..runEnd - 1];
      return if count % 2 == 0 then Bad else Piece(body[index..runEnd - 1] + [QUOTE], count + 1);
    }
    assert rest[..count] == body[index..runEnd];
    return Piece(body[index..runEnd], count);
  }

  /** The same with what was decoded so far: the reader's loop, as a function. */
  function UnescapeFrom(s: string, decoded: string): Option<string>
    decreases |s|
  {
    if s == [] then Some(decoded)
    else match FirstPiece(s)
      case Bad => None
      case Piece(text, length) => UnescapeFrom(s[length..], decoded + text)
  }

  lemma {:induction false} FromBefore(s: string, decoded: string)
    ensures UnescapeFrom(s, decoded) == Before(decoded, Unescape(s))
    decreases |s|
  {
    if s == [] {
      assert decoded + [] == decoded;
    } else {
      var p := FirstPiece(s);
      if p.Piece? {
        FromBefore(s[p.length..], decoded + p.text);
        BeforeBefore(decoded, p.text, Unescape(s[p.length..]));
      }
    }
  }

  /** The reader's index loop over the text between the quotes. */
  method DecodeBody(body: string) returns (path: Option<string>)
    ensures path == UnescapeFrom(body, "")
  {
    var decoded := "";
    var index := 0;
    assert body[0..] == body;
    while index < |body|
      invariant index <= |body|
      invariant UnescapeFrom(body, "") == UnescapeFrom(body[index..], decoded)
    {
      var piece := ReadPiece(body, index);
      if piece.Bad? {
        return None;
      }
      assert body[index..][piece.length..] == body[index + piece.length..];
      decoded := decoded + piece.text;
      index := index + piece.length;
    }
    return Some(decoded);
  }

  /** The reader. */
  method DecodeSingleQuotedPath(literal: string) returns (path: Option<string>)
    ensures path == Read(literal)
  {
    if |literal| < 2 || literal[0] != QUOTE || literal[|literal| - 1] != QUOTE {
      return None;
    }
    path := DecodeBody(literal[1..|literal| - 1]);
    FromBefore(literal[1..|literal| - 1], "");
    FromNothing(Unescape(literal[1..|literal| - 1]));
    if path.Some? && (path.value == "" || HasControl(path.value)) {
      path := None;
    }
  }

  lemma {:induction false} FromNothing(rest: Option<string>)
    ensures Before("", rest) == rest
  {
    if rest.Some? {
      assert "" + rest.value == rest.value;
    }
  }

  lemma {:induction false} BeforeBefore(a: string, b: string, rest: Option<string>)
    ensures Before(a, Before(b, rest)) == Before(a + b, rest)
  {
    if rest.Some? {
      assert a + (b + rest.value) == (a + b) + rest.value;
    }
  }

  // ---------------------------------------------------------------- round trips

  lemma {:induction false} Associative(a: string, b: string, c: string)
    ensures a + (b + c) == (a + b) + c
  {
  }

  lemma {:induction false} EscapeAppend(a: string, b: string)
    ensures Escape(a + b) == Escape(a) + Escape(b)
  {
    if a == [] {
      assert a + b == b;
    } else {
      var c, rest := a[0], a[1..];
      EscapeAppend(rest, b);
      assert (a + b)[1..] == rest + b;
      Associative(EscapeChar(c), Escape(rest), Escape(b));
    }
  }

  lemma {:induction false} EscapePlain(s: string)
    requires forall i :: 0 <= i < |s| ==> s[i] != QUOTE
    ensures Escape(s) == s
  {
    if s != [] {
      EscapePlain(s[1..]);
    }
  }

  /** Writing a piece gives the characters that it was read from. */
  lemma {:induction false} PieceWritten(s: string)
    requires s != [] && FirstPiece(s).Piece?
    ensures Escape(FirstPiece(s).text) == s[..FirstPiece(s).length]
  {
    var n := Run(s);
    RunFacts(s);
    if n == 0 || n == |s| || s[n] != QUOTE {
      EscapePlain(FirstPiece(s).text);
    } else {
      var slashes := s[..n - 1];
      EscapePlain(slashes);
      EscapeAppend(slashes, [QUOTE]);
      assert Escape([QUOTE]) == EscapeChar(QUOTE) + Escape([]);
      assert s[..n + 1] == slashes + [SLASH, QUOTE];
    }
  }

  lemma {:induction false} Glued(s: string, k: nat, text: string, rest: string)
    requires k <= |s| && Escape(text) == s[..k] && Escape(rest) == s[k..]
    ensures Escape(text + rest) == s
  {
    EscapeAppend(text, rest);
    assert s == s[..k] + s[k..];
  }

  /** Writing what was read gives the text between the quotes back. */
  lemma {:induction false} EscapeUnescape(s: string)
    requires Unescape(s).Some?
    ensures Escape(Unescape(s).value) == s
    decreases |s|
  {
    if s != [] {
      var p := FirstPiece(s);
      PieceWritten(s);
      EscapeUnescape(s[p.length..]);
      Glued(s, p.length, p.text, Unescape(s[p.length..]).value);
    }
  }

  /** Every run of backslashes before a quote or the end has even length. */
  predicate EvenRuns(p: string)
    decreases |p|
  {
    if p == [] then true
    else
      var n := Run(p);
      if n == |p| then n % 2 == 0
      else (p[n] == QUOTE ==> n % 2 == 0) && EvenRuns(p[n + 1..])
  }

  lemma {:induction false} SplitAt(s: string, n: nat)
    requires n < |s|
    ensures s == s[..n] + s[n..] && s[n..][0] == s[n] && s[n..][1..] == s[n + 1..]
    ensures s == s[..n] + [s[n]] + s[n + 1..]
  {
  }

  /** The run at the start of a path, the character after it, and the rest, escaped. */
  lemma {:induction false} EscapeSplit(p: string)
    requires Run(p) < |p|
    ensures Escape(p) == p[..Run(p)] + (EscapeChar(p[Run(p)]) + Escape(p[Run(p) + 1..]))
  {
    var n := Run(p);
    RunFacts(p);
    var tail := p[n..];
    SplitAt(p, n);
    EscapeAppend(p[..n], tail);
    EscapePlain(p[..n]);
  }

  /** A quote after an even run is read back; after an odd one it is refused. */
  lemma {:induction false} QuoteAfterRun(slashes: string, rest: string)
    requires forall i :: 0 <= i < |slashes| ==> slashes[i] == SLASH
    ensures var s := slashes + ([SLASH, QUOTE] + rest);
      FirstPiece(s) == if |slashes| % 2 == 0 then Piece(slashes + [QUOTE], |slashes| + 2) else Bad
    ensures (slashes + ([SLASH, QUOTE] + rest))[|slashes| + 2..] == rest
  {
    var s := slashes + ([SLASH, QUOTE] + rest);
    RunIs(s, |slashes| + 1);
    assert s[..|slashes|] == slashes;
  }

  lemma {:induction false} CopiedOne(c: char, rest: string)
    requires c != QUOTE && c != SLASH
    ensures Unescape([c] + rest) == Before([c], Unescape(rest))
  {
    var s := [c] + rest;
    RunIs(s, 0);
    assert s[..1] == [c] && s[1..] == rest;
  }

  /** A run before an ordinary character is copied. */
  lemma {:induction false} CopiedRun(slashes: string, tail: string)
    requires slashes != [] && forall i :: 0 <= i < |slashes| ==> slashes[i] == SLASH
    requires tail != [] && tail[0] != QUOTE && tail[0] != SLASH
    ensures Unescape(slashes + tail) == Before(slashes, Unescape(tail))
  {
    var n, s := |slashes|, slashes + tail;
    RunIs(s, n);
    assert s[..n] == slashes && s[n..] == tail;
  }

  lemma {:induction false} CopiedAfterRun(slashes: string, c: char, rest: string)
    requires forall i :: 0 <= i < |slashes| ==> slashes[i] == SLASH
    requires c != QUOTE && c != SLASH
    ensures Unescape(slashes + ([c] + rest)) == Before(slashes + [c], Unescape(rest))
  {
    CopiedOne(c, rest);
    if slashes == [] {
      assert slashes + ([c] + rest) == [c] + rest && slashes + [c] == [c];
    } else {
      CopiedRun(slashes, [c] + rest);
      BeforeBefore(slashes, [c], Unescape(rest));
    }
  }

  lemma {:induction false} OnlySlashes(p: string)
    requires p != [] && Run(p) == |p|
    ensures Unescape(Escape(p)) == if |p| % 2 == 0 then Some(p) else None
  {
    RunFacts(p);
    EscapePlain(p);
    assert p[|p|..] == [] && p + [] == p;
  }

  lemma {:induction false} EvenRunsSplit(p: string)
    requires Run(p) < |p|
    ensures EvenRuns(p) <==> (p[Run(p)] == QUOTE ==> Run(p) % 2 == 0) && EvenRuns(p[Run(p) + 1..])
  {
  }

  /** An escaped path is read back exactly when its runs are even. */
  lemma {:induction false} UnescapeEscape(p: string)
    ensures Unescape(Escape(p)) == if EvenRuns(p) then Some(p) else None
    decreases |p|
  {
    if p != [] {
      var n := Run(p);
      if n == |p| {
        OnlySlashes(p);
      } else {
        var rest := p[n + 1..];
        RunFacts(p);
        SplitAt(p, n);
        EscapeSplit(p);
        UnescapeEscape(rest);
        UnescapeSplit(p[..n], p[n], rest);
        EvenRunsSplit(p);
      }
    }
  }

  lemma {:induction false} UnescapeSplit(slashes: string, c: char, rest: string)
    requires forall i :: 0 <= i < |slashes| ==> slashes[i] == SLASH
    requires c != SLASH
    ensures Unescape(slashes + (EscapeChar(c) + Escape(rest))) ==
      if c == QUOTE && |slashes| % 2 != 0 then None else Before(slashes + [c], Unescape(Escape(rest)))
  {
    if c == QUOTE {
      QuoteAfterRun(slashes, Escape(rest));
    } else {
      CopiedAfterRun(slashes, c, Escape(rest));
    }
  }

  lemma {:induction false} Framed(literal: string, path: string)
    requires |literal| >= 2 && literal[0] == QUOTE && literal[|literal| - 1] == QUOTE
    ensures Escape(path) == literal[1..|literal| - 1] <==> [QUOTE] + Escape(path) + [QUOTE] == literal
  {
    var body, e := literal[1..|literal| - 1], Escape(path);
    assert literal == [QUOTE] + body + [QUOTE];
    assert ([QUOTE] + e + [QUOTE])[1..|e| + 1] == e;
  }

  /** Writing back what was read gives the accepted literal exactly. */
  lemma {:induction false} WriteRead(literal: string)
    requires Read(literal).Some?
    ensures DotenvLiteral(Read(literal).value) == Some(literal)
  {
    EscapeUnescape(literal[1..|literal| - 1]);
    Framed(literal, Read(literal).value);
  }

  /** Reading what was written gives that path or a rejection, never another path; it is accepted
      exactly for non-empty paths whose backslash runs before a quote or the end are even. */
  lemma {:induction false} ReadWrite(path: string)
    requires !HasControl(path)
    ensures Read(DotenvLiteral(path).value) == if path != [] && EvenRuns(path) then Some(path) else None
  {
    Framed(DotenvLiteral(path).value, path);
    UnescapeEscape(path);
  }

  /** A path is refused by the writer exactly if it has one of three characters; a literal is read as
      a path exactly if it is the path between quotes with its quotes escaped, and the path is not
      empty, has none of these characters and only even runs. */
  lemma {:induction false} QuotingIsExact(literal: string, path: string)
    ensures DotenvLiteral(path).None? <==> '\0' in path || '\r' in path || '\n' in path
    ensures Read(literal) == Some(path) <==>
      && path != "" && EvenRuns(path) && '\0' !in path && '\r' !in path && '\n' !in path
      && literal == "'" + Escape(path) + "'"
  {
    assert HasControl(path) <==> '\0' in path || '\r' in path || '\n' in path;
    if Read(literal) == Some(path) {
      WriteRead(literal);
    }
    if !HasControl(path) {
      ReadWrite(path);
    }
  }
}
