/** Dollar signs in Compose sources: the scanner that looks for interpolated variables by runs of
    dollar signs, and the decoder of paths in which every dollar sign is doubled. */
module DollarSigns {
  import opened Options

  predicate NameStart(c: char) {
    'A' <= c <= 'Z' || 'a' <= c <= 'z' || c == '_'
  }

  predicate NameChar(c: char) {
    NameStart(c) || '0' <= c <= '9'
  }

  function NameTail(s: string): string {
    if s == [] || !NameChar(s[0]) then [] else [s[0]] + NameTail(s[1..])
  }

  /** The longest name at the start, if there is one. */
  function Name(s: string): string {
    if s == [] || !NameStart(s[0]) then [] else [s[0]] + NameTail(s[1..])
  }

  /** The variable after a single dollar sign, with or without an opening brace. */
  function Variable(s: string): set<string> {
    var name := Name(if s != [] && s[0] == '{' then s[1..] else s);
    if name == [] then {} else {name}
  }

  /** The name stands at `k`, and no longer name does. */
  predicate NameAt(s: string, k: nat, name: string) {
    && name != "" && !('0' <= name[0] <= '9')
    && k + |name| <= |s| && (forall i :: 0 <= i < |name| ==> s[k + i] == name[i])
    && (forall i :: 0 <= i < |name| ==>
          'A' <= name[i] <= 'Z' || 'a' <= name[i] <= 'z' || '0' <= name[i] <= '9' || name[i] == '_')
    && (k + |name| < |s| ==> !NameChar(s[k + |name|]))
  }

  predicate Begins(s: string, name: string) {
    && |name| <= |s| && (forall i :: 0 <= i < |name| ==> s[i] == name[i] && NameChar(name[i]))
    && (|name| < |s| ==> !NameChar(s[|name|]))
  }

  lemma {:induction false} TailIs(s: string, name: string)
    ensures NameTail(s) == name <==> Begins(s, name)
  {
    if s != [] && NameChar(s[0]) && name != [] {
      var c, rest := name[0], name[1..];
      TailIs(s[1..], rest);
      assert name == [c] + rest;
      if Begins(s[1..], rest) && s[0] == c {
        assert forall i :: 0 <= i < |name| ==> s[i] == (if i == 0 then c else s[1..][i - 1]);
      }
      if Begins(s, name) {
        assert forall i :: 0 <= i < |rest| ==> s[1..][i] == s[i + 1] && rest[i] == name[i + 1];
      }
    }
  }

  /** The variable after a dollar sign is the name there, or the one behind the brace there. */
  lemma {:induction false} VariableIs(s: string, name: string)
    ensures name in Variable(s) <==> NameAt(s, if s != [] && s[0] == '{' then 1 else 0, name)
  {
    var k := if s != [] && s[0] == '{' then 1 else 0;
    var rest := s[k..];
    TailIs(rest, name);
    if name != "" {
      assert forall i :: 0 <= i < |rest| ==> rest[i] == s[k + i];
      if rest != "" {
        assert NameStart(rest[0]) ==> Name(rest) == NameTail(rest);
      }
    }
  }

  // ---------------------------------------------------------------- the reference: pairs, left to right

  /** A left-to-right scanner: `$$` is a literal dollar sign, a single `$` starts a variable. */
  function Interpolated(s: string): set<string> {
    if s == [] then {}
    else if s[0] != '$' then Interpolated(s[1..])
    else if |s| > 1 && s[1] == '$' then Interpolated(s[2..])
    else Variable(s[1..]) + Interpolated(s[1..])
  }

  // ---------------------------------------------------------------- the variables by their places

  /** How many dollar signs end at `i`. */
  function DollarsBefore(s: string, i: nat): (n: nat)
    requires i <= |s|
    ensures n <= i
  {
    if i == 0 || s[i - 1] != '$' then 0 else 1 + DollarsBefore(s, i - 1)
  }

  /** An odd run of dollar signs ends at `i`, and the name follows it, perhaps behind a brace. */
  predicate VariableAt(s: string, i: nat, name: string) {
    && i <= |s| && (i < |s| ==> s[i] != '$') && DollarsBefore(s, i) % 2 == 1
    && NameAt(s, if i < |s| && s[i] == '{' then i + 1 else i, name)
  }

  lemma {:induction false} DollarsInRest(s: string, k: nat, i: nat)
    requires k <= i <= |s|
    ensures var n := DollarsBefore(s[k..], i - k);
      DollarsBefore(s, i) == if n == i - k then n + DollarsBefore(s, k) else n
  {
    if i > k {
      DollarsInRest(s, k, i - 1);
      assert s[k..][i - k - 1] == s[i - 1];
    }
  }

  lemma {:induction false} NameInRest(s: string, k: nat, i: nat, name: string)
    requires k <= i && k <= |s|
    ensures NameAt(s, i, name) <==> NameAt(s[k..], i - k, name)
  {
    assert forall j :: 0 <= j < |s| - k ==> s[k..][j] == s[k + j];
    if NameAt(s[k..], i - k, name) {
      forall j | 0 <= j < |name| ensures s[i + j] == name[j] {
        assert s[k..][i - k + j] == name[j];
      }
    }
  }

  /** Past dollar signs of an even number, or past one whose run has ended, nothing changes. */
  lemma {:induction false} VariableInRest(s: string, k: nat, i: nat, name: string)
    requires k <= i && k <= |s| && (DollarsBefore(s, k) % 2 == 0 || (k < i && k < |s| && s[k] != '$'))
    ensures VariableAt(s, i, name) <==> VariableAt(s[k..], i - k, name)
  {
    if i <= |s| {
      DollarsInRest(s, k, i);
      NameInRest(s, k, i, name);
      NameInRest(s, k, i + 1, name);
      if k < i && k < |s| && s[k] != '$' {
        DollarsInRest(s, k + 1, i);
        DollarsInRest(s[k..], 1, i - k);
      }
    }
  }

  /** How many characters the reference scanner takes at once. */
  function Taken(s: string): nat
    requires s != []
  {
    if |s| > 1 && s[0] == '$' && s[1] == '$' then 2 else 1
  }

  /** What is found in the rest is found behind more than its first character. */
  lemma {:induction false} PastTaken(s: string, i: nat, name: string)
    requires s != [] && Taken(s) < i
    ensures VariableAt(s, i, name) <==> VariableAt(s[Taken(s)..], i - Taken(s), name)
  {
    assert DollarsBefore(s, 1) == if s[0] == '$' then 1 else 0;
    if i <= |s| {
      VariableInRest(s, Taken(s), i, name);
    }
  }

  /** Where the first variable can be: behind a single dollar sign. */
  lemma {:induction false} WithinTaken(s: string, i: nat, name: string)
    requires s != [] && i <= Taken(s)
    ensures VariableAt(s, i, name) <==> i == 1 && s[0] == '$' && Taken(s) == 1 && name in Variable(s[1..])
  {
    assert DollarsBefore(s, 1) == if s[0] == '$' then 1 else 0;
    if i == 1 {
      VariableIs(s[1..], name);
      NameInRest(s, 1, 1, name);
      NameInRest(s, 1, 2, name);
    }
  }

  lemma {:induction false} AtIsFound(s: string, i: nat, name: string)
    requires VariableAt(s, i, name)
    ensures name in Interpolated(s)
  {
    var k := Taken(s);
    if i <= k {
      WithinTaken(s, i, name);
    } else {
      PastTaken(s, i, name);
      AtIsFound(s[k..], i - k, name);
    }
  }

  lemma {:induction false} FoundIsAt(s: string, name: string) returns (i: nat)
    requires name in Interpolated(s)
    ensures VariableAt(s, i, name)
  {
    var k := Taken(s);
    if name in Interpolated(s[k..]) {
      i := FoundIsAt(s[k..], name);
      i := i + k;
      PastTaken(s, i, name);
    } else {
      i := 1;
      WithinTaken(s, 1, name);
    }
  }

  /** The reference scanner finds the names after odd runs of dollar signs, and no others. */
  lemma {:induction false} InterpolatedIs(s: string, name: string)
    ensures name in Interpolated(s) <==> exists i :: VariableAt(s, i, name)
  {
    if name in Interpolated(s) {
      var i := FoundIsAt(s, name);
    }
    if exists i :: VariableAt(s, i, name) {
      var i :| VariableAt(s, i, name);
      AtIsFound(s, i, name);
    }
  }

  // ---------------------------------------------------------------- runs of dollar signs

  predicate AllDollars(s: string) {
    forall i :: 0 <= i < |s| ==> s[i] == '$'
  }

  /** A run of dollar signs interpolates what follows exactly when it is odd. */
  lemma {:induction false} RunInterpolates(run: string, rest: string)
    requires AllDollars(run) && (rest != [] ==> rest[0] != '$')
    ensures Interpolated(run + rest) == (if |run| % 2 == 1 then Variable(rest) else {}) + Interpolated(rest)
  {
    var s := run + rest;
    if |run| == 0 {
      assert s == rest;
    } else if |run| == 1 {
      assert s[1..] == rest;
    } else {
      RunInterpolates(run[2..], rest);
      assert s[2..] == run[2..] + rest;
    }
  }

  /** The scanner of the Compose source: it finds exactly the variables of the reference scanner,
      which are the names behind the odd runs of dollar signs. */
  method ComposeVariables(text: string) returns (variables: set<string>)
    ensures variables == Interpolated(text)
    ensures forall v :: v in variables <==> exists i :: VariableAt(text, i, v)
  {
    variables := {};
    var index := 0;
    assert text[0..] == text;
    while index < |text|
      invariant index <= |text|
      invariant Interpolated(text) == variables + Interpolated(text[index..])
    {
      ghost var rest := text[index..];
      if text[index] != '$' {
        assert rest[1..] == text[index + 1..];
        index := index + 1;
      } else {
        var runEnd := index;
        while runEnd < |text| && text[runEnd] == '$'
          invariant index <= runEnd <= |text|
          invariant forall k :: index <= k < runEnd ==> text[k] == '$'
        {
          runEnd := runEnd + 1;
        }
        assert rest == text[index..runEnd] + text[runEnd..];
        RunInterpolates(text[index..runEnd], text[runEnd..]);
        if (runEnd - index) % 2 == 1 {
          variables := variables + Variable(text[runEnd..]);
        }
        index := runEnd;
      }
    }
    forall v ensures v in variables <==> exists i :: VariableAt(text, i, v) {
      InterpolatedIs(text, v);
    }
  }

  // ---------------------------------------------------------------- literal paths

  /** Every dollar sign doubled. */
  function Doubled(s: string): string {
    if s == [] then []
    else DoubledChar(s[0]) + Doubled(s[1..])
  }

  function DoubledChar(c: char): string {
    if c == '$' then "$$" else [c]
  }

  /** What the decoder makes of a string, given what it decoded so far. */
  function HalvedFrom(s: string, decoded: string): Option<string> {
    if s == [] then Some(decoded)
    else if s[0] != '$' then HalvedFrom(s[1..], decoded + [s[0]])
    else if |s| < 2 || s[1] != '$' then None
    else HalvedFrom(s[2..], decoded + ['$'])
  }

  /** The decoder as a function: the empty string is no path. */
  function LiteralPath(value: string): Option<string> {
    if value == "" then None else HalvedFrom(value, "")
  }

  /** The decoder of literal paths. */
  method DecodeComposeLiteralPath(value: string) returns (path: Option<string>)
    ensures path == LiteralPath(value)
  {
    if value == "" {
      return None;
    }
    var decoded := "";
    var index := 0;
    assert value[0..] == value;
    while index < |value|
      invariant index <= |value|
      invariant HalvedFrom(value, "") == HalvedFrom(value[index..], decoded)
    {
      ghost var rest := value[index..];
      if value[index] != '$' {
        assert rest[1..] == value[index + 1..];
        decoded := decoded + [value[index]];
        index := index + 1;
      } else {
        if index + 1 >= |value| || value[index + 1] != '$' {
          return None;
        }
        assert rest[2..] == value[index + 2..];
        decoded := decoded + ['$'];
        index := index + 2;
      }
    }
    return Some(decoded);
  }

  /** Every maximal run of dollar signs is even. `open` is the parity of the run that ends at the
      start of `s`. */
  predicate EvenDollars(s: string, open: bool) {
    if s == [] then !open
    else if s[0] == '$' then EvenDollars(s[1..], !open)
    else !open && EvenDollars(s[1..], false)
  }

  lemma {:induction false} Associative(a: string, b: string, c: string)
    ensures a + (b + c) == (a + b) + c
  {
  }

  lemma {:induction false} DoubledAppend(a: string, b: string)
    ensures Doubled(a + b) == Doubled(a) + Doubled(b)
  {
    if a == [] {
      assert a + b == b;
    } else {
      var c, rest := a[0], a[1..];
      DoubledAppend(rest, b);
      assert (a + b)[1..] == rest + b;
      Associative(DoubledChar(c), Doubled(rest), Doubled(b));
    }
  }

  /** The decoder accepts exactly the strings whose dollar runs are even, and doubling what it
      decoded gives the string back. */
  lemma {:induction false} HalvedIsExact(s: string, decoded: string)
    ensures HalvedFrom(s, decoded).Some? <==> EvenDollars(s, false)
    ensures HalvedFrom(s, decoded).Some? ==> Doubled(HalvedFrom(s, decoded).value) == Doubled(decoded) + s
  {
    if s == [] {
      assert Doubled(decoded) + s == Doubled(decoded);
    } else if s[0] != '$' {
      HalvedIsExact(s[1..], decoded + [s[0]]);
      DoubledAppend(decoded, [s[0]]);
      assert Doubled([s[0]]) == [s[0]];
      assert Doubled(decoded) + [s[0]] + s[1..] == Doubled(decoded) + s;
    } else if |s| >= 2 && s[1] == '$' {
      HalvedIsExact(s[2..], decoded + ['$']);
      DoubledAppend(decoded, ['$']);
      assert Doubled(['$']) == "$$";
      assert s[1..][1..] == s[2..];
      assert Doubled(decoded) + "$$" + s[2..] == Doubled(decoded) + s;
    }
  }

  /** The decoder undoes doubling. */
  lemma {:induction false} HalvedDoubled(s: string, decoded: string)
    ensures HalvedFrom(Doubled(s), decoded) == Some(decoded + s)
  {
    if s == [] {
      assert decoded + s == decoded;
    } else {
      var d := Doubled(s);
      HalvedDoubled(s[1..], decoded + [s[0]]);
      assert decoded + [s[0]] + s[1..] == decoded + s;
      if s[0] == '$' {
        assert d[2..] == Doubled(s[1..]);
      } else {
        assert d[1..] == Doubled(s[1..]);
      }
    }
  }

  /** In every string that the decoder accepts, the scanner finds no variable. */
  lemma {:induction false} AcceptedHasNoVariable(s: string, decoded: string)
    requires HalvedFrom(s, decoded).Some?
    ensures Interpolated(s) == {}
  {
    if s != [] {
      if s[0] != '$' {
        AcceptedHasNoVariable(s[1..], decoded + [s[0]]);
      } else {
        AcceptedHasNoVariable(s[2..], decoded + ['$']);
      }
    }
  }

  /** The decoder accepts exactly the non-empty strings whose dollar runs are all even; doubling what
      it decoded gives the string back, and the scanner finds no variable in the string. */
  lemma {:induction false} LiteralPathIsExact(value: string)
    ensures LiteralPath(value).Some? <==> value != "" && EvenDollars(value, false)
    ensures LiteralPath(value).Some? ==> Doubled(LiteralPath(value).value) == value && Interpolated(value) == {}
  {
    if value != "" {
      HalvedIsExact(value, "");
      if LiteralPath(value).Some? {
        AcceptedHasNoVariable(value, "");
        assert Doubled("") + value == value;
      }
    }
  }

  /** Decoding a doubled path gives the path. */
  lemma {:induction false} LiteralPathOfDoubled(path: string)
    ensures LiteralPath(Doubled(path)) == if path == "" then None else Some(path)
  {
    if path != "" {
      HalvedDoubled(path, "");
      assert "" + path == path;
      assert Doubled(path)[0] == path[0];
    }
  }
}
