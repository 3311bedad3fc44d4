/** The search of a test report through its percent-decoded views, for any two decoders. */
module ReportScan {

  // ---------------------------------------------------------------- what can be decoded

  /** `v` comes from `text` by `rounds` decodings, each by either decoder. */
  ghost predicate Reaches<T(!new)>(f: T -> T, g: T -> T, text: T, v: T, rounds: nat) {
    if rounds == 0 then v == text
    else exists u :: Reaches(f, g, text, u, rounds - 1) && (v == f(u) || v == g(u))
  }

  /** Both decodings of `t` are among the views. */
  ghost predicate Covered<T(!new)>(f: T -> T, g: T -> T, t: T, views: set<T>) {
    f(t) in views && g(t) in views
  }

  ghost predicate Closed<T(!new)>(f: T -> T, g: T -> T, views: set<T>) {
    forall t {:trigger Covered(f, g, t, views)} :: t in views ==> Covered(f, g, t, views)
  }

  /** A closed set of views holds everything that any number of decodings reaches. */
  lemma {:induction false} ClosedHoldsAll<T(!new)>(f: T -> T, g: T -> T, views: set<T>, text: T, v: T, rounds: nat)
    requires Closed(f, g, views) && text in views && Reaches(f, g, text, v, rounds)
    ensures v in views
  {
    if rounds > 0 {
      var u :| Reaches(f, g, text, u, rounds - 1) && (v == f(u) || v == g(u));
      ClosedHoldsAll(f, g, views, text, u, rounds - 1);
      assert Covered(f, g, u, views);
    }
  }

  // ---------------------------------------------------------------- counting views

  function Image<T(!new, ==), U(!new, ==)>(f: T -> U, s: set<T>): set<U> {
    set t | t in s :: f(t)
  }

  lemma {:induction false} ImageSize<T(!new), U(!new)>(f: T -> U, s: set<T>)
    ensures |Image(f, s)| <= |s|
  {
    if s != {} {
      var x :| x in s;
      ImageSize(f, s - {x});
      assert Image(f, s) == Image(f, s - {x}) + {f(x)};
    } else {
      assert Image(f, s) == {};
    }
  }

  lemma {:induction false} SubsetSize<T>(a: set<T>, b: set<T>)
    requires a <= b
    ensures |a| <= |b|
  {
    if a != {} {
      var x :| x in a;
      SubsetSize(a - {x}, b - {x});
    }
  }

  /** The new texts that one round makes of the frontier. */
  function Fresh<T(!new, ==)>(f: T -> T, g: T -> T, frontier: set<T>, views: set<T>): set<T> {
    (set t | t in frontier && f(t) != t && f(t) !in views :: f(t))
    + (set t | t in frontier && g(t) != t && g(t) !in views :: g(t))
  }

  lemma FreshSize<T(!new)>(f: T -> T, g: T -> T, frontier: set<T>, views: set<T>)
    ensures |Fresh(f, g, frontier, views)| <= 2 * |frontier|
  {
    var a, b := Image(f, frontier), Image(g, frontier);
    ImageSize(f, frontier);
    ImageSize(g, frontier);
    SubsetSize(Fresh(f, g, frontier, views), a + b);
    assert |a + b| <= |a| + |b|;
  }

  // ---------------------------------------------------------------- the views

  datatype Views<T> = Views(all: set<T>, exceeded: bool) | TooMany

  ghost predicate ReachedWithin<T(!new)>(f: T -> T, g: T -> T, text: T, t: T, rounds: nat) {
    exists n: nat :: n <= rounds && Reaches(f, g, text, t, n)
  }

  /** After some rounds: the views are exactly the texts reached within them, the frontier is what
      the last round added, and every other view has its decodings among the views. */
  ghost predicate Explored<T(!new)>(f: T -> T, g: T -> T, text: T, views: set<T>, frontier: set<T>, rounds: nat) {
    && (forall t :: t in views <==> ReachedWithin(f, g, text, t, rounds))
    && (forall t :: t in frontier <==> t in views && (rounds > 0 ==> !ReachedWithin(f, g, text, t, rounds - 1)))
    && forall t {:trigger Covered(f, g, t, views)} :: t in views && t !in frontier ==> Covered(f, g, t, views)
  }

  lemma WithinMore<T(!new)>(f: T -> T, g: T -> T, text: T, t: T, rounds: nat)
    ensures ReachedWithin(f, g, text, t, rounds + 1) <==>
      || ReachedWithin(f, g, text, t, rounds)
      || exists u :: ReachedWithin(f, g, text, u, rounds) && (t == f(u) || t == g(u))
  {
    if ReachedWithin(f, g, text, t, rounds + 1) {
      var n: nat :| n <= rounds + 1 && Reaches(f, g, text, t, n);
      if n == rounds + 1 {
        var u :| Reaches(f, g, text, u, n - 1) && (t == f(u) || t == g(u));
        assert ReachedWithin(f, g, text, u, rounds);
      }
    }
    if ReachedWithin(f, g, text, t, rounds) {
      var n: nat :| n <= rounds && Reaches(f, g, text, t, n);
    }
    if exists u :: ReachedWithin(f, g, text, u, rounds) && (t == f(u) || t == g(u)) {
      var u :| ReachedWithin(f, g, text, u, rounds) && (t == f(u) || t == g(u));
      var n: nat :| n <= rounds && Reaches(f, g, text, u, n);
      assert Reaches(f, g, text, t, n + 1);
    }
  }

  lemma ExploreRound<T(!new)>(f: T -> T, g: T -> T, text: T, views: set<T>, frontier: set<T>, rounds: nat)
    requires Explored(f, g, text, views, frontier, rounds)
    ensures var added := Fresh(f, g, frontier, views);
      Explored(f, g, text, views + added, added, rounds + 1)
  {
    var added := Fresh(f, g, frontier, views);
    forall t | t in views
      ensures Covered(f, g, t, views + added)
    {
      if t in frontier {
        assert f(t) != t && f(t) !in views ==> f(t) in added;
        assert g(t) != t && g(t) !in views ==> g(t) in added;
      } else {
        assert Covered(f, g, t, views);
      }
    }
    forall t
      ensures t in views + added <==> ReachedWithin(f, g, text, t, rounds + 1)
      ensures t in added ==> t !in views
    {
      WithinMore(f, g, text, t, rounds);
      if t in added {
        var u :| u in frontier && (t == f(u) || t == g(u));
      }
      assert forall u :: ReachedWithin(f, g, text, u, rounds) ==> Covered(f, g, u, views + added);
    }
  }

  /** `t` takes two decodings and no fewer. */
  ghost predicate AtDepthTwo<T(!new)>(f: T -> T, g: T -> T, text: T, t: T) {
    ReachedWithin(f, g, text, t, 2) && !ReachedWithin(f, g, text, t, 1)
  }

  lemma StopsEarly<T(!new)>(f: T -> T, g: T -> T, text: T, views: set<T>, rounds: nat)
    requires Explored(f, g, text, views, {}, rounds + 1)
    ensures Closed(f, g, views)
    ensures Explored(f, g, text, views, {}, rounds + 2)
  {
    assert Fresh(f, g, {}, views) == {};
    assert views + Fresh(f, g, {}, views) == views;
    ExploreRound(f, g, text, views, {}, rounds + 1);
  }

  /** What two rounds of exploration say of the depth flag. */
  lemma TwoRounds<T(!new)>(f: T -> T, g: T -> T, text: T, views: set<T>, frontier: set<T>)
    requires Explored(f, g, text, views, frontier, 2)
    ensures forall t :: t in frontier <==> AtDepthTwo(f, g, text, t)
    ensures (forall t :: t in frontier ==> f(t) == t && g(t) == t) ==> Closed(f, g, views)
  {
    if forall t :: t in frontier ==> f(t) == t && g(t) == t {
      forall t | t in views
        ensures Covered(f, g, t, views)
      {
      }
    }
  }

  /** Two rounds of decoding. For any decoders the views are exactly the texts that at most two
      decodings reach; there are never more than seven, so the size guard never fires; and when the
      depth flag is unset, they are closed under both decoders. The flag is set exactly when some
      text at depth two is still changed by a decoder. */
  method DecodedViews<T(!new, ==)>(text: T, f: T -> T, g: T -> T) returns (v: Views<T>)
    ensures v.Views? && |v.all| <= 7
    ensures forall t :: t in v.all <==> ReachedWithin(f, g, text, t, 2)
    ensures !v.exceeded ==> Closed(f, g, v.all)
    ensures v.exceeded <==> exists t :: AtDepthTwo(f, g, text, t) && (f(t) != t || g(t) != t)
  {
    var views, frontier := {text}, {text};
    StartExplored(f, g, text);
    for round := 0 to 2
      invariant Explored(f, g, text, views, frontier, round)
      invariant |frontier| <= (if round == 0 then 1 else if round == 1 then 2 else 4)
      invariant |views| <= (if round == 0 then 1 else if round == 1 then 3 else 7)
    {
      var decoded := Fresh(f, g, frontier, views);
      FreshSize(f, g, frontier, views);
      ExploreRound(f, g, text, views, frontier, round);
      if decoded == {} {
        assert views + decoded == views;
        StopsEarly(f, g, text, views, round);
        if round == 0 {
          TwoRounds(f, g, text, views, {});
        } else {
          TwoRounds(f, g, text, views, decoded);
        }
        return Views(views, false);
      }
      assert |views + decoded| <= |views| + |decoded|;
      views := views + decoded;
      if |views| > 8 {
        return TooMany;
      }
      frontier := decoded;
    }
    TwoRounds(f, g, text, views, frontier);
    var exceeded := exists t :: t in frontier && (f(t) != t || g(t) != t);
    return Views(views, exceeded);
  }

  lemma StartExplored<T(!new)>(f: T -> T, g: T -> T, text: T)
    ensures Explored(f, g, text, {text}, {text}, 0)
  {
    forall t
      ensures t in {text} <==> ReachedWithin(f, g, text, t, 0)
    {
      assert Reaches(f, g, text, text, 0);
    }
  }

  // ---------------------------------------------------------------- the decoders of the program

  predicate Hex(c: char) {
    '0' <= c <= '9' || 'a' <= c <= 'f' || 'A' <= c <= 'F'
  }

  function Value(c: char): nat
    requires Hex(c)
  {
    if c <= '9' then c as nat - '0' as nat
    else if c <= 'F' then c as nat - 'A' as nat + 10
    else c as nat - 'a' as nat + 10
  }

  /** An escape of an ASCII character; escapes of other characters are copied here. */
  predicate Escaped(s: string) {
    |s| >= 3 && s[0] == '%' && Hex(s[1]) && Hex(s[2]) && 16 * Value(s[1]) + Value(s[2]) < 128
  }

  function Unquote(s: string): string {
    if s == [] then []
    else if Escaped(s) then [(16 * Value(s[1]) + Value(s[2])) as char] + Unquote(s[3..])
    else [s[0]] + Unquote(s[1..])
  }

  function UnquotePlus(s: string): string {
    Unquote(seq(|s|, i requires 0 <= i < |s| => if s[i] == '+' then ' ' else s[i]))
  }

  lemma {:induction false} UnquotePlain(s: string)
    requires '%' !in s
    ensures Unquote(s) == s
  {
    if s != [] {
      UnquotePlain(s[1..]);
    }
  }

  lemma {:induction false} UnquoteCopy(c: char, rest: string)
    requires c != '%'
    ensures Unquote([c] + rest) == [c] + Unquote(rest)
  {
    assert ([c] + rest)[1..] == rest;
  }

  lemma {:induction false} UnquoteEscape(a: char, b: char, rest: string)
    requires Hex(a) && Hex(b) && 16 * Value(a) + Value(b) < 128
    ensures Unquote(['%', a, b] + rest) == [(16 * Value(a) + Value(b)) as char] + Unquote(rest)
  {
    assert (['%', a, b] + rest)[3..] == rest;
  }

  /** One ordinary character, an escape, and a rest without escapes. */
  lemma {:induction false} UnquoteOne(s: string, c: char, a: char, b: char, rest: string, t: string)
    requires c != '%' && '%' !in rest && Hex(a) && Hex(b) && 16 * Value(a) + Value(b) < 128
    requires s == [c] + (['%', a, b] + rest) && t == [c] + ([(16 * Value(a) + Value(b)) as char] + rest)
    ensures Unquote(s) == t
  {
    UnquoteCopy(c, ['%', a, b] + rest);
    UnquoteEscape(a, b, rest);
    UnquotePlain(rest);
  }

  lemma {:induction false} Spaced(s: string, t: string)
    requires |s| == |t| && forall i :: 0 <= i < |s| ==> t[i] == if s[i] == '+' then ' ' else s[i]
    ensures UnquotePlus(s) == Unquote(t)
  {
    assert seq(|s|, i requires 0 <= i < |s| => if s[i] == '+' then ' ' else s[i]) == t;
  }

  lemma {:induction false} FirstRound()
    ensures Unquote("+%2541") == "+%41" && UnquotePlus("+%2541") == " %41"
  {
    Spaced("+%2541", " %2541");
    UnquoteOne("+%2541", '+', '2', '5', "41", "+%41");
    UnquoteOne(" %2541", ' ', '2', '5', "41", " %41");
  }

  lemma {:induction false} SecondRound()
    ensures Unquote("+%41") == "+A" && UnquotePlus("+%41") == " A"
    ensures Unquote(" %41") == " A" && UnquotePlus(" %41") == " A"
  {
    Spaced("+%41", " %41");
    Spaced(" %41", " %41");
    UnquoteOne("+%41", '+', '4', '1', "", "+A");
    UnquoteOne(" %41", ' ', '4', '1', "", " A");
  }

  lemma {:induction false} ThirdRound()
    ensures Unquote("+A") == "+A" && UnquotePlus("+A") == " A"
    ensures Unquote(" A") == " A" && UnquotePlus(" A") == " A"
  {
    Spaced("+A", " A");
    Spaced(" A", " A");
    UnquotePlain("+A");
    UnquotePlain(" A");
  }

  /** Five texts of which two rounds find all, and one at depth two leads to another of them. */
  lemma {:induction false} Cautious<T(!new)>(f: T -> T, g: T -> T, text: T, a: T, b: T, c: T, d: T)
    requires f(text) == a && g(text) == b && f(a) == c && g(a) == d && f(b) == d && g(b) == d
    requires f(c) == c && g(c) == d && f(d) == d && g(d) == d && c !in {text, a, b, d}
    ensures Closed(f, g, {text, a, b, c, d}) && AtDepthTwo(f, g, text, c) && g(c) != c
  {
    assert Reaches(f, g, text, text, 0);
    assert Reaches(f, g, text, a, 1);
    assert Reaches(f, g, text, c, 2);
    assert forall n: nat :: n <= 1 ==> !Reaches(f, g, text, c, n);
  }

  /** The flag is cautious: two rounds find everything that can be decoded from `+%2541`, and still
      the flag is set, because `+A` at depth two is changed, into a view that is already there. */
  lemma {:induction false} FlagIsCautious()
    ensures Closed(Unquote, UnquotePlus, {"+%2541", "+%41", " %41", "+A", " A"})
    ensures AtDepthTwo(Unquote, UnquotePlus, "+%2541", "+A") && UnquotePlus("+A") != "+A"
  {
    FirstRound();
    SecondRound();
    ThirdRound();
    assert |"+A"| == 2 && "+A"[0] != " A"[0];
    Cautious(Unquote, UnquotePlus, "+%2541", "+%41", " %41", "+A", " A");
  }

  // ---------------------------------------------------------------- the scan

  datatype Scan<R> = Rules(found: set<R>) | Undecided

  /** Some text within two decodings of one of the first `n` texts breaks the rule. */
  ghost predicate BrokenBy<T(!new), R(!new)>(f: T -> T, g: T -> T, texts: seq<T>, n: nat, broken: T -> set<R>, rule: R)
    requires n <= |texts|
  {
    exists i, v :: 0 <= i < n && ReachedWithin(f, g, texts[i], v, 2) && rule in broken(v)
  }

  /** No decoding of the text, of any depth, breaks any rule. */
  ghost predicate Clean<T(!new), R(!new)>(f: T -> T, g: T -> T, text: T, broken: T -> set<R>) {
    forall v, n: nat :: Reaches(f, g, text, v, n) ==> broken(v) == {}
  }

  /** Some text that takes two decodings is changed by a third. */
  ghost predicate GoesOn<T(!new)>(f: T -> T, g: T -> T, text: T) {
    exists t :: AtDepthTwo(f, g, text, t) && (f(t) != t || g(t) != t)
  }

  /** Every text, through all of its views. The verdict is exactly the rules that some text within
      two decodings of an input breaks; an empty verdict means that no text that any number of
      decodings makes of any input breaks a rule. There is no verdict exactly if no rule is broken
      within two decodings and some input can be decoded a third time. */
  method ScanTexts<T(!new, ==), R(!new, ==)>(texts: seq<T>, f: T -> T, g: T -> T, broken: T -> set<R>)
    returns (s: Scan<R>)
    ensures s == Rules({}) ==> forall i :: 0 <= i < |texts| ==> Clean(f, g, texts[i], broken)
    ensures s.Rules? ==> forall r :: r in s.found <==> BrokenBy(f, g, texts, |texts|, broken, r)
    ensures s.Undecided? <==>
      && (forall r :: !BrokenBy(f, g, texts, |texts|, broken, r))
      && exists i :: 0 <= i < |texts| && GoesOn(f, g, texts[i])
  {
    var rules: set<R>, exceeded := {}, false;
    for i := 0 to |texts|
      invariant forall r :: r in rules <==> BrokenBy(f, g, texts, i, broken, r)
      invariant exceeded <==> exists k :: 0 <= k < i && GoesOn(f, g, texts[k])
    {
      var views := DecodedViews(texts[i], f, g);
      exceeded := exceeded || views.exceeded;
      var found := set v, r | v in views.all && r in broken(v) :: r;
      FoundIsBroken(f, g, texts, i, views.all, broken, found);
      rules := rules + found;
    }
    if !exceeded && rules == {} {
      AllClean(f, g, texts, broken);
    }
    return if exceeded && rules == {} then Undecided else Rules(rules);
  }

  lemma FoundIsBroken<T(!new), R(!new)>(f: T -> T, g: T -> T, texts: seq<T>, i: nat, views: set<T>,
                                        broken: T -> set<R>, found: set<R>)
    requires i < |texts| && found == set v, r | v in views && r in broken(v) :: r
    requires forall t :: t in views <==> ReachedWithin(f, g, texts[i], t, 2)
    ensures forall r :: BrokenBy(f, g, texts, i + 1, broken, r) <==> BrokenBy(f, g, texts, i, broken, r) || r in found
  {
    forall r
      ensures BrokenBy(f, g, texts, i + 1, broken, r) <==> BrokenBy(f, g, texts, i, broken, r) || r in found
    {
      if r in found {
        var v :| v in views && r in broken(v);
        assert ReachedWithin(f, g, texts[i], v, 2);
      }
      if BrokenBy(f, g, texts, i + 1, broken, r) && !BrokenBy(f, g, texts, i, broken, r) {
        var k, v :| 0 <= k < i + 1 && ReachedWithin(f, g, texts[k], v, 2) && r in broken(v);
        assert k == i;
        assert v in views;
      }
    }
  }

  /** If nothing at depth two goes on, everything that decodings make is made by two of them. */
  lemma {:induction false} StaysWithin<T(!new)>(f: T -> T, g: T -> T, text: T, v: T, n: nat)
    requires !GoesOn(f, g, text) && Reaches(f, g, text, v, n)
    ensures ReachedWithin(f, g, text, v, 2)
  {
    if n > 0 {
      var u :| Reaches(f, g, text, u, n - 1) && (v == f(u) || v == g(u));
      StaysWithin(f, g, text, u, n - 1);
      WithinMore(f, g, text, v, 1);
      assert AtDepthTwo(f, g, text, u) ==> f(u) == u && g(u) == u;
    }
  }

  lemma {:induction false} AllClean<T(!new), R(!new)>(f: T -> T, g: T -> T, texts: seq<T>, broken: T -> set<R>)
    requires forall r :: !BrokenBy(f, g, texts, |texts|, broken, r)
    requires forall i :: 0 <= i < |texts| ==> !GoesOn(f, g, texts[i])
    ensures forall i :: 0 <= i < |texts| ==> Clean(f, g, texts[i], broken)
  {
    forall i, v, n: nat | 0 <= i < |texts| && Reaches(f, g, texts[i], v, n)
      ensures broken(v) == {}
    {
      StaysWithin(f, g, texts[i], v, n);
      assert forall r :: r in broken(v) ==> BrokenBy(f, g, texts, |texts|, broken, r);
    }
  }
}
