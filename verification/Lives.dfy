/** Any number of runs of the program, one after the other, each ending when it returns or dies. */
module Lives {
  import opened Options
  import opened Documents
  import opened Recovery
  import opened Protocol
  import opened WebPromotion
  import opened Runs

  /** A run of the program: what was asked for, whether that release passes its checks, what the
      program reported. */
  datatype Ended = Ended(request: Request, good: bool, report: Report)

  /** Directory `t[i]` is what run `i` finds; temporary files that an operator removed in between do
      not count. */
  ghost predicate History(t: seq<Directory>, runs: seq<Ended>) {
    && |t| == |runs| + 1
    && Sound(t[0])
    && (forall i :: 0 <= i < |runs| ==> Life(t[i], t[i + 1], runs[i].request, runs[i].report))
    && forall i :: 0 <= i < |runs| && !runs[i].good ==> Keeps(t[i], t[i + 1])
  }

  /** What a run does with a release that fails a check. */
  ghost predicate Keeps(d: Directory, e: Directory) {
    Sound(d) && Sound(e) ==> Installed(e) == Installed(d)
  }

  lemma {:induction false} HistorySound(t: seq<Directory>, runs: seq<Ended>, i: nat)
    requires History(t, runs) && i < |t|
    ensures Sound(t[i])
  {
    if i > 0 {
      assert Life(t[i - 1], t[i], runs[i - 1].request, runs[i - 1].report);
    }
  }

  lemma ForwardedKeepsApi(p: Pair, q: Pair, request: Request)
    requires Forwarded(p, q, request)
    ensures ApiOfPair(q) == ApiOfPair(p)
  {
  }

  lemma RestIsInstalled(d: Directory)
    requires Sound(d) && !Held(d)
    ensures d == map[SelectionPath := Installed(d).selection, ManifestPath := Installed(d).manifest]
  {
  }

  /** The installed pairs of a history, run by run. */
  ghost predicate Account(pairs: seq<Pair>, runs: seq<Ended>) {
    && |pairs| == |runs| + 1
    && forall i :: 0 <= i < |runs| ==>
         pairs[i + 1] == pairs[i] || (runs[i].good && Forwarded(pairs[i], pairs[i + 1], runs[i].request))
  }

  lemma HistoryAccount(t: seq<Directory>, runs: seq<Ended>) returns (pairs: seq<Pair>)
    requires History(t, runs)
    ensures Account(pairs, runs)
    ensures forall i :: 0 <= i < |t| ==> Sound(t[i]) && pairs[i] == Installed(t[i])
  {
    forall i | 0 <= i < |t|
      ensures Sound(t[i])
    {
      HistorySound(t, runs, i);
    }
    pairs := seq(|t|, i requires 0 <= i < |t| && Sound(t[i]) => Installed(t[i]));
    forall i | 0 <= i < |runs|
      ensures pairs[i + 1] == pairs[i] || (runs[i].good && Forwarded(pairs[i], pairs[i + 1], runs[i].request))
    {
      assert !runs[i].good ==> Keeps(t[i], t[i + 1]);
      assert Life(t[i], t[i + 1], runs[i].request, runs[i].report);
    }
  }

  lemma {:induction false} AccountKeepsApi(pairs: seq<Pair>, runs: seq<Ended>, i: nat)
    requires Account(pairs, runs) && i < |pairs|
    ensures ApiOfPair(pairs[i]) == ApiOfPair(pairs[0])
  {
    if i > 0 {
      AccountKeepsApi(pairs, runs, i - 1);
      if pairs[i - 1 + 1] != pairs[i - 1] {
        ForwardedKeepsApi(pairs[i - 1], pairs[i], runs[i - 1].request);
      }
    }
  }

  /** However many runs there were and however they ended, the API is the one of the first
      directory, the installed pair is coherent, and a directory without a journal holds exactly
      that pair. */
  lemma HistoryKeepsApi(t: seq<Directory>, runs: seq<Ended>, i: nat)
    requires History(t, runs) && i < |t|
    ensures Sound(t[i]) && ApiOfPair(Installed(t[i])) == ApiOfPair(Installed(t[0]))
    ensures Coherent(Installed(t[i]).selection.payload, Installed(t[i]).manifest.payload)
    ensures !Held(t[i]) ==>
      t[i] == map[SelectionPath := Installed(t[i]).selection, ManifestPath := Installed(t[i]).manifest]
  {
    var pairs := HistoryAccount(t, runs);
    AccountKeepsApi(pairs, runs, i);
    InstalledCoherent(t[i]);
    if !Held(t[i]) {
      RestIsInstalled(t[i]);
    }
  }

  /** The last run that changed the pair, counted from one; zero if none did. */
  function LastChange(pairs: seq<Pair>): (k: nat)
    requires pairs != []
    ensures k < |pairs|
    ensures forall i :: k <= i < |pairs| ==> pairs[i] == pairs[|pairs| - 1]
    ensures k > 0 ==> pairs[k - 1] != pairs[k]
  {
    var n := |pairs| - 1;
    if n == 0 then 0
    else if pairs[n] != pairs[n - 1] then n
    else LastChange(pairs[..n])
  }

  /** The installed selection has the Web image of the request beside the given API. */
  predicate Serving(p: Pair, request: Request, api: Option<Api>) {
    && p.selection.payload.SelectionText?
    && WebOf(p.selection.payload.selection) == Web(request.webImage, request.webImageId, request.webRevision)
    && Some(ApiOf(p.selection.payload.selection)) == api
  }

  /** A promotion that succeeds installs the Web image that was asked for, and no other API. */
  lemma PromotedIsServing(d: Directory, e: Directory, request: Request)
    requires Life(d, e, request, Promoted)
    ensures Serving(Installed(e), request, ApiOfPair(Installed(d)))
  {
  }

  /** The installed pair is never a mixture of requests: it is the initial pair, or the whole work of
      one run with a release that passed its checks, and every later run kept it. */
  lemma OneRequestInstalled(t: seq<Directory>, runs: seq<Ended>) returns (k: nat)
    requires History(t, runs)
    ensures k <= |runs| && forall i :: 0 <= i < |t| ==> Sound(t[i])
    ensures k == 0 ==> Installed(t[|runs|]) == Installed(t[0])
    ensures k > 0 ==> Forwarded(Installed(t[k - 1]), Installed(t[|runs|]), runs[k - 1].request)
    ensures k > 0 ==> runs[k - 1].good
    ensures k > 0 ==> Serving(Installed(t[|runs|]), runs[k - 1].request, ApiOfPair(Installed(t[0])))
    ensures forall i :: k <= i < |runs| ==> Installed(t[i]) == Installed(t[|runs|])
  {
    var pairs := HistoryAccount(t, runs);
    k := LastChange(pairs);
    if k > 0 {
      assert pairs[k - 1 + 1] == pairs[k - 1] ||
        (runs[k - 1].good && Forwarded(pairs[k - 1], pairs[k - 1 + 1], runs[k - 1].request));
      AccountKeepsApi(pairs, runs, k - 1);
    }
  }

  /** The program keeps to the protocol: whatever the ends of its runs, each directory that one of
      them leaves is one that a run of the protocol reaches from the first directory. */
  lemma {:induction false} HistoryFollowsProtocol(t: seq<Directory>, runs: seq<Ended>, i: nat)
    requires History(t, runs) && i < |t|
    ensures Arrives(t[0], t[i])
  {
    if i > 0 {
      HistoryFollowsProtocol(t, runs, i - 1);
      assert Life(t[i - 1], t[i - 1 + 1], runs[i - 1].request, runs[i - 1].report);
      ArrivesOn(t[0], t[i - 1], t[i]);
    }
  }

  /** So the pair of files that a directory stands for is what the committing journals of that run
      wrote, and nothing else. */
  lemma HistoryRegister(t: seq<Directory>, runs: seq<Ended>, i: nat) returns (u: seq<Directory>, events: seq<Event>)
    requires History(t, runs) && i < |t|
    ensures Sound(t[0]) && Sound(t[i]) && RunBetween(u, events, t[0], t[i])
    ensures Installed(t[i]) == Register(Installed(t[0]), events)
  {
    HistoryFollowsProtocol(t, runs, i);
    LeadsToItself(t[0]);
    u, events :| RunBetween(u, events, t[0], t[i]);
    DirectoryRefinesRegister(u, events, |events|);
    assert events[..|events|] == events;
  }

  /** And whatever a run of the protocol promises holds in every directory that the program leaves,
      at every point at which it may die. */
  lemma HistoryPromises(t: seq<Directory>, runs: seq<Ended>, i: nat)
    requires History(t, runs) && i < |t|
    ensures Sound(t[i]) && (Held(t[i]) ==> WrittenAhead(t[i]) && NothingLost(t[i]) && OneAuthority(t[i]))
  {
    HistorySound(t, runs, i);
    if Held(t[i]) {
      SoundPromises(t[i]);
    }
  }

  // ---------------------------------------------------------------- selection texts

  /** A run of the program that starts without a journal and dies with one leaves a directory that a
      restart admits exactly if the selection it found was a closed text. */
  lemma CrashIsRestartable(d: Directory, e: Directory, request: Request, report: Report)
    requires Life(d, e, request, report) && !Held(d) && Held(e)
    ensures Restartable(e) <==> Closed(d[SelectionPath].payload)
  {
  }

  /** A successful promotion leaves a closed text, whatever it found. */
  lemma PromotionTames(d: Directory, e: Directory, request: Request)
    requires Life(d, e, request, Promoted)
    ensures Tame(e)
  {
  }

  /** Once the selection is a closed text, a restart admits whatever any later runs leave. */
  lemma HistoryRestartable(t: seq<Directory>, runs: seq<Ended>, i: nat)
    requires History(t, runs) && i < |t| && Tame(t[0])
    ensures Tame(t[i])
  {
    HistoryFollowsProtocol(t, runs, i);
    if t[i] != t[0] {
      var u, events :| RunBetween(u, events, t[0], t[i]);
      TameForever(u, events, |events|);
    }
  }

  /** A directory with a journal that no restart admits stays as it is, over any number of runs. */
  lemma {:induction false} StuckHistory(t: seq<Directory>, runs: seq<Ended>, k: nat, i: nat)
    requires History(t, runs) && k <= i < |t| && Sound(t[k]) && !Restartable(t[k])
    ensures t[i] == t[k]
    decreases i
  {
    if k < i {
      StuckHistory(t, runs, k, i - 1);
      assert Life(t[i - 1], t[i - 1 + 1], runs[i - 1].request, runs[i - 1].report);
    }
  }
}
