/** Freezing and verifying agree: a manifest that was frozen verifies as long as no recorded file
    changes, and does not verify once one has changed. */
module FreezeVerify {
  import opened Options
  import opened Documents
  import opened FrozenManifest

  /** An absolute path is a fixed point of making paths absolute. */
  predicate FixedPath(sys: System, now: Moment, path: string) {
    now.abspath(path) == path && sys.isAbsolute(path)
  }

  ghost predicate Lawful(sys: System, now: Moment) {
    forall t {:trigger now.abspath(t)} :: FixedPath(sys, now, now.abspath(t))
  }

  // ---------------------------------------------------------------- reading an input again

  lemma {:induction false} SameAgain(sys: System, now: Moment, tree: Tree, w: Want)
    requires Lawful(sys, now)
    ensures var again := Again(Observe(sys, now, tree, w));
      && Observe(sys, now, tree, again) == Observe(sys, now, tree, w)
      && forall seen :: TakeOne(sys, now, tree, again, seen) == TakeOne(sys, now, tree, w, seen)
  {
    assert FixedPath(sys, now, now.abspath(w.path));
  }

  lemma {:induction false} ObservedAgain(sys: System, now: Moment, tree: Tree, ws: seq<Want>)
    requires Lawful(sys, now)
    ensures ObserveAll(sys, now, tree, AllAgain(ObserveAll(sys, now, tree, ws))) == ObserveAll(sys, now, tree, ws)
  {
    forall i | 0 <= i < |ws|
      ensures Observe(sys, now, tree, AllAgain(ObserveAll(sys, now, tree, ws))[i]) == Observe(sys, now, tree, ws[i])
    {
      SameAgain(sys, now, tree, ws[i]);
    }
  }

  lemma {:induction false} TakenAgain(sys: System, now: Moment, tree: Tree, ws: seq<Want>, seen: Option<set<Inode>>)
    requires Lawful(sys, now)
    ensures TakeInputs(sys, now, tree, AllAgain(ObserveAll(sys, now, tree, ws)), seen) ==
      TakeInputs(sys, now, tree, ws, seen)
  {
    if ws != [] {
      var init, w := ws[..|ws| - 1], ws[|ws| - 1];
      var again := AllAgain(ObserveAll(sys, now, tree, ws));
      assert again[..|again| - 1] == AllAgain(ObserveAll(sys, now, tree, init));
      TakenAgain(sys, now, tree, init, seen);
      SameAgain(sys, now, tree, w);
    }
  }

  // ---------------------------------------------------------------- the two orders of reading

  lemma {:induction false} LastOfAppend<T>(a: seq<T>, b: seq<T>)
    requires b != []
    ensures a + b != [] && (a + b)[..|a + b| - 1] == a + b[..|b| - 1] && (a + b)[|a + b| - 1] == b[|b| - 1]
  {
  }

  lemma {:induction false} TakeInputsAppend(sys: System, now: Moment, tree: Tree, a: seq<Want>, b: seq<Want>,
                                            seen: Option<set<Inode>>)
    ensures TakeInputs(sys, now, tree, a + b, seen) ==
      TakeInputs(sys, now, tree, b, TakeInputs(sys, now, tree, a, seen))
  {
    if b == [] {
      assert a + b == a;
    } else {
      LastOfAppend(a, b);
      TakeInputsAppend(sys, now, tree, a, b[..|b| - 1], seen);
    }
  }

  predicate NoReferences(ws: seq<Want>) {
    forall i :: 0 <= i < |ws| ==> ReferencedRoles(ws[i].role) == []
  }

  lemma {:induction false} TakeWithoutReferences(sys: System, now: Moment, tree: Tree, ws: seq<Want>,
                                                 seen: Option<set<Inode>>)
    requires NoReferences(ws)
    ensures TakeInputs(sys, now, tree, ws, seen) == TakeAll(sys, now, tree, ws, seen)
  {
    if ws != [] {
      TakeWithoutReferences(sys, now, tree, ws[..|ws| - 1], seen);
      assert OwnReferences(sys, Observe(sys, now, tree, ws[|ws| - 1])) == [];
    }
  }

  lemma {:induction false} TakeOneCommutes(sys: System, now: Moment, tree: Tree, v: Want, w: Want,
                                           seen: Option<set<Inode>>)
    ensures TakeOne(sys, now, tree, v, TakeOne(sys, now, tree, w, seen)) ==
      TakeOne(sys, now, tree, w, TakeOne(sys, now, tree, v, seen))
  {
    if seen.Some? && Key(sys, now, v.path) in tree && Key(sys, now, w.path) in tree {
      var i, j := tree[Key(sys, now, v.path)].inode, tree[Key(sys, now, w.path)].inode;
      assert seen.value + {i} + {j} == seen.value + {j} + {i};
    }
  }

  /** It does not matter when the bootstrap file is read. */
  lemma {:induction false} TakeCommutes(sys: System, now: Moment, tree: Tree, w: Want, ws: seq<Want>,
                                        seen: Option<set<Inode>>)
    ensures TakeOne(sys, now, tree, w, TakeAll(sys, now, tree, ws, seen)) ==
      TakeAll(sys, now, tree, ws, TakeOne(sys, now, tree, w, seen))
  {
    if ws != [] {
      var init := ws[..|ws| - 1];
      TakeCommutes(sys, now, tree, w, init, seen);
      TakeOneCommutes(sys, now, tree, w, ws[|ws| - 1], TakeAll(sys, now, tree, init, seen));
    }
  }

  /** Verifying takes the files that freezing took, in another order. */
  lemma {:induction false} SameFilesTaken(sys: System, now: Moment, tree: Tree, compose: seq<Want>, env: seq<Want>)
    requires Lawful(sys, now) && NoReferences(compose)
    ensures VerifyInodes(sys, now, tree, ObserveAll(sys, now, tree, compose) + ObserveAll(sys, now, tree, env)) ==
      FreezeOrder(sys, now, tree, compose, env)
  {
    var c, e := ObserveAll(sys, now, tree, compose), ObserveAll(sys, now, tree, env);
    var first := TakeOne(sys, now, tree, Bootstrap(sys), Some({}));
    assert AllAgain(c + e) == AllAgain(c) + AllAgain(e);
    TakeInputsAppend(sys, now, tree, AllAgain(c), AllAgain(e), first);
    TakenAgain(sys, now, tree, compose, first);
    TakeWithoutReferences(sys, now, tree, compose, first);
    TakeCommutes(sys, now, tree, Bootstrap(sys), compose, Some({}));
    TakenAgain(sys, now, tree, env, TakeAll(sys, now, tree, compose, first));
  }

  // ---------------------------------------------------------------- the shape of a frozen manifest

  predicate Quiet(r: Record) {
    ReferencedRoles(r.role) == []
  }

  lemma {:induction false} QuietReferences(sys: System, records: seq<Record>)
    requires forall i :: 0 <= i < |records| ==> Quiet(records[i])
    ensures References(sys, records) == []
  {
    if records != [] {
      QuietReferences(sys, records[..|records| - 1]);
      assert Quiet(records[|records| - 1]);
    }
  }

  lemma {:induction false} OneReferrer(sys: System, records: seq<Record>, k: nat)
    requires k < |records| && forall i :: 0 <= i < |records| && i != k ==> Quiet(records[i])
    ensures References(sys, records) == OwnReferences(sys, records[k])
  {
    var init, last := records[..|records| - 1], records[|records| - 1];
    if k == |records| - 1 {
      QuietReferences(sys, init);
    } else {
      OneReferrer(sys, init, k);
      assert Quiet(last);
    }
  }

  predicate HasRoles(records: seq<Record>, roles: seq<(Role, bool)>) {
    |records| == |roles| && forall i :: 0 <= i < |roles| ==> records[i].role == roles[i].0
  }

  /** The one environment file that may refer to others. */
  function Referrer(s: Settings): nat {
    if s.mode.VerifyMode? || s.mode.CiMode? then 0 else 1
  }

  lemma {:induction false} OthersAreQuiet(s: Settings, i: nat)
    requires EnvRoles(s).Some? && i < |EnvRoles(s).value| && i != Referrer(s)
    ensures ReferencedRoles(EnvRoles(s).value[i].0) == []
  {
  }

  lemma {:induction false} ExpectedOfReferrer(s: Settings)
    requires EnvRoles(s).Some?
    ensures Referrer(s) < |EnvRoles(s).value|
    ensures ExpectedReferences(EnvRoles(s).value) == ReferencedRoles(EnvRoles(s).value[Referrer(s)].0)
  {
    var roles, k := EnvRoles(s).value, Referrer(s);
    assert roles[k].0.SecretPaths? || roles[k].0.ProductionFiles? || ReferencedRoles(roles[k].0) == [];
    forall i | 0 <= i < |roles| && i != k ensures !roles[i].0.SecretPaths? && !roles[i].0.ProductionFiles? {
      OthersAreQuiet(s, i);
    }
  }

  /** The files that the environment files refer to have the roles that the settings call for. */
  lemma {:induction false} ReferenceRoles(sys: System, s: Settings, env: seq<Record>)
    requires EnvRoles(s).Some? && HasRoles(env, EnvRoles(s).value)
    ensures var refs, roles := References(sys, env), ExpectedReferences(EnvRoles(s).value);
      |refs| == |roles| && forall i :: 0 <= i < |roles| ==> refs[i].role == roles[i] && refs[i].sensitive
  {
    var k := Referrer(s);
    ExpectedOfReferrer(s);
    forall i | 0 <= i < |env| && i != k ensures Quiet(env[i]) {
      OthersAreQuiet(s, i);
    }
    OneReferrer(sys, env, k);
  }

  lemma {:induction false} FrozenIsStructured(sys: System, now: Moment, tree: Tree, s: Settings, paths: seq<string>)
    requires Freezable(sys, now, tree, s, paths)
    ensures Structured(sys, Frozen(sys, now, tree, s, paths))
  {
    var env := ObserveAll(sys, now, tree, EnvWants(s, paths));
    ReferenceRoles(sys, s, env);
    ReferencedShape(sys, now, tree, References(sys, env), ExpectedReferences(EnvRoles(s).value));
  }

  lemma {:induction false} ReferencedShape(sys: System, now: Moment, tree: Tree, refs: seq<Want>, roles: seq<Role>)
    requires |refs| == |roles| && forall i :: 0 <= i < |roles| ==> refs[i].role == roles[i] && refs[i].sensitive
    ensures var records, all := ObserveAll(sys, now, tree, [Bootstrap(sys)] + refs), [DatabaseBootstrap] + roles;
      |records| == |all| && forall i :: 0 <= i < |all| ==> records[i].role == all[i] && records[i].sensitive == (i > 0)
  {
  }

  // ---------------------------------------------------------------- agreement

  /** In continuous integration the selection is where it must be, not only written as it must be. */
  predicate ExactSelection(sys: System, now: Moment, s: Settings, ws: seq<Want>) {
    s.mode.CiMode? ==>
      forall i :: 0 <= i < |ws| && ws[i].role.ImageSelection? ==>
        sys.normcase(now.abspath(ws[i].path)) == sys.normcase(sys.selectionPath(s))
  }

  lemma {:induction false} AcceptedAgain(sys: System, now: Moment, tree: Tree, s: Settings, w: Want)
    requires Lawful(sys, now) && Accepted(sys, now, tree, s, w)
    ensures Accepted(sys, now, tree, s, Again(Observe(sys, now, tree, w))) <==> ExactSelection(sys, now, s, [w])
  {
    assert FixedPath(sys, now, now.abspath(w.path));
    assert [w][0] == w;
  }

  lemma {:induction false} AllAcceptedAgain(sys: System, now: Moment, tree: Tree, s: Settings, ws: seq<Want>)
    requires Lawful(sys, now) && AllAccepted(sys, now, tree, s, ws)
    ensures AllAccepted(sys, now, tree, s, AllAgain(ObserveAll(sys, now, tree, ws))) <==>
      ExactSelection(sys, now, s, ws)
  {
    var again := AllAgain(ObserveAll(sys, now, tree, ws));
    forall i | 0 <= i < |ws|
      ensures Accepted(sys, now, tree, s, again[i]) <==> ExactSelection(sys, now, s, [ws[i]])
    {
      AcceptedAgain(sys, now, tree, s, ws[i]);
    }
    if ExactSelection(sys, now, s, ws) {
      assert forall i :: 0 <= i < |ws| ==> ExactSelection(sys, now, s, [ws[i]]);
    }
    if AllAccepted(sys, now, tree, s, again) {
      forall i | 0 <= i < |ws| ensures ExactSelection(sys, now, s, [ws[i]]) {
        assert Accepted(sys, now, tree, s, again[i]);
      }
      assert forall i :: 0 <= i < |ws| ==> [ws[i]][0] == ws[i];
    }
  }

  lemma {:induction false} ComposeIsPlain(sys: System, now: Moment, s: Settings)
    ensures NoReferences(ComposeWants(sys, s)) && ExactSelection(sys, now, s, ComposeWants(sys, s))
    ensures forall i :: 0 <= i < |ComposeWants(sys, s)| ==> IsCompose(ComposeWants(sys, s)[i].role)
  {
    if ComposeRoles(s).Some? {
      ComposeRolesAreCompose(s);
    }
  }

  lemma {:induction false} AcceptedAppend(sys: System, now: Moment, tree: Tree, s: Settings, a: seq<Want>, b: seq<Want>)
    ensures AllAccepted(sys, now, tree, s, a + b) <==>
      AllAccepted(sys, now, tree, s, a) && AllAccepted(sys, now, tree, s, b)
  {
    if AllAccepted(sys, now, tree, s, a + b) {
      assert forall i :: 0 <= i < |a| ==> a[i] == (a + b)[i];
      assert forall i :: 0 <= i < |b| ==> b[i] == (a + b)[|a| + i];
    }
  }

  lemma {:induction false} PlainPrefix(sys: System, a: seq<Record>, b: seq<Record>)
    requires forall i :: 0 <= i < |a| ==> IsCompose(a[i].role)
    ensures Payloads(a + b) == Payloads(b) && References(sys, a + b) == References(sys, b)
  {
    if b != [] {
      LastOfAppend(a, b);
      PlainPrefix(sys, a, b[..|b| - 1]);
    } else {
      assert a + b == a;
      if a != [] {
        var init := a[..|a| - 1];
        PlainPrefix(sys, init, []);
        assert init + [] == init;
        assert OwnReferences(sys, a[|a| - 1]) == [];
      }
    }
  }

  /** A manifest that was just frozen verifies, except in continuous integration when the selection's
      path, as it was given, looks right but leads elsewhere: exactly then it does not. */
  lemma {:induction false} FrozenVerifies(sys: System, now: Moment, tree: Tree, s: Settings, paths: seq<string>)
    requires Lawful(sys, now) && Freezable(sys, now, tree, s, paths)
    ensures Verifies(sys, now, tree, Frozen(sys, now, tree, s, paths)) <==>
      ExactSelection(sys, now, s, EnvWants(s, paths))
  {
    ComposeIsPlain(sys, now, s);
    FrozenIsStructured(sys, now, tree, s, paths);
    FilesVerifyAgain(sys, now, tree, s, ComposeWants(sys, s), EnvWants(s, paths));
  }

  lemma {:induction false} FilesVerifyAgain(sys: System, now: Moment, tree: Tree, s: Settings, compose: seq<Want>,
                                            env: seq<Want>)
    requires Lawful(sys, now) && NoReferences(compose) && forall i :: 0 <= i < |compose| ==> IsCompose(compose[i].role)
    requires AllAccepted(sys, now, tree, s, compose) && AllAccepted(sys, now, tree, s, env)
    requires FreezeOrder(sys, now, tree, compose, env).Some?
    requires now.crossRoleOk(Payloads(ObserveAll(sys, now, tree, env)), s.secretMode)
    ensures var e := ObserveAll(sys, now, tree, env);
      var refs := ObserveAll(sys, now, tree, [Bootstrap(sys)] + References(sys, e));
      FilesVerify(sys, now, tree, Manifest(s, ObserveAll(sys, now, tree, compose), e, refs)) <==>
        ExactSelection(sys, now, s, compose) && ExactSelection(sys, now, s, env)
  {
    var c, e := ObserveAll(sys, now, tree, compose), ObserveAll(sys, now, tree, env);
    assert AllAgain(c + e) == AllAgain(c) + AllAgain(e);
    ObserveAppend(sys, now, tree, AllAgain(c), AllAgain(e));
    ObservedAgain(sys, now, tree, compose);
    ObservedAgain(sys, now, tree, env);
    AcceptedAppend(sys, now, tree, s, AllAgain(c), AllAgain(e));
    AllAcceptedAgain(sys, now, tree, s, compose);
    AllAcceptedAgain(sys, now, tree, s, env);
    SameFilesTaken(sys, now, tree, compose, env);
    PlainPrefix(sys, c, e);
  }

  // ---------------------------------------------------------------- what was taken is there

  predicate Taken(sys: System, now: Moment, tree: Tree, w: Want, inodes: set<Inode>) {
    Key(sys, now, w.path) in tree && tree[Key(sys, now, w.path)].inode in inodes
  }

  predicate AllTaken(sys: System, now: Moment, tree: Tree, ws: seq<Want>, inodes: set<Inode>) {
    forall i :: 0 <= i < |ws| ==> Taken(sys, now, tree, ws[i], inodes)
  }

  lemma {:induction false} TakenMore(sys: System, now: Moment, tree: Tree, ws: seq<Want>, inodes: set<Inode>,
                                     more: set<Inode>)
    requires AllTaken(sys, now, tree, ws, inodes) && inodes <= more
    ensures AllTaken(sys, now, tree, ws, more)
  {
  }

  lemma {:induction false} TakenAppend(sys: System, now: Moment, tree: Tree, a: seq<Want>, b: seq<Want>,
                                       inodes: set<Inode>)
    requires AllTaken(sys, now, tree, a, inodes) && AllTaken(sys, now, tree, b, inodes)
    ensures AllTaken(sys, now, tree, a + b, inodes)
  {
  }

  lemma {:induction false} AllAreTaken(sys: System, now: Moment, tree: Tree, ws: seq<Want>, seen: Option<set<Inode>>)
    requires TakeAll(sys, now, tree, ws, seen).Some?
    ensures seen.Some? && seen.value <= TakeAll(sys, now, tree, ws, seen).value
    ensures AllTaken(sys, now, tree, ws, TakeAll(sys, now, tree, ws, seen).value)
  {
    if ws != [] {
      var init, w := ws[..|ws| - 1], ws[|ws| - 1];
      AllAreTaken(sys, now, tree, init, seen);
      var inodes := TakeAll(sys, now, tree, ws, seen).value;
      TakenMore(sys, now, tree, init, TakeAll(sys, now, tree, init, seen).value, inodes);
      assert Taken(sys, now, tree, w, inodes);
      TakenAppend(sys, now, tree, init, [w], inodes);
      assert init + [w] == ws;
    }
  }

  /** One input and what it refers to. */
  lemma {:induction false} InputIsTaken(sys: System, now: Moment, tree: Tree, w: Want, own: seq<Want>,
                                        before: Option<set<Inode>>)
    requires TakeAll(sys, now, tree, own, TakeOne(sys, now, tree, w, before)).Some?
    ensures before.Some?
    ensures var inodes := TakeAll(sys, now, tree, own, TakeOne(sys, now, tree, w, before)).value;
      && before.value <= inodes && AllTaken(sys, now, tree, [w], inodes) && AllTaken(sys, now, tree, own, inodes)
  {
    AllAreTaken(sys, now, tree, own, TakeOne(sys, now, tree, w, before));
  }

  lemma {:induction false} TakenTogether(sys: System, now: Moment, tree: Tree, a: seq<Want>, b: seq<Want>,
                                         inodes: set<Inode>, more: set<Inode>)
    requires AllTaken(sys, now, tree, a, inodes) && inodes <= more && AllTaken(sys, now, tree, b, more)
    ensures AllTaken(sys, now, tree, a + b, more)
  {
    TakenMore(sys, now, tree, a, inodes, more);
    TakenAppend(sys, now, tree, a, b, more);
  }

  lemma {:induction false} InputsAreTaken(sys: System, now: Moment, tree: Tree, ws: seq<Want>, seen: Option<set<Inode>>)
    requires TakeInputs(sys, now, tree, ws, seen).Some?
    ensures seen.Some? && seen.value <= TakeInputs(sys, now, tree, ws, seen).value
    ensures var inodes := TakeInputs(sys, now, tree, ws, seen).value;
      AllTaken(sys, now, tree, ws, inodes) &&
      AllTaken(sys, now, tree, References(sys, ObserveAll(sys, now, tree, ws)), inodes)
  {
    if ws != [] {
      var k := |ws| - 1;
      var init, w := ws[..k], ws[k];
      var own := OwnReferences(sys, Observe(sys, now, tree, w));
      assert ws[..k + 1] == ws && init + [w] == ws;
      InputsPrefix(sys, now, tree, ws, k, seen);
      var before, inodes := TakeInputs(sys, now, tree, init, seen), TakeInputs(sys, now, tree, ws, seen).value;
      InputIsTaken(sys, now, tree, w, own, before);
      InputsAreTaken(sys, now, tree, init, seen);
      TakenTogether(sys, now, tree, init, [w], before.value, inodes);
      TakenTogether(sys, now, tree, References(sys, ObserveAll(sys, now, tree, init)), own, before.value, inodes);
    }
  }

  // ---------------------------------------------------------------- changed files are noticed

  /** The file at a record's path is the one that was recorded. */
  predicate Recorded(sys: System, tree: Tree, r: Record) {
    sys.normcase(r.path) in tree && Sha256(tree[sys.normcase(r.path)].payload) == r.sha256
  }

  predicate AllRecorded(sys: System, tree: Tree, records: seq<Record>) {
    forall i :: 0 <= i < |records| ==> Recorded(sys, tree, records[i])
  }

  predicate ManifestRecorded(sys: System, tree: Tree, m: Manifest) {
    AllRecorded(sys, tree, m.composeFiles) && AllRecorded(sys, tree, m.envFiles) &&
    AllRecorded(sys, tree, m.referencedFiles)
  }

  lemma {:induction false} ObservedIsRecorded(sys: System, now: Moment, tree: Tree, ws: seq<Want>, inodes: set<Inode>)
    requires AllTaken(sys, now, tree, ws, inodes)
    ensures AllRecorded(sys, tree, ObserveAll(sys, now, tree, ws))
  {
    forall i | 0 <= i < |ws| ensures Recorded(sys, tree, ObserveAll(sys, now, tree, ws)[i]) {
      assert Taken(sys, now, tree, ws[i], inodes);
    }
  }

  lemma {:induction false} MatchingIsRecorded(sys: System, tree: Tree, observed: seq<Record>, expected: seq<Record>)
    requires AllRecorded(sys, tree, observed) && RecordsMatch(sys, observed, expected)
    ensures AllRecorded(sys, tree, expected)
  {
    forall i | 0 <= i < |expected| ensures Recorded(sys, tree, expected[i]) {
      assert Recorded(sys, tree, observed[i]);
    }
  }

  /** Freezing records what is there. */
  lemma {:induction false} FrozenIsRecorded(sys: System, now: Moment, tree: Tree, s: Settings, paths: seq<string>)
    requires Freezable(sys, now, tree, s, paths)
    ensures ManifestRecorded(sys, tree, Frozen(sys, now, tree, s, paths))
  {
    var compose, env := ComposeWants(sys, s), EnvWants(s, paths);
    FrozenIsTaken(sys, now, tree, compose, env);
    var inodes := FreezeOrder(sys, now, tree, compose, env).value;
    ObservedIsRecorded(sys, now, tree, compose, inodes);
    ObservedIsRecorded(sys, now, tree, env, inodes);
    ObservedIsRecorded(sys, now, tree, [Bootstrap(sys)] + References(sys, ObserveAll(sys, now, tree, env)), inodes);
  }

  lemma {:induction false} FrozenIsTaken(sys: System, now: Moment, tree: Tree, compose: seq<Want>, env: seq<Want>)
    requires FreezeOrder(sys, now, tree, compose, env).Some?
    ensures var inodes := FreezeOrder(sys, now, tree, compose, env).value;
      && AllTaken(sys, now, tree, compose, inodes) && AllTaken(sys, now, tree, env, inodes)
      && AllTaken(sys, now, tree, [Bootstrap(sys)] + References(sys, ObserveAll(sys, now, tree, env)), inodes)
  {
    var first := TakeAll(sys, now, tree, compose, Some({}));
    var second := TakeOne(sys, now, tree, Bootstrap(sys), first);
    InputsAreTaken(sys, now, tree, env, second);
    AllAreTaken(sys, now, tree, compose, Some({}));
    var inodes := FreezeOrder(sys, now, tree, compose, env).value;
    TakenMore(sys, now, tree, compose, first.value, inodes);
    assert Taken(sys, now, tree, Bootstrap(sys), inodes);
    TakenAppend(sys, now, tree, [Bootstrap(sys)], References(sys, ObserveAll(sys, now, tree, env)), inodes);
  }

  /** Whatever the circumstances, a manifest verifies only if every file it records has the recorded
      bytes. */
  lemma {:induction false} VerifiedIsRecorded(sys: System, now: Moment, tree: Tree, m: Manifest)
    requires FilesVerify(sys, now, tree, m)
    ensures ManifestRecorded(sys, tree, m)
  {
    var items := m.composeFiles + m.envFiles;
    var first := TakeOne(sys, now, tree, Bootstrap(sys), Some({}));
    InputsAreTaken(sys, now, tree, AllAgain(items), first);
    var inodes := VerifyInodes(sys, now, tree, items).value;
    ObservedIsRecorded(sys, now, tree, AllAgain(items), inodes);
    SplitRecorded(sys, tree, m.composeFiles, m.envFiles);
    assert Taken(sys, now, tree, Bootstrap(sys), inodes);
    var refs := [Bootstrap(sys)] + References(sys, items);
    TakenAppend(sys, now, tree, [Bootstrap(sys)], References(sys, items), inodes);
    ObservedIsRecorded(sys, now, tree, refs, inodes);
    MatchingIsRecorded(sys, tree, ObserveAll(sys, now, tree, refs), m.referencedFiles);
  }

  lemma {:induction false} SplitRecorded(sys: System, tree: Tree, a: seq<Record>, b: seq<Record>)
    ensures AllRecorded(sys, tree, a + b) <==> AllRecorded(sys, tree, a) && AllRecorded(sys, tree, b)
  {
    if AllRecorded(sys, tree, a + b) {
      assert forall i :: 0 <= i < |a| ==> a[i] == (a + b)[i];
      assert forall i :: 0 <= i < |b| ==> b[i] == (a + b)[|a| + i];
    }
  }

  predicate Records(m: Manifest, r: Record) {
    r in m.composeFiles || r in m.envFiles || r in m.referencedFiles
  }

  /** Once any recorded file is gone or has other bytes, the manifest does not verify, at any later
      time and under any later circumstances. */
  lemma {:induction false} ChangeIsRejected(sys: System, now: Moment, tree: Tree, s: Settings, paths: seq<string>,
                                            later: Moment, changed: Tree, r: Record)
    requires Freezable(sys, now, tree, s, paths) && Records(Frozen(sys, now, tree, s, paths), r)
    requires sys.normcase(r.path) in changed ==>
      sys.normcase(r.path) !in tree || changed[sys.normcase(r.path)].payload != tree[sys.normcase(r.path)].payload
    ensures !Verifies(sys, later, changed, Frozen(sys, now, tree, s, paths))
  {
    var m := Frozen(sys, now, tree, s, paths);
    FrozenIsRecorded(sys, now, tree, s, paths);
    RecordedOne(sys, tree, m, r);
    if FilesVerify(sys, later, changed, m) {
      VerifiedIsRecorded(sys, later, changed, m);
      RecordedOne(sys, changed, m, r);
    }
  }

  lemma {:induction false} RecordedOne(sys: System, tree: Tree, m: Manifest, r: Record)
    requires ManifestRecorded(sys, tree, m) && Records(m, r)
    ensures Recorded(sys, tree, r)
  {
  }
}
