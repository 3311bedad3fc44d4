/** A manifest goes to disk when it is frozen and is read back when it is verified. */
module ManifestRoundTrip {
  import opened Options
  import opened Documents
  import opened FrozenManifest
  import opened FreezeVerify
  import opened OtherMoments

  // ---------------------------------------------------------------- inputs that stay as they are

  predicate SameAt(tree: Tree, later: Tree, key: string) {
    key in tree && key in later && later[key] == tree[key]
  }

  predicate AllSame(sys: System, now: Moment, tree: Tree, later: Tree, ws: seq<Want>) {
    forall i :: 0 <= i < |ws| ==> SameAt(tree, later, Key(sys, now, ws[i].path))
  }

  lemma {:induction false} SplitSame(sys: System, now: Moment, tree: Tree, later: Tree, a: seq<Want>, b: seq<Want>)
    ensures AllSame(sys, now, tree, later, a + b) <==>
      AllSame(sys, now, tree, later, a) && AllSame(sys, now, tree, later, b)
  {
    if AllSame(sys, now, tree, later, a + b) {
      assert forall i :: 0 <= i < |a| ==> a[i] == (a + b)[i];
      assert forall i :: 0 <= i < |b| ==> b[i] == (a + b)[|a| + i];
    }
  }

  lemma {:induction false} ObserveSame(sys: System, now: Moment, tree: Tree, later: Tree, ws: seq<Want>)
    requires AllSame(sys, now, tree, later, ws)
    ensures ObserveAll(sys, now, later, ws) == ObserveAll(sys, now, tree, ws)
  {
    forall i | 0 <= i < |ws| ensures Observe(sys, now, later, ws[i]) == Observe(sys, now, tree, ws[i]) {
      assert SameAt(tree, later, Key(sys, now, ws[i].path));
    }
  }

  lemma {:induction false} TakeSame(sys: System, now: Moment, tree: Tree, later: Tree, ws: seq<Want>,
                                    seen: Option<set<Inode>>)
    requires AllSame(sys, now, tree, later, ws)
    ensures TakeAll(sys, now, later, ws, seen) == TakeAll(sys, now, tree, ws, seen)
  {
    if ws != [] {
      TakeSame(sys, now, tree, later, ws[..|ws| - 1], seen);
      assert SameAt(tree, later, Key(sys, now, ws[|ws| - 1].path));
    }
  }

  lemma {:induction false} TakeInputsSame(sys: System, now: Moment, tree: Tree, later: Tree, ws: seq<Want>,
                                          seen: Option<set<Inode>>)
    requires AllSame(sys, now, tree, later, ws)
    requires AllSame(sys, now, tree, later, References(sys, ObserveAll(sys, now, tree, ws)))
    ensures TakeInputs(sys, now, later, ws, seen) == TakeInputs(sys, now, tree, ws, seen)
  {
    if ws != [] {
      var k := |ws| - 1;
      var init, w := ws[..k], ws[k];
      var own := OwnReferences(sys, Observe(sys, now, tree, w));
      assert ws[..k + 1] == ws && init + [w] == ws;
      InputsPrefix(sys, now, tree, ws, k, seen);
      SplitSame(sys, now, tree, later, init, [w]);
      SplitSame(sys, now, tree, later, References(sys, ObserveAll(sys, now, tree, init)), own);
      TakeInputsSame(sys, now, tree, later, init, seen);
      SameInput(sys, now, tree, later, w, TakeInputs(sys, now, tree, init, seen));
    }
  }

  lemma {:induction false} SameInput(sys: System, now: Moment, tree: Tree, later: Tree, w: Want,
                                     seen: Option<set<Inode>>)
    requires SameAt(tree, later, Key(sys, now, w.path))
    requires AllSame(sys, now, tree, later, OwnReferences(sys, Observe(sys, now, tree, w)))
    ensures Observe(sys, now, later, w) == Observe(sys, now, tree, w)
    ensures var own, first := OwnReferences(sys, Observe(sys, now, tree, w)), TakeOne(sys, now, tree, w, seen);
      TakeOne(sys, now, later, w, seen) == first &&
      TakeAll(sys, now, later, own, first) == TakeAll(sys, now, tree, own, first)
  {
    TakeSame(sys, now, tree, later, OwnReferences(sys, Observe(sys, now, tree, w)), TakeOne(sys, now, tree, w, seen));
  }

  lemma {:induction false} AcceptedSame(sys: System, now: Moment, tree: Tree, later: Tree, s: Settings, ws: seq<Want>)
    requires AllSame(sys, now, tree, later, ws) && AllAccepted(sys, now, tree, s, ws)
    ensures AllAccepted(sys, now, later, s, ws)
  {
    forall i | 0 <= i < |ws| ensures Accepted(sys, now, later, s, ws[i]) {
      assert SameAt(tree, later, Key(sys, now, ws[i].path)) && Accepted(sys, now, tree, s, ws[i]);
    }
  }

  /** Every file that a manifest records is the same in both trees. */
  ghost predicate Unchanged(sys: System, tree: Tree, later: Tree, m: Manifest) {
    forall r :: Records(m, r) ==> SameAt(tree, later, sys.normcase(r.path))
  }

  lemma {:induction false} UnchangedInputs(sys: System, now: Moment, tree: Tree, later: Tree, m: Manifest,
                                           ws: seq<Want>)
    requires Unchanged(sys, tree, later, m)
    requires ObserveAll(sys, now, tree, ws) in {m.composeFiles, m.envFiles, m.referencedFiles}
    ensures AllSame(sys, now, tree, later, ws)
  {
    var records := ObserveAll(sys, now, tree, ws);
    forall i | 0 <= i < |ws| ensures SameAt(tree, later, Key(sys, now, ws[i].path)) {
      assert records[i] in records && Records(m, records[i]);
    }
  }

  lemma {:induction false} SameTimeFrozen(sys: System, now: Moment, tree: Tree, later: Tree, s: Settings,
                                          paths: seq<string>)
    requires Freezable(sys, now, tree, s, paths) && Unchanged(sys, tree, later, Frozen(sys, now, tree, s, paths))
    ensures Freezable(sys, now, later, s, paths) &&
      Frozen(sys, now, later, s, paths) == Frozen(sys, now, tree, s, paths)
  {
    var m, compose, env := Frozen(sys, now, tree, s, paths), ComposeWants(sys, s), EnvWants(s, paths);
    var refs := References(sys, m.envFiles);
    UnchangedInputs(sys, now, tree, later, m, compose);
    UnchangedInputs(sys, now, tree, later, m, env);
    UnchangedInputs(sys, now, tree, later, m, [Bootstrap(sys)] + refs);
    SameOrder(sys, now, tree, later, compose, env);
    ObserveSame(sys, now, tree, later, compose);
    ObserveSame(sys, now, tree, later, env);
    ObserveSame(sys, now, tree, later, [Bootstrap(sys)] + refs);
    AcceptedSame(sys, now, tree, later, s, compose);
    AcceptedSame(sys, now, tree, later, s, env);
  }

  /** As long as no recorded file changes, freezing again gives the same manifest, at any time and
      from any working directory from which the given paths lead to the same files. */
  lemma {:induction false} StillFrozen(sys: System, now: Moment, later: Moment, tree: Tree, after: Tree, s: Settings,
                                       paths: seq<string>)
    requires Comparable(sys, now, later) && SamePlaces(now, later, EnvWants(s, paths))
    requires Freezable(sys, now, tree, s, paths) && Unchanged(sys, tree, after, Frozen(sys, now, tree, s, paths))
    ensures Freezable(sys, later, after, s, paths)
    ensures Frozen(sys, later, after, s, paths) == Frozen(sys, now, tree, s, paths)
  {
    SameTimeFrozen(sys, now, tree, after, s, paths);
    FrozenThen(sys, now, later, after, s, paths);
  }

  lemma {:induction false} SameOrder(sys: System, now: Moment, tree: Tree, later: Tree, compose: seq<Want>,
                                     env: seq<Want>)
    requires AllSame(sys, now, tree, later, compose) && AllSame(sys, now, tree, later, env)
    requires AllSame(sys, now, tree, later, [Bootstrap(sys)] + References(sys, ObserveAll(sys, now, tree, env)))
    ensures FreezeOrder(sys, now, later, compose, env) == FreezeOrder(sys, now, tree, compose, env)
  {
    var refs := References(sys, ObserveAll(sys, now, tree, env));
    SplitSame(sys, now, tree, later, [Bootstrap(sys)], refs);
    assert SameAt(tree, later, Key(sys, now, [Bootstrap(sys)][0].path));
    TakeSame(sys, now, tree, later, compose, Some({}));
    TakeInputsSame(sys, now, tree, later, env,
      TakeOne(sys, now, tree, Bootstrap(sys), TakeAll(sys, now, tree, compose, Some({}))));
  }

  // ---------------------------------------------------------------- publication

  /** The target may be written: it is new, or it holds a manifest and is none of the inputs. */
  predicate Publishable(sys: System, now: Moment, tree: Tree, output: string, exclusive: bool, inputs: set<Inode>) {
    var key := Key(sys, now, output);
    key in tree ==>
      !exclusive && tree[key].inode !in inputs && tree[key].payload.ManifestJson? &&
      Structured(sys, tree[key].payload.manifest)
  }

  function Published(sys: System, now: Moment, tree: Tree, output: string, inode: Inode, m: Manifest): Tree {
    tree[Key(sys, now, output) := File(inode, ManifestJson(m))]
  }

  lemma {:induction false} RecordTaken(sys: System, now: Moment, tree: Tree, ws: seq<Want>, inodes: set<Inode>,
                                       r: Record)
    requires AllTaken(sys, now, tree, ws, inodes) && r in ObserveAll(sys, now, tree, ws)
    ensures sys.normcase(r.path) in tree && tree[sys.normcase(r.path)].inode in inodes
  {
    var i :| 0 <= i < |ws| && ObserveAll(sys, now, tree, ws)[i] == r;
    assert Taken(sys, now, tree, ws[i], inodes);
  }

  lemma {:induction false} FrozenRecordTaken(sys: System, now: Moment, tree: Tree, s: Settings, paths: seq<string>,
                                             r: Record)
    requires Freezable(sys, now, tree, s, paths) && Records(Frozen(sys, now, tree, s, paths), r)
    ensures var key := sys.normcase(r.path);
      key in tree && tree[key].inode in FreezeInodes(sys, now, tree, s, paths).value
  {
    var m, compose, env := Frozen(sys, now, tree, s, paths), ComposeWants(sys, s), EnvWants(s, paths);
    var inodes := FreezeInodes(sys, now, tree, s, paths).value;
    FrozenIsTaken(sys, now, tree, compose, env);
    if r in m.composeFiles {
      RecordTaken(sys, now, tree, compose, inodes, r);
    } else if r in m.envFiles {
      RecordTaken(sys, now, tree, env, inodes, r);
    } else {
      RecordTaken(sys, now, tree, [Bootstrap(sys)] + References(sys, m.envFiles), inodes, r);
    }
  }

  /** Publishing a manifest, or failing to, touches none of the files that it records. */
  lemma {:induction false} InputsStay(sys: System, now: Moment, tree: Tree, later: Tree, s: Settings,
                                      paths: seq<string>, output: string, exclusive: bool)
    requires Freezable(sys, now, tree, s, paths)
    requires Publishable(sys, now, tree, output, exclusive, FreezeInodes(sys, now, tree, s, paths).value)
    requires forall key :: key in tree && key != Key(sys, now, output) ==> key in later && later[key] == tree[key]
    ensures Unchanged(sys, tree, later, Frozen(sys, now, tree, s, paths))
  {
    forall r | Records(Frozen(sys, now, tree, s, paths), r) ensures SameAt(tree, later, sys.normcase(r.path)) {
      FrozenRecordTaken(sys, now, tree, s, paths, r);
    }
  }

  /** The freezing program. Writing the manifest may fail; a target that was already replaced is then
      removed, unless that fails too. */
  method FreezeManifest(sys: System, now: Moment, tree: Tree, s: Settings, paths: seq<string>, output: string,
                        exclusive: bool, inode: Inode, calm: bool) returns (r: Option<Manifest>, after: Tree)
    ensures r.Some? ==> Freezable(sys, now, tree, s, paths) && ManifestPathOk(sys, now, output, s)
    ensures r.Some? ==>
      r.value == Frozen(sys, now, tree, s, paths) && after == Published(sys, now, tree, output, inode, r.value)
    ensures r.None? ==>
      || after == tree || after == tree - {Key(sys, now, output)}
      || after == Published(sys, now, tree, output, inode, Frozen(sys, now, tree, s, paths))
    ensures Freezable(sys, now, tree, s, paths) ==> Unchanged(sys, tree, after, Frozen(sys, now, tree, s, paths))
    ensures calm ==> (r.Some? <==>
      now.outputOk(output, s) && ManifestPathOk(sys, now, output, s) && Freezable(sys, now, tree, s, paths) &&
      Publishable(sys, now, tree, output, exclusive || s.mode.CiMode?, FreezeInodes(sys, now, tree, s, paths).value))
  {
    after := tree;
    if Freezable(sys, now, tree, s, paths) {
      StaysWhereItIs(sys, now, tree, s, paths);
    }
    if !now.outputOk(output, s) || !ManifestPathOk(sys, now, output, s) {
      return None, after;
    }
    var m, identities := FreezeInputs(sys, now, tree, s, paths);
    if m.None? || !Publishable(sys, now, tree, output, exclusive || s.mode.CiMode?, identities) {
      return None, after;
    }
    var early: bool, late: bool, stays: bool := *, *, *;
    if early && !calm {
      return None, after;
    }
    after := Published(sys, now, tree, output, inode, m.value);
    InputsStay(sys, now, tree, after, s, paths, output, exclusive || s.mode.CiMode?);
    if late && !calm {
      if !stays {
        after := after - {Key(sys, now, output)};
        assert after == tree - {Key(sys, now, output)};
        InputsStay(sys, now, tree, after, s, paths, output, exclusive || s.mode.CiMode?);
      }
      return None, after;
    }
    return m, after;
  }

  lemma {:induction false} StaysWhereItIs(sys: System, now: Moment, tree: Tree, s: Settings, paths: seq<string>)
    requires Freezable(sys, now, tree, s, paths)
    ensures Unchanged(sys, tree, tree, Frozen(sys, now, tree, s, paths))
  {
    forall r | Records(Frozen(sys, now, tree, s, paths), r) ensures SameAt(tree, tree, sys.normcase(r.path)) {
      FrozenRecordTaken(sys, now, tree, s, paths, r);
    }
  }

  /** A manifest that was frozen and published verifies later, and gives the same manifest: at any
      time, from any working directory, in every tree that keeps the manifest file and the files it
      records, exactly when the manifest's path, as it is given then, meets the rules, and in
      continuous integration the selection is where it must be. */
  lemma {:induction false} FreezeThenVerify(sys: System, now: Moment, later: Moment, tree: Tree, after: Tree,
                                            s: Settings, paths: seq<string>, path: string, inode: Inode)
    requires Comparable(sys, now, later) && Freezable(sys, now, tree, s, paths)
    requires Unchanged(sys, tree, after, Frozen(sys, now, tree, s, paths))
    requires Key(sys, later, path) in after
    requires after[Key(sys, later, path)] == File(inode, ManifestJson(Frozen(sys, now, tree, s, paths)))
    ensures Verified(sys, later, after, path) ==
      if ManifestPathOk(sys, later, path, s) && ExactSelection(sys, now, s, EnvWants(s, paths))
      then Some(Frozen(sys, now, tree, s, paths)) else None
  {
    SameTimeFrozen(sys, now, tree, after, s, paths);
    FrozenVerifiesLater(sys, now, later, after, s, paths);
  }

  /** In continuous integration the manifest is where it must be, not only written as it must be. */
  predicate ExactOutput(sys: System, now: Moment, s: Settings, output: string) {
    s.mode.CiMode? ==> Key(sys, now, output) == sys.normcase(sys.manifestPath(s))
  }

  /** Verified by its absolute path, which means the same from everywhere: exactly when both the
      manifest and the selection are where they must be. */
  lemma {:induction false} VerifyByAbsolutePath(sys: System, now: Moment, later: Moment, tree: Tree, after: Tree,
                                                s: Settings, paths: seq<string>, output: string, path: string,
                                                inode: Inode)
    requires Comparable(sys, now, later) && Freezable(sys, now, tree, s, paths)
    requires Unchanged(sys, tree, after, Frozen(sys, now, tree, s, paths))
    requires FixedPath(sys, later, path) && Key(sys, later, path) == Key(sys, now, output)
    requires Key(sys, later, path) in after && later.manifestPathOk(path, s)
    requires after[Key(sys, later, path)] == File(inode, ManifestJson(Frozen(sys, now, tree, s, paths)))
    ensures Verified(sys, later, after, path) ==
      if ExactOutput(sys, now, s, output) && ExactSelection(sys, now, s, EnvWants(s, paths))
      then Some(Frozen(sys, now, tree, s, paths)) else None
  {
    FreezeThenVerify(sys, now, later, tree, after, s, paths, path, inode);
  }
}
