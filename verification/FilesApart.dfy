/** No file is used twice: freezing and verifying accept a deployment only if all its files, in
    whatever role, have different inodes, and refuse it for this reason only if two have the same. */
module FilesApart {
  import opened Options
  import opened Documents
  import opened FrozenManifest
  import opened FreezeVerify

  /** The files at the paths of the records are all there, and all different. */
  predicate Apart(sys: System, tree: Tree, records: seq<Record>) {
    && (forall i :: 0 <= i < |records| ==> sys.normcase(records[i].path) in tree)
    && forall i, j :: 0 <= i < j < |records| ==>
         tree[sys.normcase(records[i].path)].inode != tree[sys.normcase(records[j].path)].inode
  }

  predicate ManifestApart(sys: System, tree: Tree, m: Manifest) {
    Apart(sys, tree, m.composeFiles + m.envFiles + m.referencedFiles)
  }

  // ---------------------------------------------------------------- taking files, one after the other

  /** The next file is there, and none of those before. */
  predicate New(sys: System, tree: Tree, records: seq<Record>, r: Record) {
    && sys.normcase(r.path) in tree
    && forall i :: 0 <= i < |records| ==>
         sys.normcase(records[i].path) in tree ==>
           tree[sys.normcase(records[i].path)].inode != tree[sys.normcase(r.path)].inode
  }

  lemma {:induction false} ApartNext(sys: System, tree: Tree, records: seq<Record>, r: Record)
    ensures Apart(sys, tree, records + [r]) <==> Apart(sys, tree, records) && New(sys, tree, records, r)
  {
    var longer := records + [r];
    assert longer[|records|] == r;
    assert forall i :: 0 <= i < |records| ==> longer[i] == records[i];
  }

  /** `seen` is what was taken for the records. */
  ghost predicate Seen(sys: System, tree: Tree, records: seq<Record>, seen: set<Inode>) {
    forall inode :: inode in seen <==>
      exists i :: 0 <= i < |records| && sys.normcase(records[i].path) in tree &&
        tree[sys.normcase(records[i].path)].inode == inode
  }

  lemma {:induction false} SeenNext(sys: System, tree: Tree, records: seq<Record>, seen: set<Inode>, r: Record)
    requires Seen(sys, tree, records, seen) && sys.normcase(r.path) in tree
    ensures Seen(sys, tree, records + [r], seen + {tree[sys.normcase(r.path)].inode})
  {
    var longer, key := records + [r], sys.normcase(r.path);
    assert longer[|records|] == r;
    forall inode ensures inode in seen + {tree[key].inode} <==>
      exists i :: 0 <= i < |longer| && sys.normcase(longer[i].path) in tree &&
        tree[sys.normcase(longer[i].path)].inode == inode
    {
      if inode in seen {
        var i :| 0 <= i < |records| && sys.normcase(records[i].path) in tree &&
          tree[sys.normcase(records[i].path)].inode == inode;
        assert longer[i] == records[i];
      }
      assert forall i :: 0 <= i < |records| ==> longer[i] == records[i];
    }
  }

  /** Taking files from nothing succeeds exactly if they are apart. */
  lemma {:induction false} TakeAllIsApart(sys: System, now: Moment, tree: Tree, ws: seq<Want>)
    ensures var taken, records := TakeAll(sys, now, tree, ws, Some({})), ObserveAll(sys, now, tree, ws);
      && (taken.Some? <==> Apart(sys, tree, records))
      && (taken.Some? ==> Seen(sys, tree, records, taken.value))
  {
    if ws != [] {
      var k := |ws| - 1;
      var before, records := TakeAll(sys, now, tree, ws[..k], Some({})), ObserveAll(sys, now, tree, ws[..k]);
      var r := Observe(sys, now, tree, ws[k]);
      TakeAllIsApart(sys, now, tree, ws[..k]);
      ObservePrefix(sys, now, tree, ws, k);
      assert ws[..k + 1] == ws;
      ApartNext(sys, tree, records, r);
      if before.Some? {
        if sys.normcase(r.path) in tree {
          SeenNext(sys, tree, records, before.value, r);
        }
        NewIsUnseen(sys, tree, records, before.value, r);
      }
    }
  }

  lemma {:induction false} NewIsUnseen(sys: System, tree: Tree, records: seq<Record>, seen: set<Inode>, r: Record)
    requires Seen(sys, tree, records, seen)
    ensures New(sys, tree, records, r) <==> sys.normcase(r.path) in tree && tree[sys.normcase(r.path)].inode !in seen
  {
  }

  // ---------------------------------------------------------------- in any order

  lemma {:induction false} TakeAllAppend(sys: System, now: Moment, tree: Tree, a: seq<Want>, b: seq<Want>,
                                         seen: Option<set<Inode>>)
    ensures TakeAll(sys, now, tree, a + b, seen) == TakeAll(sys, now, tree, b, TakeAll(sys, now, tree, a, seen))
  {
    if b == [] {
      assert a + b == a;
    } else {
      LastOfAppend(a, b);
      TakeAllAppend(sys, now, tree, a, b[..|b| - 1], seen);
    }
  }

  lemma {:induction false} TakeAllSwap(sys: System, now: Moment, tree: Tree, a: seq<Want>, b: seq<Want>,
                                       seen: Option<set<Inode>>)
    ensures TakeAll(sys, now, tree, b, TakeAll(sys, now, tree, a, seen)) ==
      TakeAll(sys, now, tree, a, TakeAll(sys, now, tree, b, seen))
  {
    if b != [] {
      var init, w := b[..|b| - 1], b[|b| - 1];
      TakeAllSwap(sys, now, tree, a, init, seen);
      TakeCommutes(sys, now, tree, w, a, TakeAll(sys, now, tree, init, seen));
    }
  }

  /** The files that inputs refer to may as well be read after all the inputs. */
  lemma {:induction false} InputsThenReferences(sys: System, now: Moment, tree: Tree, ws: seq<Want>,
                                                seen: Option<set<Inode>>)
    ensures TakeInputs(sys, now, tree, ws, seen) ==
      TakeAll(sys, now, tree, References(sys, ObserveAll(sys, now, tree, ws)), TakeAll(sys, now, tree, ws, seen))
  {
    if ws != [] {
      var k := |ws| - 1;
      var init, w := ws[..k], ws[k];
      var refs := References(sys, ObserveAll(sys, now, tree, init));
      var own := OwnReferences(sys, Observe(sys, now, tree, w));
      assert ws[..k + 1] == ws;
      InputsPrefix(sys, now, tree, ws, k, seen);
      InputsThenReferences(sys, now, tree, init, seen);
      TakeCommutes(sys, now, tree, w, refs, TakeAll(sys, now, tree, init, seen));
      TakeAllAppend(sys, now, tree, refs, own, TakeAll(sys, now, tree, ws, seen));
    }
  }

  function AllWants(sys: System, inputs: seq<Want>, records: seq<Record>): seq<Want> {
    inputs + ([Bootstrap(sys)] + References(sys, records))
  }

  lemma {:induction false} TakeBootstrapLater(sys: System, now: Moment, tree: Tree, ws: seq<Want>, refs: seq<Want>,
                                              seen: Option<set<Inode>>)
    ensures TakeAll(sys, now, tree, refs, TakeAll(sys, now, tree, ws, TakeOne(sys, now, tree, Bootstrap(sys), seen))) ==
      TakeAll(sys, now, tree, ws + ([Bootstrap(sys)] + refs), seen)
  {
    var b := [Bootstrap(sys)];
    var taken := TakeAll(sys, now, tree, ws, seen);
    TakeCommutes(sys, now, tree, Bootstrap(sys), ws, seen);
    assert b[..0] == [] && TakeAll(sys, now, tree, b, taken) == TakeOne(sys, now, tree, Bootstrap(sys), taken);
    TakeAllAppend(sys, now, tree, b, refs, taken);
    TakeAllAppend(sys, now, tree, ws, b + refs, seen);
  }

  lemma {:induction false} FreezeOrderIs(sys: System, now: Moment, tree: Tree, compose: seq<Want>, env: seq<Want>)
    ensures FreezeOrder(sys, now, tree, compose, env) ==
      TakeAll(sys, now, tree, AllWants(sys, compose + env, ObserveAll(sys, now, tree, env)), Some({}))
  {
    var refs := References(sys, ObserveAll(sys, now, tree, env));
    var first := TakeAll(sys, now, tree, compose, Some({}));
    InputsThenReferences(sys, now, tree, env, TakeOne(sys, now, tree, Bootstrap(sys), first));
    TakeBootstrapLater(sys, now, tree, env, refs, first);
    TakeAllAppend(sys, now, tree, compose, env + ([Bootstrap(sys)] + refs), Some({}));
    assert compose + (env + ([Bootstrap(sys)] + refs)) == (compose + env) + ([Bootstrap(sys)] + refs);
  }

  lemma {:induction false} VerifyOrderIs(sys: System, now: Moment, tree: Tree, items: seq<Record>)
    requires ObserveAll(sys, now, tree, AllAgain(items)) == items
    ensures VerifyInodes(sys, now, tree, items) ==
      TakeAll(sys, now, tree, AllWants(sys, AllAgain(items), items), Some({}))
  {
    InputsThenReferences(sys, now, tree, AllAgain(items), TakeOne(sys, now, tree, Bootstrap(sys), Some({})));
    TakeBootstrapLater(sys, now, tree, AllAgain(items), References(sys, items), Some({}));
  }

  // ---------------------------------------------------------------- freezing

  /** The inodes are taken exactly if all files of the manifest are there and apart. */
  lemma {:induction false} FreezeTakesApart(sys: System, now: Moment, tree: Tree, s: Settings, paths: seq<string>)
    ensures FreezeInodes(sys, now, tree, s, paths).Some? <==>
      ManifestApart(sys, tree, Frozen(sys, now, tree, s, paths))
  {
    var m, compose, env := Frozen(sys, now, tree, s, paths), ComposeWants(sys, s), EnvWants(s, paths);
    var refs := [Bootstrap(sys)] + References(sys, m.envFiles);
    FreezeOrderIs(sys, now, tree, compose, env);
    TakeAllIsApart(sys, now, tree, compose + env + refs);
    ObserveAppend(sys, now, tree, compose, env);
    ObserveAppend(sys, now, tree, compose + env, refs);
  }

  /** Freezing succeeds exactly if the settings are known, every input meets the rules, and no two
      files of the manifest are the same. */
  lemma {:induction false} FreezableIsApart(sys: System, now: Moment, tree: Tree, s: Settings, paths: seq<string>)
    ensures Freezable(sys, now, tree, s, paths) <==>
      sys.settingsOk(s) && ComposeRoles(s).Some? && EnvRoles(s).Some? && |paths| == |EnvRoles(s).value| &&
      AllAccepted(sys, now, tree, s, ComposeWants(sys, s)) && AllAccepted(sys, now, tree, s, EnvWants(s, paths)) &&
      ManifestApart(sys, tree, Frozen(sys, now, tree, s, paths)) &&
      now.crossRoleOk(Payloads(ObserveAll(sys, now, tree, EnvWants(s, paths))), s.secretMode)
  {
    FreezeTakesApart(sys, now, tree, s, paths);
  }

  // ---------------------------------------------------------------- verifying

  /** Records that match are apart together. */
  lemma {:induction false} MatchingApart(sys: System, tree: Tree, a: seq<Record>, observed: seq<Record>,
                                         expected: seq<Record>)
    requires RecordsMatch(sys, observed, expected)
    ensures Apart(sys, tree, a + observed) <==> Apart(sys, tree, a + expected)
  {
    var x, y := a + observed, a + expected;
    assert forall i :: 0 <= i < |x| ==> sys.normcase(x[i].path) == sys.normcase(y[i].path);
  }

  /** With records that are as they are observed, the files verify exactly if every input meets the
      rules, what they refer to is what is recorded, and no two files of the manifest are the same. */
  lemma {:induction false} FilesVerifyIsApart(sys: System, now: Moment, tree: Tree, m: Manifest)
    ensures FilesVerify(sys, now, tree, m) <==>
      var items := m.composeFiles + m.envFiles;
      AllAccepted(sys, now, tree, m.settings, AllAgain(items)) &&
      ObserveAll(sys, now, tree, AllAgain(items)) == items &&
      ManifestApart(sys, tree, m) &&
      now.crossRoleOk(Payloads(items), m.settings.secretMode) &&
      RecordsMatch(sys, ObserveAll(sys, now, tree, [Bootstrap(sys)] + References(sys, items)), m.referencedFiles)
  {
    var items := m.composeFiles + m.envFiles;
    var refs := [Bootstrap(sys)] + References(sys, items);
    if ObserveAll(sys, now, tree, AllAgain(items)) == items &&
      RecordsMatch(sys, ObserveAll(sys, now, tree, refs), m.referencedFiles) {
      VerifyOrderIs(sys, now, tree, items);
      TakeAllIsApart(sys, now, tree, AllAgain(items) + refs);
      ObserveAppend(sys, now, tree, AllAgain(items), refs);
      MatchingApart(sys, tree, items, ObserveAll(sys, now, tree, refs), m.referencedFiles);
    }
  }
}
