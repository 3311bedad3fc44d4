/** Inputs that are all different files are all taken, whatever the deployment is. */
module FilesInOrder {
  import opened Options
  import opened Documents
  import opened FrozenManifest

  /** The files of a tree that carry the numbers of their places in a list. */
  predicate Numbered(tree: Tree, files: seq<string>) {
    forall n :: 0 <= n < |files| ==> files[n] in tree && tree[files[n]].inode == n
  }

  /** Only smaller inodes were taken. */
  ghost predicate Below(seen: Option<set<Inode>>, n: nat) {
    seen.Some? && forall i :: i in seen.value ==> i < n
  }

  lemma {:induction false} NextTaken(sys: System, now: Moment, tree: Tree, files: seq<string>, w: Want, n: nat,
                                     seen: Option<set<Inode>>)
    requires Numbered(tree, files) && n < |files| && Key(sys, now, w.path) == files[n] && Below(seen, n)
    ensures Below(TakeOne(sys, now, tree, w, seen), n + 1)
  {
  }

  predicate At(sys: System, now: Moment, files: seq<string>, ws: seq<Want>, n: nat) {
    n + |ws| <= |files| && forall i :: 0 <= i < |ws| ==> Key(sys, now, ws[i].path) == files[n + i]
  }

  lemma {:induction false} NextAllTaken(sys: System, now: Moment, tree: Tree, files: seq<string>, ws: seq<Want>, n: nat,
                                        seen: Option<set<Inode>>)
    requires Numbered(tree, files) && At(sys, now, files, ws, n) && Below(seen, n)
    ensures Below(TakeAll(sys, now, tree, ws, seen), n + |ws|)
  {
    if ws != [] {
      var k := |ws| - 1;
      NextAllTaken(sys, now, tree, files, ws[..k], n, seen);
      NextTaken(sys, now, tree, files, ws[k], n + k, TakeAll(sys, now, tree, ws[..k], seen));
    }
  }

  /** An input together with the files it refers to. */
  lemma {:induction false} NextInputTaken(sys: System, now: Moment, tree: Tree, files: seq<string>, ws: seq<Want>,
                                          k: nat, n: nat, own: seq<Want>, seen: Option<set<Inode>>)
    requires Numbered(tree, files) && k < |ws| && n < |files| && Key(sys, now, ws[k].path) == files[n]
    requires Below(TakeInputs(sys, now, tree, ws[..k], seen), n)
    requires own == OwnReferences(sys, Observe(sys, now, tree, ws[k])) && At(sys, now, files, own, n + 1)
    ensures Below(TakeInputs(sys, now, tree, ws[..k + 1], seen), n + 1 + |own|)
  {
    InputsPrefix(sys, now, tree, ws, k, seen);
    var before := TakeInputs(sys, now, tree, ws[..k], seen);
    NextTaken(sys, now, tree, files, ws[k], n, before);
    NextAllTaken(sys, now, tree, files, own, n + 1, TakeOne(sys, now, tree, ws[k], before));
  }

  lemma {:induction false} QuietInputTaken(sys: System, now: Moment, tree: Tree, files: seq<string>, ws: seq<Want>,
                                           k: nat, n: nat, seen: Option<set<Inode>>)
    requires Numbered(tree, files) && k < |ws| && n < |files| && Key(sys, now, ws[k].path) == files[n]
    requires Below(TakeInputs(sys, now, tree, ws[..k], seen), n) && ReferencedRoles(ws[k].role) == []
    ensures Below(TakeInputs(sys, now, tree, ws[..k + 1], seen), n + 1)
  {
    NextInputTaken(sys, now, tree, files, ws, k, n, [], seen);
  }

  /** Three environment files of which the first refers to others. */
  lemma {:induction false} EnvironmentTaken(sys: System, now: Moment, tree: Tree, files: seq<string>, env: seq<Want>,
                                            own: seq<Want>, n: nat, third: nat, seen: Option<set<Inode>>)
    requires Numbered(tree, files) && |env| == 3 && Below(seen, n) && n + 2 + |own| <= third < |files|
    requires own == OwnReferences(sys, Observe(sys, now, tree, env[0])) && At(sys, now, files, own, n + 1)
    requires Key(sys, now, env[0].path) == files[n] && Key(sys, now, env[1].path) == files[n + 1 + |own|]
    requires Key(sys, now, env[2].path) == files[third]
    requires ReferencedRoles(env[1].role) == [] && ReferencedRoles(env[2].role) == []
    ensures TakeInputs(sys, now, tree, env, seen).Some?
  {
    assert env[..0] == [] && env[..3] == env;
    NextInputTaken(sys, now, tree, files, env, 0, n, own, seen);
    QuietInputTaken(sys, now, tree, files, env, 1, n + 1 + |own|, seen);
    QuietInputTaken(sys, now, tree, files, env, 2, third, seen);
  }

  /** Compose files, the bootstrap file and such environment files, in this order. */
  lemma {:induction false} DeploymentTaken(sys: System, now: Moment, tree: Tree, files: seq<string>, compose: seq<Want>,
                                           env: seq<Want>, own: seq<Want>, third: nat)
    requires Numbered(tree, files) && |env| == 3 && At(sys, now, files, compose, 0)
    requires var n := |compose| + 1;
      && n + 2 + |own| <= third < |files|
      && Key(sys, now, sys.bootstrapPath) == files[n - 1]
      && Key(sys, now, env[0].path) == files[n] && At(sys, now, files, own, n + 1)
      && Key(sys, now, env[1].path) == files[n + 1 + |own|]
      && Key(sys, now, env[2].path) == files[third]
    requires own == OwnReferences(sys, Observe(sys, now, tree, env[0]))
    requires ReferencedRoles(env[1].role) == [] && ReferencedRoles(env[2].role) == []
    ensures FreezeOrder(sys, now, tree, compose, env).Some?
  {
    var first := TakeAll(sys, now, tree, compose, Some({}));
    NextAllTaken(sys, now, tree, files, compose, 0, Some({}));
    NextTaken(sys, now, tree, files, Bootstrap(sys), |compose|, first);
    EnvironmentTaken(sys, now, tree, files, env, own, |compose| + 1, third,
                     TakeOne(sys, now, tree, Bootstrap(sys), first));
  }
}
