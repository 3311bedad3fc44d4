/** Verifying, or freezing again, at another time: from another working directory, or with other
    things changed that do not matter. */
module OtherMoments {
  import opened Options
  import opened Documents
  import opened FrozenManifest
  import opened FreezeVerify

  /** Absolute paths mean the same at both times. */
  ghost predicate SameAbsolute(sys: System, now: Moment, later: Moment) {
    forall p {:trigger later.abspath(p)} :: sys.isAbsolute(p) ==> later.abspath(p) == now.abspath(p)
  }

  ghost predicate SamePathRule(sys: System, now: Moment, later: Moment) {
    forall p, role {:trigger later.inputPathOk(p, role)} ::
      sys.isAbsolute(p) ==> later.inputPathOk(p, role) == now.inputPathOk(p, role)
  }

  ghost predicate SameSourceRule(sys: System, now: Moment, later: Moment) {
    forall p, payload, role, s {:trigger later.sourceOk(p, payload, role, s)} ::
      sys.isAbsolute(p) ==> later.sourceOk(p, payload, role, s) == now.sourceOk(p, payload, role, s)
  }

  ghost predicate SameCrossRule(now: Moment, later: Moment) {
    forall ps, mode {:trigger later.crossRoleOk(ps, mode)} :: later.crossRoleOk(ps, mode) == now.crossRoleOk(ps, mode)
  }

  /** The rules give the same answers about absolute paths. */
  ghost predicate SameRules(sys: System, now: Moment, later: Moment) {
    SamePathRule(sys, now, later) && SameSourceRule(sys, now, later) && SameCrossRule(now, later)
  }

  /** The repository is at an absolute path, and references are absolute, as the rules demand. */
  ghost predicate Rooted(sys: System) {
    && sys.isAbsolute(sys.bootstrapPath)
    && (forall role {:trigger sys.composePath(role)} :: sys.isAbsolute(sys.composePath(role)))
    && forall p, payload, role {:trigger sys.reference(p, payload, role)} ::
         sys.isAbsolute(sys.reference(p, payload, role))
  }

  /** Two times that may differ in the working directory, but not in what counts. */
  ghost predicate Comparable(sys: System, now: Moment, later: Moment) {
    Lawful(sys, now) && SameAbsolute(sys, now, later) && SameRules(sys, now, later) && Rooted(sys)
  }

  /** The paths lead to the same places at both times. */
  predicate SamePlaces(now: Moment, later: Moment, ws: seq<Want>) {
    forall i :: 0 <= i < |ws| ==> later.abspath(ws[i].path) == now.abspath(ws[i].path)
  }

  // ---------------------------------------------------------------- nothing that is read differs

  lemma {:induction false} ObservedThen(sys: System, now: Moment, later: Moment, tree: Tree, ws: seq<Want>)
    requires SamePlaces(now, later, ws)
    ensures ObserveAll(sys, later, tree, ws) == ObserveAll(sys, now, tree, ws)
  {
    forall i | 0 <= i < |ws| ensures Observe(sys, later, tree, ws[i]) == Observe(sys, now, tree, ws[i]) {
    }
  }

  lemma {:induction false} TakenThen(sys: System, now: Moment, later: Moment, tree: Tree, ws: seq<Want>,
                                     seen: Option<set<Inode>>)
    requires SamePlaces(now, later, ws)
    ensures TakeAll(sys, later, tree, ws, seen) == TakeAll(sys, now, tree, ws, seen)
  {
    if ws != [] {
      TakenThen(sys, now, later, tree, ws[..|ws| - 1], seen);
      assert later.abspath(ws[|ws| - 1].path) == now.abspath(ws[|ws| - 1].path);
    }
  }

  lemma {:induction false} ReferencesThen(sys: System, now: Moment, later: Moment, r: Record)
    requires SameAbsolute(sys, now, later) && Rooted(sys)
    ensures SamePlaces(now, later, OwnReferences(sys, r))
  {
    var own := OwnReferences(sys, r);
    forall i | 0 <= i < |own| ensures later.abspath(own[i].path) == now.abspath(own[i].path) {
      assert own[i].path == sys.reference(r.path, r.sha256.of, ReferencedRoles(r.role)[i]);
    }
  }

  lemma {:induction false} AllReferencesThen(sys: System, now: Moment, later: Moment, records: seq<Record>)
    requires SameAbsolute(sys, now, later) && Rooted(sys)
    ensures SamePlaces(now, later, References(sys, records))
  {
    if records != [] {
      AllReferencesThen(sys, now, later, records[..|records| - 1]);
      ReferencesThen(sys, now, later, records[|records| - 1]);
    }
  }

  lemma {:induction false} InputsThen(sys: System, now: Moment, later: Moment, tree: Tree, ws: seq<Want>,
                                      seen: Option<set<Inode>>)
    requires SameAbsolute(sys, now, later) && Rooted(sys) && SamePlaces(now, later, ws)
    ensures TakeInputs(sys, later, tree, ws, seen) == TakeInputs(sys, now, tree, ws, seen)
  {
    if ws != [] {
      var w := ws[|ws| - 1];
      assert later.abspath(w.path) == now.abspath(w.path);
      InputsThen(sys, now, later, tree, ws[..|ws| - 1], seen);
      var before := TakeInputs(sys, now, tree, ws[..|ws| - 1], seen);
      var r := Observe(sys, now, tree, w);
      ReferencesThen(sys, now, later, r);
      TakenThen(sys, now, later, tree, OwnReferences(sys, r), TakeOne(sys, now, tree, w, before));
    }
  }

  lemma {:induction false} AcceptedThen(sys: System, now: Moment, later: Moment, tree: Tree, s: Settings, ws: seq<Want>)
    requires Comparable(sys, now, later) && SamePlaces(now, later, ws)
    ensures AllAccepted(sys, later, tree, s, ws) <==> AllAccepted(sys, now, tree, s, ws)
  {
    forall i | 0 <= i < |ws| ensures Accepted(sys, later, tree, s, ws[i]) <==> Accepted(sys, now, tree, s, ws[i]) {
      OneAcceptedThen(sys, now, later, tree, s, ws[i]);
    }
  }

  lemma {:induction false} OneAcceptedThen(sys: System, now: Moment, later: Moment, tree: Tree, s: Settings, w: Want)
    requires Comparable(sys, now, later) && later.abspath(w.path) == now.abspath(w.path)
    ensures Accepted(sys, later, tree, s, w) <==> Accepted(sys, now, tree, s, w)
  {
    assert FixedPath(sys, now, now.abspath(w.path));
  }

  // ---------------------------------------------------------------- verifying

  predicate AbsoluteRecords(sys: System, records: seq<Record>) {
    forall i :: 0 <= i < |records| ==> sys.isAbsolute(records[i].path)
  }

  lemma {:induction false} AgainThen(sys: System, now: Moment, later: Moment, records: seq<Record>)
    requires SameAbsolute(sys, now, later) && AbsoluteRecords(sys, records)
    ensures SamePlaces(now, later, AllAgain(records))
  {
    var ws := AllAgain(records);
    forall i | 0 <= i < |ws| ensures later.abspath(ws[i].path) == now.abspath(ws[i].path) {
      assert ws[i].path == records[i].path;
    }
  }

  /** A manifest of absolute paths verifies at both times or at neither. */
  lemma {:induction false} VerifiesThen(sys: System, now: Moment, later: Moment, tree: Tree, m: Manifest)
    requires Comparable(sys, now, later) && AbsoluteRecords(sys, m.composeFiles + m.envFiles)
    ensures FilesVerify(sys, later, tree, m) <==> FilesVerify(sys, now, tree, m)
  {
    var items := m.composeFiles + m.envFiles;
    var refs := [Bootstrap(sys)] + References(sys, items);
    AgainThen(sys, now, later, items);
    AcceptedThen(sys, now, later, tree, m.settings, AllAgain(items));
    ObservedThen(sys, now, later, tree, AllAgain(items));
    AllReferencesThen(sys, now, later, items);
    assert SamePlaces(now, later, refs);
    ObservedThen(sys, now, later, tree, refs);
    assert later.abspath(sys.bootstrapPath) == now.abspath(sys.bootstrapPath);
    InputsThen(sys, now, later, tree, AllAgain(items), TakeOne(sys, now, tree, Bootstrap(sys), Some({})));
  }

  lemma {:induction false} ObservedIsAbsolute(sys: System, now: Moment, tree: Tree, ws: seq<Want>)
    requires Lawful(sys, now)
    ensures AbsoluteRecords(sys, ObserveAll(sys, now, tree, ws))
  {
    forall i | 0 <= i < |ws| ensures sys.isAbsolute(ObserveAll(sys, now, tree, ws)[i].path) {
      assert FixedPath(sys, now, now.abspath(ws[i].path));
    }
  }

  /** A manifest that was frozen at one time verifies at another, from any working directory, except
      for a misplaced selection in continuous integration: exactly then it never does. */
  lemma {:induction false} FrozenVerifiesLater(sys: System, now: Moment, later: Moment, tree: Tree, s: Settings,
                                               paths: seq<string>)
    requires Comparable(sys, now, later) && Freezable(sys, now, tree, s, paths)
    ensures Verifies(sys, later, tree, Frozen(sys, now, tree, s, paths)) <==>
      ExactSelection(sys, now, s, EnvWants(s, paths))
  {
    var m := Frozen(sys, now, tree, s, paths);
    FrozenVerifies(sys, now, tree, s, paths);
    ObservedIsAbsolute(sys, now, tree, ComposeWants(sys, s));
    ObservedIsAbsolute(sys, now, tree, EnvWants(s, paths));
    VerifiesThen(sys, now, later, tree, m);
  }

  // ---------------------------------------------------------------- freezing again

  lemma {:induction false} ComposeThen(sys: System, now: Moment, later: Moment, s: Settings)
    requires SameAbsolute(sys, now, later) && Rooted(sys)
    ensures SamePlaces(now, later, ComposeWants(sys, s))
  {
    var ws := ComposeWants(sys, s);
    forall i | 0 <= i < |ws| ensures later.abspath(ws[i].path) == now.abspath(ws[i].path) {
      assert ws[i].path == sys.composePath(ComposeRoles(s).value[i]);
    }
  }

  /** Freezing again, with paths that lead to the same environment files, gives the same manifest. */
  lemma {:induction false} FrozenThen(sys: System, now: Moment, later: Moment, tree: Tree, s: Settings,
                                      paths: seq<string>)
    requires Comparable(sys, now, later) && SamePlaces(now, later, EnvWants(s, paths))
    ensures Freezable(sys, later, tree, s, paths) <==> Freezable(sys, now, tree, s, paths)
    ensures Frozen(sys, later, tree, s, paths) == Frozen(sys, now, tree, s, paths)
  {
    var compose, env := ComposeWants(sys, s), EnvWants(s, paths);
    ComposeThen(sys, now, later, s);
    CollectedThen(sys, now, later, tree, s, compose, env);
  }

  lemma {:induction false} CollectedThen(sys: System, now: Moment, later: Moment, tree: Tree, s: Settings,
                                         compose: seq<Want>, env: seq<Want>)
    requires Comparable(sys, now, later) && SamePlaces(now, later, compose) && SamePlaces(now, later, env)
    ensures AllAccepted(sys, later, tree, s, compose) <==> AllAccepted(sys, now, tree, s, compose)
    ensures AllAccepted(sys, later, tree, s, env) <==> AllAccepted(sys, now, tree, s, env)
    ensures ObserveAll(sys, later, tree, compose) == ObserveAll(sys, now, tree, compose)
    ensures ObserveAll(sys, later, tree, env) == ObserveAll(sys, now, tree, env)
    ensures var refs := [Bootstrap(sys)] + References(sys, ObserveAll(sys, now, tree, env));
      ObserveAll(sys, later, tree, refs) == ObserveAll(sys, now, tree, refs)
    ensures FreezeOrder(sys, later, tree, compose, env) == FreezeOrder(sys, now, tree, compose, env)
  {
    var refs := References(sys, ObserveAll(sys, now, tree, env));
    AcceptedThen(sys, now, later, tree, s, compose);
    AcceptedThen(sys, now, later, tree, s, env);
    ObservedThen(sys, now, later, tree, compose);
    ObservedThen(sys, now, later, tree, env);
    AllReferencesThen(sys, now, later, ObserveAll(sys, now, tree, env));
    assert later.abspath(sys.bootstrapPath) == now.abspath(sys.bootstrapPath);
    assert SamePlaces(now, later, [Bootstrap(sys)] + refs);
    ObservedThen(sys, now, later, tree, [Bootstrap(sys)] + refs);
    TakenThen(sys, now, later, tree, compose, Some({}));
    var first := TakeAll(sys, now, tree, compose, Some({}));
    InputsThen(sys, now, later, tree, env, TakeOne(sys, now, tree, Bootstrap(sys), first));
  }
}
