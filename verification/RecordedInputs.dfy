/** Where the files of a manifest come from and which rules they meet, in terms of the records alone. */
module RecordedInputs {
  import opened Options
  import opened Documents
  import opened FrozenManifest
  import opened FreezeVerify
  import opened RecordedRoles

  /** The rules about one input, given by some path. */
  predicate MeetsRules(sys: System, now: Moment, s: Settings, given: string, r: Record) {
    && now.inputPathOk(r.path, r.role) && now.sourceOk(r.path, r.sha256.of, r.role, s)
    && (Layer(r.role) >= 0 ==> sys.composeSourceOk(r.sha256.of))
    && (s.mode.CiMode? && r.role.ImageSelection? ==>
          if sys.isAbsolute(given) then sys.normcase(given) == sys.normcase(sys.selectionPath(s))
          else sys.normcase(given) == sys.normcase(sys.relativeToRoot(sys.selectionPath(s))))
  }

  lemma {:induction false} AcceptedIs(sys: System, now: Moment, tree: Tree, s: Settings, ws: seq<Want>)
    ensures AllAccepted(sys, now, tree, s, ws) <==>
      forall i :: 0 <= i < |ws| ==> MeetsRules(sys, now, s, ws[i].path, ObserveAll(sys, now, tree, ws)[i])
  {
    forall i | 0 <= i < |ws|
      ensures Accepted(sys, now, tree, s, ws[i]) <==>
        MeetsRules(sys, now, s, ws[i].path, ObserveAll(sys, now, tree, ws)[i])
    {
      var r := ObserveAll(sys, now, tree, ws)[i];
      assert Layer(r.role) >= 0 <==> IsCompose(r.role);
    }
  }

  // ---------------------------------------------------------------- what files refer to

  /** The record is of a file that one of the others refers to. */
  predicate ReferredBy(sys: System, now: Moment, others: seq<Record>, r: Record) {
    exists i :: 0 <= i < |others| && (others[i].role.SecretPaths? || others[i].role.ProductionFiles?) &&
      r.path == now.abspath(sys.reference(others[i].path, others[i].sha256.of, r.role))
  }

  lemma {:induction false} ReferenceComesFrom(sys: System, now: Moment, tree: Tree, others: seq<Record>, k: nat)
    requires k < |References(sys, others)|
    ensures ReferredBy(sys, now, others, Observe(sys, now, tree, References(sys, others)[k]))
  {
    var init, last := others[..|others| - 1], others[|others| - 1];
    var before, w := References(sys, init), References(sys, others)[k];
    if k < |before| {
      assert w == before[k];
      ReferenceComesFrom(sys, now, tree, init, k);
      var r := Observe(sys, now, tree, w);
      var i :| 0 <= i < |init| && (init[i].role.SecretPaths? || init[i].role.ProductionFiles?) &&
        r.path == now.abspath(sys.reference(init[i].path, init[i].sha256.of, r.role));
      assert others[i] == init[i];
    } else {
      assert w == OwnReferences(sys, last)[k - |before|];
    }
  }

  // ---------------------------------------------------------------- the texts by role

  predicate ByRole(records: seq<Record>, texts: map<Role, Payload>) {
    && (forall role :: role in texts ==> HasRole(records, role))
    && forall i :: 0 <= i < |records| ==>
         if IsCompose(records[i].role) then records[i].role !in texts
         else records[i].role in texts && texts[records[i].role] == records[i].sha256.of
  }

  lemma {:induction false} PayloadsByRole(records: seq<Record>)
    requires forall i, j :: 0 <= i < j < |records| ==> records[i].role != records[j].role
    ensures ByRole(records, Payloads(records))
  {
    if records != [] {
      var init, r := records[..|records| - 1], records[|records| - 1];
      assert forall i :: 0 <= i < |init| ==> init[i] == records[i];
      PayloadsByRole(init);
      forall role ensures HasRole(records, role) <==> HasRole(init, role) || role == r.role {
        if HasRole(init, role) {
          var i :| 0 <= i < |init| && init[i].role == role;
          assert records[i].role == role;
        }
        if role == r.role {
          assert records[|records| - 1].role == role;
        }
      }
    }
  }

  lemma {:induction false} TextsByRole(sys: System, m: Manifest)
    requires Structured(sys, m)
    ensures ByRole(m.envFiles, Payloads(m.envFiles))
    ensures ByRole(m.composeFiles + m.envFiles, Payloads(m.composeFiles + m.envFiles))
  {
    var items, all := m.composeFiles + m.envFiles, AllRecords(m);
    EveryRoleOnce(sys, m);
    assert forall i :: 0 <= i < |items| ==> items[i] == all[i];
    assert forall i :: 0 <= i < |m.envFiles| ==> m.envFiles[i] == all[|m.composeFiles| + i];
    PayloadsByRole(items);
    PayloadsByRole(m.envFiles);
  }

  // ---------------------------------------------------------------- frozen

  /** Every file of a frozen manifest is where the settings, the caller or another file say. */
  lemma {:induction false} FrozenComesFrom(sys: System, now: Moment, tree: Tree, s: Settings, paths: seq<string>)
    requires Freezable(sys, now, tree, s, paths)
    ensures var m := Frozen(sys, now, tree, s, paths);
      && (forall i :: 0 <= i < |m.composeFiles| ==>
            m.composeFiles[i].path == now.abspath(sys.composePath(m.composeFiles[i].role)))
      && (|m.envFiles| == |paths| && forall i :: 0 <= i < |paths| ==> m.envFiles[i].path == now.abspath(paths[i]))
      && (forall i :: 0 <= i < |m.referencedFiles| ==>
            if i == 0 then m.referencedFiles[i].path == now.abspath(sys.bootstrapPath)
            else ReferredBy(sys, now, m.envFiles, m.referencedFiles[i]))
  {
    var m := Frozen(sys, now, tree, s, paths);
    var refs := References(sys, m.envFiles);
    forall i | 0 < i < |m.referencedFiles|
      ensures ReferredBy(sys, now, m.envFiles, m.referencedFiles[i])
    {
      ReferenceComesFrom(sys, now, tree, m.envFiles, i - 1);
      assert m.referencedFiles[i] == Observe(sys, now, tree, refs[i - 1]);
    }
  }

  /** Every input of a frozen manifest meets the rules, and so do the environment files together. */
  lemma {:induction false} FrozenMeetsRules(sys: System, now: Moment, tree: Tree, s: Settings, paths: seq<string>)
    requires Freezable(sys, now, tree, s, paths)
    ensures var m := Frozen(sys, now, tree, s, paths);
      && (forall i :: 0 <= i < |m.composeFiles| ==>
            MeetsRules(sys, now, s, sys.composePath(m.composeFiles[i].role), m.composeFiles[i]))
      && |m.envFiles| == |paths| && (forall i :: 0 <= i < |paths| ==>
            MeetsRules(sys, now, s, paths[i], m.envFiles[i]))
      && ByRole(m.envFiles, Payloads(m.envFiles)) && now.crossRoleOk(Payloads(m.envFiles), s.secretMode)
      && sys.settingsOk(s)
  {
    var m := Frozen(sys, now, tree, s, paths);
    FrozenIsStructured(sys, now, tree, s, paths);
    TextsByRole(sys, m);
    AcceptedIs(sys, now, tree, s, ComposeWants(sys, s));
    AcceptedIs(sys, now, tree, s, EnvWants(s, paths));
  }

  // ---------------------------------------------------------------- verified

  /** So does every input of a manifest that verifies; it is recorded by its absolute path, and every
      other file is one that the inputs refer to. */
  lemma {:induction false} VerifiedMeetsRules(sys: System, now: Moment, tree: Tree, m: Manifest)
    requires Verifies(sys, now, tree, m)
    ensures var items := m.composeFiles + m.envFiles;
      && (forall i :: 0 <= i < |items| ==>
            MeetsRules(sys, now, m.settings, items[i].path, items[i]) && items[i].path == now.abspath(items[i].path))
      && ByRole(items, Payloads(items)) && now.crossRoleOk(Payloads(items), m.settings.secretMode)
      && sys.settingsOk(m.settings)
  {
    var items := m.composeFiles + m.envFiles;
    TextsByRole(sys, m);
    AcceptedIs(sys, now, tree, m.settings, AllAgain(items));
    forall i | 0 <= i < |items|
      ensures MeetsRules(sys, now, m.settings, items[i].path, items[i]) && items[i].path == now.abspath(items[i].path)
    {
      assert ObserveAll(sys, now, tree, AllAgain(items))[i] == items[i];
    }
  }

  /** The recorded file is the bootstrap, or one that an input refers to, as it is found now. */
  ghost predicate FoundAgain(sys: System, now: Moment, items: seq<Record>, bootstrap: bool, recorded: Record) {
    exists r: Record :: RecordsMatch(sys, [r], [recorded]) &&
      (if bootstrap then r.path == now.abspath(sys.bootstrapPath) else ReferredBy(sys, now, items, r))
  }

  lemma {:induction false} IsFoundAgain(sys: System, now: Moment, tree: Tree, items: seq<Record>,
                                        recorded: seq<Record>, i: nat)
    requires RecordsMatch(sys, ObserveAll(sys, now, tree, [Bootstrap(sys)] + References(sys, items)), recorded)
    requires i < |recorded|
    ensures FoundAgain(sys, now, items, i == 0, recorded[i])
  {
    var refs := References(sys, items);
    var r := ObserveAll(sys, now, tree, [Bootstrap(sys)] + refs)[i];
    if i > 0 {
      assert r == Observe(sys, now, tree, refs[i - 1]);
      ReferenceComesFrom(sys, now, tree, items, i - 1);
    }
    assert RecordsMatch(sys, [r], [recorded[i]]);
  }

  lemma {:induction false} VerifiedComesFrom(sys: System, now: Moment, tree: Tree, m: Manifest)
    requires Verifies(sys, now, tree, m)
    ensures forall i :: 0 <= i < |m.referencedFiles| ==>
      FoundAgain(sys, now, m.composeFiles + m.envFiles, i == 0, m.referencedFiles[i])
  {
    forall i | 0 <= i < |m.referencedFiles|
      ensures FoundAgain(sys, now, m.composeFiles + m.envFiles, i == 0, m.referencedFiles[i])
    {
      IsFoundAgain(sys, now, tree, m.composeFiles + m.envFiles, m.referencedFiles, i);
    }
  }
}
