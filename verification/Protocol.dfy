/** The directory changes of a promotion, a rollback, a recovery and a retirement, each under the
    condition that its mutation guard checks on disk, and what every one of them keeps. */
module Protocol {
  import opened Options
  import opened Documents
  import opened Journals
  import opened Recovery

  predicate TargetFinal(d: Directory, j: Journal, m: Material, role: ClaimRole) {
    && Claim(m.nonce, role) !in d
    && match j.phase
       case Applying => At(d, PathOf(role)) == Some(m.OldFile(role))
       case Committing =>
         NewId(j, role).Some? && At(d, PathOf(role)) == Some(File(NewId(j, role).value, m.NewPayload(role)))
  }

  /** Both targets final, no prepared manifest, no claim but the journal's own. */
  predicate Clean(d: Directory, j: Journal, m: Material) {
    && Prepared(m.revision) !in d
    && TargetFinal(d, j, m, SelectionRole)
    && TargetFinal(d, j, m, ManifestRole)
  }

  /** Both targets hold the transaction's files, as a committing journal may claim. */
  predicate NewInPlace(d: Directory, j: Journal, m: Material) {
    && j.selectionId.Some? && j.manifestId.Some?
    && At(d, SelectionPath) == Some(NewPair(j, m).selection)
    && At(d, ManifestPath) == Some(NewPair(j, m).manifest)
  }

  predicate Target(role: ClaimRole) {
    !role.JournalRole?
  }

  // ---------------------------------------------------------------- journals

  lemma SettingAside(d: Directory, m: Material)
    requires Consistent(d, JournalPath, m) && Claim(m.nonce, JournalRole) !in d
    ensures var e := Move(d, JournalPath, Claim(m.nonce, JournalRole));
      Consistent(e, Claim(m.nonce, JournalRole), m)
      && Weight(e, Claim(m.nonce, JournalRole), m) == Weight(d, JournalPath, m) - 1
  {
  }

  lemma RestoringJournal(d: Directory, m: Material)
    requires Consistent(d, Claim(m.nonce, JournalRole), m)
    ensures Consistent(Move(d, Claim(m.nonce, JournalRole), JournalPath), JournalPath, m)
  {
  }

  lemma Superseding(d: Directory, m: Material, f: File)
    requires Consistent(d, Claim(m.nonce, JournalRole), m)
    requires Supersedes(f, d[Claim(m.nonce, JournalRole)])
    requires f.payload.journal.phase.Committing? ==> NewInPlace(d, f.payload.journal, m)
    ensures Consistent(d[JournalPath := f], JournalPath, m)
  {
  }

  lemma DroppingPredecessor(d: Directory, m: Material)
    requires Consistent(d, JournalPath, m) && Claim(m.nonce, JournalRole) in d
    ensures var e := d - {Claim(m.nonce, JournalRole)};
      Consistent(e, JournalPath, m) && Weight(e, JournalPath, m) == Weight(d, JournalPath, m) - 1
  {
  }

  // ---------------------------------------------------------------- targets

  lemma ClaimingTarget(d: Directory, m: Material, role: ClaimRole)
    requires Consistent(d, JournalPath, m) && Target(role) && d[JournalPath].payload.journal.phase.Applying?
    requires At(d, PathOf(role)) == Some(m.OldFile(role)) && Claim(m.nonce, role) !in d
    ensures Consistent(Move(d, PathOf(role), Claim(m.nonce, role)), JournalPath, m)
  {
  }

  lemma PublishingTarget(d: Directory, m: Material, role: ClaimRole, f: File)
    requires Consistent(d, JournalPath, m) && Target(role) && d[JournalPath].payload.journal.phase.Applying?
    requires PathOf(role) !in d && f.payload == m.NewPayload(role)
    requires NewId(d[JournalPath].payload.journal, role) == Some(f.inode)
    ensures Consistent(d[PathOf(role) := f], JournalPath, m)
  {
  }

  lemma PublishingPrepared(d: Directory, m: Material, f: File)
    requires Consistent(d, JournalPath, m)
    requires f.payload == m.newManifest && d[JournalPath].payload.journal.preparedId == Some(f.inode)
    ensures Consistent(d[Prepared(m.revision) := f], JournalPath, m)
  {
  }

  lemma DroppingPrepared(d: Directory, path: Name, m: Material)
    requires Consistent(d, path, m) && Prepared(m.revision) in d
    ensures var e := d - {Prepared(m.revision)};
      Consistent(e, path, m) && Weight(e, path, m) == Weight(d, path, m) - 1
  {
  }

  /** The first half of restore-over-transaction. */
  lemma RemovingNew(d: Directory, path: Name, m: Material, role: ClaimRole)
    requires Consistent(d, path, m) && Target(role) && d[path].payload.journal.phase.Applying?
    requires PlanFor(d, d[path].payload.journal, m, role).RestoreOver?
    ensures var e := d - {PathOf(role)};
      Consistent(e, path, m) && Weight(e, path, m) == Weight(d, path, m) - 1
      && PlanFor(e, e[path].payload.journal, m, role).RestoreClaim?
  {
  }

  lemma RestoringOld(d: Directory, path: Name, m: Material, role: ClaimRole)
    requires Consistent(d, path, m) && Target(role) && d[path].payload.journal.phase.Applying?
    requires PlanFor(d, d[path].payload.journal, m, role).RestoreClaim?
    ensures var e := Move(d, Claim(m.nonce, role), PathOf(role));
      Consistent(e, path, m) && Weight(e, path, m) == Weight(d, path, m) - 1
      && PlanFor(e, e[path].payload.journal, m, role).Done?
  {
  }

  lemma DroppingClaim(d: Directory, path: Name, m: Material, role: ClaimRole)
    requires Consistent(d, path, m) && Target(role) && Claim(m.nonce, role) in d
    requires d[path].payload.journal.phase.Applying? ==> PlanFor(d, d[path].payload.journal, m, role).DropClaim?
    ensures var e := d - {Claim(m.nonce, role)};
      Consistent(e, path, m) && Weight(e, path, m) == Weight(d, path, m) - 1
      && TargetFinal(e, e[path].payload.journal, m, role)
  {
  }

  // ---------------------------------------------------------------- retirement

  lemma StartingRetirement(d: Directory, m: Material)
    requires Consistent(d, Claim(m.nonce, JournalRole), m)
    ensures var e := Move(d, Claim(m.nonce, JournalRole), Retiring(m.nonce));
      Consistent(e, Retiring(m.nonce), m)
      && Weight(e, Retiring(m.nonce), m) == Weight(d, Claim(m.nonce, JournalRole), m) - 1
  {
  }

  lemma FinishingRetirement(d: Directory, m: Material)
    requires Consistent(d, Retiring(m.nonce), m)
    requires Clean(d, d[Retiring(m.nonce)].payload.journal, m)
    ensures Weight(d, Retiring(m.nonce), m) == 1
    ensures var e := d - {Retiring(m.nonce)};
      e.Keys == {SelectionPath, ManifestPath}
      && Pair(e[SelectionPath], e[ManifestPath]) == Outcome(d[Retiring(m.nonce)].payload.journal, m)
  {
    var e := d - {Retiring(m.nonce)};
    assert JournalPath !in d && Claim(m.nonce, JournalRole) !in d;
    assert Claim(m.nonce, SelectionRole) !in d && Claim(m.nonce, ManifestRole) !in d;
    forall n | n in e
      ensures n == SelectionPath || n == ManifestPath
    {
      assert n.Claim? ==>
        n == Claim(m.nonce, SelectionRole) || n == Claim(m.nonce, ManifestRole) || n == Claim(m.nonce, JournalRole);
    }
  }

  // ---------------------------------------------------------------- steps of a sound directory

  /** An admitted path is the one that a restart locates, so admission alone gives soundness. */
  lemma AdmittedIsLocated(d: Directory, path: Name)
    requires Admitted(d, path)
    ensures Locate(d) == Journaled(path) && Sound(d)
  {
    var claims, retiring := JournalClaims(d), RetiringJournals(d);
    if path == JournalPath {
      assert retiring == {};
    } else if path.Claim? {
      assert retiring == {};
      assert claims == {path};
    } else {
      assert claims == {};
      assert retiring == {path};
    }
  }

  lemma SettledIsSound(d: Directory)
    requires Settled(d)
    ensures Locate(d) == NoJournal && Sound(d)
  {
    assert JournalClaims(d) == {} && RetiringJournals(d) == {};
  }

  predicate Held(d: Directory)
    requires Sound(d)
  {
    Locate(d).Journaled?
  }

  function JournalAt(d: Directory): Journal
    requires Sound(d) && Held(d)
  {
    d[Locate(d).path].payload.journal
  }

  function MaterialAt(d: Directory): Material
    requires Sound(d) && Held(d)
  {
    MaterialOf(JournalAt(d).tx)
  }

  predicate HeldAt(d: Directory, path: Name)
    requires Sound(d)
  {
    Locate(d) == Journaled(path)
  }

  /** The journal's own claim is where the authority is. */
  predicate HeldAside(d: Directory)
    requires Sound(d)
  {
    Held(d) && Locate(d).path == Claim(MaterialAt(d).nonce, JournalRole)
  }

  predicate HeldRetiring(d: Directory)
    requires Sound(d)
  {
    Held(d) && Locate(d).path == Retiring(MaterialAt(d).nonce)
  }

  predicate HeldApplying(d: Directory)
    requires Sound(d)
  {
    Held(d) && JournalAt(d).phase.Applying?
  }

  datatype Step =
    | Begin(file: File)                           // publish the first journal
    | SetJournalAside                             // canonical journal -> its claim
    | RestoreJournal                              // claim -> canonical journal
    | Supersede(file: File)                       // publish the next journal
    | DropPredecessor                             // delete the superseded journal
    | ClaimTarget(role: ClaimRole)                // old file -> its claim
    | PublishTarget(role: ClaimRole, file: File)  // staged file -> target
    | PublishPrepared(file: File)
    | DropPrepared
    | RemoveNew(role: ClaimRole)                  // delete the transaction's file at the target
    | RestoreOld(role: ClaimRole)                 // claim -> target
    | DropOldClaim(role: ClaimRole)
    | StartRetiring                               // journal claim -> retiring name
    | FinishRetiring                              // retiring name -> gone

  /** The guard of a step, as a condition on the directory alone. */
  predicate Enabled(d: Directory, step: Step)
    requires Sound(d)
  {
    match step
    case Begin(f) =>
      && Settled(d) && HoldsJournal(f) && Rank(f.payload.journal) == 0
      && ValidMaterial(f.payload.journal.tx) && OldPair(MaterialOf(f.payload.journal.tx)) == Installed(d)
    case SetJournalAside => HeldAt(d, JournalPath) && Claim(MaterialAt(d).nonce, JournalRole) !in d
    case RestoreJournal => HeldAside(d)
    case Supersede(f) =>
      && HeldAside(d) && Supersedes(f, d[Locate(d).path])
      && (f.payload.journal.phase.Committing? ==> NewInPlace(d, f.payload.journal, MaterialAt(d)))
    case DropPredecessor => HeldAt(d, JournalPath) && Claim(MaterialAt(d).nonce, JournalRole) in d
    case ClaimTarget(role) =>
      && Target(role) && HeldAt(d, JournalPath) && HeldApplying(d)
      && At(d, PathOf(role)) == Some(MaterialAt(d).OldFile(role)) && Claim(MaterialAt(d).nonce, role) !in d
    case PublishTarget(role, f) =>
      && Target(role) && HeldAt(d, JournalPath) && HeldApplying(d) && PathOf(role) !in d
      && f.payload == MaterialAt(d).NewPayload(role) && NewId(JournalAt(d), role) == Some(f.inode)
    case PublishPrepared(f) =>
      && HeldAt(d, JournalPath) && f.payload == MaterialAt(d).newManifest
      && JournalAt(d).preparedId == Some(f.inode)
    case DropPrepared => Held(d) && Prepared(MaterialAt(d).revision) in d
    case RemoveNew(role) =>
      Target(role) && HeldApplying(d) && PlanFor(d, JournalAt(d), MaterialAt(d), role).RestoreOver?
    case RestoreOld(role) =>
      Target(role) && HeldApplying(d) && PlanFor(d, JournalAt(d), MaterialAt(d), role).RestoreClaim?
    case DropOldClaim(role) =>
      && Target(role) && Held(d) && Claim(MaterialAt(d).nonce, role) in d
      && (HeldApplying(d) ==> PlanFor(d, JournalAt(d), MaterialAt(d), role).DropClaim?)
    case StartRetiring => HeldAside(d)
    case FinishRetiring => HeldRetiring(d) && Clean(d, JournalAt(d), MaterialAt(d))
  }

  function Apply(d: Directory, step: Step): Directory
    requires Sound(d) && Enabled(d, step)
  {
    match step
    case Begin(f) => d[JournalPath := f]
    case SetJournalAside => Move(d, JournalPath, Claim(MaterialAt(d).nonce, JournalRole))
    case RestoreJournal => Move(d, Claim(MaterialAt(d).nonce, JournalRole), JournalPath)
    case Supersede(f) => d[JournalPath := f]
    case DropPredecessor => d - {Claim(MaterialAt(d).nonce, JournalRole)}
    case ClaimTarget(role) => Move(d, PathOf(role), Claim(MaterialAt(d).nonce, role))
    case PublishTarget(role, f) => d[PathOf(role) := f]
    case PublishPrepared(f) => d[Prepared(MaterialAt(d).revision) := f]
    case DropPrepared => d - {Prepared(MaterialAt(d).revision)}
    case RemoveNew(role) => d - {PathOf(role)}
    case RestoreOld(role) => Move(d, Claim(MaterialAt(d).nonce, role), PathOf(role))
    case DropOldClaim(role) => d - {Claim(MaterialAt(d).nonce, role)}
    case StartRetiring => Move(d, Claim(MaterialAt(d).nonce, JournalRole), Retiring(MaterialAt(d).nonce))
    case FinishRetiring => d - {Retiring(MaterialAt(d).nonce)}
  }

  /** The one step that changes what the directory stands for. */
  predicate Commits(step: Step) {
    step.Supersede? && step.file.payload.JournalJson? && step.file.payload.journal.phase.Committing?
  }

  /** The steps that recovery takes. */
  predicate RecoveryStep(step: Step) {
    || step.DropPredecessor? || step.DropPrepared? || step.RemoveNew? || step.RestoreOld?
    || step.DropOldClaim? || step.SetJournalAside? || step.StartRetiring? || step.FinishRetiring?
  }

  /** What a step must keep: the directory stays sound; only the committing step changes the
      installed pair, and it replaces both files of it at once; a recovery step leaves exactly one
      change less to make. Authority starts with a first journal, stays, goes to a successor, or ends. */
  predicate Keeps(d: Directory, step: Step, e: Directory)
    requires Sound(d)
  {
    && Sound(e)
    && (if Commits(step) then
          && Held(d) && Installed(d) == OldPair(MaterialAt(d))
          && ValidProgress(step.file.payload.journal)
          && Installed(e) == NewPair(step.file.payload.journal, MaterialAt(d))
        else Installed(e) == Installed(d))
    && (RecoveryStep(step) ==> Remaining(e) == Remaining(d) - 1)
    && (if Held(d) then Advances(d, step, e) else Held(e) && Rank(JournalAt(e)) == 0)
  }

  /** The journal with authority stays, or gives way to its successor, or is retired. */
  predicate Advances(d: Directory, step: Step, e: Directory)
    requires Sound(d) && Held(d) && Sound(e)
  {
    match Locate(e)
    case NoJournal => step.FinishRetiring?
    case Journaled(path) =>
      || e[path] == d[Locate(d).path]
      || (step.Supersede? && Supersedes(e[path], d[Locate(d).path]))
  }

  /** A change that leaves a consistent journal of the same transaction leaves a sound directory. */
  lemma Carries(d: Directory, e: Directory, path: Name)
    requires Sound(d) && Held(d)
    requires Consistent(e, path, MaterialAt(d)) && e[path].payload.journal.tx == JournalAt(d).tx
    ensures Sound(e) && Locate(e) == Journaled(path) && MaterialAt(e) == MaterialAt(d)
    ensures Installed(e) == Outcome(e[path].payload.journal, MaterialAt(d))
    ensures Remaining(e) == Weight(e, path, MaterialAt(d))
  {
    AdmittedIsLocated(e, path);
  }

  lemma BeginKeeps(d: Directory, f: File)
    requires Sound(d) && Enabled(d, Begin(f))
    ensures Keeps(d, Begin(f), Apply(d, Begin(f)))
    ensures Locate(Apply(d, Begin(f))) == Journaled(JournalPath)
  {
    AdmittedIsLocated(Apply(d, Begin(f)), JournalPath);
  }

  lemma SetJournalAsideKeeps(d: Directory)
    requires Sound(d) && Enabled(d, SetJournalAside)
    ensures Keeps(d, SetJournalAside, Apply(d, SetJournalAside))
    ensures Locate(Apply(d, SetJournalAside)) == Journaled(Claim(MaterialAt(d).nonce, JournalRole))
  {
    SettingAside(d, MaterialAt(d));
    Carries(d, Apply(d, SetJournalAside), Claim(MaterialAt(d).nonce, JournalRole));
  }

  lemma RestoreJournalKeeps(d: Directory)
    requires Sound(d) && Enabled(d, RestoreJournal)
    ensures Keeps(d, RestoreJournal, Apply(d, RestoreJournal))
  {
    RestoringJournal(d, MaterialAt(d));
    Carries(d, Apply(d, RestoreJournal), JournalPath);
  }

  lemma SupersedeKeeps(d: Directory, f: File)
    requires Sound(d) && Enabled(d, Supersede(f))
    ensures Keeps(d, Supersede(f), Apply(d, Supersede(f)))
    ensures Locate(Apply(d, Supersede(f))) == Journaled(JournalPath)
  {
    Superseding(d, MaterialAt(d), f);
    Carries(d, Apply(d, Supersede(f)), JournalPath);
  }

  lemma DropPredecessorKeeps(d: Directory)
    requires Sound(d) && Enabled(d, DropPredecessor)
    ensures Keeps(d, DropPredecessor, Apply(d, DropPredecessor))
    ensures Locate(Apply(d, DropPredecessor)) == Locate(d)
  {
    DroppingPredecessor(d, MaterialAt(d));
    Carries(d, Apply(d, DropPredecessor), JournalPath);
  }

  lemma ClaimTargetKeeps(d: Directory, role: ClaimRole)
    requires Sound(d) && Enabled(d, ClaimTarget(role))
    ensures Keeps(d, ClaimTarget(role), Apply(d, ClaimTarget(role)))
    ensures Locate(Apply(d, ClaimTarget(role))) == Locate(d)
  {
    ClaimingTarget(d, MaterialAt(d), role);
    Carries(d, Apply(d, ClaimTarget(role)), JournalPath);
  }

  lemma PublishTargetKeeps(d: Directory, role: ClaimRole, f: File)
    requires Sound(d) && Enabled(d, PublishTarget(role, f))
    ensures Keeps(d, PublishTarget(role, f), Apply(d, PublishTarget(role, f)))
    ensures Locate(Apply(d, PublishTarget(role, f))) == Locate(d)
  {
    PublishingTarget(d, MaterialAt(d), role, f);
    Carries(d, Apply(d, PublishTarget(role, f)), JournalPath);
  }

  lemma PublishPreparedKeeps(d: Directory, f: File)
    requires Sound(d) && Enabled(d, PublishPrepared(f))
    ensures Keeps(d, PublishPrepared(f), Apply(d, PublishPrepared(f)))
    ensures Locate(Apply(d, PublishPrepared(f))) == Locate(d)
  {
    PublishingPrepared(d, MaterialAt(d), f);
    Carries(d, Apply(d, PublishPrepared(f)), JournalPath);
  }

  lemma DropPreparedKeeps(d: Directory)
    requires Sound(d) && Enabled(d, DropPrepared)
    ensures Keeps(d, DropPrepared, Apply(d, DropPrepared))
    ensures Locate(Apply(d, DropPrepared)) == Locate(d)
  {
    DroppingPrepared(d, Locate(d).path, MaterialAt(d));
    Carries(d, Apply(d, DropPrepared), Locate(d).path);
  }

  lemma RemoveNewKeeps(d: Directory, role: ClaimRole)
    requires Sound(d) && Enabled(d, RemoveNew(role))
    ensures Keeps(d, RemoveNew(role), Apply(d, RemoveNew(role)))
    ensures Locate(Apply(d, RemoveNew(role))) == Locate(d)
  {
    RemovingNew(d, Locate(d).path, MaterialAt(d), role);
    Carries(d, Apply(d, RemoveNew(role)), Locate(d).path);
  }

  lemma RestoreOldKeeps(d: Directory, role: ClaimRole)
    requires Sound(d) && Enabled(d, RestoreOld(role))
    ensures Keeps(d, RestoreOld(role), Apply(d, RestoreOld(role)))
    ensures Locate(Apply(d, RestoreOld(role))) == Locate(d)
  {
    RestoringOld(d, Locate(d).path, MaterialAt(d), role);
    Carries(d, Apply(d, RestoreOld(role)), Locate(d).path);
  }

  lemma DropOldClaimKeeps(d: Directory, role: ClaimRole)
    requires Sound(d) && Enabled(d, DropOldClaim(role))
    ensures Keeps(d, DropOldClaim(role), Apply(d, DropOldClaim(role)))
    ensures Locate(Apply(d, DropOldClaim(role))) == Locate(d)
  {
    DroppingClaim(d, Locate(d).path, MaterialAt(d), role);
    Carries(d, Apply(d, DropOldClaim(role)), Locate(d).path);
  }

  lemma StartRetiringKeeps(d: Directory)
    requires Sound(d) && Enabled(d, StartRetiring)
    ensures Keeps(d, StartRetiring, Apply(d, StartRetiring))
    ensures Locate(Apply(d, StartRetiring)) == Journaled(Retiring(MaterialAt(d).nonce))
  {
    StartingRetirement(d, MaterialAt(d));
    Carries(d, Apply(d, StartRetiring), Retiring(MaterialAt(d).nonce));
  }

  lemma FinishRetiringKeeps(d: Directory)
    requires Sound(d) && Enabled(d, FinishRetiring)
    ensures Keeps(d, FinishRetiring, Apply(d, FinishRetiring))
    ensures Locate(Apply(d, FinishRetiring)) == NoJournal
  {
    FinishingRetirement(d, MaterialAt(d));
    OutcomeCoherent(JournalAt(d));
    SettledIsSound(Apply(d, FinishRetiring));
  }

  lemma ForwardStepKeeps(d: Directory, step: Step)
    requires Sound(d) && Enabled(d, step) && !RecoveryStep(step)
    ensures Keeps(d, step, Apply(d, step))
  {
    match step
    case Begin(f) => BeginKeeps(d, f);
    case RestoreJournal => RestoreJournalKeeps(d);
    case Supersede(f) => SupersedeKeeps(d, f);
    case ClaimTarget(role) => ClaimTargetKeeps(d, role);
    case PublishTarget(role, f) => PublishTargetKeeps(d, role, f);
    case PublishPrepared(f) => PublishPreparedKeeps(d, f);
    case _ =>
  }

  lemma RecoveryStepKeeps(d: Directory, step: Step)
    requires Sound(d) && Enabled(d, step) && RecoveryStep(step)
    ensures Keeps(d, step, Apply(d, step))
  {
    match step
    case SetJournalAside => SetJournalAsideKeeps(d);
    case DropPredecessor => DropPredecessorKeeps(d);
    case DropPrepared => DropPreparedKeeps(d);
    case RemoveNew(role) => RemoveNewKeeps(d, role);
    case RestoreOld(role) => RestoreOldKeeps(d, role);
    case DropOldClaim(role) => DropOldClaimKeeps(d, role);
    case StartRetiring => StartRetiringKeeps(d);
    case FinishRetiring => FinishRetiringKeeps(d);
    case _ =>
  }

  /** Every step of the protocol keeps all of that. */
  lemma StepKeepsSound(d: Directory, step: Step)
    requires Sound(d) && Enabled(d, step)
    ensures Keeps(d, step, Apply(d, step))
  {
    if RecoveryStep(step) {
      RecoveryStepKeeps(d, step);
    } else {
      ForwardStepKeeps(d, step);
    }
  }

  /** Whatever a journal settles on is coherent. */
  lemma OutcomeCoherent(j: Journal)
    requires ValidProgress(j) && ValidMaterial(j.tx)
    ensures var p := Outcome(j, MaterialOf(j.tx)); Coherent(p.selection.payload, p.manifest.payload)
    ensures var p := Outcome(j, MaterialOf(j.tx));
      ApiOf(p.selection.payload.selection) == ApiOf(j.tx.oldSelection.payload.selection)
  {
    ForwardIsCoherent(j.tx.oldSelection.payload, j.tx.oldManifest.payload, j.tx.newSelection);
  }
}
