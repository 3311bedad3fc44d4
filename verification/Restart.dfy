/** Recovery of what an earlier run left behind, and the clean-up that it shares with a promotion:
    restoring a target, deleting the leftovers, retiring the journal. */
module Restart {
  import opened Options
  import opened Documents
  import opened Journals
  import opened Recovery
  import opened Protocol
  import opened Runs
  import opened RuntimeDirectory

  // ---------------------------------------------------------------- relations between states

  /** `e` is `d` or further on the way to rest: same installed pair, fewer changes to make, a run of
      the protocol leads there, and a journal that is left is one of the same transaction. */
  ghost predicate Recovering(d: Directory, e: Directory) {
    && Sound(d) && Sound(e)
    && Installed(e) == Installed(d)
    && (e == d || (Remaining(e) < Remaining(d) && Leads(d, e)))
    && (Held(e) ==> Held(d) && JournalAt(e).tx == JournalAt(d).tx)
  }

  /** The journal `file` of the material `m` has authority. */
  ghost predicate Governs(d: Directory, file: File, m: Material) {
    Sound(d) && Held(d) && d[Locate(d).path] == file && MaterialAt(d) == m
  }

  /** Further on the way to rest, under the same journal at the same name. */
  ghost predicate Continues(d: Directory, e: Directory) {
    && Recovering(d, e) && Held(d)
    && Locate(e) == Locate(d) && e[Locate(d).path] == d[Locate(d).path]
  }

  lemma ContinuesTransitive(d: Directory, e: Directory, f: Directory)
    requires Continues(d, e)
    ensures Continues(e, f) ==> Continues(d, f)
    ensures Recovering(e, f) ==> Recovering(d, f)
  {
    if Recovering(e, f) && d != e && e != f {
      LeadsOn(d, e, f);
    }
  }

  lemma ContinuesGoverned(d: Directory, e: Directory, file: File, m: Material)
    requires Governs(d, file, m) && Continues(d, e)
    ensures Governs(e, file, m)
  {
  }

  lemma CanonicalIsLocated(d: Directory)
    requires Sound(d) && JournalPath in d
    ensures HeldAt(d, JournalPath)
  {
  }

  /** The journals of a directory. */
  function JournalsOf(d: Directory): Directory {
    map n | n in d && JournalName(n) :: d[n]
  }

  /** A guard that holds as long as the journals stay as they are in `d`. */
  ghost predicate Steady(guard: Directory -> bool, d: Directory) {
    forall e :: JournalsOf(e) == JournalsOf(d) ==> guard(e)
  }

  lemma JournalsWithout(d: Directory, n: Name)
    requires !JournalName(n)
    ensures JournalsOf(d - {n}) == JournalsOf(d)
  {
  }

  // ---------------------------------------------------------------- restoring one target

  /** The plan for one target, when the transaction's inode is taken to be `id`. */
  function PlanWith(d: Directory, m: Material, role: ClaimRole, id: Option<Inode>): Plan {
    var claim := At(d, Claim(m.nonce, role));
    var plan := Inspect(At(d, PathOf(role)), claim, m.OldFile(role), m.NewPayload(role), id);
    if RestorePlan(plan, claim, m.OldFile(role)) then plan else Refused
  }

  /** A restore plan made with any inode is the plan that the governing journal gives. */
  lemma PlanAgrees(d: Directory, path: Name, m: Material, role: ClaimRole, id: Option<Inode>)
    requires Consistent(d, path, m) && d[path].payload.journal.phase.Applying? && Target(role)
    ensures PlanWith(d, m, role, id).Refused? ||
      PlanWith(d, m, role, id) == PlanFor(d, d[path].payload.journal, m, role)
    ensures id == NewId(d[path].payload.journal, role) ==>
      PlanWith(d, m, role, id) == PlanFor(d, d[path].payload.journal, m, role)
    ensures PlanFor(d, d[path].payload.journal, m, role) in {Done, DropClaim, RestoreClaim, RestoreOver}
    ensures PlanWith(d, m, role, id).Done? ==> TargetFinal(d, d[path].payload.journal, m, role)
    ensures PlanWith(d, m, role, id).DropClaim? ==>
      Claim(m.nonce, role) in d && d[Claim(m.nonce, role)] == m.OldFile(role)
    ensures PlanWith(d, m, role, id).RestoreOver? ==> PathOf(role) in d
  {
  }

  /** `e` differs from `d` only at one target and its claim, and is further on the way to rest. */
  ghost predicate TargetContinues(d: Directory, e: Directory, m: Material, role: ClaimRole) {
    && Continues(d, e)
    && e - {PathOf(role), Claim(m.nonce, role)} == d - {PathOf(role), Claim(m.nonce, role)}
  }

  lemma DropClaimContinues(d: Directory, m: Material, role: ClaimRole)
    requires Sound(d) && Enabled(d, DropOldClaim(role)) && m == MaterialAt(d)
    ensures var e := d - {Claim(m.nonce, role)};
      TargetContinues(d, e, m, role) && TargetFinal(e, JournalAt(e), m, role)
  {
    LeadsByStep(d, DropOldClaim(role));
    DropOldClaimKeeps(d, role);
    DroppingClaim(d, Locate(d).path, m, role);
  }

  lemma RemoveNewContinues(d: Directory, m: Material, role: ClaimRole)
    requires Sound(d) && Enabled(d, RemoveNew(role)) && m == MaterialAt(d)
    ensures var e := d - {PathOf(role)};
      && TargetContinues(d, e, m, role) && HeldApplying(e) && MaterialAt(e) == m
      && PlanFor(e, JournalAt(e), m, role).RestoreClaim?
  {
    LeadsByStep(d, RemoveNew(role));
    RemoveNewKeeps(d, role);
    RemovingNew(d, Locate(d).path, m, role);
  }

  lemma MoveFrame(d: Directory, source: Name, target: Name)
    requires source in d
    ensures Move(d, source, target) - {target, source} == d - {target, source}
  {
  }

  lemma RestoreOldMoves(d: Directory, m: Material, role: ClaimRole)
    requires Sound(d) && Enabled(d, RestoreOld(role)) && m == MaterialAt(d)
    ensures At(d, Claim(m.nonce, role)) == Some(m.OldFile(role)) && PathOf(role) !in d
    ensures TargetContinues(d, Move(d, Claim(m.nonce, role), PathOf(role)), m, role)
  {
    LeadsByStep(d, RestoreOld(role));
    RestoreOldKeeps(d, role);
    MoveFrame(d, Claim(m.nonce, role), PathOf(role));
  }

  lemma RestoreOldContinues(d: Directory, m: Material, role: ClaimRole)
    requires Sound(d) && Enabled(d, RestoreOld(role)) && m == MaterialAt(d)
    ensures At(d, Claim(m.nonce, role)) == Some(m.OldFile(role)) && PathOf(role) !in d
    ensures var e := Move(d, Claim(m.nonce, role), PathOf(role));
      TargetContinues(d, e, m, role) && TargetFinal(e, JournalAt(e), m, role)
  {
    RestoreOldMoves(d, m, role);
    RestoreOldKeeps(d, role);
    RestoringOld(d, Locate(d).path, m, role);
  }

  /** Put the old file of one target back: by its claim, over the transaction's file if need be. In a
      calm run nothing but a refused plan stops it. */
  method RestoreTarget(rt: Runtime, file: File, m: Material, role: ClaimRole, id: Option<Inode>,
                       guard: Directory -> bool) returns (s: Signal)
    requires Governs(rt.Now(), file, m) && file.payload.journal.phase.Applying? && Target(role)
    modifies rt
    ensures !s.Terminal?
    ensures TargetContinues(old(rt.Now()), rt.Now(), m, role)
    ensures s.Ok? ==> TargetFinal(rt.Now(), file.payload.journal, m, role)
    ensures rt.calm && id == NewId(file.payload.journal, role) && Steady(guard, old(rt.Now())) ==> s.Ok?
  {
    ghost var d := rt.Now();
    PlanAgrees(d, Locate(d).path, m, role, id);
    match PlanWith(Live(rt.disk), m, role, id)
    case Done =>
      s := Ok;
    case DropClaim =>
      s := DropClaimOnly(rt, file, m, role, guard);
    case RestoreOver =>
      s := RestoreOverNew(rt, file, m, role, guard);
    case RestoreClaim =>
      s := RestoreFromClaim(rt, file, m, role, guard);
    case _ =>
      s := Failed;
  }

  method DropClaimOnly(rt: Runtime, file: File, m: Material, role: ClaimRole, guard: Directory -> bool)
    returns (s: Signal)
    requires Governs(rt.Now(), file, m) && Enabled(rt.Now(), DropOldClaim(role))
    requires At(rt.Now(), Claim(m.nonce, role)) == Some(m.OldFile(role))
    modifies rt
    ensures !s.Terminal?
    ensures TargetContinues(old(rt.Now()), rt.Now(), m, role)
    ensures s.Ok? ==> TargetFinal(rt.Now(), file.payload.journal, m, role)
    ensures rt.calm && Steady(guard, old(rt.Now())) ==> s.Ok?
  {
    DropClaimContinues(rt.Now(), m, role);
    JournalsWithout(rt.Now(), Claim(m.nonce, role));
    s := rt.UnlinkOwnedPayload(Claim(m.nonce, role), m.OldFile(role), guard);
  }

  method RestoreOverNew(rt: Runtime, file: File, m: Material, role: ClaimRole, guard: Directory -> bool)
    returns (s: Signal)
    requires Governs(rt.Now(), file, m) && Enabled(rt.Now(), RemoveNew(role)) && PathOf(role) in rt.Now()
    modifies rt
    ensures !s.Terminal?
    ensures TargetContinues(old(rt.Now()), rt.Now(), m, role)
    ensures s.Ok? ==> TargetFinal(rt.Now(), file.payload.journal, m, role)
    ensures rt.calm && Steady(guard, old(rt.Now())) ==> s.Ok?
  {
    ghost var d := rt.Now();
    RemoveNewContinues(d, m, role);
    JournalsWithout(d, PathOf(role));
    s := rt.UnlinkOwnedPayload(PathOf(role), Live(rt.disk)[PathOf(role)], guard);
    if s.Ok? {
      ghost var e := rt.Now();
      s := RestoreFromClaim(rt, file, m, role, guard);
      ContinuesTransitive(d, e, rt.Now());
    }
  }

  method RestoreFromClaim(rt: Runtime, file: File, m: Material, role: ClaimRole, guard: Directory -> bool)
    returns (s: Signal)
    requires Governs(rt.Now(), file, m) && Enabled(rt.Now(), RestoreOld(role))
    modifies rt
    ensures !s.Terminal?
    ensures TargetContinues(old(rt.Now()), rt.Now(), m, role)
    ensures s.Ok? ==> TargetFinal(rt.Now(), file.payload.journal, m, role)
    ensures rt.calm && Steady(guard, old(rt.Now())) ==> s.Ok?
  {
    var path, claim := PathOf(role), Claim(m.nonce, role);
    RestoreOldContinues(rt.Now(), m, role);
    :- rt.Guard(guard);
    ghost var before := rt.disk;
    LiveLookup(rt.disk, claim);
    LiveLookup(rt.disk, path);
    s := rt.MoveNoReplaceOwned(Entry(claim), Entry(path), m.OldFile(role).inode);
    if rt.disk != before {
      LiveMove(before, Entry(claim), Entry(path));
    }
    if s.Ok? {
      s := rt.Hazard();
    }
  }

  /** Put both old files back. */
  method RestoreBoth(rt: Runtime, file: File, m: Material, selectionId: Option<Inode>, manifestId: Option<Inode>,
                     guard: Directory -> bool) returns (s: Signal)
    requires Governs(rt.Now(), file, m) && file.payload.journal.phase.Applying?
    modifies rt
    ensures !s.Terminal?
    ensures Continues(old(rt.Now()), rt.Now())
    ensures s.Ok? ==>
      && TargetFinal(rt.Now(), file.payload.journal, m, SelectionRole)
      && TargetFinal(rt.Now(), file.payload.journal, m, ManifestRole)
      && JournalsOf(rt.Now()) == JournalsOf(old(rt.Now()))
    ensures
      && rt.calm && Steady(guard, old(rt.Now()))
      && selectionId == file.payload.journal.selectionId && manifestId == file.payload.journal.manifestId
      ==> s.Ok?
  {
    ghost var d := rt.Now();
    :- rt.Guard(guard);
    s := RestoreTarget(rt, file, m, SelectionRole, selectionId, guard);
    ghost var e := rt.Now();
    ContinuesGoverned(d, e, file, m);
    JournalsSame(d, e, m, SelectionRole);
    if !s.Ok? {
      return;
    }
    s := rt.Guard(guard);
    if !s.Ok? {
      return;
    }
    s := RestoreTarget(rt, file, m, ManifestRole, manifestId, guard);
    ContinuesTransitive(d, e, rt.Now());
    JournalsSame(e, rt.Now(), m, ManifestRole);
    OtherTargetSame(e, rt.Now(), file.payload.journal, m);
    if s.Ok? {
      s := rt.Hazard();
    }
  }

  lemma JournalsSame(d: Directory, e: Directory, m: Material, role: ClaimRole)
    requires e - {PathOf(role), Claim(m.nonce, role)} == d - {PathOf(role), Claim(m.nonce, role)} && Target(role)
    ensures JournalsOf(e) == JournalsOf(d)
  {
    forall n | JournalName(n)
      ensures (n in e <==> n in d) && (n in e ==> e[n] == d[n])
    {
      assert n in e - {PathOf(role), Claim(m.nonce, role)} <==> n in d - {PathOf(role), Claim(m.nonce, role)};
    }
  }

  lemma OtherTargetSame(d: Directory, e: Directory, j: Journal, m: Material)
    requires e - {ManifestPath, Claim(m.nonce, ManifestRole)} == d - {ManifestPath, Claim(m.nonce, ManifestRole)}
    ensures TargetFinal(e, j, m, SelectionRole) == TargetFinal(d, j, m, SelectionRole)
  {
    forall n | n == SelectionPath || n == Claim(m.nonce, SelectionRole)
      ensures (n in e <==> n in d) && (n in e ==> e[n] == d[n])
    {
      assert n in e - {ManifestPath, Claim(m.nonce, ManifestRole)} <==>
        n in d - {ManifestPath, Claim(m.nonce, ManifestRole)};
    }
  }

  // ---------------------------------------------------------------- retiring the journal

  /** What is verified around each rename of the journal: both targets are what the journal settles
      on, and no claim, retiring journal or prepared manifest is left but the journal's own. */
  predicate CleanupVerified(d: Directory, j: Journal, m: Material)
    requires ValidProgress(j)
  {
    && At(d, SelectionPath) == Some(Outcome(j, m).selection)
    && At(d, ManifestPath) == Some(Outcome(j, m).manifest)
    && forall n :: n in d ==>
         && (n.Claim? ==> n == Claim(m.nonce, JournalRole))
         && (n.Retiring? ==> n == Retiring(m.nonce))
         && !n.Prepared?
  }

  lemma VerifiedMoved(d: Directory, j: Journal, m: Material, source: Name, target: Name)
    requires ValidProgress(j) && CleanupVerified(d, j, m) && source in d
    requires source == JournalPath || source == Claim(m.nonce, JournalRole)
    requires target == Claim(m.nonce, JournalRole) || target == Retiring(m.nonce)
    ensures CleanupVerified(Move(d, source, target), j, m)
  {
  }

  lemma AsideContinues(d: Directory, file: File, m: Material)
    requires Governs(d, file, m) && HeldAt(d, JournalPath) && Claim(m.nonce, JournalRole) !in d
    ensures var e := Move(d, JournalPath, Claim(m.nonce, JournalRole));
      Recovering(d, e) && Governs(e, file, m) && HeldAside(e)
  {
    LeadsByStep(d, SetJournalAside);
    SetJournalAsideKeeps(d);
  }

  lemma StartRetiringContinues(d: Directory, file: File, m: Material)
    requires Governs(d, file, m) && HeldAside(d)
    ensures Retiring(m.nonce) !in d && Claim(m.nonce, JournalRole) in d
    ensures var e := Move(d, Claim(m.nonce, JournalRole), Retiring(m.nonce));
      Recovering(d, e) && Governs(e, file, m) && HeldRetiring(e)
  {
    LeadsByStep(d, StartRetiring);
    StartRetiringKeeps(d);
  }

  lemma FinishRetiringContinues(d: Directory, file: File, m: Material)
    requires Governs(d, file, m) && HeldRetiring(d)
    requires CleanupVerified(d, file.payload.journal, m)
    ensures Recovering(d, d - {Retiring(m.nonce)}) && !Held(d - {Retiring(m.nonce)})
  {
    assert Clean(d, file.payload.journal, m);
    LeadsByStep(d, FinishRetiring);
    FinishRetiringKeeps(d);
  }

  lemma RecoveringTransitive(d: Directory, e: Directory, f: Directory)
    requires Recovering(d, e) && Recovering(e, f)
    ensures Recovering(d, f)
  {
    if d != e && e != f {
      LeadsOn(d, e, f);
    }
  }

  /** Retire the only journal: canonical name, claim, retiring name, retired name, gone. */
  method CommitJournal(rt: Runtime, file: File, m: Material) returns (s: Signal)
    requires Governs(rt.Now(), file, m)
    modifies rt
    ensures Recovering(old(rt.Now()), rt.Now())
    ensures s.Ok? || s.Terminal? ==> !Held(rt.Now())
    ensures
      && rt.calm && CleanupVerified(old(rt.Now()), file.payload.journal, m)
      && (JournalPath in old(rt.Now()) ==> Claim(m.nonce, JournalRole) !in old(rt.Now()))
      ==> s.Ok?
  {
    var j := file.payload.journal;
    var claim := Claim(m.nonce, JournalRole);
    var d := Live(rt.disk);
    // Exactly one of the three names may be in use.
    if JournalPath in d && claim in d {
      return Failed;
    }
    if JournalPath in d {
      CanonicalIsLocated(d);
      AsideContinues(d, file, m);
      :- rt.Guard(d => CleanupVerified(d, j, m));
      ghost var before := rt.disk;
      LiveLookup(rt.disk, JournalPath);
      LiveLookup(rt.disk, claim);
      s := rt.MoveNoReplaceOwned(Entry(JournalPath), Entry(claim), file.inode);
      if rt.disk != before {
        LiveMove(before, Entry(JournalPath), Entry(claim));
        VerifiedMoved(d, j, m, JournalPath, claim);
      }
      if !s.Ok? {
        return;
      }
    }
    ghost var e := rt.Now();
    s := RetireFromClaim(rt, file, m);
    RecoveringTransitive(d, e, rt.Now());
  }

  method RetireFromClaim(rt: Runtime, file: File, m: Material) returns (s: Signal)
    requires Governs(rt.Now(), file, m) && (HeldAside(rt.Now()) || HeldRetiring(rt.Now()))
    modifies rt
    ensures Recovering(old(rt.Now()), rt.Now())
    ensures s.Ok? || s.Terminal? ==> !Held(rt.Now())
    ensures rt.calm && CleanupVerified(old(rt.Now()), file.payload.journal, m) ==> s.Ok?
  {
    var j := file.payload.journal;
    var claim, retiring := Claim(m.nonce, JournalRole), Retiring(m.nonce);
    ghost var d := rt.Now();
    if claim in Live(rt.disk) {
      StartRetiringContinues(d, file, m);
      :- rt.Guard(d => CleanupVerified(d, j, m));
      ghost var before := rt.disk;
      LiveLookup(rt.disk, claim);
      LiveLookup(rt.disk, retiring);
      s := rt.MoveNoReplaceOwned(Entry(claim), Entry(retiring), file.inode);
      if rt.disk != before {
        LiveMove(before, Entry(claim), Entry(retiring));
        VerifiedMoved(d, j, m, claim, retiring);
      }
      if !s.Ok? {
        return;
      }
    }
    ghost var e := rt.Now();
    s := DeleteRetiring(rt, file, m);
    RecoveringTransitive(d, e, rt.Now());
  }

  /** The last rename and the delete, verified before. */
  method DeleteRetiring(rt: Runtime, file: File, m: Material) returns (s: Signal)
    requires Governs(rt.Now(), file, m) && HeldRetiring(rt.Now())
    modifies rt
    ensures Recovering(old(rt.Now()), rt.Now())
    ensures s.Ok? || s.Terminal? ==> !Held(rt.Now())
    ensures rt.calm && CleanupVerified(old(rt.Now()), file.payload.journal, m) ==> s.Ok?
  {
    var j := file.payload.journal;
    :- rt.Guard(d => CleanupVerified(d, j, m));
    FinishRetiringContinues(rt.Now(), file, m);
    s := UnlinkRetiring(rt, file, m);
  }

  method UnlinkRetiring(rt: Runtime, file: File, m: Material) returns (s: Signal)
    requires At(rt.Now(), Retiring(m.nonce)) == Some(file)
    modifies rt
    ensures rt.Now() == old(rt.Now()) || rt.Now() == old(rt.Now()) - {Retiring(m.nonce)}
    ensures s.Ok? || s.Terminal? ==> rt.Now() == old(rt.Now()) - {Retiring(m.nonce)}
    ensures s.Ok? || s.Terminal? ==> rt.disk == old(rt.disk) - {Entry(Retiring(m.nonce))}
    ensures
      rt.calm && JournalPath !in old(rt.Now()) && Claim(m.nonce, JournalRole) !in old(rt.Now()) ==> s.Ok?
  {
    var retiring := Retiring(m.nonce);
    var token := rt.DrawToken();
    ghost var before := rt.disk;
    LiveLookup(rt.disk, retiring);
    s := rt.MoveNoReplaceOwned(Entry(retiring), Retired(token), file.inode);
    if rt.disk != before {
      LiveMove(before, Entry(retiring), Retired(token));
    }
    if s.Ok? {
      MovedAndGone(before, Entry(retiring), Retired(token));
      s := DeleteRetired(rt, token, m);
      assert MovePlace(MovePlace(before, Entry(retiring), Retired(token)), Retired(token), Entry(retiring)) == before;
    }
  }

  /** The bound delete of the retired journal. A delete that did not happen is followed by a rename
      back; a delete that could not be synced is reported as terminal. */
  method DeleteRetired(rt: Runtime, token: nat, m: Material) returns (s: Signal)
    requires Retired(token) in rt.disk && Entry(Retiring(m.nonce)) !in rt.disk
    modifies rt
    ensures rt.Now() == old(rt.Now()) || rt.disk == MovePlace(old(rt.disk), Retired(token), Entry(Retiring(m.nonce)))
    ensures s.Ok? || s.Terminal? ==> rt.Now() == old(rt.Now()) && rt.disk == old(rt.disk) - {Retired(token)}
    ensures
      && rt.calm && JournalPath !in old(rt.Now()) && Claim(m.nonce, JournalRole) !in old(rt.Now())
      && Retiring(m.nonce) !in old(rt.Now())
      ==> s.Ok?
  {
    s := rt.Guard(d => JournalPath !in d && Claim(m.nonce, JournalRole) !in d && Retiring(m.nonce) !in d);
    if s.Ok? {
      assert Live(rt.disk - {Retired(token)}) == Live(rt.disk);
      rt.disk := rt.disk - {Retired(token)};
      s := rt.Hazard();
      if s.Failed? {
        s := Terminal;
      }
      return;
    }
    if s.Failed? {
      var back := rt.Hazard();
      if back.Ok? {
        rt.disk := MovePlace(rt.disk, Retired(token), Entry(Retiring(m.nonce)));
        back := rt.Hazard();
      }
      if back.Crashed? {
        s := back;
      }
    }
  }

  // ---------------------------------------------------------------- clean-up

  lemma DropStepContinues(d: Directory, step: Step)
    requires Sound(d) && Enabled(d, step)
    requires step.DropPrepared? || step.DropPredecessor? || step.DropOldClaim?
    ensures Continues(d, Apply(d, step))
  {
    LeadsByStep(d, step);
    match step
    case DropPrepared => DropPreparedKeeps(d);
    case DropPredecessor => DropPredecessorKeeps(d);
    case DropOldClaim(role) => DropOldClaimKeeps(d, role);
    case _ =>
  }

  /** Delete the prepared manifest, if there is one and it is the recorded one. */
  method CleanPrepared(rt: Runtime, file: File, m: Material, guard: Directory -> bool) returns (s: Signal)
    requires Governs(rt.Now(), file, m)
    modifies rt
    ensures !s.Terminal?
    ensures Continues(old(rt.Now()), rt.Now())
    ensures s.Ok? ==> rt.Now() == old(rt.Now()) - {Prepared(m.revision)}
    ensures rt.calm && Steady(guard, old(rt.Now())) ==> s.Ok?
  {
    var j := file.payload.journal;
    if Prepared(m.revision) !in Live(rt.disk) {
      return Ok;
    }
    if j.preparedId.None? {
      return Failed;
    }
    DropStepContinues(rt.Now(), DropPrepared);
    JournalsWithout(rt.Now(), Prepared(m.revision));
    s := rt.UnlinkOwnedPayload(Prepared(m.revision), File(j.preparedId.value, m.newManifest), guard);
  }

  /** Delete the claim of one old file after the commit, if it is still there. */
  method CleanClaim(rt: Runtime, file: File, m: Material, role: ClaimRole, guard: Directory -> bool)
    returns (s: Signal)
    requires Governs(rt.Now(), file, m) && file.payload.journal.phase.Committing? && Target(role)
    modifies rt
    ensures !s.Terminal?
    ensures Continues(old(rt.Now()), rt.Now())
    ensures s.Ok? ==> rt.Now() == old(rt.Now()) - {Claim(m.nonce, role)}
    ensures rt.calm && Steady(guard, old(rt.Now())) ==> s.Ok?
  {
    var claim := Claim(m.nonce, role);
    if claim !in Live(rt.disk) {
      return Ok;
    }
    DropStepContinues(rt.Now(), DropOldClaim(role));
    JournalsWithout(rt.Now(), claim);
    s := rt.UnlinkOwnedPayload(claim, m.OldFile(role), guard);
  }

  /** Delete the superseded journal beside the canonical one, if there is one. */
  method CleanPredecessor(rt: Runtime, file: File, m: Material) returns (s: Signal)
    requires Governs(rt.Now(), file, m)
    modifies rt
    ensures !s.Terminal?
    ensures Continues(old(rt.Now()), rt.Now())
    ensures KeepsTemporaries(old(rt.disk), rt.disk)
    ensures rt.Now() == old(rt.Now()) || rt.Now() == old(rt.Now()) - {Claim(m.nonce, JournalRole)}
    ensures s.Ok? && JournalPath in old(rt.Now()) ==> rt.Now() == old(rt.Now()) - {Claim(m.nonce, JournalRole)}
    ensures JournalPath !in old(rt.Now()) ==> rt.Now() == old(rt.Now())
    ensures rt.calm ==> s.Ok?
  {
    var d := Live(rt.disk);
    var claim := Claim(m.nonce, JournalRole);
    if JournalPath !in d || claim !in d {
      return Ok;
    }
    CanonicalIsLocated(d);
    DropStepContinues(d, DropPredecessor);
    var superseded := d[claim];
    assert RetiringJournals(d) == {} && RetiringJournals(d - {claim}) == {};
    s := rt.UnlinkOwnedPayload(claim, superseded, d =>
      At(d, JournalPath) == Some(file) && At(d, claim) in {None, Some(superseded)} && RetiringJournals(d) == {});
  }

  /** With both targets final and the leftovers deleted, the directory is ready for retirement. */
  lemma CleanedIsVerified(d: Directory, file: File, m: Material)
    requires Governs(d, file, m)
    requires TargetFinal(d, file.payload.journal, m, SelectionRole)
    requires TargetFinal(d, file.payload.journal, m, ManifestRole)
    ensures CleanupVerified(d - {Prepared(m.revision)}, file.payload.journal, m)
    ensures CleanupVerified(d - {Prepared(m.revision)} - {Claim(m.nonce, JournalRole)}, file.payload.journal, m)
  {
    forall n | n in d
      ensures n.Claim? ==> n == Claim(m.nonce, JournalRole)
      ensures n.Retiring? ==> n == Retiring(m.nonce)
      ensures n.Prepared? ==> n == Prepared(m.revision)
    {
      assert n.Claim? ==>
        n == Claim(m.nonce, SelectionRole) || n == Claim(m.nonce, ManifestRole) || n == Claim(m.nonce, JournalRole);
    }
  }

  /** The common end: the prepared manifest, the superseded journal, then the journal itself. */
  method CleanAndRetire(rt: Runtime, file: File, m: Material, guard: Directory -> bool) returns (s: Signal)
    requires Governs(rt.Now(), file, m)
    modifies rt
    ensures Recovering(old(rt.Now()), rt.Now())
    ensures s.Ok? || s.Terminal? ==> !Held(rt.Now())
    ensures
      && rt.calm && Steady(guard, old(rt.Now()))
      && TargetFinal(old(rt.Now()), file.payload.journal, m, SelectionRole)
      && TargetFinal(old(rt.Now()), file.payload.journal, m, ManifestRole)
      ==> s.Ok?
  {
    ghost var d := rt.Now();
    if TargetFinal(d, file.payload.journal, m, SelectionRole) && TargetFinal(d, file.payload.journal, m, ManifestRole) {
      CleanedIsVerified(d, file, m);
    }
    s := CleanPrepared(rt, file, m, guard);
    ContinuesGoverned(d, rt.Now(), file, m);
    if !s.Ok? {
      return;
    }
    ghost var e := rt.Now();
    s := CleanPredecessor(rt, file, m);
    ContinuesTransitive(d, e, rt.Now());
    ContinuesGoverned(d, rt.Now(), file, m);
    if !s.Ok? {
      return;
    }
    e := rt.Now();
    s := CommitJournal(rt, file, m);
    ContinuesTransitive(d, e, rt.Now());
  }

  // ---------------------------------------------------------------- recovery

  /** The journal that recovery works for is still the one that it read, and still the only one but
      for the predecessor that it found beside it. */
  predicate RecoveryAuthority(d: Directory, path: Name, file: File, duplicate: Option<File>, nonce: nat) {
    var claim := Claim(nonce, JournalRole);
    && At(d, path) == Some(file)
    && if path == JournalPath then At(d, claim) == duplicate && RetiringJournals(d) == {}
       else if path == claim then JournalPath !in d && RetiringJournals(d) == {}
       else JournalPath !in d && claim !in d && RetiringJournals(d) == {path}
  }

  lemma SameJournals(d: Directory, e: Directory)
    requires JournalsOf(e) == JournalsOf(d)
    ensures forall n :: JournalName(n) ==> At(e, n) == At(d, n)
    ensures RetiringJournals(e) == RetiringJournals(d)
  {
    forall n | JournalName(n)
      ensures At(e, n) == At(d, n)
    {
      assert n in JournalsOf(e) <==> n in JournalsOf(d);
    }
    forall n: Name | n.Retiring?
      ensures n in RetiringJournals(e) <==> n in RetiringJournals(d)
    {
      assert JournalName(n);
      assert n in JournalsOf(e) <==> n in JournalsOf(d);
    }
  }

  /** The authority that recovery has at its start holds as long as the journals stay. */
  lemma AuthoritySteady(d: Directory, file: File, m: Material, guard: Directory -> bool)
    requires Governs(d, file, m)
    requires
      var path, duplicate := Locate(d).path, At(d, Claim(m.nonce, JournalRole));
      forall e :: guard(e) == RecoveryAuthority(e, path, file, duplicate, m.nonce)
    ensures Steady(guard, d)
  {
    var path := Locate(d).path;
    assert RetiringJournals(d) == if path.Retiring? then {path} else {};
    forall e | JournalsOf(e) == JournalsOf(d)
      ensures guard(e)
    {
      SameJournals(d, e);
      assert JournalName(JournalPath) && JournalName(path) && JournalName(Claim(m.nonce, JournalRole));
    }
  }

  /** Bring a directory with a journal to rest: back to the old pair while applying, on to the new
      pair while committing. A directory that a restart does not admit is left as it is; on an
      admitted one every intermediate state is admitted again, with fewer changes left, and a calm
      run comes to rest. */
  method Recover(rt: Runtime, path: Name) returns (s: Signal)
    requires Locate(rt.Now()) == Journaled(path)
    modifies rt
    ensures !RestartAdmits(old(rt.Now()), path) ==> rt.Now() == old(rt.Now()) && !s.Ok? && !s.Terminal?
    ensures Admitted(old(rt.Now()), path) ==> Recovering(old(rt.Now()), rt.Now())
    ensures s.Ok? || s.Terminal? ==> Sound(rt.Now()) && !Held(rt.Now())
    ensures rt.calm && RestartAdmits(old(rt.Now()), path) ==> s.Ok?
  {
    var d := Live(rt.disk);
    if !RestartAdmits(d, path) {
      return Failed;
    }
    :- rt.Hazard();
    var file := d[path];
    var m := MaterialOf(file.payload.journal.tx);
    var duplicate := At(d, Claim(m.nonce, JournalRole));
    var guard := e => RecoveryAuthority(e, path, file, duplicate, m.nonce);
    AuthoritySteady(d, file, m, guard);
    if file.payload.journal.phase.Committing? {
      s := FinishCommit(rt, file, m, guard);
    } else {
      s := UndoTransaction(rt, file, m, guard);
    }
  }

  lemma CommittedIsFinal(d: Directory, file: File, m: Material)
    requires Governs(d, file, m) && file.payload.journal.phase.Committing?
    ensures var e := d - {Claim(m.nonce, SelectionRole)} - {Claim(m.nonce, ManifestRole)};
      && TargetFinal(e, file.payload.journal, m, SelectionRole)
      && TargetFinal(e, file.payload.journal, m, ManifestRole)
  {
  }

  /** Clean up after the decision: the two old files, then the common end. */
  method FinishCommit(rt: Runtime, file: File, m: Material, guard: Directory -> bool) returns (s: Signal)
    requires Governs(rt.Now(), file, m) && file.payload.journal.phase.Committing?
    modifies rt
    ensures Recovering(old(rt.Now()), rt.Now())
    ensures s.Ok? || s.Terminal? ==> !Held(rt.Now())
    ensures rt.calm && Steady(guard, old(rt.Now())) ==> s.Ok?
  {
    ghost var d := rt.Now();
    CommittedIsFinal(d, file, m);
    JournalsWithout(d, Claim(m.nonce, SelectionRole));
    JournalsWithout(d - {Claim(m.nonce, SelectionRole)}, Claim(m.nonce, ManifestRole));
    :- rt.Guard(guard);
    s := CleanClaim(rt, file, m, SelectionRole, guard);
    ContinuesGoverned(d, rt.Now(), file, m);
    if !s.Ok? {
      return;
    }
    ghost var e := rt.Now();
    s := CleanClaim(rt, file, m, ManifestRole, guard);
    ContinuesTransitive(d, e, rt.Now());
    ContinuesGoverned(d, rt.Now(), file, m);
    if !s.Ok? {
      return;
    }
    e := rt.Now();
    s := CleanAndRetire(rt, file, m, guard);
    ContinuesTransitive(d, e, rt.Now());
  }

  /** Undo an undecided transaction: both old files back, then the common end. */
  method UndoTransaction(rt: Runtime, file: File, m: Material, guard: Directory -> bool) returns (s: Signal)
    requires Governs(rt.Now(), file, m) && file.payload.journal.phase.Applying?
    modifies rt
    ensures Recovering(old(rt.Now()), rt.Now())
    ensures s.Ok? || s.Terminal? ==> !Held(rt.Now())
    ensures rt.calm && Steady(guard, old(rt.Now())) ==> s.Ok?
  {
    var j := file.payload.journal;
    ghost var d := rt.Now();
    s := RestoreBoth(rt, file, m, j.selectionId, j.manifestId, guard);
    ContinuesGoverned(d, rt.Now(), file, m);
    if !s.Ok? {
      return;
    }
    ghost var e := rt.Now();
    s := CleanAndRetire(rt, file, m, guard);
    ContinuesTransitive(d, e, rt.Now());
  }
}
