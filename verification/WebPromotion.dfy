/** The promotion of one Web image: the transaction, its rollback, and one whole run of the program. */
module WebPromotion {
  import opened Options
  import opened Documents
  import opened Journals
  import opened Recovery
  import opened Protocol
  import opened Runs
  import opened RuntimeDirectory
  import opened Restart
  import opened SelectionFiles

  // ---------------------------------------------------------------- memory and disk

  /** What the promoting process remembers: its last published journal, the journal that one
      superseded if that may still be there, and the inodes it owns. */
  datatype Progress = Progress(journal: File, predecessor: Option<File>, selectionId: Option<Inode>,
                               preparedId: Option<Inode>, manifestId: Option<Inode>)

  /** The journal in memory can be rolled back from. */
  ghost predicate Undoable(p: Progress, m: Material) {
    && HoldsJournal(p.journal) && p.journal.payload.journal.phase.Applying?
    && ValidMaterial(p.journal.payload.journal.tx) && m == MaterialOf(p.journal.payload.journal.tx)
  }

  /** Disk and memory agree: the journal in memory is canonical and alone. */
  ghost predicate Ready(d: Directory, p: Progress, m: Material) {
    && Undoable(p, m) && Governs(d, p.journal, m) && HeldAt(d, JournalPath)
    && Claim(m.nonce, JournalRole) !in d
    && var j := p.journal.payload.journal;
    && p.predecessor.None? && j.selectionId == p.selectionId && j.preparedId == p.preparedId
    && j.manifestId == p.manifestId
  }

  /** The directory is sound, and a journal in it is one of this transaction. */
  ghost predicate Serves(d: Directory, m: Material) {
    Sound(d) && (Held(d) ==> MaterialAt(d) == m)
  }

  predicate ActiveJournal(d: Directory, journal: File, nonce: nat) {
    At(d, JournalPath) == Some(journal) && Claim(nonce, JournalRole) !in d
  }

  // ---------------------------------------------------------------- publishing journals

  datatype Slot = SelectionSlot | PreparedSlot | ManifestSlot

  /** What each journal after the first one records: a staged inode, in the order of the slots, and
      at last the decision. */
  datatype Milestone = Staged(slot: Slot, id: Inode) | Decided

  function NextJournal(current: File, milestone: Milestone): Journal
    requires current.payload.JournalJson?
  {
    var j := current.payload.journal.(previousId := Some(current.inode),
                                      previousDigest := Some(Sha256(current.payload)));
    match milestone
    case Staged(SelectionSlot, id) => j.(selectionId := Some(id))
    case Staged(PreparedSlot, id) => j.(preparedId := Some(id))
    case Staged(ManifestSlot, id) => j.(manifestId := Some(id))
    case Decided => j.(phase := Committing)
  }

  function RankBefore(slot: Slot): nat {
    match slot
    case SelectionSlot => 0
    case PreparedSlot => 1
    case ManifestSlot => 2
  }

  /** The milestone is the one due after `current`. */
  predicate Due(current: Journal, milestone: Milestone) {
    && current.phase.Applying?
    && Rank(current) == match milestone case Staged(slot, _) => RankBefore(slot) case Decided => 3
  }

  /** The journals that a promotion writes are the ones that recovery accepts as successors. */
  lemma NextSupersedes(current: File, milestone: Milestone)
    requires HoldsJournal(current) && Due(current.payload.journal, milestone)
    ensures Supersedes(File(0, JournalJson(NextJournal(current, milestone))), current)
    ensures Rank(NextJournal(current, milestone)) == Rank(current.payload.journal) + 1
  {
  }

  /** The states of a journal publication. */
  ghost predicate PublishState(d: Directory, e: Directory, claim: Name, file: File)
    requires JournalPath in d
  {
    || e == d || e == Move(d, JournalPath, claim) || e == Move(d, JournalPath, claim)[JournalPath := file]
    || e == d[JournalPath := file]
  }

  lemma SupersededForm(d: Directory, claim: Name, file: File)
    requires JournalPath in d && claim !in d
    ensures Move(d, JournalPath, claim)[JournalPath := file] - {claim} == d[JournalPath := file]
  {
  }

  /** The current journal set aside still governs. */
  lemma AsideSound(d: Directory, current: File, m: Material)
    requires Governs(d, current, m) && HeldAt(d, JournalPath) && Claim(m.nonce, JournalRole) !in d
    ensures var e := Move(d, JournalPath, Claim(m.nonce, JournalRole));
      Governs(e, current, m) && HeldAside(e) && Installed(e) == Installed(d) && Arrives(d, e)
  {
    AsideContinues(d, current, m);
  }

  /** Once the next journal is canonical, it governs, and decides what is installed. */
  lemma NextSound(d: Directory, current: File, m: Material, file: File)
    requires Governs(d, current, m) && HeldAside(d)
    requires Supersedes(file, current)
    requires file.payload.journal.phase.Committing? ==> NewInPlace(d, file.payload.journal, m)
    ensures var e := d[JournalPath := file];
      && Governs(e, file, m) && HeldAt(e, JournalPath) && Installed(e) == Outcome(file.payload.journal, m)
      && Arrives(d, e)
  {
    LeadsByStep(d, Supersede(file));
    SupersedeKeeps(d, file);
  }

  /** Stage the next journal and swap it in, keeping the current one as the claim. */
  method SwapJournal(rt: Runtime, current: File, payload: Payload, claim: Name, condition: Directory -> bool)
    returns (s: Signal, published: bool, file: File)
    requires At(rt.Now(), JournalPath) == Some(current) && claim !in rt.Now() && claim != JournalPath
    modifies rt
    ensures !s.Terminal? && file.payload == payload
    ensures
      || rt.Now() == old(rt.Now()) || rt.Now() == Move(old(rt.Now()), JournalPath, claim)
      || rt.Now() == Move(old(rt.Now()), JournalPath, claim)[JournalPath := file]
    ensures KeepsTemporaries(old(rt.disk), rt.disk)
    ensures s.Ok? ==> published
    ensures published ==> rt.Now() == Move(old(rt.Now()), JournalPath, claim)[JournalPath := file]
    ensures rt.calm && condition(old(rt.Now())) && condition(Move(old(rt.Now()), JournalPath, claim)) ==> s.Ok?
  {
    published := false;
    var temporary, identity;
    s, temporary, identity := rt.StageTemporary(payload);
    file := File(identity, payload);
    if s.Ok? {
      s, published := rt.PublishConditional(temporary, file, JournalPath, current, claim, d =>
        && ((At(d, JournalPath) == Some(current) && claim !in d) ||
            (JournalPath !in d && At(d, claim) == Some(current)))
        && condition(d));
    }
  }

  /** Both states after the renames of a publication are sound, and a run leads to them. */
  lemma PublicationSound(d: Directory, current: File, m: Material, file: File) returns (swapped: Directory)
    requires Governs(d, current, m) && HeldAt(d, JournalPath) && Claim(m.nonce, JournalRole) !in d
    requires Supersedes(file, current)
    requires file.payload.journal.phase.Committing? ==> NewInPlace(d, file.payload.journal, m)
    ensures var aside := Move(d, JournalPath, Claim(m.nonce, JournalRole));
      && swapped == aside[JournalPath := file]
      && Sound(aside) && Installed(aside) == Installed(d) && Arrives(d, aside)
    ensures Governs(swapped, file, m) && HeldAt(swapped, JournalPath)
    ensures Installed(swapped) == Outcome(file.payload.journal, m) && Arrives(d, swapped)
  {
    var aside := Move(d, JournalPath, Claim(m.nonce, JournalRole));
    swapped := aside[JournalPath := file];
    AsideSound(d, current, m);
    NextSound(aside, current, m, file);
    ArrivesOn(d, aside, swapped);
  }

  /** Publish the next journal: the current one is set aside, the next one takes the canonical name,
      the superseded one is deleted. */
  method PublishJournal(rt: Runtime, current: File, next: Journal, m: Material, condition: Directory -> bool)
    returns (s: Signal, published: bool, file: File)
    requires Governs(rt.Now(), current, m) && HeldAt(rt.Now(), JournalPath)
    requires Claim(m.nonce, JournalRole) !in rt.Now()
    requires Supersedes(File(0, JournalJson(next)), current)
    requires next.phase.Committing? ==> NewInPlace(rt.Now(), next, m)
    modifies rt
    ensures !s.Terminal? && file.payload == JournalJson(next)
    ensures PublishState(old(rt.Now()), rt.Now(), Claim(m.nonce, JournalRole), file)
    ensures KeepsTemporaries(old(rt.disk), rt.disk)
    ensures Serves(rt.Now(), m)
    ensures Installed(rt.Now()) == old(Installed(rt.Now())) || Installed(rt.Now()) == Outcome(next, m)
    ensures published ==> At(rt.Now(), JournalPath) == Some(file) && Installed(rt.Now()) == Outcome(next, m)
    ensures s.Ok? ==> published && rt.Now() == old(rt.Now())[JournalPath := file]
    ensures s.Ok? ==> Governs(rt.Now(), file, m)
    ensures Arrives(old(rt.Now()), rt.Now())
    ensures
      && rt.calm && condition(old(rt.Now()))
      && condition(Move(old(rt.Now()), JournalPath, Claim(m.nonce, JournalRole)))
      ==> s.Ok?
  {
    ghost var d := rt.Now();
    var claim := Claim(m.nonce, JournalRole);
    s, published, file := SwapJournal(rt, current, JournalJson(next), claim, condition);
    ghost var swapped := PublicationSound(d, current, m, file);
    if s.Ok? {
      SupersededForm(d, claim, file);
      s := CleanPredecessor(rt, file, m);
      ArrivesOn(d, swapped, rt.Now());
    }
  }

  // ---------------------------------------------------------------- installing the new files

  function Own(p: Progress, slot: Slot, id: Inode): Progress {
    match slot
    case SelectionSlot => p.(selectionId := Some(id))
    case PreparedSlot => p.(preparedId := Some(id))
    case ManifestSlot => p.(manifestId := Some(id))
  }

  /** Stage a file, and record its inode in the next journal before it becomes visible. */
  method StageAndRecord(rt: Runtime, p: Progress, m: Material, slot: Slot, payload: Payload)
    returns (s: Signal, q: Progress, temporary: Place, staged: File)
    requires Ready(rt.Now(), p, m) && Rank(p.journal.payload.journal) == RankBefore(slot)
    modifies rt
    ensures !s.Terminal? && temporary.Temporary? && staged.payload == payload
    ensures Serves(rt.Now(), m) && Installed(rt.Now()) == OldPair(m)
    ensures Undoable(q, m) && Arrives(old(rt.Now()), rt.Now())
    ensures s.Ok? ==>
      && Ready(rt.Now(), q, m)
      && q.journal.payload == JournalJson(NextJournal(p.journal, Staged(slot, staged.inode)))
      && rt.Now() == old(rt.Now())[JournalPath := q.journal]
      && temporary in rt.disk && rt.disk[temporary] == staged
    ensures rt.calm ==> s.Ok?
  {
    q := p;
    var id;
    s, temporary, id := rt.StageTemporary(payload);
    staged := File(id, payload);
    if !s.Ok? {
      return;
    }
    q := Own(p, slot, id);
    NextSupersedes(p.journal, Staged(slot, id));
    var published, file;
    s, published, file := PublishJournal(rt, p.journal, NextJournal(p.journal, Staged(slot, id)), m, d => true);
    if published {
      q := q.(journal := file, predecessor := if s.Ok? then None else Some(p.journal));
    }
    if s.Ok? {
      CanonicalIsLocated(rt.Now());
    }
    if s.Failed? {
      var cleaned := rt.AbandonTemporary(temporary, id);
      if cleaned.Crashed? {
        s := cleaned;
      }
    }
  }

  /** While a target is swapped, its journal keeps governing and the installed pair stays. */
  lemma SwapSound(d: Directory, journal: File, m: Material, role: ClaimRole, staged: File)
    requires Governs(d, journal, m) && HeldAt(d, JournalPath) && Target(role)
    requires journal.payload.journal.phase.Applying? && At(d, PathOf(role)) == Some(m.OldFile(role))
    requires Claim(m.nonce, role) !in d
    requires NewId(journal.payload.journal, role) == Some(staged.inode) && staged.payload == m.NewPayload(role)
    ensures var e := Move(d, PathOf(role), Claim(m.nonce, role));
      && Governs(e, journal, m) && Installed(e) == Installed(d)
      && Governs(e[PathOf(role) := staged], journal, m) && HeldAt(e[PathOf(role) := staged], JournalPath)
      && Installed(e[PathOf(role) := staged]) == Installed(d)
      && Arrives(d, e) && Arrives(d, e[PathOf(role) := staged])
  {
    LeadsByStep(d, ClaimTarget(role));
    ClaimTargetKeeps(d, role);
    var e := Move(d, PathOf(role), Claim(m.nonce, role));
    LeadsByStep(e, PublishTarget(role, staged));
    PublishTargetKeeps(e, role, staged);
    ArrivesOn(d, e, e[PathOf(role) := staged]);
  }

  /** One target holds the new file, the old one is in the claim, and nothing else changed. */
  ghost predicate Swapped(d: Directory, e: Directory, m: Material, role: ClaimRole, staged: File) {
    && PathOf(role) in d
    && e == Move(d, PathOf(role), Claim(m.nonce, role))[PathOf(role) := staged]
  }

  method SwapTarget(rt: Runtime, journal: File, m: Material, role: ClaimRole, temporary: Place, staged: File)
    returns (s: Signal)
    requires Governs(rt.Now(), journal, m) && HeldAt(rt.Now(), JournalPath) && Target(role) && temporary.Temporary?
    requires journal.payload.journal.phase.Applying? && Claim(m.nonce, JournalRole) !in rt.Now()
    requires NewId(journal.payload.journal, role) == Some(staged.inode) && staged.payload == m.NewPayload(role)
    requires At(rt.Now(), PathOf(role)) == Some(m.OldFile(role)) && Claim(m.nonce, role) !in rt.Now()
    modifies rt
    ensures !s.Terminal?
    ensures Serves(rt.Now(), m) && Installed(rt.Now()) == OldPair(m)
    ensures Arrives(old(rt.Now()), rt.Now())
    ensures s.Ok? ==> Swapped(old(rt.Now()), rt.Now(), m, role, staged)
    ensures s.Ok? ==> Governs(rt.Now(), journal, m) && HeldAt(rt.Now(), JournalPath)
    ensures rt.calm && temporary in old(rt.disk) && old(rt.disk)[temporary] == staged ==> s.Ok?
  {
    ghost var d := rt.Now();
    SwapSound(d, journal, m, role, staged);
    var published;
    s, published := rt.PublishConditional(temporary, staged, PathOf(role), m.OldFile(role), Claim(m.nonce, role),
                                          d => ActiveJournal(d, journal, m.nonce));
    if s.Ok? {
      s := rt.Guard(d => ActiveJournal(d, journal, m.nonce));
    }
  }

  /** Swap one target from the old to the new file. */
  method InstallTarget(rt: Runtime, p: Progress, m: Material, role: ClaimRole)
    returns (s: Signal, q: Progress, staged: File)
    requires Ready(rt.Now(), p, m) && Target(role)
    requires Rank(p.journal.payload.journal) == if role.SelectionRole? then 0 else 2
    requires At(rt.Now(), PathOf(role)) == Some(m.OldFile(role)) && Claim(m.nonce, role) !in rt.Now()
    modifies rt
    ensures !s.Terminal?
    ensures Serves(rt.Now(), m) && Installed(rt.Now()) == OldPair(m)
    ensures Undoable(q, m) && Arrives(old(rt.Now()), rt.Now())
    ensures s.Ok? ==>
      && Ready(rt.Now(), q, m) && Rank(q.journal.payload.journal) == Rank(p.journal.payload.journal) + 1
      && KeepsIdentities(p.journal.payload.journal, q.journal.payload.journal)
      && NewId(q.journal.payload.journal, role) == Some(staged.inode) && staged.payload == m.NewPayload(role)
      && Swapped(old(rt.Now())[JournalPath := q.journal], rt.Now(), m, role, staged)
    ensures rt.calm ==> s.Ok?
  {
    var slot := if role.SelectionRole? then SelectionSlot else ManifestSlot;
    var temporary;
    s, q, temporary, staged := StageAndRecord(rt, p, m, slot, m.NewPayload(role));
    if s.Ok? {
      NextSupersedes(p.journal, Staged(slot, staged.inode));
      ghost var recorded := rt.Now();
      s := SwapTarget(rt, q.journal, m, role, temporary, staged);
      ArrivesOn(old(rt.Now()), recorded, rt.Now());
    }
  }

  lemma PreparedSound(d: Directory, journal: File, m: Material, staged: File)
    requires Governs(d, journal, m) && HeldAt(d, JournalPath)
    requires journal.payload.journal.preparedId == Some(staged.inode) && staged.payload == m.newManifest
    ensures var e := d[Prepared(m.revision) := staged];
      Governs(e, journal, m) && HeldAt(e, JournalPath) && Installed(e) == Installed(d) && Arrives(d, e)
  {
    LeadsByStep(d, PublishPrepared(staged));
    PublishPreparedKeeps(d, staged);
  }

  /** Publish the manifest-to-be under its own name, for verification. */
  method InstallPrepared(rt: Runtime, p: Progress, m: Material) returns (s: Signal, q: Progress, staged: File)
    requires Ready(rt.Now(), p, m) && Rank(p.journal.payload.journal) == 1
    modifies rt
    ensures !s.Terminal?
    ensures Serves(rt.Now(), m) && Installed(rt.Now()) == OldPair(m)
    ensures Undoable(q, m) && Arrives(old(rt.Now()), rt.Now())
    ensures s.Ok? ==>
      && Ready(rt.Now(), q, m) && Rank(q.journal.payload.journal) == 2
      && KeepsIdentities(p.journal.payload.journal, q.journal.payload.journal)
      && q.journal.payload.journal.preparedId == Some(staged.inode) && staged.payload == m.newManifest
      && rt.Now() == old(rt.Now())[JournalPath := q.journal][Prepared(m.revision) := staged]
    ensures rt.calm && Prepared(m.revision) !in old(rt.Now()) ==> s.Ok?
  {
    var temporary;
    s, q, temporary, staged := StageAndRecord(rt, p, m, PreparedSlot, m.newManifest);
    if s.Ok? {
      NextSupersedes(p.journal, Staged(PreparedSlot, staged.inode));
      var journal := q.journal;
      ghost var recorded := rt.Now();
      PreparedSound(recorded, journal, m, staged);
      s := rt.PublishAbsent(temporary, staged, Prepared(m.revision), d => ActiveJournal(d, journal, m.nonce));
      ArrivesOn(old(rt.Now()), recorded, rt.Now());
      if s.Ok? {
        s := rt.Guard(d => ActiveJournal(d, journal, m.nonce));
      }
    }
  }

  // ---------------------------------------------------------------- the decision

  predicate CommitReady(d: Directory, j: Journal, m: Material) {
    && NewInPlace(d, j, m)
    && j.preparedId.Some? && At(d, Prepared(m.revision)) == Some(File(j.preparedId.value, m.newManifest))
  }

  /** Publish the committing journal, once both new files and the prepared manifest are verified. */
  method DecideCommit(rt: Runtime, p: Progress, m: Material) returns (s: Signal, committed: bool, q: Progress)
    requires Ready(rt.Now(), p, m) && Rank(p.journal.payload.journal) == 3
    modifies rt
    ensures !s.Terminal?
    ensures Serves(rt.Now(), m)
    ensures Arrives(old(rt.Now()), rt.Now())
    ensures Installed(rt.Now()) == OldPair(m) || Installed(rt.Now()) == NewPair(p.journal.payload.journal, m)
    ensures !committed ==> Undoable(q, m) && !s.Ok?
    ensures committed ==>
      && Governs(rt.Now(), q.journal, m) && q.journal.payload.journal.phase.Committing?
      && Installed(rt.Now()) == NewPair(p.journal.payload.journal, m)
    ensures s.Ok? ==> HeldAt(rt.Now(), JournalPath) && Claim(m.nonce, JournalRole) !in rt.Now()
    ensures rt.calm && CommitReady(old(rt.Now()), p.journal.payload.journal, m) ==> s.Ok?
  {
    var j := p.journal.payload.journal;
    q, committed := p, false;
    s := rt.Guard(d => CommitReady(d, j, m));
    if !s.Ok? {
      return;
    }
    NextSupersedes(p.journal, Decided);
    var next := NextJournal(p.journal, Decided);
    var file;
    s, committed, file := PublishJournal(rt, p.journal, next, m, d => CommitReady(d, j, m));
    if committed {
      q := q.(journal := file, predecessor := if s.Ok? then None else Some(p.journal));
      CanonicalIsLocated(rt.Now());
    }
  }

  /** The authority that the committing process checks while it cleans up. */
  lemma CommitSteady(d: Directory, file: File, m: Material, guard: Directory -> bool)
    requires Governs(d, file, m) && HeldAt(d, JournalPath) && Claim(m.nonce, JournalRole) !in d
    requires forall e :: guard(e) == ActiveJournal(e, file, m.nonce)
    ensures Steady(guard, d)
  {
    forall e | JournalsOf(e) == JournalsOf(d)
      ensures guard(e)
    {
      SameJournals(d, e);
      assert JournalName(JournalPath) && JournalName(Claim(m.nonce, JournalRole));
    }
  }

  /** The payloads of the transaction, whatever the inodes. */
  predicate NewContents(p: Pair, m: Material) {
    p.selection.payload == m.newSelection && p.manifest.payload == m.newManifest
  }

  /** The manifest swap puts the last of the three new files in place. */
  lemma AllInPlace(d: Directory, e: Directory, j: Journal, k: Journal, m: Material, journal: File, manifest: File)
    requires j.selectionId.Some? && At(d, SelectionPath) == Some(File(j.selectionId.value, m.newSelection))
    requires j.preparedId.Some? && At(d, Prepared(m.revision)) == Some(File(j.preparedId.value, m.newManifest))
    requires KeepsIdentities(j, k) && k.manifestId == Some(manifest.inode) && manifest.payload == m.newManifest
    requires Swapped(d[JournalPath := journal], e, m, ManifestRole, manifest)
    ensures CommitReady(e, k, m)
  {
  }

  lemma TwoInPlace(d: Directory, e: Directory, f: Directory, m: Material, first: File, second: File,
                   selection: File, prepared: File)
    requires Swapped(d[JournalPath := first], e, m, SelectionRole, selection)
    requires f == e[JournalPath := second][Prepared(m.revision) := prepared]
    ensures At(f, SelectionPath) == Some(selection) && At(f, Prepared(m.revision)) == Some(prepared)
    ensures At(f, ManifestPath) == At(d, ManifestPath)
    ensures At(f, Claim(m.nonce, ManifestRole)) == At(d, Claim(m.nonce, ManifestRole))
    ensures At(e, Prepared(m.revision)) == At(d, Prepared(m.revision))
  {
  }

  /** Install the selection and the prepared manifest. */
  method InstallFirstTwo(rt: Runtime, first: Progress, m: Material) returns (s: Signal, p: Progress)
    requires Ready(rt.Now(), first, m) && Rank(first.journal.payload.journal) == 0
    requires At(rt.Now(), SelectionPath) == Some(m.oldSelection) && Claim(m.nonce, SelectionRole) !in rt.Now()
    requires Prepared(m.revision) !in rt.Now()
    modifies rt
    ensures !s.Terminal?
    ensures Serves(rt.Now(), m) && Installed(rt.Now()) == OldPair(m)
    ensures Undoable(p, m) && Arrives(old(rt.Now()), rt.Now())
    ensures s.Ok? ==> Ready(rt.Now(), p, m) && Rank(p.journal.payload.journal) == 2
    ensures s.Ok? ==>
      && p.selectionId.Some? && At(rt.Now(), SelectionPath) == Some(File(p.selectionId.value, m.newSelection))
      && p.preparedId.Some? && At(rt.Now(), Prepared(m.revision)) == Some(File(p.preparedId.value, m.newManifest))
      && At(rt.Now(), ManifestPath) == At(old(rt.Now()), ManifestPath)
      && At(rt.Now(), Claim(m.nonce, ManifestRole)) == At(old(rt.Now()), Claim(m.nonce, ManifestRole))
    ensures rt.calm ==> s.Ok?
  {
    var selection, prepared;
    s, p, selection := InstallTarget(rt, first, m, SelectionRole);
    if s.Ok? {
      ghost var e, second := rt.Now(), p.journal;
      TwoInPlace(old(rt.Now()), e, e[JournalPath := second][Prepared(m.revision) := selection], m, second, second,
                 selection, selection);
      s, p, prepared := InstallPrepared(rt, p, m);
      ArrivesOn(old(rt.Now()), e, rt.Now());
      if s.Ok? {
        TwoInPlace(old(rt.Now()), e, rt.Now(), m, second, p.journal, selection, prepared);
      }
    }
  }

  /** Install the selection, the prepared manifest and the manifest, one journal each. */
  method InstallAll(rt: Runtime, first: Progress, m: Material) returns (s: Signal, p: Progress)
    requires Ready(rt.Now(), first, m) && Rank(first.journal.payload.journal) == 0
    requires At(rt.Now(), SelectionPath) == Some(m.oldSelection) && Claim(m.nonce, SelectionRole) !in rt.Now()
    requires At(rt.Now(), ManifestPath) == Some(m.oldManifest) && Claim(m.nonce, ManifestRole) !in rt.Now()
    requires Prepared(m.revision) !in rt.Now()
    modifies rt
    ensures !s.Terminal?
    ensures Serves(rt.Now(), m) && Installed(rt.Now()) == OldPair(m)
    ensures Undoable(p, m) && Arrives(old(rt.Now()), rt.Now())
    ensures s.Ok? ==>
      && Ready(rt.Now(), p, m) && Rank(p.journal.payload.journal) == 3
      && CommitReady(rt.Now(), p.journal.payload.journal, m)
    ensures s.Ok? ==> rt.GoodRelease()
    ensures rt.calm && rt.GoodRelease() ==> s.Ok?
    ensures rt.calm && !rt.GoodRelease() ==> s.Failed? && Ready(rt.Now(), p, m)
  {
    s, p := InstallFirstTwo(rt, first, m);
    if s.Ok? {
      s := rt.Verify(PreparedRelease);
    }
    if s.Ok? {
      ghost var d, j := rt.Now(), p.journal.payload.journal;
      var manifest;
      s, p, manifest := InstallTarget(rt, p, m, ManifestRole);
      ArrivesOn(old(rt.Now()), d, rt.Now());
      if s.Ok? {
        AllInPlace(d, rt.Now(), j, p.journal.payload.journal, m, p.journal, manifest);
        s := rt.Verify(DeployedRelease);
      }
    }
  }

  /** The body of the promotion after its first journal: install both files, decide, clean up. */
  method RunTransaction(rt: Runtime, first: Progress, m: Material) returns (s: Signal, committed: bool, p: Progress)
    requires Ready(rt.Now(), first, m) && Rank(first.journal.payload.journal) == 0
    requires At(rt.Now(), SelectionPath) == Some(m.oldSelection) && Claim(m.nonce, SelectionRole) !in rt.Now()
    requires At(rt.Now(), ManifestPath) == Some(m.oldManifest) && Claim(m.nonce, ManifestRole) !in rt.Now()
    requires Prepared(m.revision) !in rt.Now()
    modifies rt
    ensures Serves(rt.Now(), m) && Arrives(old(rt.Now()), rt.Now())
    ensures Installed(rt.Now()) == OldPair(m) || NewContents(Installed(rt.Now()), m)
    ensures !committed ==> Undoable(p, m) && !s.Ok? && !s.Terminal?
    ensures committed ==> NewContents(Installed(rt.Now()), m)
    ensures s.Ok? || s.Terminal? ==> !Held(rt.Now())
    ensures !rt.GoodRelease() ==> !committed && Installed(rt.Now()) == OldPair(m)
    ensures rt.calm && rt.GoodRelease() ==> s.Ok?
    ensures rt.calm && !rt.GoodRelease() ==> s.Failed? && Ready(rt.Now(), p, m)
  {
    committed := false;
    s, p := InstallAll(rt, first, m);
    if s.Ok? {
      ghost var installed := rt.Now();
      s, committed, p := DecideCommit(rt, p, m);
      ArrivesOn(old(rt.Now()), installed, rt.Now());
    }
    if s.Ok? {
      ghost var decided := rt.Now();
      var journal := p.journal;
      var guard := d => ActiveJournal(d, journal, m.nonce);
      CommitSteady(rt.Now(), journal, m, guard);
      s := FinishCommit(rt, journal, m, guard);
      ArrivesOn(old(rt.Now()), decided, rt.Now());
    }
  }

  // ---------------------------------------------------------------- rollback

  /** The canonical journal is the one this process published last; beside it there is nothing, or
      the predecessor that this process knows of. */
  predicate RollbackAuthority(d: Directory, journal: File, predecessor: Option<File>, nonce: nat) {
    var claim := At(d, Claim(nonce, JournalRole));
    && At(d, JournalPath) == Some(journal)
    && (claim == predecessor || (predecessor.Some? && claim.None?))
  }

  lemma RollbackSteady(d: Directory, p: Progress, m: Material, guard: Directory -> bool)
    requires Ready(d, p, m)
    requires forall e :: guard(e) == RollbackAuthority(e, p.journal, p.predecessor, m.nonce)
    ensures Steady(guard, d)
  {
    forall e | JournalsOf(e) == JournalsOf(d)
      ensures guard(e)
    {
      SameJournals(d, e);
      assert JournalName(JournalPath) && JournalName(Claim(m.nonce, JournalRole));
    }
  }

  /** The handler of a failed promotion: nothing is touched unless the last published journal is
      still canonical; then the old pair is restored and the journal retired. It works from memory,
      so the layout of the old selection does not matter: if nothing more fails it succeeds. */
  method RollBack(rt: Runtime, p: Progress, m: Material) returns (s: Signal)
    requires Serves(rt.Now(), m) && Undoable(p, m)
    modifies rt
    ensures Recovering(old(rt.Now()), rt.Now())
    ensures s.Ok? || s.Terminal? ==> !Held(rt.Now()) && Installed(rt.Now()) == OldPair(m)
    ensures rt.calm && Ready(old(rt.Now()), p, m) ==> s.Ok?
  {
    ghost var d := rt.Now();
    var guard := d => RollbackAuthority(d, p.journal, p.predecessor, m.nonce);
    if Ready(d, p, m) {
      RollbackSteady(d, p, m, guard);
    }
    :- rt.Guard(guard);
    CanonicalIsLocated(rt.Now());
    s := RestoreBoth(rt, p.journal, m, p.selectionId, p.manifestId, guard);
    ContinuesGoverned(d, rt.Now(), p.journal, m);
    if !s.Ok? {
      return;
    }
    ghost var e := rt.Now();
    s := CleanAndRetire(rt, p.journal, m, guard);
    ContinuesTransitive(d, e, rt.Now());
  }

  // ---------------------------------------------------------------- one run of the program

  /** What the operator is told, or that the process died before telling anything. */
  datatype Report =
    | Promoted
    | OldRestored
    | CommittedIncomplete
    | TerminalState
    | RollbackFailed
    | RecoveryFailed
    | Rejected
    | Died

  /** `q` is the pair that the request makes of `p`. */
  predicate Forwarded(p: Pair, q: Pair, request: Request) {
    && p.selection.payload.SelectionText? && p.manifest.payload.ManifestJson?
    && Closed(q.selection.payload) && q.manifest.payload.ManifestJson?
    && Replaces(p.selection.payload.selection, q.selection.payload.selection, request)
    && NamesInstead(p.manifest.payload.manifest, q.manifest.payload.manifest, q.selection.payload)
  }

  /** A journal in `e` is one of the transaction in `d`, or of one that starts from the pair that `d`
      stands for. */
  ghost predicate Inherits(d: Directory, e: Directory)
    requires Sound(d) && Sound(e)
  {
    Held(e) ==>
      || (Held(d) && JournalAt(e).tx == JournalAt(d).tx)
      || JournalAt(e).tx.oldSelection == Installed(d).selection
  }

  /** What one run of the program may make of a sound directory, by what it reports. A run of the
      protocol leads to it; from a journal that no restart admits it goes nowhere. */
  ghost predicate Life(d: Directory, e: Directory, request: Request, report: Report) {
    && Sound(d) && Sound(e) && Arrives(d, e)
    && (!Restartable(d) ==> e == d)
    && Inherits(d, e)
    && var kept, moved := Installed(e) == Installed(d), Forwarded(Installed(d), Installed(e), request);
    && (kept || moved)
    && match report
       case Promoted => moved && !Held(e)
       case OldRestored => kept && !Held(e)
       case CommittedIncomplete => moved
       case TerminalState => !Held(e)
       case RecoveryFailed => kept && Remaining(e) <= Remaining(d)
       case Rejected => kept
       case RollbackFailed => true
       case Died => true
  }

  /** The transaction of a request on a coherent pair. */
  function NewTransaction(p: Pair, request: Request, nonce: nat): (tx: Transaction)
    requires Coherent(p.selection.payload, p.manifest.payload)
    ensures ValidMaterial(tx)
    ensures OldPair(MaterialOf(tx)) == p
    ensures forall q :: NewContents(q, MaterialOf(tx)) ==> Forwarded(p, q, request)
  {
    var source := p.selection.payload.selection;
    var will := Rendered(ForwardSelection(source, request));
    ForwardIsCoherent(p.selection.payload, p.manifest.payload, will);
    var manifest := ManifestJson(ForwardManifest(p.manifest.payload.manifest, will).value);
    Transaction(nonce, p.selection, p.manifest, will, Sha256(manifest), source.webImageId,
                request.webImageId, request.webRevision, source.apiImageId)
  }

  function FirstJournal(tx: Transaction): Journal {
    Journal(tx, Applying, None, None, None, None, None)
  }

  lemma FirstJournalReady(d: Directory, tx: Transaction, file: File)
    requires Settled(d) && ValidMaterial(tx) && file.payload == JournalJson(FirstJournal(tx))
    requires OldPair(MaterialOf(tx)) == Pair(d[SelectionPath], d[ManifestPath])
    ensures var e := d[JournalPath := file];
      && Ready(e, Progress(file, None, None, None, None), MaterialOf(tx))
      && Installed(e) == OldPair(MaterialOf(tx)) && Arrives(d, e)
  {
    SettledIsSound(d);
    LeadsByStep(d, Begin(file));
    BeginKeeps(d, file);
  }

  /** Publish the first journal. */
  method PublishFirst(rt: Runtime, tx: Transaction) returns (s: Signal, file: File)
    requires Settled(rt.Now()) && ValidMaterial(tx)
    requires OldPair(MaterialOf(tx)) == Pair(rt.Now()[SelectionPath], rt.Now()[ManifestPath])
    modifies rt
    ensures !s.Terminal?
    ensures Serves(rt.Now(), MaterialOf(tx)) && Installed(rt.Now()) == OldPair(MaterialOf(tx))
    ensures Arrives(old(rt.Now()), rt.Now())
    ensures s.Ok? ==>
      && rt.Now() == old(rt.Now())[JournalPath := file]
      && file.payload == JournalJson(FirstJournal(tx))
      && Ready(rt.Now(), Progress(file, None, None, None, None), MaterialOf(tx))
    ensures rt.calm ==> s.Ok?
  {
    SettledIsSound(rt.Now());
    var payload := JournalJson(FirstJournal(tx));
    var temporary, id;
    s, temporary, id := rt.StageTemporary(payload);
    file := File(id, payload);
    FirstJournalReady(rt.Now(), tx, file);
    if s.Ok? {
      s := rt.PublishAbsent(temporary, file, JournalPath, d => true);
    }
  }

  /** How a transaction may end, by what is reported of it. */
  ghost predicate Ends(e: Directory, m: Material, report: Report) {
    && Serves(e, m)
    && var kept, moved := Installed(e) == OldPair(m), NewContents(Installed(e), m);
    && (kept || moved)
    && match report
       case Promoted => moved && !Held(e)
       case OldRestored => kept && !Held(e)
       case CommittedIncomplete => moved
       case TerminalState => !Held(e)
       case RollbackFailed => true
       case Died => true
       case _ => false
  }

  /** A transaction and, if it failed before its decision, its rollback. */
  method RunAndReport(rt: Runtime, file: File, m: Material) returns (report: Report)
    requires Ready(rt.Now(), Progress(file, None, None, None, None), m) && Rank(file.payload.journal) == 0
    requires At(rt.Now(), SelectionPath) == Some(m.oldSelection) && Claim(m.nonce, SelectionRole) !in rt.Now()
    requires At(rt.Now(), ManifestPath) == Some(m.oldManifest) && Claim(m.nonce, ManifestRole) !in rt.Now()
    requires Prepared(m.revision) !in rt.Now()
    modifies rt
    ensures Ends(rt.Now(), m, report) && Arrives(old(rt.Now()), rt.Now())
    ensures !rt.GoodRelease() ==> Installed(rt.Now()) == OldPair(m)
    ensures rt.calm ==> report == if rt.GoodRelease() then Promoted else OldRestored
  {
    var s, committed, p := RunTransaction(rt, Progress(file, None, None, None, None), m);
    match s
    case Ok => report := Promoted;
    case Terminal => report := TerminalState;
    case Crashed => report := Died;
    case Failed =>
      if committed {
        return CommittedIncomplete;
      }
      ghost var failed := rt.Now();
      s := RollBack(rt, p, m);
      ArrivesOn(old(rt.Now()), failed, rt.Now());
      match s
      case Ok => report := OldRestored;
      case Terminal => report := TerminalState;
      case Crashed => report := Died;
      case Failed => report := RollbackFailed;
  }

  lemma EndIsLife(d: Directory, e: Directory, m: Material, request: Request, report: Report)
    requires Settled(d) && Sound(d) && Installed(d) == OldPair(m) && Arrives(d, e) && Ends(e, m, report)
    requires forall q :: NewContents(q, m) ==> Forwarded(OldPair(m), q, request)
    ensures Life(d, e, request, report)
  {
  }

  /** A promotion from a directory at rest. */
  method PromoteSettled(rt: Runtime, request: Request) returns (report: Report)
    requires Settled(rt.Now())
    modifies rt
    ensures Life(old(rt.Now()), rt.Now(), request, report)
    ensures !rt.GoodRelease() ==> Installed(rt.Now()) == Installed(old(rt.Now()))
    ensures rt.calm ==> report == if rt.GoodRelease() then Promoted else OldRestored
  {
    SettledIsSound(rt.Now());
    var d := Live(rt.disk);
    var nonce: nat := *;
    var tx := NewTransaction(Pair(d[SelectionPath], d[ManifestPath]), request, nonce);
    var m := MaterialOf(tx);
    var s, file := PublishFirst(rt, tx);
    if !s.Ok? {
      return if s.Crashed? then Died else Rejected;
    }
    ghost var begun := rt.Now();
    report := RunAndReport(rt, file, m);
    ArrivesOn(d, begun, rt.Now());
    EndIsLife(d, rt.Now(), m, request, report);
  }

  /** What a run does first: recover what an earlier run left behind, if there is a journal. */
  method RecoverAtStart(rt: Runtime) returns (s: Signal)
    modifies rt
    ensures !Sound(old(rt.Now())) ==> rt.Now() == old(rt.Now()) && !s.Terminal?
    ensures Sound(old(rt.Now())) ==> Recovering(old(rt.Now()), rt.Now())
    ensures s.Ok? || s.Terminal? ==> Locate(rt.Now()) == NoJournal
    ensures Sound(old(rt.Now())) && !Restartable(old(rt.Now())) ==> rt.Now() == old(rt.Now()) && !s.Ok?
    ensures rt.calm && Sound(old(rt.Now())) && Restartable(old(rt.Now())) ==> s.Ok?
  {
    match Locate(Live(rt.disk)) {
      case Conflict => s := Failed;
      case NoJournal => s := Ok;
      case Journaled(path) => s := Recover(rt, path);
    }
  }

  lemma AtRest(d: Directory)
    requires Locate(d) == NoJournal && (forall n :: n in d ==> !n.Claim? && !n.Prepared?)
    requires SelectionPath in d && ManifestPath in d && Coherent(d[SelectionPath].payload, d[ManifestPath].payload)
    ensures Settled(d)
  {
    assert forall n :: n in d && n.Retiring? ==> n in RetiringJournals(d);
    assert d.Keys == {SelectionPath, ManifestPath};
  }

  lemma LifeAfterRecovery(d: Directory, e: Directory, f: Directory, request: Request, report: Report)
    requires Life(e, f, request, report) && !Held(e)
    ensures Recovering(d, e) && Restartable(d) ==> Life(d, f, request, report)
  {
    if Recovering(d, e) {
      ArrivesOn(d, e, f);
    }
  }

  /** What a run does once there is no journal: check what it finds, then promote. */
  method PromoteAtRest(rt: Runtime, request: Request) returns (report: Report)
    requires Locate(rt.Now()) == NoJournal
    modifies rt
    ensures !Sound(old(rt.Now())) ==> rt.Now() == old(rt.Now()) && (report.Rejected? || report.Died?)
    ensures Sound(old(rt.Now())) ==> Life(old(rt.Now()), rt.Now(), request, report)
    ensures Sound(old(rt.Now())) && !rt.GoodRelease() ==> Installed(rt.Now()) == Installed(old(rt.Now()))
    ensures rt.calm && Sound(old(rt.Now())) ==> report == if rt.GoodRelease() then Promoted else OldRestored
  {
    var d := Live(rt.disk);
    if || (exists n :: n in d && (n.Claim? || n.Prepared?))
       || SelectionPath !in d || ManifestPath !in d
       || !Coherent(d[SelectionPath].payload, d[ManifestPath].payload)
    {
      return Rejected;
    }
    var s := rt.Hazard();
    if !s.Ok? {
      return if s.Crashed? then Died else Rejected;
    }
    AtRest(d);
    SettledIsSound(d);
    report := PromoteSettled(rt, request);
  }

  /** One run of the program, on any directory at all. A directory that is not sound is refused and
      left as it is, and so is one with a journal that no restart admits. On a sound one the run is
      a `Life`, at whatever point it ends; and a calm run with valid arguments that finds no temporary
      file and no such journal promotes a release that passes its checks, and restores the old one if it
      fails one. Whatever happens, a release that fails a check is not installed. */
  method PromoteWebRelease(rt: Runtime, request: Request) returns (report: Report)
    modifies rt
    ensures !Sound(old(rt.Now())) ==>
      rt.Now() == old(rt.Now()) && (report.Rejected? || report.RecoveryFailed? || report.Died?)
    ensures Sound(old(rt.Now())) ==> Life(old(rt.Now()), rt.Now(), request, report)
    ensures Sound(old(rt.Now())) && !Restartable(old(rt.Now())) ==>
      rt.Now() == old(rt.Now()) && (report.Rejected? || report.RecoveryFailed? || report.Died?)
    ensures
      && rt.calm && Sound(old(rt.Now())) && Restartable(old(rt.Now()))
      && (forall p :: p in old(rt.disk) ==> !p.Temporary?) && ValidRequest(request)
      ==> report == if rt.GoodRelease() then Promoted else OldRestored
    ensures Sound(old(rt.Now())) && !rt.GoodRelease() ==> Installed(rt.Now()) == Installed(old(rt.Now()))
    ensures !ValidRequest(request) || (exists p :: p in old(rt.disk) && p.Temporary?) ==>
      rt.disk == old(rt.disk) && report.Rejected?
  {
    if !ValidRequest(request) || exists p :: p in rt.disk && p.Temporary? {
      return Rejected;
    }
    var s := rt.Hazard();
    if !s.Ok? {
      return if s.Crashed? then Died else Rejected;
    }
    s := RecoverAtStart(rt);
    if !s.Ok? {
      return if s.Crashed? then Died else RecoveryFailed;
    }
    ghost var d := rt.Now();
    report := PromoteAtRest(rt, request);
    if Sound(d) {
      LifeAfterRecovery(old(rt.Now()), d, rt.Now(), request, report);
    }
  }

  // ---------------------------------------------------------------- a decision that is taken back

  /** Where a promotion stands before its decision, the committing journal can reach the canonical name
      and be taken back, when a check after the rename fails. */
  lemma TakenBack(d: Directory, p: Progress, m: Material, file: File) returns (t: seq<Directory>, events: seq<Event>)
    requires Ready(d, p, m) && Rank(p.journal.payload.journal) == 3 && CommitReady(d, p.journal.payload.journal, m)
    requires file.payload == JournalJson(NextJournal(p.journal, Decided))
    ensures Run(t, events) && t[0] == d && events == [Took(SetJournalAside), Took(Supersede(file)), Undone]
    ensures Sound(t[2]) && At(t[2], JournalPath) == Some(file) && file.payload.journal.phase.Committing?
    ensures NewContents(Installed(t[2]), m)
    ensures Sound(t[3]) && Installed(t[3]) == OldPair(m)
  {
    var aside := Move(d, JournalPath, Claim(m.nonce, JournalRole));
    var swapped := DecisionSound(d, p, m, file);
    TwoStepsAndBack(d, SetJournalAside, aside, Supersede(file), swapped);
    t, events := [d, aside, swapped, aside], [Took(SetJournalAside), Took(Supersede(file)), Undone];
  }

  lemma DecisionSound(d: Directory, p: Progress, m: Material, file: File) returns (swapped: Directory)
    requires Ready(d, p, m) && Rank(p.journal.payload.journal) == 3 && CommitReady(d, p.journal.payload.journal, m)
    requires file.payload == JournalJson(NextJournal(p.journal, Decided))
    ensures Enabled(d, SetJournalAside)
    ensures var aside := Apply(d, SetJournalAside);
      && aside == Move(d, JournalPath, Claim(m.nonce, JournalRole)) && Sound(aside) && Installed(aside) == OldPair(m)
      && Enabled(aside, Supersede(file)) && swapped == Apply(aside, Supersede(file))
    ensures Sound(swapped) && At(swapped, JournalPath) == Some(file) && NewContents(Installed(swapped), m)
  {
    var aside := Move(d, JournalPath, Claim(m.nonce, JournalRole));
    NextSupersedes(p.journal, Decided);
    AsideSound(d, p.journal, m);
    NextSound(aside, p.journal, m, file);
    swapped := aside[JournalPath := file];
  }

  /** A promotion gets there from any directory at rest. */
  method InstallsEverything(rt: Runtime, request: Request) returns (p: Progress, ghost m: Material)
    requires rt.calm && rt.GoodRelease() && Settled(rt.Now())
    modifies rt
    ensures Ready(rt.Now(), p, m) && Rank(p.journal.payload.journal) == 3
    ensures CommitReady(rt.Now(), p.journal.payload.journal, m)
    ensures Arrives(old(rt.Now()), rt.Now())
  {
    var d := Live(rt.disk);
    var tx := NewTransaction(Pair(d[SelectionPath], d[ManifestPath]), request, 0);
    var s, file := PublishFirst(rt, tx);
    ghost var begun := rt.Now();
    m := MaterialOf(tx);
    s, p := InstallAll(rt, Progress(file, None, None, None, None), MaterialOf(tx));
    ArrivesOn(d, begun, rt.Now());
  }

  // ---------------------------------------------------------------- a crash that strands

  /** A promotion from a selection text that is not closed dies after its first journal. However well
      everything goes from then on, the next start refuses and leaves the journal where it is. */
  method DiesAndRestarts(rt: Runtime, request: Request, again: Request) returns (report: Report)
    requires rt.calm && Settled(rt.Now()) && !Closed(rt.Now()[SelectionPath].payload)
    modifies rt
    ensures report.Rejected? || report.RecoveryFailed? || report.Died?
    ensures Sound(rt.Now()) && Held(rt.Now()) && !Restartable(rt.Now())
    ensures At(rt.Now(), SelectionPath) == Some(old(rt.Now())[SelectionPath])
    ensures At(rt.Now(), ManifestPath) == Some(old(rt.Now())[ManifestPath])
  {
    var d := Live(rt.disk);
    var tx := NewTransaction(Pair(d[SelectionPath], d[ManifestPath]), request, 0);
    var s, file := PublishFirst(rt, tx);
    // Here the process dies; the next start finds what it left.
    report := PromoteWebRelease(rt, again);
  }

  const LOOSE := SelectionText(Split("api", "web", "a", "b", "sha256:0", "sha256:1"), Layout(false, "# edited by hand"))

  const PLAIN := Manifest(Settings(Production, TrainFactory, Raw, Files, None), [],
                          [Record(ImageSelection, SELECTION_FILE, Sha256(LOOSE), false)], [])

  /** There are such directories. */
  lemma LooseDirectory() returns (d: Directory)
    ensures Settled(d) && !Closed(d[SelectionPath].payload)
  {
    d := map[SelectionPath := File(1, LOOSE), ManifestPath := File(2, ManifestJson(PLAIN))];
    assert SelectionRecords(PLAIN.envFiles[1..]) == 0;
    assert SelectionRecords(PLAIN.envFiles) == 1;
    assert d.Keys == {SelectionPath, ManifestPath};
  }
}
