/** Whole runs of the protocol, over any number of promotions, rollbacks, crashes and recoveries.

    A crash loses only the memory of the process, so a run with crashes is a run of the same
    directory; a restart goes on from whatever state it finds. */
module Runs {
  import opened Options
  import opened Documents
  import opened Journals
  import opened Recovery
  import opened Protocol

  /** A step, or the rename back by which a failing check after a rename takes the last step back. */
  datatype Event = Took(step: Step) | Undone

  predicate Run(t: seq<Directory>, events: seq<Event>) {
    && |t| == |events| + 1
    && Sound(t[0])
    && forall i :: 0 <= i < |events| ==> Happens(t, events, i)
  }

  /** The step leads from one directory to the other. */
  predicate Leaves(d: Directory, step: Step, e: Directory) {
    Sound(d) ==> Enabled(d, step) && e == Apply(d, step)
  }

  predicate Happens(t: seq<Directory>, events: seq<Event>, i: nat)
    requires i < |events| && |t| == |events| + 1
  {
    match events[i]
    case Took(step) => Leaves(t[i], step, t[i + 1])
    case Undone => i > 0 && events[i - 1].Took? && t[i + 1] == t[i - 1]
  }

  /** What a step writes to a register that holds a pair of files: only a committing journal writes,
      both files at once. */
  function Written(step: Step, before: Pair): Pair {
    if Commits(step) && ValidProgress(step.file.payload.journal) && ValidMaterial(step.file.payload.journal.tx)
    then NewPair(step.file.payload.journal, MaterialOf(step.file.payload.journal.tx))
    else before
  }

  /** The reference: the register after some events. It never looks at the directory. */
  function Register(initial: Pair, events: seq<Event>): Pair {
    if events == [] then initial else
    var last := |events| - 1;
    match events[last]
    case Took(step) => Written(step, Register(initial, events[..last]))
    case Undone => if last == 0 then initial else Register(initial, events[..last - 1])
  }

  function ApiOfPair(p: Pair): Option<Api> {
    if p.selection.payload.SelectionText? then Some(ApiOf(p.selection.payload.selection)) else None
  }

  /** The pair that a directory stands for, if it is sound. */
  function PairAt(d: Directory): Option<Pair> {
    if Sound(d) then Some(Installed(d)) else None
  }

  lemma StepWrites(d: Directory, step: Step)
    requires Sound(d) && Enabled(d, step)
    ensures PairAt(Apply(d, step)) == Some(Written(step, Installed(d)))
  {
    StepKeepsSound(d, step);
    if Commits(step) {
      CommitKeepsTransaction(d, step.file);
    }
  }

  lemma TookWrites(t: seq<Directory>, events: seq<Event>, i: nat, p: Pair)
    requires Run(t, events) && i < |events| && events[i].Took? && PairAt(t[i]) == Some(p)
    ensures PairAt(t[i + 1]) == Some(Written(events[i].step, p))
  {
    assert Happens(t, events, i);
    StepWrites(t[i], events[i].step);
  }

  lemma UndoneTakesBack(t: seq<Directory>, events: seq<Event>, i: nat)
    requires Run(t, events) && i < |events| && events[i].Undone?
    ensures i > 0 && events[i - 1].Took? && t[i + 1] == t[i - 1]
  {
    assert Happens(t, events, i);
  }

  lemma RegisterEvent(initial: Pair, events: seq<Event>, i: nat)
    requires 0 < i <= |events|
    ensures Register(initial, events[..i]) == match events[i - 1]
      case Took(step) => Written(step, Register(initial, events[..i - 1]))
      case Undone => if i == 1 then initial else Register(initial, events[..i - 2])
  {
    assert events[..i][..i - 1] == events[..i - 1];
    if i > 1 {
      assert events[..i][..i - 2] == events[..i - 2];
    }
  }

  lemma {:induction false} RefinesRegister(t: seq<Directory>, events: seq<Event>, p: Pair, i: nat)
    requires Run(t, events) && i < |t| && PairAt(t[0]) == Some(p)
    ensures PairAt(t[i]) == Some(Register(p, events[..i]))
    decreases i
  {
    if i > 0 {
      RegisterEvent(p, events, i);
      if events[i - 1].Took? {
        RefinesRegister(t, events, p, i - 1);
        TookWrites(t, events, i - 1, Register(p, events[..i - 1]));
      } else {
        UndoneTakesBack(t, events, i - 1);
        RefinesRegister(t, events, p, i - 2);
      }
    }
  }

  /** The directory refines the register: in every run, after every event, the directory is sound
      and stands for the pair in the register. */
  lemma DirectoryRefinesRegister(t: seq<Directory>, events: seq<Event>, i: nat)
    requires Run(t, events) && i < |t|
    ensures Sound(t[i])
    ensures Installed(t[i]) == Register(Installed(t[0]), events[..i])
  {
    RefinesRegister(t, events, Installed(t[0]), i);
  }

  lemma CommitKeepsTransaction(d: Directory, f: File)
    requires Sound(d) && Enabled(d, Supersede(f))
    ensures f.payload.journal.tx == JournalAt(d).tx
    ensures ValidMaterial(f.payload.journal.tx) && MaterialOf(f.payload.journal.tx) == MaterialAt(d)
  {
  }

  /** Crash atomicity: whenever no journal is left, the directory holds exactly the two files of the
      register, so both are old or both are new, and they are coherent. */
  lemma RestIsTheRegister(t: seq<Directory>, events: seq<Event>, i: nat)
    requires Run(t, events) && i < |t| && Locate(t[i]) == NoJournal
    ensures var p := Register(Installed(t[0]), events[..i]);
      && t[i] == map[SelectionPath := p.selection, ManifestPath := p.manifest]
      && Coherent(p.selection.payload, p.manifest.payload)
  {
    DirectoryRefinesRegister(t, events, i);
    var p := Register(Installed(t[0]), events[..i]);
    assert t[i] == map[SelectionPath := p.selection, ManifestPath := p.manifest];
  }

  lemma InstalledCoherent(d: Directory)
    requires Sound(d)
    ensures var p := Installed(d); Coherent(p.selection.payload, p.manifest.payload)
  {
    if Held(d) {
      OutcomeCoherent(JournalAt(d));
    }
  }

  lemma StepKeepsApi(d: Directory, step: Step)
    requires Sound(d) && Enabled(d, step)
    ensures ApiAt(Apply(d, step)) == ApiAt(d)
  {
    StepKeepsSound(d, step);
    if Commits(step) {
      CommitKeepsTransaction(d, step.file);
      OutcomeCoherent(step.file.payload.journal);
      InstalledCoherent(d);
    }
  }

  // ---------------------------------------------------------------- every directory of every run

  lemma RunSound(t: seq<Directory>, events: seq<Event>, i: nat)
    requires Run(t, events) && i < |t|
    ensures Sound(t[i])
  {
    DirectoryRefinesRegister(t, events, i);
  }

  /** The API of the pair that a directory stands for. */
  function ApiAt(d: Directory): Option<Api> {
    match PairAt(d)
    case None => None
    case Some(p) => ApiOfPair(p)
  }

  lemma TookKeepsApi(t: seq<Directory>, events: seq<Event>, i: nat)
    requires Run(t, events) && i < |events| && events[i].Took?
    ensures ApiAt(t[i + 1]) == ApiAt(t[i])
  {
    RunSound(t, events, i);
    assert Happens(t, events, i);
    StepKeepsApi(t[i], events[i].step);
  }

  lemma {:induction false} ApiConstant(t: seq<Directory>, events: seq<Event>, i: nat)
    requires Run(t, events) && i < |t|
    ensures ApiAt(t[i]) == ApiAt(t[0])
    decreases i
  {
    if i > 0 {
      if events[i - 1].Took? {
        ApiConstant(t, events, i - 1);
        TookKeepsApi(t, events, i - 1);
      } else {
        UndoneTakesBack(t, events, i - 1);
        ApiConstant(t, events, i - 2);
      }
    }
  }

  /** Over any run the API image, the API image id and the effective API revision never change. */
  lemma ApiNeverChanges(t: seq<Directory>, events: seq<Event>, i: nat)
    requires Run(t, events) && i < |t|
    ensures Sound(t[i]) && ApiOfPair(Installed(t[i])) == ApiOfPair(Installed(t[0]))
  {
    RunSound(t, events, i);
    ApiConstant(t, events, i);
  }

  /** A transaction's file is the one that its journal records: with a recorded inode and the new
      payload. */
  predicate RecordedNew(d: Directory, path: Name, payload: Payload, id: Option<Inode>) {
    path in d ==> id == Some(d[path].inode) && d[path].payload == payload
  }

  /** A file at a target or at the prepared name is the old file or carries the inode that the
      journal with authority records for it. */
  predicate WrittenAhead(d: Directory)
    requires Sound(d) && Held(d)
  {
    var j, m := JournalAt(d), MaterialAt(d);
    && (At(d, SelectionPath) == Some(m.oldSelection) || RecordedNew(d, SelectionPath, m.newSelection, j.selectionId))
    && (At(d, ManifestPath) == Some(m.oldManifest) || RecordedNew(d, ManifestPath, m.newManifest, j.manifestId))
    && RecordedNew(d, Prepared(m.revision), m.newManifest, j.preparedId)
    && forall n :: n in d && n.Prepared? ==> n == Prepared(m.revision)
  }

  /** While the journal with authority is applying, each old file is in the directory under its own
      inode, at its path or in its claim; while it is committing, both new files are at their paths. */
  predicate NothingLost(d: Directory)
    requires Sound(d) && Held(d)
  {
    var j, m := JournalAt(d), MaterialAt(d);
    match j.phase
    case Applying =>
      && Some(m.oldSelection) in {At(d, SelectionPath), At(d, Claim(m.nonce, SelectionRole))}
      && Some(m.oldManifest) in {At(d, ManifestPath), At(d, Claim(m.nonce, ManifestRole))}
    case Committing =>
      && At(d, SelectionPath) == Some(NewPair(j, m).selection)
      && At(d, ManifestPath) == Some(NewPair(j, m).manifest)
  }

  /** Any second journal is at the claim of the canonical one and is the journal that the canonical
      one names as superseded, of rank exactly one less. */
  predicate OneAuthority(d: Directory)
    requires Sound(d) && Held(d)
  {
    forall n :: n in d && JournalName(n) && d[n] != d[Locate(d).path] ==>
      && Locate(d).path == JournalPath && n == Claim(MaterialAt(d).nonce, JournalRole)
      && Supersedes(d[JournalPath], d[n])
      && Rank(d[n].payload.journal) + 1 == Rank(JournalAt(d))
  }

  lemma SoundPromises(d: Directory)
    requires Sound(d) && Held(d)
    ensures WrittenAhead(d) && NothingLost(d) && OneAuthority(d)
  {
  }

  /** Write-ahead: in every directory of every run. */
  lemma WriteAhead(t: seq<Directory>, events: seq<Event>, i: nat)
    requires Run(t, events) && i < |t|
    ensures Sound(t[i]) && (Held(t[i]) ==> WrittenAhead(t[i]))
  {
    RunSound(t, events, i);
    if Held(t[i]) {
      SoundPromises(t[i]);
    }
  }

  /** No loss: in every directory of every run. */
  lemma NoLoss(t: seq<Directory>, events: seq<Event>, i: nat)
    requires Run(t, events) && i < |t|
    ensures Sound(t[i]) && (Held(t[i]) ==> NothingLost(t[i]))
  {
    RunSound(t, events, i);
    if Held(t[i]) {
      SoundPromises(t[i]);
    }
  }

  /** Single authority: in every directory of every run. */
  lemma SingleAuthority(t: seq<Directory>, events: seq<Event>, i: nat)
    requires Run(t, events) && i < |t|
    ensures Sound(t[i]) && (Held(t[i]) ==> OneAuthority(t[i]))
  {
    RunSound(t, events, i);
    if Held(t[i]) {
      SoundPromises(t[i]);
    }
  }

  // ---------------------------------------------------------------- which crashes a restart admits

  /** The transaction of the journal with authority. */
  function TransactionAt(d: Directory): Option<Transaction> {
    match Authority(d)
    case Some(f) => if f.payload.JournalJson? then Some(f.payload.journal.tx) else None
    case None => None
  }

  lemma StepKeepsTransaction(d: Directory, step: Step)
    requires Sound(d) && Enabled(d, step) && Locate(d).Journaled? && Locate(Apply(d, step)).Journaled?
    ensures TransactionAt(Apply(d, step)) == TransactionAt(d)
  {
    StepKeepsSound(d, step);
  }

  /** As long as there is a journal, it is one of the same transaction, whatever is taken back. */
  lemma TransactionStays(t: seq<Directory>, events: seq<Event>, i: nat)
    requires Run(t, events) && i < |events| && Locate(t[i]).Journaled? && Locate(t[i + 1]).Journaled?
    ensures TransactionAt(t[i + 1]) == TransactionAt(t[i])
  {
    if events[i].Took? {
      RunSound(t, events, i);
      assert Happens(t, events, i);
      StepKeepsTransaction(t[i], events[i].step);
    } else {
      UndoneTakesBack(t, events, i);
      RunSound(t, events, i - 1);
      assert Happens(t, events, i - 1);
      StepKeepsTransaction(t[i - 1], events[i - 1].step);
    }
  }

  lemma BeginsFrom(d: Directory, f: File)
    requires Sound(d) && Enabled(d, Begin(f))
    ensures Settled(d) && TransactionAt(Apply(d, Begin(f))) == Some(f.payload.journal.tx)
    ensures f.payload.journal.tx.oldSelection == d[SelectionPath]
  {
    SettledIsSound(d);
    BeginKeeps(d, f);
  }

  lemma {:induction false} TransactionOfBegin(t: seq<Directory>, events: seq<Event>, a: nat, i: nat)
    requires Run(t, events) && a < i < |t| && events[a].Took? && events[a].step.Begin?
    requires forall k :: a < k <= i ==> Locate(t[k]).Journaled?
    ensures TransactionAt(t[i]) == TransactionAt(t[a + 1])
  {
    if i > a + 1 {
      TransactionOfBegin(t, events, a, i - 1);
      assert Locate(t[i - 1]).Journaled?;
      TransactionStays(t, events, i - 1);
    }
  }

  lemma RestartReadsOldSelection(d: Directory)
    requires Sound(d) && Held(d)
    ensures TransactionAt(d).Some?
    ensures Restartable(d) <==> Closed(TransactionAt(d).value.oldSelection.payload)
  {
  }

  /** A crash at any point of a promotion leaves a journal that a restart admits if, and only if, the
      selection that the promotion started from was a closed text. */
  lemma CutsOfAPromotion(t: seq<Directory>, events: seq<Event>, a: nat, i: nat)
    requires Run(t, events) && a < i < |t| && events[a].Took? && events[a].step.Begin?
    requires forall k :: a < k <= i ==> Locate(t[k]).Journaled?
    ensures Sound(t[a]) && Settled(t[a]) && Sound(t[i]) && Held(t[i])
    ensures Restartable(t[i]) <==> Closed(t[a][SelectionPath].payload)
  {
    RunSound(t, events, a);
    RunSound(t, events, i);
    assert Happens(t, events, a);
    BeginsFrom(t[a], events[a].step.file);
    TransactionOfBegin(t, events, a, i);
    RestartReadsOldSelection(t[i]);
  }

  /** The selection that the directory stands for is a closed text, and so is what a restart would
      have to read. */
  predicate Tame(d: Directory) {
    Sound(d) && Restartable(d) && Closed(Installed(d).selection.payload)
  }

  lemma StepKeepsTame(d: Directory, step: Step)
    requires Tame(d) && Enabled(d, step)
    ensures Tame(Apply(d, step))
  {
    StepKeepsSound(d, step);
  }

  lemma TookKeepsTame(t: seq<Directory>, events: seq<Event>, i: nat)
    requires Run(t, events) && i < |events| && events[i].Took? && Tame(t[i])
    ensures Tame(t[i + 1])
  {
    assert Happens(t, events, i);
    StepKeepsTame(t[i], events[i].step);
  }

  /** Starting from a closed selection text, a restart admits every directory of every run. */
  lemma {:induction false} TameForever(t: seq<Directory>, events: seq<Event>, i: nat)
    requires Run(t, events) && Tame(t[0]) && i < |t|
    ensures Tame(t[i])
    decreases i
  {
    if i > 0 {
      if events[i - 1].Took? {
        TameForever(t, events, i - 1);
        TookKeepsTame(t, events, i - 1);
      } else {
        UndoneTakesBack(t, events, i - 1);
        TameForever(t, events, i - 2);
      }
    }
  }

  // ---------------------------------------------------------------- from one directory to another

  predicate RunBetween(t: seq<Directory>, events: seq<Event>, d: Directory, e: Directory) {
    Run(t, events) && t[0] == d && t[|events|] == e
  }

  /** Some run leads from one directory to the other. */
  ghost predicate Leads(d: Directory, e: Directory) {
    exists t, events :: RunBetween(t, events, d, e)
  }

  lemma LeadsByStep(d: Directory, step: Step)
    requires Sound(d) && Enabled(d, step)
    ensures Leads(d, Apply(d, step))
  {
    var t, events := [d, Apply(d, step)], [Took(step)];
    assert Happens(t, events, 0);
    assert RunBetween(t, events, d, Apply(d, step));
  }

  lemma LeadsToItself(d: Directory)
    requires Sound(d)
    ensures Leads(d, d)
  {
    assert RunBetween([d], [], d, d);
  }

  lemma RunsJoin(t: seq<Directory>, events: seq<Event>, u: seq<Directory>, more: seq<Event>)
    requires Run(t, events) && Run(u, more) && u[0] == t[|events|]
    ensures Run(t + u[1..], events + more)
  {
    var n, all, steps := |events|, t + u[1..], events + more;
    forall i | 0 <= i < |steps| ensures Happens(all, steps, i) {
      if i < n {
        assert Happens(t, events, i);
      } else {
        assert Happens(u, more, i - n);
        assert all[i] == u[i - n] && all[i + 1] == u[i - n + 1];
      }
    }
  }

  lemma TwoStepsAndBack(d: Directory, first: Step, e: Directory, second: Step, f: Directory)
    requires Sound(d) && Leaves(d, first, e) && Leaves(e, second, f)
    ensures Run([d, e, f, e], [Took(first), Took(second), Undone])
  {
    var t, events := [d, e, f, e], [Took(first), Took(second), Undone];
    assert Happens(t, events, 0) && Happens(t, events, 1) && Happens(t, events, 2);
  }

  lemma LeadsOn(d: Directory, e: Directory, f: Directory)
    requires Leads(d, e) && Leads(e, f)
    ensures Leads(d, f)
  {
    var t, events :| RunBetween(t, events, d, e);
    var u, more :| RunBetween(u, more, e, f);
    RunsJoin(t, events, u, more);
    var all := t + u[1..];
    assert |more| == 0 ==> e == f;
    assert RunBetween(all, events + more, d, f);
  }

  /** The same directory, or one that a run leads to. */
  ghost predicate Arrives(d: Directory, e: Directory) {
    d == e || Leads(d, e)
  }

  lemma ArrivesOn(d: Directory, e: Directory, f: Directory)
    requires Arrives(d, e) && Arrives(e, f)
    ensures Arrives(d, f)
  {
    if d != e && e != f {
      LeadsOn(d, e, f);
    }
  }

  // ---------------------------------------------------------------- authority along a run

  /** The event takes a publication of a journal back. */
  predicate TakesPublicationBack(events: seq<Event>, i: nat)
    requires i < |events|
  {
    events[i].Undone? && i > 0 && events[i - 1].Took? && events[i - 1].step.Supersede?
  }

  /** From `a` to `b` there always is a journal, and no publication is taken back. */
  predicate Stretch(t: seq<Directory>, events: seq<Event>, a: nat, b: nat)
    requires |t| == |events| + 1
  {
    && a <= b < |t|
    && (forall i :: a <= i <= b ==> Locate(t[i]).Journaled?)
    && forall i :: a <= i < b ==> !TakesPublicationBack(events, i)
  }

  /** One event of a stretch: the authority stays, or passes to its successor. */
  lemma AuthorityOnlyAdvances(t: seq<Directory>, events: seq<Event>, i: nat)
    requires Run(t, events) && i < |events| && Stretch(t, events, i, i + 1)
    ensures Authority(t[i]).Some? && HoldsJournal(Authority(t[i]).value)
    ensures Authority(t[i + 1]).Some? && HoldsJournal(Authority(t[i + 1]).value)
    ensures Follows(Authority(t[i + 1]).value, Authority(t[i]).value)
  {
    RunSound(t, events, i);
    RunSound(t, events, i + 1);
    assert Happens(t, events, i) && Locate(t[i + 1]).Journaled?;
    match events[i]
    case Took(step) => StepKeepsSound(t[i], step);
    case Undone =>
      RunSound(t, events, i - 1);
      assert Happens(t, events, i - 1) && !TakesPublicationBack(events, i);
      StepKeepsSound(t[i - 1], events[i - 1].step);
  }

  lemma StretchHasAuthority(t: seq<Directory>, events: seq<Event>, a: nat, b: nat, i: nat)
    requires Run(t, events) && Stretch(t, events, a, b) && a <= i <= b
    ensures Authority(t[i]).Some? && HoldsJournal(Authority(t[i]).value)
  {
    RunSound(t, events, i);
  }

  lemma StretchStep(t: seq<Directory>, events: seq<Event>, a: nat, b: nat, i: nat)
    requires Run(t, events) && Stretch(t, events, a, b) && a <= i < b
    ensures Stretch(t, events, i, i + 1)
  {
  }

  /** Along every stretch the journals with authority are a succession: the transaction stays, the
      rank never falls and rises by exactly one when a journal is superseded, a superseded journal
      never gets authority back, and there are at most five journals. */
  lemma AuthorityAlongARun(t: seq<Directory>, events: seq<Event>, a: nat, b: nat, files: seq<File>)
    requires Run(t, events) && Stretch(t, events, a, b)
    requires |files| == b - a + 1 && forall i :: 0 <= i < |files| ==> Authority(t[a + i]) == Some(files[i])
    ensures Succession(files) && NoReturn(files) && Chain(Distinct(files)) && |Distinct(files)| <= 5
  {
    forall i | 0 <= i < |files| ensures HoldsJournal(files[i]) {
      StretchHasAuthority(t, events, a, b, a + i);
    }
    forall i | 0 <= i < |files| - 1 ensures Follows(files[i + 1], files[i]) {
      StretchStep(t, events, a, b, a + i);
      AuthorityOnlyAdvances(t, events, a + i);
      assert Authority(t[a + (i + 1)]) == Some(files[i + 1]);
    }
    SuccessionIsAChain(files);
    SuccessionHasNoReturn(files);
  }

  // ---------------------------------------------------------------- recovery converges

  /** The next change that recovery makes, in its own order. */
  function NextStep(d: Directory): Step
    requires Sound(d) && Held(d)
  {
    var j, m := JournalAt(d), MaterialAt(d);
    if !TargetFinal(d, j, m, SelectionRole) then RestoringStep(d, SelectionRole)
    else if !TargetFinal(d, j, m, ManifestRole) then RestoringStep(d, ManifestRole)
    else if Prepared(m.revision) in d then DropPrepared
    else match Locate(d).path
      case JournalPath => if Claim(m.nonce, JournalRole) in d then DropPredecessor else SetJournalAside
      case Claim(_, _) => StartRetiring
      case _ => FinishRetiring
  }

  function RestoringStep(d: Directory, role: ClaimRole): Step
    requires Sound(d) && Held(d)
  {
    if JournalAt(d).phase.Committing? then DropOldClaim(role) else
    match PlanFor(d, JournalAt(d), MaterialAt(d), role)
    case RestoreOver => RemoveNew(role)
    case RestoreClaim => RestoreOld(role)
    case _ => DropOldClaim(role)
  }

  /** Recovery is never stuck: its next change is always one that the protocol allows. */
  lemma NextStepEnabled(d: Directory)
    requires Sound(d) && Held(d)
    ensures Enabled(d, NextStep(d)) && RecoveryStep(NextStep(d))
  {
  }

  function Recovered(d: Directory): (e: Directory)
    requires Sound(d)
    ensures Sound(e) && !Held(e)
    ensures Installed(e) == Installed(d)
    decreases Remaining(d)
  {
    if !Held(d) then d else
    NextStepEnabled(d);
    StepKeepsSound(d, NextStep(d));
    Recovered(Apply(d, NextStep(d)))
  }

  /** Recovery converges, however often it is cut short: a directory is at rest exactly when no
      change remains, and every recovery step leads to the same state at rest, with exactly one
      change less to make. */
  lemma RecoveryConverges(d: Directory, step: Step)
    requires Sound(d) && Enabled(d, step) && RecoveryStep(step)
    ensures Sound(Apply(d, step)) && Remaining(Apply(d, step)) == Remaining(d) - 1
    ensures Recovered(Apply(d, step)) == Recovered(d)
  {
    RecoveryStepKeeps(d, step);
    RecoveredIsRest(d);
    RecoveredIsRest(Apply(d, step));
  }

  lemma RestIsNothingRemaining(d: Directory)
    requires Sound(d)
    ensures Remaining(d) == 0 <==> !Held(d)
  {
  }

  /** Recovery ends at rest, with exactly the two files that the directory stood for. */
  lemma RecoveredIsRest(d: Directory)
    requires Sound(d)
    ensures Recovered(d) == map[SelectionPath := Installed(d).selection, ManifestPath := Installed(d).manifest]
  {
    var e := Recovered(d);
    assert Settled(e);
  }
}
