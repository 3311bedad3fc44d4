/** The deletion of a bundle of secrets that keeps a journal of itself in the bundle's state file.

    A call may fail at any system call or be cut off by a crash after any change, so what the
    contracts say of an outcome holds at every intermediate state. Nothing else changes the
    directory meanwhile. */
module SecretBundle {
  import opened Options

  const SECRET_FILES := {
    "mysql_root_password", "mysql_app_password", "mysql_url", "jwt_secret_key", "default_admin_password",
    "admin_username"}

  /** A state document. `wellFormed` stands for the checks of its remaining fields. */
  datatype Document = Document(members: seq<string>, envFile: string, stateFile: string, wellFormed: bool,
                               started: bool)

  /** A file that holds a state document, or any other file: a secret, a partly written document. */
  datatype File = State(document: Document) | Opaque(bytes: seq<bv8>)

  datatype Folder = Absent | Folder(files: map<string, File>)

  /** `Escaped` is an exception of a probe that no handler catches. */
  datatype Outcome = Removed | Rejected | Failed | RollbackFailed | Escaped | Crashed

  /** How a system call, or a small group of them, ends. */
  datatype Call = Done | Errs | Dies

  function TemporaryName(stateName: string): string {
    "." + stateName + ".cleanup-tmp"
  }

  function Expected(d: Document): set<string> {
    SECRET_FILES + {d.envFile, d.stateFile}
  }

  predicate Distinct(s: seq<string>) {
    forall i, j :: 0 <= i < j < |s| ==> s[i] != s[j]
  }

  predicate ValidDocument(d: Document, stateName: string) {
    d.wellFormed && d.stateFile == stateName && Distinct(d.members) && (set m | m in d.members) == Expected(d)
  }

  /** The checks that a call makes before it changes anything. */
  predicate Accepts(f: Folder, stateName: string) {
    f.Folder? && stateName in f.files && f.files[stateName].State? &&
    var d := f.files[stateName].document;
    ValidDocument(d, stateName) &&
    if d.started then f.files.Keys <= Expected(d) else f.files.Keys == Expected(d)
  }

  /** The document that governs the deletion once it has begun. */
  function Begun(d: Document): Document {
    d.(started := true)
  }

  // ---------------------------------------------------------------- the order of deletion

  /** No member is missing. */
  predicate Whole(f: Folder, d: Document) {
    f.Folder? && Expected(d) <= f.files.Keys && f.files[d.stateFile].State? &&
    f.files[d.stateFile].document in {d, Begun(d)}
  }

  /** The state file says that the deletion has begun. */
  predicate Marked(f: Folder, d: Document) {
    f.Folder? && d.stateFile in f.files && f.files[d.stateFile] == State(Begun(d))
  }

  /** No member is left, apart from what a failed attempt to write the state file back left. */
  predicate Emptied(f: Folder, d: Document) {
    f.Folder? ==> f.files.Keys <= {d.stateFile}
  }

  /** A missing member means that the state file says so, or that no other member is left. */
  predicate Orderly(f: Folder, d: Document) {
    Whole(f, d) || Marked(f, d) || Emptied(f, d)
  }

  /** Every document in the directory is the bundle's own, with or without the mark. */
  predicate OwnDocuments(f: Folder, d: Document) {
    f.Folder? ==> forall n :: n in f.files && f.files[n].State? ==> f.files[n].document in {d, Begun(d)}
  }

  /** The deletion has not begun and the name of its temporary file is taken. */
  predicate Stuck(f: Folder, stateName: string) {
    Accepts(f, stateName) && !f.files[stateName].document.started && TemporaryName(stateName) in f.files
  }

  /** What a call does, whatever happens to it. */
  predicate Called(before: Folder, stateName: string, after: Folder, r: Outcome) {
    && (!Accepts(before, stateName) ==> r.Rejected?)
    && (r.Rejected? ==> after == before)
    && (r.Removed? ==> after.Absent?)
    && (r.Failed? ==> Accepts(after, stateName))
    && (r.Escaped? ==> Accepts(after, stateName) || after.Absent? || after == Folder(map[]))
    && (Stuck(before, stateName) ==> after == before && !r.Removed?)
    && (Accepts(before, stateName) ==>
          var d := before.files[stateName].document;
          Orderly(after, d) && OnlyRemoves(before, after, d) &&
          (r.Failed? ==> after.files[stateName].document in {d, Begun(d)}))
  }

  /** No file but the state file and its temporary appears or changes, and these get no document
      but the given one with the mark. */
  predicate OnlyRemoves(before: Folder, after: Folder, d: Document) {
    before.Folder? && (after.Folder? ==>
      forall n :: n in after.files ==>
        || (n in before.files && after.files[n] == before.files[n])
        || (n in {d.stateFile, TemporaryName(d.stateFile)} &&
            (after.files[n].State? ==> after.files[n].document == Begun(d))))
  }

  /** The places at which a call can fail, or the process die. */
  datatype Site =
    | Check | OpenFile | FillFile | DropPartial | ProbeTemporary | ReplaceState | VerifyState | DropTemporary
    | DeleteMember | DeleteState | RemoveDirectory | ProbeDirectory | VerifyReinstated | Death

  /** Where something must have failed for an accepted bundle to end like this. */
  function Culprits(r: Outcome): set<Site> {
    match r
    case Removed => {}
    case Rejected => {Check}
    case Failed => {OpenFile, FillFile, ReplaceState, VerifyState, DeleteMember, DeleteState, RemoveDirectory}
    case RollbackFailed => {DropTemporary, OpenFile, FillFile, VerifyReinstated}
    case Escaped => {ProbeTemporary, ProbeDirectory}
    case Crashed => {Death}
  }

  class Bundle {
    /** Which of them fail, and when. A theorem about all bundles is one about all faults. */
    const faults: (Site, nat) -> bool
    var clock: nat
    var folder: Folder

    constructor (folder: Folder, faults: (Site, nat) -> bool)
      ensures this.folder == folder && this.faults == faults
    {
      this.folder := folder;
      this.faults := faults;
      this.clock := 0;
    }

    /** Nothing fails but perhaps the last steps, and nothing dies. */
    ghost predicate Quiet() {
      forall site, n {:trigger faults(site, n)} :: site !in {RemoveDirectory, ProbeDirectory} ==> !faults(site, n)
    }

    /** Nothing fails at all. */
    ghost predicate Calm() {
      forall site, n {:trigger faults(site, n)} :: !faults(site, n)
    }

    /** Removing the directory fails, and so does looking whether it is still there. */
    ghost predicate Strands() {
      forall site, n {:trigger faults(site, n)} :: faults(site, n) == (site in {RemoveDirectory, ProbeDirectory})
    }

    /** Something failed at one of the places in a stretch of time. */
    ghost predicate Fired(sites: set<Site>, from: nat, to: nat) {
      exists site, n :: site in sites && from <= n < to && faults(site, n)
    }

    /** Nothing fails but what the deletion itself does, and nothing dies. */
    ghost predicate Handled() {
      forall site, n {:trigger faults(site, n)} ::
        site !in {DeleteMember, DeleteState, RemoveDirectory} ==> !faults(site, n)
    }

    /** Whether the system call at hand fails, or the process dies here. */
    method Hazard(site: Site) returns (yes: bool)
      modifies this`clock
      ensures clock == old(clock) + 1 && yes == faults(site, old(clock))
    {
      yes := faults(site, clock);
      clock := clock + 1;
    }

    method DrawBytes() returns (bytes: seq<bv8>) {
      bytes := *;
    }

    /** Creates a file that must not exist. On a failure the file may stay behind, whole or partly written. */
    method WritePrivateFile(name: string, file: File) returns (r: Call)
      requires folder.Folder?
      modifies this`folder, this`clock
      ensures folder.Folder?
      ensures name in old(folder).files ==> r.Errs? && folder == old(folder)
      ensures Quiet() && name !in old(folder).files ==> r.Done?
      ensures old(clock) <= clock
      ensures r.Errs? ==> name in old(folder).files || Fired({OpenFile, FillFile}, old(clock), clock)
      ensures r.Dies? ==> Fired({Death}, old(clock), clock)
      ensures r.Errs? && !Fired({DropPartial}, old(clock), clock) ==> folder == old(folder)
      ensures r.Done? ==> name !in old(folder).files && folder.files == old(folder).files[name := file]
      ensures folder == old(folder) || PartlyWritten(old(folder).files, folder.files, name, file)
    {
      var refused := Hazard(OpenFile);
      if name in folder.files || refused {
        return Errs;
      }
      var bytes := DrawBytes();
      folder := Folder(folder.files[name := Opaque(bytes)]);
      var fails := Hazard(FillFile);
      if !fails {
        folder := Folder(folder.files[name := file]);
        assert folder.files == old(folder).files[name := file];
        fails := Hazard(FillFile);
        if !fails {
          return Done;
        }
      }
      var dies := Hazard(Death);
      if dies {
        return Dies;
      }
      var kept := Hazard(DropPartial);
      if !kept {
        Undone(old(folder).files, folder.files, name, file);
        folder := Folder(folder.files - {name});
        dies := Hazard(Death);
        if dies {
          return Dies;
        }
      }
      return Errs;
    }

    /** Puts the mark into the state file, by way of a temporary file. No outcome is the normal end. */
    method WriteCleanupJournal(stateName: string, d: Document) returns (stop: Option<Outcome>)
      requires folder.Folder? && stateName in folder.files && folder.files[stateName] == State(d)
      modifies this`folder, this`clock
      ensures folder.Folder?
      ensures var before, tmp := old(folder).files, TemporaryName(stateName);
        var marked := before[stateName := State(Begun(d))];
        && (stop.None? ==> folder.files == marked)
        && (stop == Some(Failed) ==> folder.files == before || folder.files == marked)
        && (folder.files == before || folder.files == marked ||
            PartlyWritten(before, folder.files, tmp, State(Begun(d))))
        && (stop.Some? ==> !stop.value.Rejected? && !stop.value.Removed?)
        && (Quiet() ==> stop == if tmp in before then Some(Failed) else None)
        && (tmp in before ==> folder == old(folder) && stop.Some?)
        && (stop == Some(Escaped) ==> folder == old(folder))
      ensures old(clock) <= clock
      ensures stop.Some? ==>
        || (stop.value.Failed? && TemporaryName(stateName) in old(folder).files)
        || Fired(Culprits(stop.value), old(clock), clock)
    {
      var tmp, file := TemporaryName(stateName), State(Begun(d));
      var fails := Hazard(ProbeTemporary);
      if fails {
        return Some(Escaped);
      }
      if tmp in folder.files {
        return Some(Failed);
      }
      var written := WritePrivateFile(tmp, file);
      if written.Dies? {
        return Some(Crashed);
      }
      if written.Done? {
        fails := Hazard(ReplaceState);
        if !fails {
          Replaced(old(folder).files, tmp, stateName, file);
          folder := Folder(folder.files[stateName := file] - {tmp});
          fails := Hazard(Death);
          if fails {
            return Some(Crashed);
          }
          fails := Hazard(VerifyState);
          if !fails {
            return None;
          }
        }
      }
      fails := Hazard(DropTemporary);
      if fails {
        return Some(RollbackFailed);
      }
      if tmp in folder.files {
        Undone(old(folder).files, folder.files, tmp, file);
        folder := Folder(folder.files - {tmp});
      }
      fails := Hazard(Death);
      return Some(if fails then Crashed else Failed);
    }

    /** Deletes every member but the state file, in any order. */
    method DeleteMembers(stateName: string, d: Document) returns (r: Call)
      requires Governed(folder, stateName, d)
      modifies this`folder, this`clock
      ensures Governed(folder, stateName, d) && Shrinks(old(folder).files, folder.files)
      ensures r.Done? ==> folder.files == map[stateName := State(d)]
      ensures Quiet() ==> r.Done?
      ensures old(clock) <= clock
      ensures r.Errs? ==> Fired({DeleteMember}, old(clock), clock)
      ensures r.Dies? ==> Fired({Death}, old(clock), clock)
    {
      var left := Expected(d) - {stateName};
      while left != {}
        invariant old(clock) <= clock
        invariant Governed(folder, stateName, d) && Shrinks(old(folder).files, folder.files)
        invariant stateName !in left && folder.files.Keys <= left + {stateName}
        decreases left
      {
        var name :| name in left;
        var fails := Hazard(DeleteMember);
        if fails {
          return Errs;
        }
        if name in folder.files {
          folder := Folder(folder.files - {name});
        }
        left := left - {name};
        var dies := Hazard(Death);
        if dies {
          return Dies;
        }
      }
      assert folder.files == map[stateName := State(d)];
      return Done;
    }

    /** Deletes the state file and the directory, which hold nothing else. */
    method DeleteRest(stateName: string, d: Document) returns (r: Call)
      requires Governed(folder, stateName, d) && folder.files == map[stateName := State(d)]
      modifies this`folder, this`clock
      ensures r.Done? ==> folder.Absent?
      ensures r.Errs? ==> folder == old(folder) || folder == Folder(map[])
      ensures folder == old(folder) || folder == Folder(map[]) || folder.Absent?
      ensures Calm() ==> r.Done?
      ensures Strands() ==> r.Errs? && folder == Folder(map[])
      ensures old(clock) <= clock
      ensures r.Errs? ==> Fired({DeleteState, RemoveDirectory}, old(clock), clock)
      ensures r.Dies? ==> Fired({Death}, old(clock), clock)
    {
      var fails := Hazard(DeleteState);
      if fails {
        return Errs;
      }
      folder := Folder(folder.files - {stateName});
      assert folder.files == map[];
      var dies := Hazard(Death);
      if dies {
        return Dies;
      }
      fails := Hazard(RemoveDirectory);
      if fails || folder.files != map[] {
        return Errs;
      }
      folder := Absent;
      dies := Hazard(Death);
      return if dies then Dies else Done;
    }

    /** After a failure: a directory without its state file gets the state file back. */
    method Reinstate(stateName: string, d: Document) returns (r: Outcome)
      requires d.started && ValidDocument(d, stateName)
      requires Governed(folder, stateName, d) || folder == Folder(map[])
      modifies this`folder, this`clock
      ensures r in {Failed, RollbackFailed, Escaped, Crashed}
      ensures r.Failed? ==> Governed(folder, stateName, d)
      ensures r.Escaped? ==> folder == old(folder)
      ensures Strands() ==> r.Escaped?
      ensures old(clock) <= clock
      ensures !r.Failed? ==> Fired(Culprits(r), old(clock), clock)
      ensures folder == old(folder) ||
        (old(folder) == Folder(map[]) && folder.Folder? && PartlyWritten(map[], folder.files, stateName, State(d)))
    {
      var fails := Hazard(ProbeDirectory);
      if fails {
        return Escaped;
      }
      if stateName !in folder.files {
        var written := WritePrivateFile(stateName, State(d));
        if written.Dies? {
          return Crashed;
        }
        fails := Hazard(VerifyReinstated);
        if written.Errs? || fails {
          return RollbackFailed;
        }
      }
      return Failed;
    }

    /** The deletion proper, once the state file carries the mark. */
    method DeleteBundle(stateName: string, d: Document) returns (r: Outcome)
      requires Governed(folder, stateName, d)
      modifies this`folder, this`clock
      ensures Deleting(old(folder), folder, d) && !r.Rejected?
      ensures r.Removed? ==> folder.Absent?
      ensures r.Failed? ==> Governed(folder, stateName, d)
      ensures r.Escaped? ==> Governed(folder, stateName, d) || folder.Absent? || folder == Folder(map[])
      ensures Calm() ==> r.Removed?
      ensures Strands() ==> r.Escaped? && folder == Folder(map[])
      ensures old(clock) <= clock
      ensures !r.Removed? ==> Fired(Culprits(r), old(clock), clock)
    {
      var deleted := DeleteMembers(stateName, d);
      if deleted.Done? {
        deleted := DeleteRest(stateName, d);
      }
      if deleted.Dies? {
        return Crashed;
      }
      if deleted.Errs? {
        r := Reinstate(stateName, d);
        return;
      }
      var fails := Hazard(ProbeDirectory);
      return if fails then Escaped else Removed;
    }

    /** The command. Nothing is required of the directory: what is not a bundle is refused untouched. */
    method CleanupSecretBundle(stateName: string) returns (r: Outcome)
      modifies this`folder, this`clock
      ensures Called(old(folder), stateName, folder, r)
      ensures Calm() ==> r == CalmOutcome(old(folder), stateName)
      ensures Strands() && Accepts(old(folder), stateName) && !Stuck(old(folder), stateName) ==>
        r.Escaped? && folder == Folder(map[])
      ensures Accepts(old(folder), stateName) && !r.Removed? ==>
        || (r.Failed? && Stuck(old(folder), stateName))
        || Fired(Culprits(r), old(clock), clock)
      ensures Handled() && Accepts(old(folder), stateName) && !Stuck(old(folder), stateName) ==>
        r.Removed? || (r.Failed? && Accepts(folder, stateName))
    {
      var fails := Hazard(Check);
      if fails || !Accepts(folder, stateName) {
        return Rejected;
      }
      r := CleanUpAccepted(stateName);
    }

    /** The command after its checks. */
    method CleanUpAccepted(stateName: string) returns (r: Outcome)
      requires Accepts(folder, stateName)
      modifies this`folder, this`clock
      ensures Called(old(folder), stateName, folder, r) && !r.Rejected?
      ensures Calm() ==> r == CalmOutcome(old(folder), stateName)
      ensures Strands() && !Stuck(old(folder), stateName) ==> r.Escaped? && folder == Folder(map[])
      ensures old(clock) <= clock
      ensures r.Removed? || (r.Failed? && Stuck(old(folder), stateName)) || Fired(Culprits(r), old(clock), clock)
    {
      ghost var before := folder;
      var d := folder.files[stateName].document;
      if !d.started {
        var stop := WriteCleanupJournal(stateName, d);
        if stop.Some? {
          JournalEnds(before, folder, stateName, stop.value);
          return stop.value;
        }
        JournalIsOrderly(before, folder, stateName, d);
        d := Begun(d);
      }
      ghost var marked := folder;
      r := DeleteBundle(stateName, d);
      DeletionEnds(before, marked, folder, stateName, r);
    }
  }

  /** `file`, or some of its bytes, was written to a new name. */
  predicate PartlyWritten(before: map<string, File>, after: map<string, File>, name: string, file: File) {
    name !in before && name in after && after - {name} == before && (after[name] == file || after[name].Opaque?)
  }

  lemma {:induction false} Undone(before: map<string, File>, after: map<string, File>, name: string, file: File)
    requires name !in before && name in after &&
      (after == before[name := after[name]] || PartlyWritten(before, after, name, file))
    ensures after - {name} == before
  {
  }

  lemma {:induction false} Replaced(before: map<string, File>, tmp: string, name: string, file: File)
    requires tmp !in before && name in before
    ensures before[tmp := file][name := file] - {tmp} == before[name := file]
  {
  }

  /** The state file carries the mark and nothing but members of the bundle is there. */
  predicate Governed(f: Folder, stateName: string, d: Document) {
    f.Folder? && stateName in f.files && f.files[stateName] == State(d) && d.started &&
    ValidDocument(d, stateName) && f.files.Keys <= Expected(d)
  }

  predicate Shrinks(before: map<string, File>, after: map<string, File>) {
    forall n :: n in after ==> n in before && after[n] == before[n]
  }

  /** Where the deletion can stand: some members are gone and the mark is there, or none is left. */
  predicate Deleting(marked: Folder, after: Folder, d: Document) {
    marked.Folder? && (after.Folder? ==>
      || (Governed(after, d.stateFile, d) && Shrinks(marked.files, after.files))
      || after.files == map[]
      || PartlyWritten(map[], after.files, d.stateFile, State(d)))
  }

  /** With nothing failing a bundle goes, unless its own file has the name of the temporary. */
  function CalmOutcome(f: Folder, stateName: string): Outcome {
    if !Accepts(f, stateName) then Rejected
    else if Stuck(f, stateName) then Failed
    else Removed
  }

  lemma {:induction false} JournalIsOrderly(before: Folder, after: Folder, stateName: string, d: Document)
    requires Accepts(before, stateName) && d == before.files[stateName].document && !d.started && after.Folder?
    requires after.files == before.files || after.files == before.files[stateName := State(Begun(d))] ||
      PartlyWritten(before.files, after.files, TemporaryName(stateName), State(Begun(d)))
    ensures Orderly(after, d) && OnlyRemoves(before, after, d)
    ensures after.files == before.files[stateName := State(Begun(d))] ==> Governed(after, stateName, Begun(d))
  {
    if PartlyWritten(before.files, after.files, TemporaryName(stateName), State(Begun(d))) {
      assert forall n :: n in after.files && n != TemporaryName(stateName) ==>
        n in after.files - {TemporaryName(stateName)};
      assert forall n :: n in before.files ==> n in after.files - {TemporaryName(stateName)};
    }
  }

  lemma {:induction false} DeletionIsOrderly(before: Folder, marked: Folder, after: Folder, was: Document, d: Document)
    requires d == Begun(was) && before.Folder? && marked.Folder? && Deleting(marked, after, d)
    requires d.stateFile in before.files && marked.files == before.files[d.stateFile := State(d)]
    ensures Orderly(after, was) && OnlyRemoves(before, after, was)
  {
    if after.Folder? && PartlyWritten(map[], after.files, d.stateFile, State(d)) {
      assert forall n :: n in after.files && n != d.stateFile ==> n in after.files - {d.stateFile};
    }
  }

  lemma {:induction false} JournalEnds(before: Folder, after: Folder, stateName: string, r: Outcome)
    requires Accepts(before, stateName) && !before.files[stateName].document.started && after.Folder?
    requires var marked := before.files[stateName := State(Begun(before.files[stateName].document))];
      && (after.files == before.files || after.files == marked ||
          PartlyWritten(before.files, after.files, TemporaryName(stateName), marked[stateName]))
      && (r.Failed? ==> after.files == before.files || after.files == marked)
    requires !r.Rejected? && !r.Removed? && (r.Escaped? || Stuck(before, stateName) ==> after == before)
    ensures Called(before, stateName, after, r)
  {
    JournalIsOrderly(before, after, stateName, before.files[stateName].document);
  }

  lemma {:induction false} DeletionEnds(before: Folder, marked: Folder, after: Folder, stateName: string, r: Outcome)
    requires Accepts(before, stateName) && !Stuck(before, stateName) && marked.Folder?
    requires var d := Begun(before.files[stateName].document);
      && marked.files == before.files[stateName := State(d)] && Deleting(marked, after, d)
      && (r.Failed? ==> Governed(after, stateName, d))
      && (r.Escaped? ==> Governed(after, stateName, d) || after.Absent? || after == Folder(map[]))
    requires !r.Rejected? && (r.Removed? ==> after.Absent?)
    ensures Called(before, stateName, after, r)
  {
    var was := before.files[stateName].document;
    DeletionIsOrderly(before, marked, after, was, Begun(was));
  }

  // ---------------------------------------------------------------- any number of calls

  /** One call: the state file it was given, the directory it left, how it ended. */
  datatype Attempt = Attempt(stateName: string, after: Folder, outcome: Outcome)

  function Final(start: Folder, calls: seq<Attempt>): Folder {
    if calls == [] then start else calls[|calls| - 1].after
  }

  predicate History(start: Folder, calls: seq<Attempt>) {
    calls == [] || (
      var earlier, last := calls[..|calls| - 1], calls[|calls| - 1];
      History(start, earlier) && Called(Final(start, earlier), last.stateName, last.after, last.outcome))
  }

  /** A bundle as it is created. */
  predicate Created(f: Folder, d: Document) {
    f.Folder? && !d.started && ValidDocument(d, d.stateFile) && f.files.Keys == Expected(d) &&
    f.files[d.stateFile] == State(d) && forall n :: n in f.files && n != d.stateFile ==> f.files[n].Opaque?
  }

  lemma {:induction false} CallKeeps(f: Folder, d: Document, call: Attempt)
    requires Orderly(f, d) && OwnDocuments(f, d) && Called(f, call.stateName, call.after, call.outcome)
    ensures Orderly(call.after, d) && OwnDocuments(call.after, d)
    ensures call.outcome.Failed? ==> Accepts(call.after, d.stateFile)
  {
    if Accepts(f, call.stateName) {
      var read := f.files[call.stateName].document;
      assert read in {d, Begun(d)} && call.stateName == d.stateFile;
    }
  }

  /** Over any calls with any outcomes, crashes included: a missing member means that the state file
      says the deletion has begun, or that nothing is left but the state file. */
  lemma {:induction false} DeletionOrder(start: Folder, d: Document, calls: seq<Attempt>)
    requires Created(start, d) && History(start, calls)
    ensures Orderly(Final(start, calls), d) && OwnDocuments(Final(start, calls), d)
  {
    if calls != [] {
      var earlier := calls[..|calls| - 1];
      DeletionOrder(start, d, earlier);
      CallKeeps(Final(start, earlier), d, calls[|calls| - 1]);
    }
  }

  /** No secret that was deleted comes back, and none changes. */
  lemma {:induction false} SecretsOnlyGo(start: Folder, d: Document, calls: seq<Attempt>, n: string)
    requires Created(start, d) && History(start, calls)
    requires Final(start, calls).Folder? && n in Final(start, calls).files
    requires n !in {d.stateFile, TemporaryName(d.stateFile)}
    ensures n in start.files && Final(start, calls).files[n] == start.files[n]
  {
    if calls != [] {
      var earlier, last := calls[..|calls| - 1], calls[|calls| - 1];
      var before := Final(start, earlier);
      DeletionOrder(start, d, earlier);
      if Accepts(before, last.stateName) {
        assert before.files[last.stateName].document in {d, Begun(d)};
      }
      SecretsOnlyGo(start, d, earlier, n);
    }
  }

  /** The outcomes that report neither a failed rollback nor a death. */
  predicate Plain(o: Outcome) {
    o.Failed? || o.Rejected? || o.Escaped? || o.Removed?
  }

  /** The state file is still in its directory. */
  predicate HasState(f: Folder, d: Document) {
    f.Folder? && d.stateFile in f.files
  }

  lemma PlainCall(f: Folder, d: Document, call: Attempt)
    requires Orderly(f, d) && OwnDocuments(f, d) && Called(f, call.stateName, call.after, call.outcome)
    requires Plain(call.outcome) && (Accepts(f, d.stateFile) <==> HasState(f, d))
    ensures Accepts(call.after, d.stateFile) <==> HasState(call.after, d)
  {
    CallKeeps(f, d, call);
    if Accepts(f, call.stateName) {
      assert f.files[call.stateName].document in {d, Begun(d)} && call.stateName == d.stateFile;
    }
  }

  /** After any calls that reported neither a failed rollback nor died, the next call is accepted
      exactly when the state file is still there. */
  lemma {:induction false} RerunAccepted(start: Folder, d: Document, calls: seq<Attempt>)
    requires Created(start, d) && History(start, calls)
    requires forall k :: 0 <= k < |calls| ==> Plain(calls[k].outcome)
    ensures Accepts(Final(start, calls), d.stateFile) <==> HasState(Final(start, calls), d)
  {
    if calls != [] {
      var earlier, last := calls[..|calls| - 1], calls[|calls| - 1];
      assert Plain(last.outcome);
      RerunAccepted(start, d, earlier);
      DeletionOrder(start, d, earlier);
      PlainCall(Final(start, earlier), d, last);
    }
  }

  /** If every call failed in a handler, or was refused, the state file is still there. */
  lemma {:induction false} HandledKeepsState(start: Folder, d: Document, calls: seq<Attempt>)
    requires Created(start, d) && History(start, calls)
    requires forall k :: 0 <= k < |calls| ==> calls[k].outcome.Failed? || calls[k].outcome.Rejected?
    ensures HasState(Final(start, calls), d)
  {
    if calls != [] {
      var earlier, last := calls[..|calls| - 1], calls[|calls| - 1];
      HandledKeepsState(start, d, earlier);
      DeletionOrder(start, d, earlier);
      CallKeeps(Final(start, earlier), d, last);
      assert last.outcome.Failed? || last.outcome.Rejected?;
    }
  }

  /** A bundle with a member of the temporary file's name stays as it was created, over any calls
      with any outcomes. */
  lemma {:induction false} StuckForever(start: Folder, d: Document, calls: seq<Attempt>)
    requires Created(start, d) && History(start, calls) && TemporaryName(d.stateFile) in Expected(d)
    ensures Final(start, calls) == start
  {
    if calls != [] {
      var earlier, last := calls[..|calls| - 1], calls[|calls| - 1];
      StuckForever(start, d, earlier);
      if Accepts(start, last.stateName) {
        assert start.files[last.stateName].State?;
        assert Stuck(start, last.stateName);
      }
    }
  }

  lemma CalmRerun(f: Folder, d: Document)
    requires Accepts(f, d.stateFile) && OwnDocuments(f, d) && !d.started
    ensures CalmOutcome(f, d.stateFile).Removed? <==> TemporaryName(d.stateFile) !in Expected(d) || Marked(f, d)
  {
    assert f.files[d.stateFile].document in {d, Begun(d)};
  }

  /** After any calls that neither reported a failed rollback nor died and that left the state file
      there, a call in which nothing fails removes the bundle, exactly when none of its members has
      the name of the temporary file. */
  lemma RerunFinishes(start: Folder, d: Document, calls: seq<Attempt>)
    requires Created(start, d) && History(start, calls)
    requires forall k :: 0 <= k < |calls| ==> Plain(calls[k].outcome)
    requires HasState(Final(start, calls), d)
    ensures Accepts(Final(start, calls), d.stateFile)
    ensures CalmOutcome(Final(start, calls), d.stateFile).Removed? <==> TemporaryName(d.stateFile) !in Expected(d)
  {
    RerunAccepted(start, d, calls);
    DeletionOrder(start, d, calls);
    CalmRerun(Final(start, calls), d);
    if TemporaryName(d.stateFile) in Expected(d) {
      StuckForever(start, d, calls);
    }
  }

  /** The state file can be gone: when removing the directory fails and the next probe raises, the
      command has deleted everything but the directory, and no later call accepts that. */
  method DeletesAllButTheDirectory(start: Folder, d: Document) returns (b: Bundle, r: Outcome)
    requires Created(start, d) && TemporaryName(d.stateFile) !in Expected(d)
    ensures r.Escaped? && b.folder == Folder(map[])
    ensures History(start, [Attempt(d.stateFile, b.folder, r)])
    ensures forall name :: !Accepts(b.folder, name)
  {
    b := new Bundle(start, (site, n) => site in {RemoveDirectory, ProbeDirectory});
    r := b.CleanupSecretBundle(d.stateFile);
    OneCall(start, Attempt(d.stateFile, b.folder, r));
  }

  lemma {:induction false} OneCall(start: Folder, call: Attempt)
    requires Called(start, call.stateName, call.after, call.outcome)
    ensures History(start, [call])
  {
    assert [call][..0] == [];
    assert History(start, [call][..0]);
  }

  // ---------------------------------------------------------------- a bundle that stays

  const STATE_NAME := "st"

  const MEMBERS: seq<string> := [
    "mysql_root_password", "mysql_app_password", "mysql_url", "jwt_secret_key", "default_admin_password",
    "admin_username", TemporaryName(STATE_NAME), STATE_NAME]

  const STUCK := Document(MEMBERS, TemporaryName(STATE_NAME), STATE_NAME, true, false)

  function StuckFolder(): Folder {
    Folder(map n | n in Expected(STUCK) :: if n == STATE_NAME then State(STUCK) else Opaque([]))
  }

  /** Two of the names are told apart by their first letter, all others by their lengths. */
  lemma {:induction false} MembersAreDistinct()
    ensures Distinct(MEMBERS)
  {
    forall i, j | 0 <= i < j < |MEMBERS| ensures MEMBERS[i] != MEMBERS[j] {
      assert |MEMBERS[i]| != |MEMBERS[j]| || MEMBERS[i][0] != MEMBERS[j][0];
    }
  }

  lemma {:induction false} StuckName()
    ensures STUCK.envFile == ".st.cleanup-tmp"
  {
  }

  /** A bundle whose environment file has the name of the temporary file: it is created as any other,
      and no calls, however many and however they end, change anything in it. */
  lemma {:induction false} NeverDeleted(calls: seq<Attempt>)
    ensures Created(StuckFolder(), STUCK) && CalmOutcome(StuckFolder(), STATE_NAME).Failed?
    ensures History(StuckFolder(), calls) ==> Final(StuckFolder(), calls) == StuckFolder()
  {
    MembersAreDistinct();
    assert (set m | m in MEMBERS) == Expected(STUCK);
    assert StuckFolder().files.Keys == Expected(STUCK);
    if History(StuckFolder(), calls) {
      StuckForever(StuckFolder(), STUCK, calls);
    }
  }
}
