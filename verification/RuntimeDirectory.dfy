/** The file-system operations that a promotion is made of, on a mutable runtime directory.

    Every operation may fail by an exception or be cut off by a crash after each change it makes,
    so what its contract says of `Failed` and `Crashed` holds at every intermediate state. Nothing
    else changes the directory while the promotion holds its lock. */
module RuntimeDirectory {
  import opened Options
  import opened Documents
  import opened Recovery

  /** How a call ends: normally; by an exception; by the exception that reports an unsynced removal
      of the last journal; or not at all, because the process died. */
  datatype Signal = Ok | Failed | Terminal | Crashed {
    predicate IsFailure() {
      !Ok?
    }

    function PropagateFailure(): Signal {
      this
    }
  }

  function MovePlace(disk: Disk, source: Place, target: Place): Disk
    requires source in disk
  {
    disk[target := disk[source]] - {source}
  }

  /** The live directory under a rename, by the kinds of the two names. */
  lemma LiveMove(disk: Disk, source: Place, target: Place)
    requires source in disk && target !in disk
    ensures source.Entry? && target.Entry? ==>
      Live(MovePlace(disk, source, target)) == Move(Live(disk), source.name, target.name)
    ensures source.Entry? && !target.Entry? ==>
      Live(MovePlace(disk, source, target)) == Live(disk) - {source.name}
    ensures !source.Entry? && target.Entry? ==>
      Live(MovePlace(disk, source, target)) == Live(disk)[target.name := disk[source]]
    ensures !source.Entry? && !target.Entry? ==> Live(MovePlace(disk, source, target)) == Live(disk)
  {
  }

  lemma LiveLookup(disk: Disk, n: Name)
    ensures n in Live(disk) <==> Entry(n) in disk
    ensures n in Live(disk) ==> Live(disk)[n] == disk[Entry(n)]
  {
    if n in Live(disk) {
      var p :| p in disk && p.Entry? && p.name == n;
      assert p == Entry(n);
    }
    if Entry(n) in disk {
      assert Entry(n).name == n;
    }
  }

  /** The states of a compare-and-swap of `path` from `expected` to `next` through `claim`: not
      begun, set aside, swapped. The guard held before each change. */
  predicate SwapState(d: Directory, e: Directory, path: Name, claim: Name, expected: File, next: File,
                      guard: Directory -> bool)
  {
    || e == d
    || (SetAside(d, path, claim, expected, guard) && e == Move(d, path, claim))
    || (SetAside(d, path, claim, expected, guard) && d[path] == expected && guard(Move(d, path, claim))
        && e == Move(d, path, claim)[path := next])
  }

  predicate SetAside(d: Directory, path: Name, claim: Name, expected: File, guard: Directory -> bool) {
    path in d && d[path].inode == expected.inode && claim !in d && path != claim && guard(d)
  }

  lemma MovedAndGone(disk: Disk, source: Place, target: Place)
    requires source in disk && target !in disk
    ensures MovePlace(disk, source, target) - {target} == disk - {source}
  {
  }

  /** The temporary files of `before` are all still there, unchanged. */
  predicate KeepsTemporaries(before: Disk, after: Disk) {
    forall p :: p in before && p.Temporary? ==> p in after && after[p] == before[p]
  }

  /** If there is such a file, it is the staged one. */
  predicate Owns(disk: Disk, temporary: Place, staged: File) {
    temporary in disk ==> disk[temporary].inode == staged.inode
  }

  function Token(p: Place): nat {
    match p
    case Entry(_) => 0
    case Temporary(token) => token
    case Retired(token) => token
  }

  /** There is always a token that no temporary or retired file carries. */
  lemma {:induction false} UnusedToken(names: set<Place>) returns (bound: nat)
    ensures forall p :: p in names ==> Token(p) < bound
  {
    if names == {} {
      return 0;
    }
    var p :| p in names;
    var rest := UnusedToken(names - {p});
    bound := if Token(p) < rest then rest else Token(p) + 1;
    assert forall q :: q in names ==> q == p || q in names - {p};
  }

  /** What a promotion verifies of the release: the manifest to be, then the deployment that runs with it. */
  datatype Check = PreparedRelease | DeployedRelease

  class Runtime {
    /** A calm run meets no I/O error, no failing check but these two, and no crash. */
    const calm: bool

    /** The checks of the release that it passes. */
    const passes: set<Check>

    var disk: Disk

    constructor (initial: Disk, calm: bool, passes: set<Check>)
      ensures disk == initial && this.calm == calm && this.passes == passes
    {
      disk := initial;
      this.calm := calm;
      this.passes := passes;
    }

    predicate GoodRelease() {
      PreparedRelease in passes && DeployedRelease in passes
    }

    function Now(): Directory
      reads this
    {
      Live(disk)
    }

    /** Anything outside the model: an I/O error, a failing external check, a lost lock, a crash. */
    method Hazard() returns (s: Signal)
      ensures !s.Terminal?
      ensures calm ==> s.Ok?
    {
      s := *;
      if calm {
        s := Ok;
      } else if s.Terminal? {
        s := Failed;
      }
    }

    /** A check of the release. It is never passed by a release that does not meet it. */
    method Verify(check: Check) returns (s: Signal)
      ensures !s.Terminal?
      ensures s.Ok? ==> check in passes
      ensures calm ==> s == if check in passes then Ok else Failed
    {
      if check !in passes {
        return Failed;
      }
      s := Hazard();
    }

    /** The random token of a temporary or retired name. */
    method DrawToken() returns (token: nat)
      ensures calm ==> Temporary(token) !in disk && Retired(token) !in disk
    {
      token := *;
      if calm {
        ghost var bound := UnusedToken(disk.Keys);
        assert Temporary(bound) !in disk && Retired(bound) !in disk;
        token :| Temporary(token) !in disk && Retired(token) !in disk;
      }
    }

    /** A mutation guard: it passes only if its condition holds on disk, and may fail anyway. */
    method Guard(guard: Directory -> bool) returns (s: Signal)
      ensures s.Ok? ==> guard(Now())
      ensures !s.Terminal?
      ensures calm && guard(Now()) ==> s.Ok?
    {
      if !guard(Live(disk)) {
        return Failed;
      }
      s := Hazard();
    }

    /** Rename `source`, which must be the given inode, to the unused name `target`. When the check
        after the rename fails, the rename is taken back, unless that fails too. */
    method MoveNoReplaceOwned(source: Place, target: Place, identity: Inode) returns (s: Signal)
      modifies this
      ensures !s.Terminal?
      ensures disk != old(disk) ==>
        && source in old(disk) && old(disk)[source].inode == identity && target !in old(disk)
        && disk == MovePlace(old(disk), source, target)
      ensures s.Ok? ==> disk != old(disk)
      ensures calm && source in old(disk) && old(disk)[source].inode == identity && target !in old(disk) ==> s.Ok?
    {
      if source !in disk || disk[source].inode != identity || target in disk {
        return Failed;
      }
      :- Hazard();
      disk := MovePlace(disk, source, target);
      assert target in disk;
      s := Hazard();
      if s.Failed? {
        var back := Hazard();
        if back.Crashed? {
          return back;
        }
        if back.Ok? {
          disk := MovePlace(disk, target, source);
          assert disk == old(disk);
          back := Hazard();
          if back.Crashed? {
            return back;
          }
        }
      }
    }

    /** Delete `path`, which must be the given inode, by way of a retired name. On a failure the
        file is renamed back, unless the guard or the rename fails. */
    method UnlinkOwned(path: Place, identity: Inode, guard: Directory -> bool) returns (s: Signal)
      modifies this
      ensures !s.Terminal?
      ensures Now() != old(Now()) ==>
        && path.Entry? && path.name in old(Now()) && old(Now())[path.name].inode == identity
        && guard(old(Now())) && Now() == old(Now()) - {path.name}
      ensures s.Ok? && path.Entry? ==> path.name in old(Now()) && Now() == old(Now()) - {path.name}
      ensures path.Entry? ==> KeepsTemporaries(old(disk), disk)
      ensures path.Temporary? ==> KeepsTemporaries(old(disk) - {path}, disk)
      ensures
        && calm && path.Entry? && path.name in old(Now()) && old(Now())[path.name].inode == identity
        && guard(old(Now())) && guard(old(Now()) - {path.name})
        ==> s.Ok?
      ensures s.Ok? ==> path in old(disk) && disk == old(disk) - {path}
      ensures
        && calm && path.Temporary? && path in old(disk) && old(disk)[path].inode == identity && guard(old(Now()))
        ==> s.Ok?
    {
      if path.Entry? {
        LiveLookup(disk, path.name);
      }
      if path !in disk || disk[path].inode != identity {
        return Failed;
      }
      :- Guard(guard);
      var token := DrawToken();
      var quarantine := Retired(token);
      ghost var before := disk;
      s := MoveNoReplaceOwned(path, quarantine, identity);
      if disk != before {
        LiveMove(before, path, quarantine);
      }
      if !s.Ok? {
        return;
      }
      // The bound delete of the retired file: not removed, removed, or removed but not synced.
      var checked := Guard(guard);
      if checked.Crashed? {
        return checked;
      }
      if checked.Ok? {
        assert Live(disk - {quarantine}) == Live(disk);
        MovedAndGone(before, path, quarantine);
        disk := disk - {quarantine};
        s := Hazard();
        return;
      }
      checked := Guard(guard);
      if checked.Crashed? {
        return checked;
      }
      if checked.Ok? && path !in disk {
        disk := MovePlace(disk, quarantine, path);
        assert disk == before;
        checked := Hazard();
        if checked.Crashed? {
          return checked;
        }
      }
      return Failed;
    }

    /** Delete the live file `n` if it still is `file`. */
    method UnlinkOwnedPayload(n: Name, file: File, guard: Directory -> bool) returns (s: Signal)
      modifies this
      ensures !s.Terminal?
      ensures Now() != old(Now()) ==>
        At(old(Now()), n) == Some(file) && guard(old(Now())) && Now() == old(Now()) - {n}
      ensures s.Ok? ==> At(old(Now()), n) == Some(file) && Now() == old(Now()) - {n}
      ensures KeepsTemporaries(old(disk), disk)
      ensures
        calm && At(old(Now()), n) == Some(file) && guard(old(Now())) && guard(old(Now()) - {n}) ==> s.Ok?
    {
      if At(Live(disk), n) != Some(file) {
        return Failed;
      }
      s := UnlinkOwned(Entry(n), file.inode, guard);
    }

    /** Write `payload` to a new temporary file. The inode is arbitrary: nothing relies on its being
        different from every inode used before. */
    method StageTemporary(payload: Payload) returns (s: Signal, temporary: Place, identity: Inode)
      modifies this
      ensures !s.Terminal? && temporary.Temporary?
      ensures Now() == old(Now())
      ensures s.Ok? ==> temporary in disk && disk[temporary] == File(identity, payload)
      ensures s.Ok? ==> temporary !in old(disk)
      ensures KeepsTemporaries(old(disk), disk)
      ensures calm ==> s.Ok?
    {
      var token := DrawToken();
      temporary := Temporary(token);
      identity := *;
      s := Hazard();
      if !s.Ok? {
        return;
      }
      if temporary in disk {
        s := Failed;
        return;
      }
      disk := disk[temporary := File(identity, payload)];
      assert Live(disk) == Live(old(disk));
      s := Hazard();
      if s.Failed? {
        var cleaned := AbandonTemporary(temporary, identity);
        if cleaned.Crashed? {
          s := cleaned;
        }
      }
    }

    /** The clean-up of a replacement that did not happen. */
    method AbandonTemporary(temporary: Place, identity: Inode) returns (s: Signal)
      requires temporary.Temporary?
      modifies this
      ensures !s.Terminal?
      ensures Now() == old(Now())
      ensures KeepsTemporaries(old(disk) - {temporary}, disk)
      ensures s.Ok? ==> temporary !in disk
      ensures calm && (temporary in old(disk) ==> old(disk)[temporary].inode == identity) ==> s.Ok?
    {
      if temporary !in disk {
        return Ok;
      }
      s := UnlinkOwned(temporary, identity, d => true);
    }

    /** Publish a staged file at a name that must be unused. */
    method PublishAbsent(temporary: Place, staged: File, n: Name, guard: Directory -> bool) returns (s: Signal)
      requires temporary.Temporary?
      modifies this
      ensures !s.Terminal?
      ensures Now() != old(Now()) ==> n !in old(Now()) && guard(old(Now())) && Now() == old(Now())[n := staged]
      ensures s.Ok? ==> n !in old(Now()) && Now() == old(Now())[n := staged]
      ensures KeepsTemporaries(old(disk) - {temporary}, disk)
      ensures
        && calm && temporary in old(disk) && old(disk)[temporary] == staged
        && n !in old(Now()) && guard(old(Now()))
        ==> s.Ok?
      ensures s.Ok? || (calm && s.Failed? && Owns(old(disk), temporary, staged)) ==> temporary !in disk
    {
      ghost var before := disk;
      LiveLookup(disk, n);
      if temporary !in disk || disk[temporary] != staged {
        s := Failed;
      } else {
        s := Guard(guard);
        if s.Ok? {
          s := MoveNoReplaceOwned(temporary, Entry(n), staged.inode);
          if disk != before {
            LiveMove(before, temporary, Entry(n));
          }
          if s.Ok? {
            s := Hazard();
          }
        }
      }
      if s.Failed? {
        var cleaned := AbandonTemporary(temporary, staged.inode);
        if cleaned.Crashed? {
          s := cleaned;
        }
      }
    }

    /** Replace `path`, which must still be `expected`, by a staged file, keeping the old file as
        `claim`: a compare-and-swap at every intermediate state. `published` says that the caller
        may count on the new file being in place. */
    method PublishConditional(temporary: Place, staged: File, path: Name, expected: File, claim: Name,
                              guard: Directory -> bool) returns (s: Signal, published: bool)
      requires temporary.Temporary? && path != claim
      modifies this
      ensures !s.Terminal?
      ensures SwapState(old(Now()), Now(), path, claim, expected, staged, guard)
      ensures s.Ok? ==> published
      ensures published ==>
        && SetAside(old(Now()), path, claim, expected, guard) && old(Now())[path] == expected
        && Now() == Move(old(Now()), path, claim)[path := staged]
      ensures KeepsTemporaries(old(disk) - {temporary}, disk)
      ensures s.Ok? || (calm && s.Failed? && Owns(old(disk), temporary, staged)) ==> temporary !in disk
      ensures
        && calm && temporary in old(disk) && old(disk)[temporary] == staged
        && At(old(Now()), path) == Some(expected) && claim !in old(Now())
        && guard(old(Now())) && guard(Move(old(Now()), path, claim))
        ==> s.Ok?
    {
      ghost var before := disk;
      published := false;
      LiveLookup(disk, path);
      LiveLookup(disk, claim);
      if temporary !in disk || disk[temporary] != staged {
        s := Failed;
      } else {
        s := Guard(guard);
        if s.Ok? {
          s, published := SwapIn(temporary, staged, path, expected, claim, guard);
        }
      }
      if s.Failed? {
        var cleaned := AbandonTemporary(temporary, staged.inode);
        if cleaned.Crashed? {
          s := cleaned;
        }
      }
    }

    /** The renames of a conditional replacement, and the rename back when it stops half-way. */
    method SwapIn(temporary: Place, staged: File, path: Name, expected: File, claim: Name,
                  guard: Directory -> bool) returns (s: Signal, published: bool)
      requires temporary.Temporary? && temporary in disk && disk[temporary] == staged
      requires path != claim && guard(Now())
      modifies this
      ensures !s.Terminal?
      ensures SwapState(old(Now()), Now(), path, claim, expected, staged, guard)
      ensures s.Ok? ==> published
      ensures published ==>
        && SetAside(old(Now()), path, claim, expected, guard) && old(Now())[path] == expected
        && Now() == Move(old(Now()), path, claim)[path := staged]
      ensures KeepsTemporaries(old(disk) - {temporary}, disk)
      ensures if published then temporary !in disk else Owns(disk, temporary, staged)
      ensures
        && calm && At(old(Now()), path) == Some(expected) && claim !in old(Now())
        && guard(old(Now())) && guard(Move(old(Now()), path, claim))
        ==> s.Ok?
    {
      ghost var before := disk;
      published := false;
      LiveLookup(disk, path);
      LiveLookup(disk, claim);
      s := MoveNoReplaceOwned(Entry(path), Entry(claim), expected.inode);
      if disk != before {
        LiveMove(before, Entry(path), Entry(claim));
      }
      if !s.Ok? {
        return;
      }
      ghost var aside := disk;
      LiveLookup(disk, path);
      LiveLookup(disk, claim);
      var checked := Hazard();
      if checked.Ok? && disk[Entry(claim)] != expected {
        checked := Failed;
      }
      if checked.Ok? {
        checked := Guard(guard);
      }
      if checked.Ok? {
        s := MoveNoReplaceOwned(temporary, Entry(path), staged.inode);
        if disk != aside {
          LiveMove(aside, temporary, Entry(path));
        }
        if s.Ok? {
          published := true;
          s := Hazard();
          return;
        }
        checked := s;
      }
      if checked.Crashed? {
        s := checked;
        return;
      }
      ghost var stuck := disk;
      LiveLookup(disk, path);
      s := PutBack(path, claim, expected.inode, guard);
      if disk != stuck {
        assert disk == before;
      }
    }

    /** Not published: put the old file back, if the guard still holds and the name is unused. */
    method PutBack(path: Name, claim: Name, identity: Inode, guard: Directory -> bool) returns (s: Signal)
      modifies this
      ensures s.Failed? || s.Crashed?
      ensures disk != old(disk) ==>
        Entry(claim) in old(disk) && Entry(path) !in old(disk) &&
        disk == MovePlace(old(disk), Entry(claim), Entry(path))
    {
      var back := Guard(guard);
      if back.Ok? {
        back := MoveNoReplaceOwned(Entry(claim), Entry(path), identity);
      }
      s := if back.Crashed? then back else Failed;
    }
  }
}
