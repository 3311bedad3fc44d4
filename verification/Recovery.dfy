/** What a restart makes of the runtime directory: which journal has authority, which states it
    admits, which pair of files it would settle on, and how far it still has to go. */
module Recovery {
  import opened Options
  import opened Documents
  import opened Journals

  /** The three files that a promotion sets aside by a no-replace rename. */
  datatype ClaimRole = SelectionRole | ManifestRole | JournalRole

  /** The names in the runtime directory that the recovery inventories read. */
  datatype Name =
    | SelectionPath
    | ManifestPath
    | JournalPath
    | Prepared(revision: string)
    | Claim(nonce: nat, role: ClaimRole)
    | Retiring(nonce: nat)

  /** Every name that a promotion uses: the ones above, and temporary and retired files under a
      random token. */
  datatype Place = Entry(name: Name) | Temporary(token: nat) | Retired(token: nat)

  type Directory = map<Name, File>

  type Disk = map<Place, File>

  /** The part of the disk that recovery reads. */
  function Live(disk: Disk): Directory {
    map p | p in disk && p.Entry? :: p.name := disk[p]
  }

  function At(d: Directory, n: Name): Option<File> {
    if n in d then Some(d[n]) else None
  }

  function Move(d: Directory, source: Name, target: Name): Directory
    requires source in d
  {
    d[target := d[source]] - {source}
  }

  // ---------------------------------------------------------------- one target

  datatype Kind = Absent | Old | New | Drifted

  function KindOf(f: Option<File>, prior: File, payload: Payload, id: Option<Inode>): Kind {
    if f.None? then Absent
    else if f.value == prior then Old
    else if f.value.payload == payload && id == Some(f.value.inode) then New
    else Drifted
  }

  datatype Plan = Done | Replace | DropClaim | RestoreClaim | RestoreOver | PublishOld | Refused

  /** The classification of a target and its claim. */
  function Inspect(target: Option<File>, claim: Option<File>, prior: File, payload: Payload,
                   id: Option<Inode>): Plan
  {
    match (KindOf(target, prior, payload, id), KindOf(claim, prior, payload, id))
    case (Drifted, _) => Refused
    case (_, Drifted) => Refused
    case (Absent, Absent) => Refused
    case (Old, Absent) => Done
    case (New, Absent) => Replace
    case (Absent, Old) => RestoreClaim
    case (New, Old) => RestoreOver
    case (Old, Old) => DropClaim
    case (Absent, New) => PublishOld
    case (Old, New) => DropClaim
    case (New, New) => if target.value.inode == claim.value.inode then PublishOld else Refused
  }

  /** Both callers of the classification refuse the plans that would install a fresh inode, and
      refuse a claim that is not the old file. */
  predicate RestorePlan(plan: Plan, claim: Option<File>, prior: File) {
    (claim.None? || claim.value == prior) && plan in {Done, DropClaim, RestoreClaim, RestoreOver}
  }

  function PathOf(role: ClaimRole): Name {
    match role
    case SelectionRole => SelectionPath
    case ManifestRole => ManifestPath
    case JournalRole => JournalPath
  }

  // ---------------------------------------------------------------- the journal's promises

  function NewManifest(tx: Transaction): Option<Payload> {
    if !tx.oldManifest.payload.ManifestJson? then None else
    match ForwardManifest(tx.oldManifest.payload.manifest, tx.newSelection)
    case None => None
    case Some(m) => Some(ManifestJson(m))
  }

  /** The material that a promotion puts into its journals: a coherent old pair, a new selection with
      the same API, and the digest of the manifest that names the new selection. Recovery asks for
      one thing more, see `RestartAdmits`. */
  predicate ValidMaterial(tx: Transaction) {
    && Coherent(tx.oldSelection.payload, tx.oldManifest.payload)
    && Closed(tx.newSelection) && tx.newSelection.selection.Split?
    && NewManifest(tx).Some?
    && tx.newManifestDigest == Sha256(NewManifest(tx).value)
    && var was, will := tx.oldSelection.payload.selection, tx.newSelection.selection;
    && ApiOf(will) == ApiOf(was)
    && was.webImageId == tx.oldWebId
    && will.webImageId == tx.targetWebId
    && will.webRevision == tx.revision
    && was.apiImageId == tx.apiImageId
  }

  /** The old files and the new payloads of a transaction. */
  datatype Material = Material(nonce: nat, revision: string, oldSelection: File, oldManifest: File,
                               newSelection: Payload, newManifest: Payload)
  {
    function OldFile(role: ClaimRole): File {
      if role.SelectionRole? then oldSelection else oldManifest
    }

    function NewPayload(role: ClaimRole): Payload {
      if role.SelectionRole? then newSelection else newManifest
    }
  }

  function MaterialOf(tx: Transaction): Material
    requires ValidMaterial(tx)
  {
    Material(tx.nonce, tx.revision, tx.oldSelection, tx.oldManifest, tx.newSelection, NewManifest(tx).value)
  }

  function NewId(j: Journal, role: ClaimRole): Option<Inode> {
    if role.SelectionRole? then j.selectionId else j.manifestId
  }

  /** The plan that journal `j` gives for one of its two targets. */
  function PlanFor(d: Directory, j: Journal, m: Material, role: ClaimRole): Plan {
    Inspect(At(d, PathOf(role)), At(d, Claim(m.nonce, role)), m.OldFile(role), m.NewPayload(role), NewId(j, role))
  }

  /** The state of one target that recovery goes on from: while applying, one of the four restore
      plans; while committing, the new file in place, and a claim only of the old file. */
  predicate TargetAdmitted(d: Directory, j: Journal, m: Material, role: ClaimRole) {
    var claim := At(d, Claim(m.nonce, role));
    match j.phase
    case Applying => RestorePlan(PlanFor(d, j, m, role), claim, m.OldFile(role))
    case Committing =>
      && NewId(j, role).Some?
      && At(d, PathOf(role)) == Some(File(NewId(j, role).value, m.NewPayload(role)))
      && (claim.None? || claim.value == m.OldFile(role))
  }

  // ---------------------------------------------------------------- authority

  datatype Location = NoJournal | Journaled(path: Name) | Conflict

  function JournalClaims(d: Directory): set<Name> {
    set n | n in d && n.Claim? && n.role.JournalRole?
  }

  function RetiringJournals(d: Directory): set<Name> {
    set n | n in d && n.Retiring?
  }

  predicate JournalName(n: Name) {
    n == JournalPath || n.Retiring? || (n.Claim? && n.role.JournalRole?)
  }

  predicate ClaimsOf(d: Directory, nonce: nat) {
    forall n :: n in d && n.Claim? ==> n.nonce == nonce
  }

  /** The journal that a restart reads: the canonical one, else the only claimed one, else the only
      retiring one. */
  function Locate(d: Directory): Location {
    var claims, retiring := JournalClaims(d), RetiringJournals(d);
    if JournalPath in d then
      if retiring != {} then Conflict else Journaled(JournalPath)
    else if claims != {} then
      if retiring != {} then Conflict
      else if exists n :: n in claims && claims == {n} then
        var n :| n in claims && claims == {n};
        if HoldsJournal(d[n]) && ClaimsOf(d, d[n].payload.journal.tx.nonce) then Journaled(n) else Conflict
      else Conflict
    else if retiring != {} then
      if exists n :: n in retiring && retiring == {n} then
        var n :| n in retiring && retiring == {n};
        if HoldsJournal(d[n]) && d[n].payload.journal.tx.nonce == n.nonce && ClaimsOf(d, n.nonce)
        then Journaled(n) else Conflict
      else Conflict
    else if exists n :: n in d && n.Claim? then Conflict
    else NoJournal
  }

  /** No second journal competes with the one at `path`, except a predecessor that the canonical
      journal itself names. */
  predicate SoleAuthority(d: Directory, path: Name)
    requires path in d && HoldsJournal(d[path])
  {
    var nonce := d[path].payload.journal.tx.nonce;
    var claim := Claim(nonce, JournalRole);
    && (forall n :: n in d && n.Retiring? ==> n == path)
    && ( || (path == JournalPath
             && (claim in d && d[claim] != d[path] ==> Supersedes(d[path], d[claim])))
         || (path == claim && JournalPath !in d)
         || (path == Retiring(nonce) && JournalPath !in d && claim !in d))
  }

  predicate PreparedAdmitted(d: Directory, j: Journal, m: Material) {
    && (forall n :: n in d && n.Prepared? ==> n.revision == m.revision)
    && (Prepared(m.revision) in d ==>
          j.preparedId.Some? && d[Prepared(m.revision)] == File(j.preparedId.value, m.newManifest))
  }

  /** What recovery checks of the directory, given the material of its journal at `path`. */
  predicate Consistent(d: Directory, path: Name, m: Material) {
    && path in d && HoldsJournal(d[path])
    && var j := d[path].payload.journal;
    && j.tx.nonce == m.nonce
    && ClaimsOf(d, m.nonce)
    && SoleAuthority(d, path)
    && PreparedAdmitted(d, j, m)
    && TargetAdmitted(d, j, m, SelectionRole)
    && TargetAdmitted(d, j, m, ManifestRole)
  }

  /** Everything that recovery checks before its first change, but for the layout of the old
      selection. */
  predicate Admitted(d: Directory, path: Name) {
    && path in d && HoldsJournal(d[path])
    && ValidMaterial(d[path].payload.journal.tx)
    && Consistent(d, path, MaterialOf(d[path].payload.journal.tx))
  }

  /** What a restart admits: it reads both selections of the journal with the closed parser. */
  predicate RestartAdmits(d: Directory, path: Name) {
    Admitted(d, path) && Closed(d[path].payload.journal.tx.oldSelection.payload)
  }

  /** A directory at rest: the two files, coherent, and nothing else. */
  predicate Settled(d: Directory) {
    && d.Keys == {SelectionPath, ManifestPath}
    && Coherent(d[SelectionPath].payload, d[ManifestPath].payload)
  }

  /** The invariant of every reachable directory: at rest, or with a journal that recovery can carry
      out. */
  predicate Sound(d: Directory) {
    match Locate(d)
    case NoJournal => Settled(d)
    case Journaled(path) => Admitted(d, path)
    case Conflict => false
  }

  /** A restart goes on from here: there is no journal, or one that it admits. */
  predicate Restartable(d: Directory)
    requires Sound(d)
  {
    match Locate(d)
    case NoJournal => true
    case Journaled(path) => RestartAdmits(d, path)
  }

  /** The journal with authority. */
  function Authority(d: Directory): Option<File> {
    match Locate(d)
    case Journaled(path) => At(d, path)
    case _ => None
  }

  /** The pair of files that the directory stands for. */
  datatype Pair = Pair(selection: File, manifest: File)

  function OldPair(m: Material): Pair {
    Pair(m.oldSelection, m.oldManifest)
  }

  function NewPair(j: Journal, m: Material): Pair
    requires j.selectionId.Some? && j.manifestId.Some?
  {
    Pair(File(j.selectionId.value, m.newSelection), File(j.manifestId.value, m.newManifest))
  }

  /** The pair that a journal settles on: the old one while applying, the new one while committing. */
  function Outcome(j: Journal, m: Material): Pair
    requires ValidProgress(j)
  {
    if j.phase.Applying? then OldPair(m) else NewPair(j, m)
  }

  /** The abstraction function: the pair on disk when at rest, else what the journal settles on. */
  function Installed(d: Directory): Pair
    requires Sound(d)
  {
    match Locate(d)
    case NoJournal => Pair(d[SelectionPath], d[ManifestPath])
    case Journaled(path) => Outcome(d[path].payload.journal, MaterialOf(d[path].payload.journal.tx))
  }

  // ---------------------------------------------------------------- how far there is to go

  function PlanWeight(plan: Plan): nat {
    match plan
    case RestoreOver => 2
    case RestoreClaim => 1
    case DropClaim => 1
    case _ => 0
  }

  function Present(d: Directory, n: Name): nat {
    if n in d then 1 else 0
  }

  function TargetWeight(d: Directory, j: Journal, m: Material, role: ClaimRole): nat {
    if j.phase.Applying? then PlanWeight(PlanFor(d, j, m, role)) else Present(d, Claim(m.nonce, role))
  }

  function PathWeight(path: Name): nat {
    if path == JournalPath then 3 else if path.Claim? then 2 else 1
  }

  function Weight(d: Directory, path: Name, m: Material): nat
    requires Consistent(d, path, m)
  {
    var j := d[path].payload.journal;
    PathWeight(path)
    + (if path == JournalPath then Present(d, Claim(m.nonce, JournalRole)) else 0)
    + Present(d, Prepared(m.revision))
    + TargetWeight(d, j, m, SelectionRole)
    + TargetWeight(d, j, m, ManifestRole)
  }

  /** How many directory changes recovery still needs. */
  function Remaining(d: Directory): nat
    requires Sound(d)
  {
    match Locate(d)
    case NoJournal => 0
    case Journaled(path) => Weight(d, path, MaterialOf(d[path].payload.journal.tx))
  }
}
