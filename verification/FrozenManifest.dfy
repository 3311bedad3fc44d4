/** Freezing the inputs of a deployment into a manifest, and verifying a manifest against the inputs.

    What the two programs ask of the machine is given by functions: `System` holds what is the same
    at every time, `Moment` what may differ from one call to the next (the working directory,
    permissions, files that no manifest records). The theorems hold for all of them. */
module FrozenManifest {
  import opened Options
  import opened Documents

  /** The readable regular files, by normalized absolute path. */
  type Tree = map<string, File>

  datatype System = System(
    normcase: string -> string,
    isAbsolute: string -> bool,
    relativeToRoot: string -> string,
    composePath: Role -> string,
    bootstrapPath: string,
    selectionPath: Settings -> string,          // where continuous integration keeps the selection
    manifestPath: Settings -> string,           // and the manifest
    settingsOk: Settings -> bool,               // project name and rollback variant
    composeSourceOk: Payload -> bool,
    reference: (string, Payload, Role) -> string) // the path that an environment file gives for a role

  datatype Moment = Moment(
    abspath: string -> string,
    manifestPathOk: (string, Settings) -> bool,
    outputOk: (string, Settings) -> bool,
    inputPathOk: (string, Role) -> bool,
    sourceOk: (string, Payload, Role, Settings) -> bool,
    crossRoleOk: (map<Role, Payload>, SecretMode) -> bool)

  // ---------------------------------------------------------------- the tables of roles

  function GpuFile(gpu: GpuMode): seq<Role> {
    match gpu
    case Compat => [GpuCompatFile]
    case CpuOnly => [CpuFile]
    case _ => []
  }

  function SecretFile(secrets: SecretMode): seq<Role> {
    if secrets.Files? then [SecretsFile] else []
  }

  function ComposeRoles(s: Settings): Option<seq<Role>> {
    if s.gpuMode.OtherGpuMode? || s.secretMode.OtherSecretMode? then None
    else match s.mode
      case Production | RollbackWebOnly =>
        if s.gpuMode.CpuOnly? then None
        else Some([BaseFile, ReleaseFile] + GpuFile(s.gpuMode) + SecretFile(s.secretMode))
      case VerifyMode =>
        if s.secretMode.Direct? then None
        else Some([BaseFile, ReleaseFile, VerifyFile] + GpuFile(s.gpuMode) + [SecretsFile])
      case CiMode =>
        if s.gpuMode.CpuOnly? && s.secretMode.Files?
        then Some([BaseFile, ReleaseFile, VerifyFile, CpuFile, SecretsFile]) else None
      case RollbackVerify =>
        if s.gpuMode.CpuOnly? && s.secretMode.Direct? then Some([BaseFile, ReleaseFile, VerifyFile, CpuFile]) else None
      case RollbackPre | RollbackPostMigration =>
        if s.secretMode.Files? || s.gpuMode.CpuOnly? then None else Some([BaseFile, ReleaseFile] + GpuFile(s.gpuMode))
      case OtherMode(_) => None
  }

  /** The roles of the environment files and whether they are sensitive. */
  function EnvRoles(s: Settings): Option<seq<(Role, bool)>> {
    match s.mode
    case VerifyMode | CiMode => Some([(SecretPaths, true), (ImagesLock, false), (ImageSelection, false)])
    case RollbackVerify =>
      Some([(BaseEnvironment, true), (ImagesLock, false), (RollbackDirect, true), (ImageSelection, false)])
    case RollbackPre =>
      Some([(BaseEnvironment, true), (ImagesLock, false), (RollbackDirect, true), (PreSelection, false)])
    case RollbackPostMigration =>
      Some([(BaseEnvironment, true), (ImagesLock, false), (RollbackDirect, true), (PostSelection, false)])
    case Production | RollbackWebOnly =>
      Some([(BaseEnvironment, true), (if s.secretMode.Files? then ProductionFiles else ProductionDirect, true),
            (ImagesLock, false), (ImageSelection, false)])
    case OtherMode(_) => None
  }

  const SECRETS: seq<Role> := [Secret("mysql_root_password"), Secret("mysql_app_password"), Secret("mysql_url"),
                               Secret("jwt_secret_key"), Secret("default_admin_password")]

  /** The files that an environment file of a role refers to, in order. */
  function ReferencedRoles(role: Role): seq<Role> {
    match role
    case SecretPaths => SECRETS + [Secret("admin_username"), SecretState]
    case ProductionFiles => SECRETS
    case _ => []
  }

  predicate IsCompose(role: Role) {
    role.BaseFile? || role.ReleaseFile? || role.VerifyFile? || role.GpuCompatFile? || role.CpuFile? || role.SecretsFile?
  }

  // ---------------------------------------------------------------- reading one input

  /** An input to read: the path as it was given, and how it is recorded. */
  datatype Want = Want(path: string, role: Role, sensitive: bool)

  function Key(sys: System, now: Moment, path: string): string {
    sys.normcase(now.abspath(path))
  }

  /** What is read at a path; an unreadable one is told apart by `TakeOne`. */
  function PayloadAt(sys: System, now: Moment, tree: Tree, path: string): Payload {
    if Key(sys, now, path) in tree then tree[Key(sys, now, path)].payload else Bytes([])
  }

  function Observe(sys: System, now: Moment, tree: Tree, w: Want): Record {
    Record(w.role, now.abspath(w.path), Sha256(PayloadAt(sys, now, tree, w.path)), w.sensitive)
  }

  function ObserveAll(sys: System, now: Moment, tree: Tree, ws: seq<Want>): seq<Record> {
    seq(|ws|, i requires 0 <= i < |ws| => Observe(sys, now, tree, ws[i]))
  }

  /** The files that an input refers to: as many as its role says, at the paths that its text gives. */
  function OwnReferences(sys: System, r: Record): seq<Want> {
    var roles := ReferencedRoles(r.role);
    seq(|roles|, i requires 0 <= i < |roles| => Want(sys.reference(r.path, r.sha256.of, roles[i]), roles[i], true))
  }

  function References(sys: System, records: seq<Record>): seq<Want> {
    if records == [] then []
    else References(sys, records[..|records| - 1]) + OwnReferences(sys, records[|records| - 1])
  }

  /** The exact-path rule of continuous integration, on the path as it was given. */
  predicate MatchesExactPath(sys: System, given: string, expected: string) {
    sys.normcase(given) == sys.normcase(if sys.isAbsolute(given) then expected else sys.relativeToRoot(expected))
  }

  /** The rules about the path of the manifest itself, as it was given. */
  predicate ManifestPathOk(sys: System, now: Moment, path: string, s: Settings) {
    now.manifestPathOk(path, s) && (s.mode.CiMode? ==> MatchesExactPath(sys, path, sys.manifestPath(s)))
  }

  /** The rules about one input. */
  predicate Accepted(sys: System, now: Moment, tree: Tree, s: Settings, w: Want) {
    SourceAccepted(sys, now, tree, s, w) &&
    (IsCompose(w.role) ==> sys.composeSourceOk(PayloadAt(sys, now, tree, w.path)))
  }

  predicate SourceAccepted(sys: System, now: Moment, tree: Tree, s: Settings, w: Want) {
    now.inputPathOk(now.abspath(w.path), w.role) &&
    now.sourceOk(now.abspath(w.path), PayloadAt(sys, now, tree, w.path), w.role, s) &&
    (s.mode.CiMode? && w.role.ImageSelection? ==> MatchesExactPath(sys, w.path, sys.selectionPath(s)))
  }

  predicate AllAccepted(sys: System, now: Moment, tree: Tree, s: Settings, ws: seq<Want>) {
    forall i :: 0 <= i < |ws| ==> Accepted(sys, now, tree, s, ws[i])
  }

  // ---------------------------------------------------------------- no file twice

  /** One more file, unless it cannot be read or its inode was taken before. */
  function TakeOne(sys: System, now: Moment, tree: Tree, w: Want, seen: Option<set<Inode>>): Option<set<Inode>> {
    var key := Key(sys, now, w.path);
    if seen.None? || key !in tree || tree[key].inode in seen.value then None
    else Some(seen.value + {tree[key].inode})
  }

  function TakeAll(sys: System, now: Moment, tree: Tree, ws: seq<Want>, seen: Option<set<Inode>>): Option<set<Inode>> {
    if ws == [] then seen
    else TakeOne(sys, now, tree, ws[|ws| - 1], TakeAll(sys, now, tree, ws[..|ws| - 1], seen))
  }

  /** Inputs, each followed by the files it refers to. */
  function TakeInputs(sys: System, now: Moment, tree: Tree, ws: seq<Want>,
                      seen: Option<set<Inode>>): Option<set<Inode>>
  {
    if ws == [] then seen
    else
      var w := ws[|ws| - 1];
      var before := TakeInputs(sys, now, tree, ws[..|ws| - 1], seen);
      TakeAll(sys, now, tree, OwnReferences(sys, Observe(sys, now, tree, w)), TakeOne(sys, now, tree, w, before))
  }

  /** The environment files by role. */
  function Payloads(records: seq<Record>): map<Role, Payload> {
    if records == [] then map[]
    else
      var r := records[|records| - 1];
      var before := Payloads(records[..|records| - 1]);
      if IsCompose(r.role) then before else before[r.role := r.sha256.of]
  }

  // ---------------------------------------------------------------- freezing

  function ComposeWants(sys: System, s: Settings): seq<Want> {
    if ComposeRoles(s).None? then []
    else
      var roles := ComposeRoles(s).value;
      seq(|roles|, i requires 0 <= i < |roles| => Want(sys.composePath(roles[i]), roles[i], false))
  }

  function EnvWants(s: Settings, paths: seq<string>): seq<Want> {
    if EnvRoles(s).None? || |EnvRoles(s).value| != |paths| then []
    else
      var roles := EnvRoles(s).value;
      seq(|roles|, i requires 0 <= i < |roles| => Want(paths[i], roles[i].0, roles[i].1))
  }

  function Bootstrap(sys: System): Want {
    Want(sys.bootstrapPath, DatabaseBootstrap, false)
  }

  /** The inodes of all inputs, in the order in which freezing reads them, if they are all distinct. */
  function FreezeInodes(sys: System, now: Moment, tree: Tree, s: Settings, paths: seq<string>): Option<set<Inode>> {
    FreezeOrder(sys, now, tree, ComposeWants(sys, s), EnvWants(s, paths))
  }

  predicate Freezable(sys: System, now: Moment, tree: Tree, s: Settings, paths: seq<string>) {
    sys.settingsOk(s) && ComposeRoles(s).Some? && EnvRoles(s).Some? && |paths| == |EnvRoles(s).value| &&
    AllAccepted(sys, now, tree, s, ComposeWants(sys, s)) && AllAccepted(sys, now, tree, s, EnvWants(s, paths)) &&
    FreezeInodes(sys, now, tree, s, paths).Some? &&
    now.crossRoleOk(Payloads(ObserveAll(sys, now, tree, EnvWants(s, paths))), s.secretMode)
  }

  function Frozen(sys: System, now: Moment, tree: Tree, s: Settings, paths: seq<string>): Manifest {
    var env := ObserveAll(sys, now, tree, EnvWants(s, paths));
    Manifest(s, ObserveAll(sys, now, tree, ComposeWants(sys, s)), env,
             ObserveAll(sys, now, tree, [Bootstrap(sys)] + References(sys, env)))
  }

  // ---------------------------------------------------------------- verifying

  function Again(r: Record): Want {
    Want(r.path, r.role, r.sensitive)
  }

  function AllAgain(records: seq<Record>): seq<Want> {
    seq(|records|, i requires 0 <= i < |records| => Again(records[i]))
  }

  function ExpectedReferences(roles: seq<(Role, bool)>): seq<Role> {
    if exists i :: 0 <= i < |roles| && roles[i].0.SecretPaths? then ReferencedRoles(SecretPaths)
    else if exists i :: 0 <= i < |roles| && roles[i].0.ProductionFiles? then ReferencedRoles(ProductionFiles)
    else []
  }

  /** The shape of a manifest, without looking at any file. */
  predicate Structured(sys: System, m: Manifest) {
    var s := m.settings;
    sys.settingsOk(s) && ComposeRoles(s).Some? && EnvRoles(s).Some? &&
    var compose, env := ComposeRoles(s).value, EnvRoles(s).value;
    var referenced := [DatabaseBootstrap] + ExpectedReferences(env);
    |m.composeFiles| == |compose| && |m.envFiles| == |env| && |m.referencedFiles| == |referenced| &&
    (forall i :: 0 <= i < |compose| ==> m.composeFiles[i].role == compose[i] && !m.composeFiles[i].sensitive) &&
    (forall i :: 0 <= i < |env| ==> (m.envFiles[i].role, m.envFiles[i].sensitive) == env[i]) &&
    (forall i :: 0 <= i < |referenced| ==>
      m.referencedFiles[i].role == referenced[i] && m.referencedFiles[i].sensitive == (i > 0))
  }

  predicate RecordsMatch(sys: System, observed: seq<Record>, expected: seq<Record>) {
    |observed| == |expected| &&
    forall i :: 0 <= i < |observed| ==>
      observed[i].role == expected[i].role && observed[i].sha256 == expected[i].sha256 &&
      observed[i].sensitive == expected[i].sensitive &&
      sys.normcase(observed[i].path) == sys.normcase(expected[i].path)
  }

  /** The inodes of all inputs, in the order in which verifying reads them. */
  function VerifyInodes(sys: System, now: Moment, tree: Tree, items: seq<Record>): Option<set<Inode>> {
    TakeInputs(sys, now, tree, AllAgain(items), TakeOne(sys, now, tree, Bootstrap(sys), Some({})))
  }

  predicate Verifies(sys: System, now: Moment, tree: Tree, m: Manifest) {
    Structured(sys, m) && FilesVerify(sys, now, tree, m)
  }

  predicate FilesVerify(sys: System, now: Moment, tree: Tree, m: Manifest) {
    var items := m.composeFiles + m.envFiles;
    AllAccepted(sys, now, tree, m.settings, AllAgain(items)) &&
    ObserveAll(sys, now, tree, AllAgain(items)) == items &&
    VerifyInodes(sys, now, tree, items).Some? &&
    now.crossRoleOk(Payloads(items), m.settings.secretMode) &&
    RecordsMatch(sys, ObserveAll(sys, now, tree, [Bootstrap(sys)] + References(sys, items)), m.referencedFiles)
  }

  // ---------------------------------------------------------------- the loops

  lemma {:induction false} ObservePrefix(sys: System, now: Moment, tree: Tree, ws: seq<Want>, k: nat)
    requires k < |ws|
    ensures ObserveAll(sys, now, tree, ws[..k + 1]) ==
      ObserveAll(sys, now, tree, ws[..k]) + [Observe(sys, now, tree, ws[k])]
    ensures ws[..k + 1][..k] == ws[..k] && ws[..k + 1][k] == ws[k]
  {
  }

  lemma {:induction false} AcceptedNext(sys: System, now: Moment, tree: Tree, s: Settings, ws: seq<Want>, k: nat)
    requires k < |ws|
    ensures AllAccepted(sys, now, tree, s, ws[..k + 1]) <==>
      AllAccepted(sys, now, tree, s, ws[..k]) && Accepted(sys, now, tree, s, ws[k])
    ensures !Accepted(sys, now, tree, s, ws[k]) ==> !AllAccepted(sys, now, tree, s, ws)
  {
    var longer := ws[..k + 1];
    assert forall i :: 0 <= i < k ==> longer[i] == ws[..k][i];
    assert longer[k] == ws[k];
  }

  /** Once a file cannot be taken, nothing after it makes up for it. */
  lemma {:induction false} TakeStops(sys: System, now: Moment, tree: Tree, ws: seq<Want>, k: nat,
                                     seen: Option<set<Inode>>)
    requires k <= |ws| && TakeAll(sys, now, tree, ws[..k], seen).None?
    ensures TakeAll(sys, now, tree, ws, seen).None?
  {
    if k == |ws| {
      assert ws[..k] == ws;
    } else {
      var init := ws[..|ws| - 1];
      assert init[..k] == ws[..k];
      TakeStops(sys, now, tree, init, k, seen);
    }
  }

  lemma {:induction false} TakeNothing(sys: System, now: Moment, tree: Tree, ws: seq<Want>)
    ensures TakeAll(sys, now, tree, ws, None).None?
  {
    assert ws[..0] == [];
    TakeStops(sys, now, tree, ws, 0, None);
  }

  lemma {:induction false} InputsStop(sys: System, now: Moment, tree: Tree, ws: seq<Want>, k: nat,
                                      seen: Option<set<Inode>>)
    requires k <= |ws| && TakeInputs(sys, now, tree, ws[..k], seen).None?
    ensures TakeInputs(sys, now, tree, ws, seen).None?
  {
    if k == |ws| {
      assert ws[..k] == ws;
    } else {
      var init, w := ws[..|ws| - 1], ws[|ws| - 1];
      assert init[..k] == ws[..k];
      InputsStop(sys, now, tree, init, k, seen);
      TakeNothing(sys, now, tree, OwnReferences(sys, Observe(sys, now, tree, w)));
    }
  }

  /** The loop over the files that one input refers to. */
  method CollectReferences(sys: System, now: Moment, tree: Tree, ws: seq<Want>, identities: set<Inode>)
      returns (records: seq<Record>, seen: Option<set<Inode>>)
    ensures seen == TakeAll(sys, now, tree, ws, Some(identities))
    ensures seen.Some? ==> records == ObserveAll(sys, now, tree, ws)
  {
    records := [];
    var taken := identities;
    for k := 0 to |ws|
      invariant TakeAll(sys, now, tree, ws[..k], Some(identities)) == Some(taken)
      invariant records == ObserveAll(sys, now, tree, ws[..k])
    {
      ObservePrefix(sys, now, tree, ws, k);
      var key := Key(sys, now, ws[k].path);
      if key !in tree || tree[key].inode in taken {
        TakeStops(sys, now, tree, ws, k + 1, Some(identities));
        return [], None;
      }
      records := records + [Observe(sys, now, tree, ws[k])];
      taken := taken + {tree[key].inode};
    }
    assert ws[..|ws|] == ws;
    return records, Some(taken);
  }

  /** The loop over the Compose files of a deployment. */
  method CollectCompose(sys: System, now: Moment, tree: Tree, s: Settings, ws: seq<Want>)
      returns (records: seq<Record>, seen: Option<set<Inode>>)
    ensures seen == if AllAccepted(sys, now, tree, s, ws) then TakeAll(sys, now, tree, ws, Some({})) else None
    ensures seen.Some? ==> records == ObserveAll(sys, now, tree, ws)
  {
    records := [];
    var taken: set<Inode> := {};
    for k := 0 to |ws|
      invariant TakeAll(sys, now, tree, ws[..k], Some({})) == Some(taken)
      invariant records == ObserveAll(sys, now, tree, ws[..k])
      invariant AllAccepted(sys, now, tree, s, ws[..k])
    {
      ObservePrefix(sys, now, tree, ws, k);
      var key := Key(sys, now, ws[k].path);
      if key !in tree || tree[key].inode in taken {
        TakeStops(sys, now, tree, ws, k + 1, Some({}));
        return [], None;
      }
      AcceptedNext(sys, now, tree, s, ws, k);
      if !Accepted(sys, now, tree, s, ws[k]) {
        return [], None;
      }
      records := records + [Observe(sys, now, tree, ws[k])];
      taken := taken + {tree[key].inode};
    }
    assert ws[..|ws|] == ws;
    return records, Some(taken);
  }

  lemma {:induction false} InputsPrefix(sys: System, now: Moment, tree: Tree, ws: seq<Want>, k: nat,
                                        seen: Option<set<Inode>>)
    requires k < |ws|
    ensures var r := Observe(sys, now, tree, ws[k]);
      && TakeInputs(sys, now, tree, ws[..k + 1], seen) ==
           TakeAll(sys, now, tree, OwnReferences(sys, r),
             TakeOne(sys, now, tree, ws[k], TakeInputs(sys, now, tree, ws[..k], seen)))
      && References(sys, ObserveAll(sys, now, tree, ws[..k + 1])) ==
           References(sys, ObserveAll(sys, now, tree, ws[..k])) + OwnReferences(sys, r)
      && Payloads(ObserveAll(sys, now, tree, ws[..k + 1])) ==
           var before := Payloads(ObserveAll(sys, now, tree, ws[..k]));
           if IsCompose(r.role) then before else before[r.role := r.sha256.of]
  {
    ObservePrefix(sys, now, tree, ws, k);
    var records := ObserveAll(sys, now, tree, ws[..k + 1]);
    assert records[..|records| - 1] == ObserveAll(sys, now, tree, ws[..k]);
  }

  lemma {:induction false} ObserveAppend(sys: System, now: Moment, tree: Tree, a: seq<Want>, b: seq<Want>)
    ensures ObserveAll(sys, now, tree, a + b) == ObserveAll(sys, now, tree, a) + ObserveAll(sys, now, tree, b)
  {
  }

  /** What the loop over inputs has gathered. */
  datatype Progress = Progress(records: seq<Record>, references: seq<Record>, payloads: map<Role, Payload>,
                               taken: set<Inode>)

  /** Where the loop stands after the first inputs. */
  ghost predicate Collected(sys: System, now: Moment, tree: Tree, ws: seq<Want>, seen: set<Inode>, p: Progress) {
    TakeInputs(sys, now, tree, ws, Some(seen)) == Some(p.taken) && p.records == ObserveAll(sys, now, tree, ws) &&
    p.references == ObserveAll(sys, now, tree, References(sys, p.records)) && p.payloads == Payloads(p.records)
  }

  lemma {:induction false} NothingCollected(sys: System, now: Moment, tree: Tree, ws: seq<Want>, seen: set<Inode>)
    ensures Collected(sys, now, tree, ws[..0], seen, Progress([], [], map[], seen))
  {
  }

  lemma {:induction false} CollectedNext(sys: System, now: Moment, tree: Tree, ws: seq<Want>, k: nat,
                                         seen: set<Inode>, p: Progress)
    requires k < |ws| && Collected(sys, now, tree, ws[..k], seen, p)
    ensures var r := Observe(sys, now, tree, ws[k]);
      var own := OwnReferences(sys, r);
      var next := TakeAll(sys, now, tree, own, TakeOne(sys, now, tree, ws[k], Some(p.taken)));
      if next.Some?
      then Collected(sys, now, tree, ws[..k + 1], seen,
                     Progress(p.records + [r], p.references + ObserveAll(sys, now, tree, own),
                              if IsCompose(r.role) then p.payloads else p.payloads[r.role := r.sha256.of], next.value))
      else TakeInputs(sys, now, tree, ws, Some(seen)).None?
  {
    var r := Observe(sys, now, tree, ws[k]);
    InputsPrefix(sys, now, tree, ws, k, Some(seen));
    ObservePrefix(sys, now, tree, ws, k);
    ObserveAppend(sys, now, tree, References(sys, p.records), OwnReferences(sys, r));
    if TakeInputs(sys, now, tree, ws[..k + 1], Some(seen)).None? {
      InputsStop(sys, now, tree, ws, k + 1, Some(seen));
    }
  }

  /** One input and the files it refers to. */
  method CollectOne(sys: System, now: Moment, tree: Tree, w: Want, taken: set<Inode>)
      returns (own: seq<Record>, next: Option<set<Inode>>)
    ensures var refs := OwnReferences(sys, Observe(sys, now, tree, w));
      && next == TakeAll(sys, now, tree, refs, TakeOne(sys, now, tree, w, Some(taken)))
      && (next.Some? ==> own == ObserveAll(sys, now, tree, refs))
  {
    var key := Key(sys, now, w.path);
    var refs := OwnReferences(sys, Observe(sys, now, tree, w));
    if key !in tree || tree[key].inode in taken {
      TakeNothing(sys, now, tree, refs);
      return [], None;
    }
    own, next := CollectReferences(sys, now, tree, refs, taken + {tree[key].inode});
  }

  /** One turn of the loop: the next input is added to what was gathered. `keep` tells whether its
      text goes to the environment files. */
  method CollectNext(sys: System, now: Moment, tree: Tree, ghost ws: seq<Want>, ghost k: nat, w: Want, keep: bool,
                     ghost seen: set<Inode>, p: Progress) returns (next: Option<Progress>)
    requires k < |ws| && w == ws[k] && keep == !IsCompose(w.role) && Collected(sys, now, tree, ws[..k], seen, p)
    ensures next.Some? ==> Collected(sys, now, tree, ws[..k + 1], seen, next.value)
    ensures next.None? ==> TakeInputs(sys, now, tree, ws, Some(seen)).None?
  {
    CollectedNext(sys, now, tree, ws, k, seen, p);
    var record := Observe(sys, now, tree, w);
    var own, taken := CollectOne(sys, now, tree, w, p.taken);
    if taken.None? {
      return None;
    }
    return Some(Progress(p.records + [record], p.references + own,
                         if keep then p.payloads[record.role := record.sha256.of] else p.payloads, taken.value));
  }

  /** The loop over the environment files of a deployment. */
  method CollectEnvironment(sys: System, now: Moment, tree: Tree, s: Settings, ws: seq<Want>, identities: set<Inode>)
      returns (gathered: Option<Progress>)
    requires forall i :: 0 <= i < |ws| ==> !IsCompose(ws[i].role)
    ensures gathered.Some? <==>
      AllAccepted(sys, now, tree, s, ws) && TakeInputs(sys, now, tree, ws, Some(identities)).Some?
    ensures gathered.Some? ==> Collected(sys, now, tree, ws, identities, gathered.value)
  {
    var p := Progress([], [], map[], identities);
    NothingCollected(sys, now, tree, ws, identities);
    for k := 0 to |ws|
      invariant Collected(sys, now, tree, ws[..k], identities, p)
      invariant AllAccepted(sys, now, tree, s, ws[..k])
    {
      AcceptedNext(sys, now, tree, s, ws, k);
      if !Accepted(sys, now, tree, s, ws[k]) {
        return None;
      }
      var next := CollectNext(sys, now, tree, ws, k, ws[k], true, identities, p);
      if next.None? {
        return None;
      }
      p := next.value;
    }
    assert ws[..|ws|] == ws;
    return Some(p);
  }

  /** The inodes of Compose files, the bootstrap file and environment files, read in this order. */
  function FreezeOrder(sys: System, now: Moment, tree: Tree, compose: seq<Want>, env: seq<Want>): Option<set<Inode>> {
    TakeInputs(sys, now, tree, env, TakeOne(sys, now, tree, Bootstrap(sys), TakeAll(sys, now, tree, compose, Some({}))))
  }

  method CollectAll(sys: System, now: Moment, tree: Tree, s: Settings, compose: seq<Want>, env: seq<Want>)
      returns (m: Manifest, payloads: map<Role, Payload>, seen: Option<set<Inode>>)
    requires forall i :: 0 <= i < |env| ==> !IsCompose(env[i].role)
    ensures seen ==
      if AllAccepted(sys, now, tree, s, compose) && AllAccepted(sys, now, tree, s, env)
      then FreezeOrder(sys, now, tree, compose, env) else None
    ensures seen.Some? ==>
      var records := ObserveAll(sys, now, tree, env);
      && m == Manifest(s, ObserveAll(sys, now, tree, compose), records,
                       ObserveAll(sys, now, tree, [Bootstrap(sys)] + References(sys, records)))
      && payloads == Payloads(records)
  {
    var first, taken := CollectCompose(sys, now, tree, s, compose);
    ghost var all := TakeOne(sys, now, tree, Bootstrap(sys), TakeAll(sys, now, tree, compose, Some({})));
    m, payloads := Manifest(s, [], [], []), map[];
    var key := Key(sys, now, sys.bootstrapPath);
    if taken.None? || key !in tree || tree[key].inode in taken.value {
      if AllAccepted(sys, now, tree, s, compose) {
        assert env[..0] == [];
        InputsStop(sys, now, tree, env, 0, all);
      }
      return m, payloads, None;
    }
    var gathered := CollectEnvironment(sys, now, tree, s, env, taken.value + {tree[key].inode});
    if gathered.None? {
      return m, payloads, None;
    }
    var p := gathered.value;
    ObserveAppend(sys, now, tree, [Bootstrap(sys)], References(sys, p.records));
    m := Manifest(s, first, p.records, [Observe(sys, now, tree, Bootstrap(sys))] + p.references);
    return m, p.payloads, Some(p.taken);
  }

  lemma {:induction false} EnvIsNotCompose(s: Settings, paths: seq<string>)
    ensures forall i :: 0 <= i < |EnvWants(s, paths)| ==> !IsCompose(EnvWants(s, paths)[i].role)
  {
  }

  /** Everything that freezing does before it publishes the manifest. */
  method FreezeInputs(sys: System, now: Moment, tree: Tree, s: Settings, paths: seq<string>)
      returns (m: Option<Manifest>, identities: set<Inode>)
    ensures m == if Freezable(sys, now, tree, s, paths) then Some(Frozen(sys, now, tree, s, paths)) else None
    ensures m.Some? ==> Some(identities) == FreezeInodes(sys, now, tree, s, paths)
  {
    if !sys.settingsOk(s) || ComposeRoles(s).None? || EnvRoles(s).None? || |paths| != |EnvRoles(s).value| {
      return None, {};
    }
    EnvIsNotCompose(s, paths);
    var frozen, payloads, seen := CollectAll(sys, now, tree, s, ComposeWants(sys, s), EnvWants(s, paths));
    if seen.None? || !now.crossRoleOk(payloads, s.secretMode) {
      return None, {};
    }
    return Some(frozen), seen.value;
  }

  predicate Kinds(m: Manifest) {
    (forall i :: 0 <= i < |m.composeFiles| ==> IsCompose(m.composeFiles[i].role)) &&
    (forall i :: 0 <= i < |m.envFiles| ==> !IsCompose(m.envFiles[i].role))
  }

  lemma {:induction false} ComposeRolesAreCompose(s: Settings)
    requires ComposeRoles(s).Some?
    ensures forall i :: 0 <= i < |ComposeRoles(s).value| ==> IsCompose(ComposeRoles(s).value[i])
  {
  }

  lemma {:induction false} StructuredKinds(sys: System, m: Manifest)
    requires Structured(sys, m)
    ensures Kinds(m)
  {
    ComposeRolesAreCompose(m.settings);
    var compose, env := ComposeRoles(m.settings).value, EnvRoles(m.settings).value;
    forall i | 0 <= i < |m.composeFiles| ensures IsCompose(m.composeFiles[i].role) {
      assert m.composeFiles[i].role == compose[i];
    }
    forall i | 0 <= i < |m.envFiles| ensures !IsCompose(m.envFiles[i].role) {
      assert m.envFiles[i].role == env[i].0;
    }
  }

  /** A record is among the Compose files exactly when its role says so. */
  lemma {:induction false} RecordKind(m: Manifest, r: Record)
    requires Kinds(m) && r in m.composeFiles + m.envFiles
    ensures r in m.composeFiles <==> IsCompose(r.role)
    ensures r in m.envFiles <==> !IsCompose(r.role)
  {
  }

  /** The checks of one record, before its file and what it refers to are taken. */
  method CheckItem(sys: System, now: Moment, tree: Tree, m: Manifest, item: Record) returns (ok: bool)
    requires Kinds(m) && item in m.composeFiles + m.envFiles
    ensures ok <==> Accepted(sys, now, tree, m.settings, Again(item)) && Observe(sys, now, tree, Again(item)) == item
  {
    var w := Again(item);
    RecordKind(m, item);
    if !SourceAccepted(sys, now, tree, m.settings, w) {
      return false;
    }
    if item in m.composeFiles && !sys.composeSourceOk(PayloadAt(sys, now, tree, w.path)) {
      return false;
    }
    return Observe(sys, now, tree, w) == item;
  }

  lemma {:induction false} ObservedAt(sys: System, now: Moment, tree: Tree, items: seq<Record>, k: nat)
    requires k < |items|
    ensures ObserveAll(sys, now, tree, AllAgain(items))[k] == Observe(sys, now, tree, Again(items[k]))
    ensures ObserveAll(sys, now, tree, AllAgain(items)) == items ==>
      Observe(sys, now, tree, Again(items[k])) == items[k]
  {
  }

  lemma {:induction false} ObservedNext(sys: System, now: Moment, tree: Tree, items: seq<Record>, k: nat)
    requires k < |items| && ObserveAll(sys, now, tree, AllAgain(items)[..k]) == items[..k]
    requires Observe(sys, now, tree, Again(items[k])) == items[k]
    ensures ObserveAll(sys, now, tree, AllAgain(items)[..k + 1]) == items[..k + 1]
  {
    ObservePrefix(sys, now, tree, AllAgain(items), k);
  }

  /** The loop over the Compose and environment files of a manifest. */
  method VerifyItems(sys: System, now: Moment, tree: Tree, m: Manifest, identities: set<Inode>)
      returns (gathered: Option<Progress>)
    requires Kinds(m)
    ensures var items := m.composeFiles + m.envFiles;
      && (gathered.Some? <==>
           AllAccepted(sys, now, tree, m.settings, AllAgain(items)) &&
           TakeInputs(sys, now, tree, AllAgain(items), Some(identities)).Some? &&
           ObserveAll(sys, now, tree, AllAgain(items)) == items)
      && (gathered.Some? ==> Collected(sys, now, tree, AllAgain(items), identities, gathered.value))
  {
    var items := m.composeFiles + m.envFiles;
    ghost var ws := AllAgain(items);
    var p := Progress([], [], map[], identities);
    NothingCollected(sys, now, tree, ws, identities);
    for k := 0 to |items|
      invariant Collected(sys, now, tree, ws[..k], identities, p)
      invariant ObserveAll(sys, now, tree, ws[..k]) == items[..k]
      invariant AllAccepted(sys, now, tree, m.settings, ws[..k])
    {
      AcceptedNext(sys, now, tree, m.settings, ws, k);
      var ok := CheckItem(sys, now, tree, m, items[k]);
      if !ok {
        ObservedAt(sys, now, tree, items, k);
        return None;
      }
      RecordKind(m, items[k]);
      ObservedNext(sys, now, tree, items, k);
      var next := CollectNext(sys, now, tree, ws, k, Again(items[k]), items[k] in m.envFiles, identities, p);
      if next.None? {
        return None;
      }
      p := next.value;
    }
    assert ws[..|ws|] == ws && items[..|items|] == items;
    return Some(p);
  }

  /** What verifying a manifest file comes to. */
  function Verified(sys: System, now: Moment, tree: Tree, path: string): Option<Manifest> {
    var key := Key(sys, now, path);
    if key !in tree || !tree[key].payload.ManifestJson? then None
    else
      var m := tree[key].payload.manifest;
      if ManifestPathOk(sys, now, path, m.settings) && Verifies(sys, now, tree, m) then Some(m) else None
  }

  /** The verifying program. */
  method VerifyManifestInputs(sys: System, now: Moment, tree: Tree, path: string) returns (r: Option<Manifest>)
    ensures r == Verified(sys, now, tree, path)
  {
    var key := Key(sys, now, path);
    if key !in tree || !tree[key].payload.ManifestJson? {
      return None;
    }
    var m := tree[key].payload.manifest;
    if !Structured(sys, m) || !ManifestPathOk(sys, now, path, m.settings) {
      return None;
    }
    StructuredKinds(sys, m);
    r := VerifyManifest(sys, now, tree, m);
  }

  lemma {:induction false} FirstTaken(sys: System, now: Moment, tree: Tree, w: Want)
    requires Key(sys, now, w.path) in tree
    ensures TakeOne(sys, now, tree, w, Some({})) == Some({tree[Key(sys, now, w.path)].inode})
  {
    var none: set<Inode>, inode := {}, tree[Key(sys, now, w.path)].inode;
    assert none + {inode} == {inode};
  }

  /** What is left to decide when all items are gathered. */
  lemma {:induction false} Gathered(sys: System, now: Moment, tree: Tree, m: Manifest, first: set<Inode>, p: Progress)
    requires Some(first) == TakeOne(sys, now, tree, Bootstrap(sys), Some({}))
    requires Collected(sys, now, tree, AllAgain(m.composeFiles + m.envFiles), first, p)
    requires AllAccepted(sys, now, tree, m.settings, AllAgain(m.composeFiles + m.envFiles))
    requires ObserveAll(sys, now, tree, AllAgain(m.composeFiles + m.envFiles)) == m.composeFiles + m.envFiles
    ensures FilesVerify(sys, now, tree, m) <==>
      now.crossRoleOk(p.payloads, m.settings.secretMode) &&
      RecordsMatch(sys, [Observe(sys, now, tree, Bootstrap(sys))] + p.references, m.referencedFiles)
  {
    ObserveAppend(sys, now, tree, [Bootstrap(sys)], References(sys, p.records));
    assert ObserveAll(sys, now, tree, [Bootstrap(sys)]) == [Observe(sys, now, tree, Bootstrap(sys))];
  }

  method VerifyManifest(sys: System, now: Moment, tree: Tree, m: Manifest) returns (r: Option<Manifest>)
    requires Kinds(m)
    ensures r == if FilesVerify(sys, now, tree, m) then Some(m) else None
  {
    var bootstrap := Key(sys, now, sys.bootstrapPath);
    if bootstrap !in tree {
      ghost var ws := AllAgain(m.composeFiles + m.envFiles);
      assert ws[..0] == [];
      InputsStop(sys, now, tree, ws, 0, None);
      return None;
    }
    FirstTaken(sys, now, tree, Bootstrap(sys));
    var gathered := VerifyItems(sys, now, tree, m, {tree[bootstrap].inode});
    if gathered.None? {
      return None;
    }
    var p := gathered.value;
    Gathered(sys, now, tree, m, {tree[bootstrap].inode}, p);
    var cross := now.crossRoleOk(p.payloads, m.settings.secretMode);
    var matching := RecordsMatch(sys, [Observe(sys, now, tree, Bootstrap(sys))] + p.references, m.referencedFiles);
    return if cross && matching then Some(m) else None;
  }
}
