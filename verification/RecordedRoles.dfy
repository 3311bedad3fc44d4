/** What a manifest records, role by role: which files a deployment of given settings has, which of
    them are sensitive, and in which order the Compose files lie over each other. */
module RecordedRoles {
  import opened Options
  import opened Documents
  import opened FrozenManifest

  predicate PathMode(s: Settings) {
    s.mode.VerifyMode? || s.mode.CiMode?
  }

  predicate LiveMode(s: Settings) {
    s.mode.Production? || s.mode.RollbackWebOnly?
  }

  predicate SharedSecret(name: string) {
    || name == "mysql_root_password" || name == "mysql_app_password" || name == "mysql_url"
    || name == "jwt_secret_key" || name == "default_admin_password"
  }

  /** A deployment has a file of this role. */
  predicate Uses(s: Settings, role: Role) {
    match role
    case BaseFile => true
    case ReleaseFile => true
    case VerifyFile => PathMode(s) || s.mode.RollbackVerify?
    case GpuCompatFile => s.gpuMode.Compat?
    case CpuFile => s.gpuMode.CpuOnly?
    case SecretsFile => s.secretMode.Files?
    case ImagesLock => true
    case BaseEnvironment => !PathMode(s)
    case SecretPaths => PathMode(s)
    case ProductionFiles => LiveMode(s) && s.secretMode.Files?
    case ProductionDirect => LiveMode(s) && s.secretMode.Direct?
    case RollbackDirect => !PathMode(s) && !LiveMode(s)
    case ImageSelection => !s.mode.RollbackPre? && !s.mode.RollbackPostMigration?
    case PreSelection => s.mode.RollbackPre?
    case PostSelection => s.mode.RollbackPostMigration?
    case DatabaseBootstrap => true
    case Secret(name) => s.secretMode.Files? && (SharedSecret(name) || (PathMode(s) && name == "admin_username"))
    case SecretState => PathMode(s)
    case OtherRole(_) => false
  }

  /** Files that hold secrets, or say where they are. */
  predicate Sensitive(role: Role) {
    || role.BaseEnvironment? || role.SecretPaths? || role.ProductionFiles? || role.ProductionDirect?
    || role.RollbackDirect? || role.Secret? || role.SecretState?
  }

  /** A Compose file overrides those of lower layers. */
  function Layer(role: Role): int {
    match role
    case BaseFile => 0
    case ReleaseFile => 1
    case VerifyFile => 2
    case GpuCompatFile | CpuFile => 3
    case SecretsFile => 4
    case _ => -1
  }

  /** The roles of records, with whether they are sensitive. */
  predicate Has(roles: seq<(Role, bool)>, role: Role) {
    exists i :: 0 <= i < |roles| && roles[i].0 == role
  }

  predicate Rises(roles: seq<Role>) {
    forall i, j :: 0 <= i < j < |roles| ==> Layer(roles[i]) < Layer(roles[j])
  }

  // ---------------------------------------------------------------- the three lists

  lemma {:induction false} ComposeUses(s: Settings, role: Role)
    requires ComposeRoles(s).Some?
    ensures role in ComposeRoles(s).value <==> IsCompose(role) && Uses(s, role)
  {
  }

  predicate Between(roles: seq<Role>, low: int, high: int) {
    Rises(roles) && forall i :: 0 <= i < |roles| ==> low <= Layer(roles[i]) < high
  }

  lemma {:induction false} BetweenAppend(a: seq<Role>, b: seq<Role>, low: int, middle: int, high: int)
    requires Between(a, low, middle) && Between(b, middle, high) && low <= middle <= high
    ensures Between(a + b, low, high)
  {
    var roles := a + b;
    assert forall i :: 0 <= i < |a| ==> roles[i] == a[i];
    assert forall i :: |a| <= i < |roles| ==> roles[i] == b[i - |a|];
  }

  function Layers(s: Settings): seq<Role> {
    [BaseFile, ReleaseFile] + ((if Uses(s, VerifyFile) then [VerifyFile] else []) +
      (GpuFile(s.gpuMode) + SecretFile(s.secretMode)))
  }

  lemma {:induction false} ComposeIsLayers(s: Settings)
    requires ComposeRoles(s).Some?
    ensures ComposeRoles(s).value == Layers(s)
  {
  }

  /** The Compose files lie in layers. */
  lemma {:induction false} ComposeRises(s: Settings)
    requires ComposeRoles(s).Some?
    ensures Rises(ComposeRoles(s).value)
  {
    var verify := if Uses(s, VerifyFile) then [VerifyFile] else [];
    var upper := GpuFile(s.gpuMode) + SecretFile(s.secretMode);
    BetweenAppend(GpuFile(s.gpuMode), SecretFile(s.secretMode), 3, 4, 5);
    BetweenAppend(verify, upper, 2, 3, 5);
    BetweenAppend([BaseFile, ReleaseFile], verify + upper, 0, 2, 5);
    ComposeIsLayers(s);
  }

  predicate InEnvironment(role: Role) {
    !IsCompose(role) && !role.DatabaseBootstrap? && !role.Secret? && !role.SecretState?
  }

  lemma {:induction false} HasOneOf(roles: seq<(Role, bool)>, role: Role)
    requires |roles| in {3, 4}
    ensures Has(roles, role) <==>
      roles[0].0 == role || roles[1].0 == role || roles[2].0 == role || (|roles| == 4 && roles[3].0 == role)
  {
  }

  lemma {:induction false} EnvUses(s: Settings, role: Role)
    requires ComposeRoles(s).Some? && EnvRoles(s).Some?
    ensures Has(EnvRoles(s).value, role) <==> InEnvironment(role) && Uses(s, role)
  {
    HasOneOf(EnvRoles(s).value, role);
    assert PathMode(s) || LiveMode(s) || s.mode.RollbackVerify? || s.mode.RollbackPre? || s.mode.RollbackPostMigration?;
  }

  lemma {:induction false} EnvDistinct(s: Settings)
    requires EnvRoles(s).Some?
    ensures var env := EnvRoles(s).value;
      && (forall i, j :: 0 <= i < j < |env| ==> env[i].0 != env[j].0)
      && forall i :: 0 <= i < |env| ==> env[i].1 == Sensitive(env[i].0)
  {
    assert |EnvRoles(s).value| in {3, 4};
  }

  predicate Distinct(roles: seq<Role>) {
    forall i, j :: 0 <= i < j < |roles| ==> roles[i] != roles[j]
  }

  lemma {:induction false} SecretsDiffer()
    ensures Distinct(ReferencedRoles(SecretPaths)) && Distinct(ReferencedRoles(ProductionFiles))
  {
    var roles := ReferencedRoles(SecretPaths);
    assert ReferencedRoles(ProductionFiles) == roles[..5];
    forall i, j | 0 <= i < j < |roles| ensures roles[i] != roles[j] {
      if roles[j].Secret? {
        var a, b := roles[i].name, roles[j].name;
        assert |a| != |b| || a[0] != b[0];
      }
    }
  }

  lemma {:induction false} Expected(s: Settings)
    requires ComposeRoles(s).Some? && EnvRoles(s).Some?
    ensures ExpectedReferences(EnvRoles(s).value) ==
      if PathMode(s) then ReferencedRoles(SecretPaths)
      else if LiveMode(s) && s.secretMode.Files? then ReferencedRoles(ProductionFiles)
      else []
  {
    EnvUses(s, SecretPaths);
    EnvUses(s, ProductionFiles);
  }

  lemma {:induction false} ReferencesAre(role: Role)
    ensures role in ReferencedRoles(ProductionFiles) <==> role.Secret? && SharedSecret(role.name)
    ensures role in ReferencedRoles(SecretPaths) <==>
      role.SecretState? || (role.Secret? && (SharedSecret(role.name) || role.name == "admin_username"))
  {
  }

  lemma {:induction false} SecretUses(s: Settings, role: Role)
    requires ComposeRoles(s).Some? && EnvRoles(s).Some?
    ensures role in ExpectedReferences(EnvRoles(s).value) <==> (role.Secret? || role.SecretState?) && Uses(s, role)
  {
    Expected(s);
    ReferencesAre(role);
    assert PathMode(s) ==> s.secretMode.Files?;
  }

  // ---------------------------------------------------------------- all records

  function AllRecords(m: Manifest): seq<Record> {
    m.composeFiles + m.envFiles + m.referencedFiles
  }

  predicate HasRole(records: seq<Record>, role: Role) {
    exists i :: 0 <= i < |records| && records[i].role == role
  }

  /** The three lists of a manifest. */
  datatype Part = Composed | Environment | Referenced

  function PartOf(role: Role): Part {
    if IsCompose(role) then Composed else if InEnvironment(role) then Environment else Referenced
  }

  /** The records have every role of some parts that the deployment uses, each once, and no other. */
  ghost predicate OnceEach(s: Settings, records: seq<Record>, parts: set<Part>) {
    && (forall role :: HasRole(records, role) <==> PartOf(role) in parts && Uses(s, role))
    && (forall i, j :: 0 <= i < j < |records| ==> records[i].role != records[j].role)
    && forall i :: 0 <= i < |records| ==> records[i].sensitive == Sensitive(records[i].role)
  }

  lemma {:induction false} OnceTogether(s: Settings, a: seq<Record>, b: seq<Record>, of: set<Part>, more: set<Part>)
    requires OnceEach(s, a, of) && OnceEach(s, b, more) && of !! more
    ensures OnceEach(s, a + b, of + more)
  {
    var records := a + b;
    assert forall i :: 0 <= i < |a| ==> HasRole(a, records[i].role);
    assert forall i :: |a| <= i < |records| ==> records[i] == b[i - |a|] && HasRole(b, records[i].role);
    forall role ensures HasRole(records, role) <==> HasRole(a, role) || HasRole(b, role) {
      if HasRole(a, role) {
        var i :| 0 <= i < |a| && a[i].role == role;
        assert records[i].role == role;
      }
      if HasRole(b, role) {
        var i :| 0 <= i < |b| && b[i].role == role;
        assert records[|a| + i].role == role;
      }
    }
  }

  lemma {:induction false} ComposeOnce(sys: System, m: Manifest)
    requires Structured(sys, m)
    ensures OnceEach(m.settings, m.composeFiles, {Composed})
    ensures forall i, j :: 0 <= i < j < |m.composeFiles| ==>
      Layer(m.composeFiles[i].role) < Layer(m.composeFiles[j].role)
  {
    var roles := ComposeRoles(m.settings).value;
    ComposeRises(m.settings);
    forall role ensures HasRole(m.composeFiles, role) <==> PartOf(role).Composed? && Uses(m.settings, role) {
      ComposeUses(m.settings, role);
      if role in roles {
        var i :| 0 <= i < |roles| && roles[i] == role;
        assert m.composeFiles[i].role == role;
      }
    }
    assert forall i :: 0 <= i < |roles| ==> HasRole(m.composeFiles, m.composeFiles[i].role);
  }

  lemma {:induction false} EnvOnce(sys: System, m: Manifest)
    requires Structured(sys, m)
    ensures OnceEach(m.settings, m.envFiles, {Environment})
  {
    var roles := EnvRoles(m.settings).value;
    EnvDistinct(m.settings);
    forall role ensures HasRole(m.envFiles, role) <==> PartOf(role).Environment? && Uses(m.settings, role) {
      EnvUses(m.settings, role);
      assert HasRole(m.envFiles, role) <==> Has(roles, role) by {
        if Has(roles, role) {
          var i :| 0 <= i < |roles| && roles[i].0 == role;
          assert m.envFiles[i].role == role;
        }
      }
    }
  }

  function AllReferenced(s: Settings): seq<Role>
    requires EnvRoles(s).Some?
  {
    [DatabaseBootstrap] + ExpectedReferences(EnvRoles(s).value)
  }

  lemma {:induction false} ReferencedUses(s: Settings, role: Role)
    requires ComposeRoles(s).Some? && EnvRoles(s).Some?
    ensures role in AllReferenced(s) <==> PartOf(role).Referenced? && Uses(s, role)
  {
    SecretUses(s, role);
  }

  lemma {:induction false} ReferencedDistinct(s: Settings)
    requires ComposeRoles(s).Some? && EnvRoles(s).Some?
    ensures Distinct(AllReferenced(s))
    ensures forall i :: 1 <= i < |AllReferenced(s)| ==> AllReferenced(s)[i].Secret? || AllReferenced(s)[i].SecretState?
  {
    var secrets := ExpectedReferences(EnvRoles(s).value);
    Expected(s);
    SecretsDiffer();
    SecretUses(s, DatabaseBootstrap);
    forall i | 0 <= i < |secrets| ensures secrets[i].Secret? || secrets[i].SecretState? {
      SecretUses(s, secrets[i]);
    }
  }

  lemma {:induction false} ReferencedOnce(sys: System, m: Manifest)
    requires Structured(sys, m)
    ensures OnceEach(m.settings, m.referencedFiles, {Referenced})
  {
    var roles := AllReferenced(m.settings);
    ReferencedDistinct(m.settings);
    forall role ensures HasRole(m.referencedFiles, role) <==> PartOf(role).Referenced? && Uses(m.settings, role) {
      ReferencedUses(m.settings, role);
      if role in roles {
        var i :| 0 <= i < |roles| && roles[i] == role;
        assert m.referencedFiles[i].role == role;
      }
    }
  }

  /** A manifest has exactly one record of every role that a deployment with its settings uses, and no
      other; exactly the secret ones are sensitive; and the Compose files lie in layers. */
  lemma {:induction false} EveryRoleOnce(sys: System, m: Manifest)
    requires Structured(sys, m)
    ensures forall role :: HasRole(AllRecords(m), role) <==> Uses(m.settings, role)
    ensures forall i, j :: 0 <= i < j < |AllRecords(m)| ==> AllRecords(m)[i].role != AllRecords(m)[j].role
    ensures forall i :: 0 <= i < |AllRecords(m)| ==> AllRecords(m)[i].sensitive == Sensitive(AllRecords(m)[i].role)
    ensures forall i, j :: 0 <= i < j < |m.composeFiles| ==>
      Layer(m.composeFiles[i].role) < Layer(m.composeFiles[j].role)
  {
    ComposeOnce(sys, m);
    EnvOnce(sys, m);
    ReferencedOnce(sys, m);
    OnceTogether(m.settings, m.composeFiles, m.envFiles, {Composed}, {Environment});
    OnceTogether(m.settings, m.composeFiles + m.envFiles, m.referencedFiles, {Composed} + {Environment}, {Referenced});
  }
}
