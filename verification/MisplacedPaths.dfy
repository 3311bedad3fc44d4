/** Continuous-integration manifests that freeze and do not verify. The repository is at `/srv`; the
    command runs in `/srv/.runtime/work` and is given a path below `.runtime`, the text that the rule
    asks for, which leads to another file below `/srv/.runtime` there. In one case it is the path of
    the selection, in the other that of the manifest. */
module MisplacedPaths {
  import opened Options
  import opened Documents
  import opened FrozenManifest
  import opened FreezeVerify
  import opened OtherMoments
  import opened ManifestRoundTrip
  import opened FilesInOrder

  const ROOT := "/srv"
  const DOCKER := "/srv/docker"
  const RUNTIME := "/srv/.runtime"
  const WORK := "/srv/.runtime/work"
  const RUN_ID := "0123456789abcdef0123456789abcdef"
  const BUNDLE := "/srv/.runtime/ci-" + RUN_ID
  const SELECTION := "ci-release-" + RUN_ID + ".env"
  const GIVEN := ".runtime/" + SELECTION
  const MANIFEST := "ci-compose-" + RUN_ID + "-manifest.json"
  const OUTPUT := ".runtime/" + MANIFEST

  function Under(directory: string, name: string): string {
    directory + "/" + name
  }

  // ---------------------------------------------------------------- the rules of the example

  predicate IsAbsolute(path: string) {
    path != "" && path[0] == '/'
  }

  /** No path of the example has a dot component, so making a path absolute is joining it. */
  function Join(directory: string, path: string): string {
    if IsAbsolute(path) then path else Under(directory, path)
  }

  /** Strictly below the directory. */
  predicate Contained(path: string, directory: string) {
    |directory| < |path| && path[..|directory|] == directory && path[|directory|] == '/'
  }

  function RelativeToRoot(path: string): string {
    if Contained(path, ROOT) then path[|ROOT| + 1..] else path
  }

  function ComposeName(role: Role): string {
    match role
    case ReleaseFile => "docker-compose.release.yml"
    case VerifyFile => "docker-compose.verify.yml"
    case GpuCompatFile => "docker-compose.gpu-compat.yml"
    case CpuFile => "docker-compose.cpu.yml"
    case SecretsFile => "docker-compose.secrets.yml"
    case _ => "docker-compose.yml"
  }

  function ReferenceName(role: Role): string {
    match role
    case Secret(name) => name
    case _ => "compose-secrets.state.json"
  }

  predicate InputPathOk(path: string, role: Role) {
    if IsCompose(role) then path == Under(DOCKER, ComposeName(role))
    else match role
      case ImagesLock => path == Under(DOCKER, "images.lock.env")
      case BaseEnvironment => path == Under(ROOT, ".env")
      case _ => Contained(path, RUNTIME)
  }

  /** The rule about the place of the bundle; the texts of the files are not looked into. */
  predicate SourceOk(path: string, role: Role) {
    role.SecretPaths? ==> path == Under(BUNDLE, "compose-secrets.env")
  }

  const SETTINGS := Settings(CiMode, OtherProject("trainfactory-ci-" + RUN_ID), CpuOnly, Files, None)

  /** The machine of the example: paths are told apart by case, and the repository is at its root. */
  ghost predicate ExampleSystem(sys: System) {
    && (forall p {:trigger sys.normcase(p)} :: sys.normcase(p) == p)
    && (forall p {:trigger sys.isAbsolute(p)} :: sys.isAbsolute(p) == IsAbsolute(p))
    && (forall p {:trigger sys.relativeToRoot(p)} :: sys.relativeToRoot(p) == RelativeToRoot(p))
    && (forall role {:trigger sys.composePath(role)} :: sys.composePath(role) == Under(DOCKER, ComposeName(role)))
    && sys.bootstrapPath == Under(DOCKER, "init.sql")
    && sys.selectionPath(SETTINGS) == Under(RUNTIME, SELECTION)
    && sys.manifestPath(SETTINGS) == Under(RUNTIME, MANIFEST)
    && sys.settingsOk(SETTINGS)
    && (forall p {:trigger sys.composeSourceOk(p)} :: sys.composeSourceOk(p))
    && (forall p, payload, role {:trigger sys.reference(p, payload, role)} ::
          sys.reference(p, payload, role) == Under(BUNDLE, ReferenceName(role)))
  }

  /** A call from the given working directory. */
  ghost predicate CallFrom(now: Moment, directory: string) {
    && (forall p {:trigger now.abspath(p)} :: now.abspath(p) == Join(directory, p))
    && (forall p, s {:trigger now.manifestPathOk(p, s)} ::
          now.manifestPathOk(p, s) == Contained(Join(directory, p), RUNTIME))
    && (forall p, s {:trigger now.outputOk(p, s)} :: now.outputOk(p, s))
    && (forall p, role {:trigger now.inputPathOk(p, role)} :: now.inputPathOk(p, role) == InputPathOk(p, role))
    && (forall p, payload, role, s {:trigger now.sourceOk(p, payload, role, s)} ::
          now.sourceOk(p, payload, role, s) == SourceOk(p, role))
    && (forall ps, mode {:trigger now.crossRoleOk(ps, mode)} ::
          now.crossRoleOk(ps, mode) == (BaseEnvironment !in ps))
  }

  /** There are such a machine and such calls. */
  lemma {:induction false} ExampleExists(directory: string) returns (sys: System, now: Moment)
    ensures ExampleSystem(sys) && CallFrom(now, directory)
  {
    sys := System(
      (p: string) => p, IsAbsolute, RelativeToRoot, (role: Role) => Under(DOCKER, ComposeName(role)),
      Under(DOCKER, "init.sql"), (s: Settings) => Under(RUNTIME, SELECTION), (s: Settings) => Under(RUNTIME, MANIFEST),
      (s: Settings) => s == SETTINGS, (p: Payload) => true,
      (p: string, payload: Payload, role: Role) => Under(BUNDLE, ReferenceName(role)));
    now := Moment(
      (p: string) => Join(directory, p), (p: string, s: Settings) => Contained(Join(directory, p), RUNTIME),
      (p: string, s: Settings) => true, InputPathOk,
      (p: string, payload: Payload, role: Role, s: Settings) => SourceOk(p, role),
      (ps: map<Role, Payload>, mode: SecretMode) => BaseEnvironment !in ps);
  }

  function GivenPaths(selection: string): seq<string> {
    [Under(BUNDLE, "compose-secrets.env"), Under(DOCKER, "images.lock.env"), selection]
  }

  // ---------------------------------------------------------------- the files of the example

  /** In the order in which freezing reads them; of the last two it reads one. */
  const FILES: seq<string> := [
    Under(DOCKER, "docker-compose.yml"), Under(DOCKER, "docker-compose.release.yml"),
    Under(DOCKER, "docker-compose.verify.yml"), Under(DOCKER, "docker-compose.cpu.yml"),
    Under(DOCKER, "docker-compose.secrets.yml"), Under(DOCKER, "init.sql"),
    Under(BUNDLE, "compose-secrets.env"), Under(BUNDLE, "mysql_root_password"), Under(BUNDLE, "mysql_app_password"),
    Under(BUNDLE, "mysql_url"), Under(BUNDLE, "jwt_secret_key"), Under(BUNDLE, "default_admin_password"),
    Under(BUNDLE, "admin_username"), Under(BUNDLE, "compose-secrets.state.json"), Under(DOCKER, "images.lock.env"),
    Under(WORK, GIVEN), Under(RUNTIME, SELECTION)]

  const LENGTHS: seq<nat> := [30, 38, 37, 34, 38, 20, 69, 69, 68, 59, 64, 72, 64, 76, 27, 75, 61]

  lemma {:induction false} Lengths(i: nat)
    requires i < 17
    ensures |FILES| == 17 && |FILES[i]| == LENGTHS[i]
  {
    assert |BUNDLE| == 49 && |GIVEN| == 56;
  }

  lemma {:induction false} UnderDiffers(directory: string, a: string, b: string)
    requires a != b
    ensures Under(directory, a) != Under(directory, b)
  {
    var n := |directory| + 1;
    assert Under(directory, a)[n..] == a && Under(directory, b)[n..] == b;
  }

  lemma {:induction false} SameLength()
    ensures FILES[1] != FILES[4] && FILES[6] != FILES[7] && FILES[10] != FILES[12]
  {
    var release, secrets := "docker-compose.release.yml", "docker-compose.secrets.yml";
    assert release[15] != secrets[15];
    UnderDiffers(DOCKER, release, secrets);
    var env, password := "compose-secrets.env", "mysql_root_password";
    assert env[0] != password[0];
    UnderDiffers(BUNDLE, env, password);
    var key, username := "jwt_secret_key", "admin_username";
    assert key[0] != username[0];
    UnderDiffers(BUNDLE, key, username);
  }

  lemma {:induction false} FilesDiffer(i: nat, j: nat)
    requires i < j < 17
    ensures FILES[i] != FILES[j]
  {
    Lengths(i);
    Lengths(j);
    SameLength();
    assert LENGTHS[i] == LENGTHS[j] ==> (i, j) == (1, 4) || (i, j) == (6, 7) || (i, j) == (10, 12);
  }

  lemma {:induction false} AllFilesDiffer()
    ensures forall i, j :: 0 <= i < j < 17 ==> FILES[i] != FILES[j]
  {
    forall i, j | 0 <= i < j < 17 ensures FILES[i] != FILES[j] {
      FilesDiffer(i, j);
    }
  }

  function Example(): Tree {
    AllFilesDiffer();
    map n: nat | n < 17 :: FILES[n] := File(n, Bytes([]))
  }

  lemma {:induction false} ExampleIsNumbered()
    ensures Numbered(Example(), FILES)
  {
    AllFilesDiffer();
    Lengths(0);
  }

  // ---------------------------------------------------------------- every file is taken

  function EnvironmentOf(selection: string): seq<Want> {
    [Want(GivenPaths(selection)[0], SecretPaths, true), Want(GivenPaths(selection)[1], ImagesLock, false),
     Want(selection, ImageSelection, false)]
  }

  lemma {:induction false} Environment(selection: string)
    ensures EnvWants(SETTINGS, GivenPaths(selection)) == EnvironmentOf(selection)
  {
  }

  /** A selection path that the rules accept, and that leads to one of the two selections. */
  predicate GoodSelection(selection: string, n: nat) {
    (n == 15 || n == 16) && Join(WORK, selection) == FILES[n] && Contained(FILES[n], RUNTIME) &&
    selection == if IsAbsolute(selection) then Under(RUNTIME, SELECTION) else RelativeToRoot(Under(RUNTIME, SELECTION))
  }

  lemma {:induction false} SecretName(i: nat)
    requires i < 7
    ensures |ReferencedRoles(SecretPaths)| == 7
    ensures FILES[7 + i] == Under(BUNDLE, ReferenceName(ReferencedRoles(SecretPaths)[i]))
  {
    assert ReferencedRoles(SecretPaths) == [
      Secret("mysql_root_password"), Secret("mysql_app_password"), Secret("mysql_url"), Secret("jwt_secret_key"),
      Secret("default_admin_password"), Secret("admin_username"), SecretState];
  }

  lemma {:induction false} KeyOf(sys: System, now: Moment, directory: string, path: string)
    requires ExampleSystem(sys) && CallFrom(now, directory)
    ensures Key(sys, now, path) == Join(directory, path)
  {
  }

  lemma {:induction false} SecretReferences(sys: System, now: Moment, r: Record)
    requires ExampleSystem(sys) && CallFrom(now, WORK) && r.role.SecretPaths?
    ensures |OwnReferences(sys, r)| == 7 && At(sys, now, FILES, OwnReferences(sys, r), 7)
  {
    SecretName(0);
    Lengths(0);
    var own := OwnReferences(sys, r);
    forall i | 0 <= i < 7 ensures Key(sys, now, own[i].path) == FILES[7 + i] {
      SecretName(i);
      KeyOf(sys, now, WORK, own[i].path);
      assert r.role == SecretPaths;
      assert own[i].path == sys.reference(r.path, r.sha256.of, ReferencedRoles(SecretPaths)[i]);
      assert IsAbsolute(BUNDLE);
    }
  }

  const COMPOSE_ROLES := [BaseFile, ReleaseFile, VerifyFile, CpuFile, SecretsFile]

  lemma {:induction false} ComposeFileName(i: nat)
    requires i < 5
    ensures Under(DOCKER, ComposeName(COMPOSE_ROLES[i])) == FILES[i] && IsAbsolute(FILES[i])
  {
    assert IsAbsolute(DOCKER);
  }

  lemma {:induction false} ComposeFiles(sys: System, now: Moment)
    requires ExampleSystem(sys) && CallFrom(now, WORK)
    ensures ComposeRoles(SETTINGS) == Some(COMPOSE_ROLES)
    ensures |ComposeWants(sys, SETTINGS)| == 5 && At(sys, now, FILES, ComposeWants(sys, SETTINGS), 0)
  {
    Lengths(0);
    var ws := ComposeWants(sys, SETTINGS);
    assert ComposeRoles(SETTINGS) == Some(COMPOSE_ROLES);
    forall i | 0 <= i < 5 ensures Key(sys, now, ws[i].path) == FILES[0 + i] {
      ComposeFileName(i);
      KeyOf(sys, now, WORK, ws[i].path);
    }
  }

  lemma {:induction false} OtherFiles(sys: System, now: Moment)
    requires ExampleSystem(sys) && CallFrom(now, WORK)
    ensures Key(sys, now, sys.bootstrapPath) == FILES[5]
    ensures Key(sys, now, Under(BUNDLE, "compose-secrets.env")) == FILES[6]
    ensures Key(sys, now, Under(DOCKER, "images.lock.env")) == FILES[14]
  {
    assert IsAbsolute(BUNDLE) && IsAbsolute(DOCKER);
  }

  lemma {:induction false} EnvironmentFiles(sys: System, now: Moment, selection: string, n: nat)
    requires ExampleSystem(sys) && CallFrom(now, WORK) && GoodSelection(selection, n)
    ensures var env := EnvironmentOf(selection);
      && |env| == 3 && |FILES| == 17 && Key(sys, now, sys.bootstrapPath) == FILES[5]
      && Key(sys, now, env[0].path) == FILES[6] && Key(sys, now, env[1].path) == FILES[14]
      && Key(sys, now, env[2].path) == FILES[n] && env[0].role.SecretPaths?
      && ReferencedRoles(env[1].role) == [] && ReferencedRoles(env[2].role) == []
  {
    Lengths(0);
    OtherFiles(sys, now);
    KeyOf(sys, now, WORK, selection);
  }

  lemma {:induction false} ExampleIsTaken(sys: System, now: Moment, selection: string, n: nat)
    requires ExampleSystem(sys) && CallFrom(now, WORK) && GoodSelection(selection, n)
    ensures FreezeOrder(sys, now, Example(), ComposeWants(sys, SETTINGS), EnvironmentOf(selection)).Some?
  {
    var env := EnvironmentOf(selection);
    var first := Observe(sys, now, Example(), env[0]);
    ExampleIsNumbered();
    ComposeFiles(sys, now);
    EnvironmentFiles(sys, now, selection, n);
    SecretReferences(sys, now, first);
    DeploymentTaken(sys, now, Example(), FILES, ComposeWants(sys, SETTINGS), env, OwnReferences(sys, first), n);
  }

  // ---------------------------------------------------------------- every rule is met

  lemma {:induction false} UnderIsContained(directory: string, name: string)
    ensures Contained(Under(directory, name), directory)
  {
    assert Under(directory, name)[..|directory|] == directory;
  }

  /** What is below a directory below the runtime directory is below that. */
  lemma {:induction false} BelowWork(name: string)
    ensures Contained(Under(WORK, name), RUNTIME)
  {
    var work := "work" + "/" + name;
    assert WORK == Under(RUNTIME, "work") && Under(WORK, name) == Under(RUNTIME, work);
    UnderIsContained(RUNTIME, work);
  }

  lemma {:induction false} BundleIsContained()
    ensures Contained(Under(BUNDLE, "compose-secrets.env"), RUNTIME)
  {
    var bundle := "ci-" + RUN_ID + "/" + "compose-secrets.env";
    assert BUNDLE == Under(RUNTIME, "ci-" + RUN_ID);
    assert Under(BUNDLE, "compose-secrets.env") == Under(RUNTIME, bundle);
    UnderIsContained(RUNTIME, bundle);
  }

  /** The relative path of a file in the runtime directory. */
  lemma {:induction false} Relative(name: string)
    ensures !IsAbsolute(".runtime/" + name) && RelativeToRoot(Under(RUNTIME, name)) == ".runtime/" + name
  {
    var given := ".runtime/" + name;
    assert given[0] == '.';
    assert Under(RUNTIME, name) == Under(ROOT, given);
    UnderIsContained(ROOT, given);
    assert Under(ROOT, given)[|ROOT| + 1..] == given;
  }

  const EXACT := Under(RUNTIME, SELECTION)

  /** Both paths of the selection are accepted: the one that is right only in its text, and the one
      that is right. */
  lemma {:induction false} BothSelections()
    ensures GoodSelection(GIVEN, 15) && GoodSelection(EXACT, 16) && IsAbsolute(EXACT)
  {
    Relative(SELECTION);
    BelowWork(GIVEN);
    UnderIsContained(RUNTIME, SELECTION);
    assert IsAbsolute(RUNTIME);
  }

  lemma {:induction false} ComposeIsAccepted(sys: System, now: Moment)
    requires ExampleSystem(sys) && CallFrom(now, WORK)
    ensures AllAccepted(sys, now, Example(), SETTINGS, ComposeWants(sys, SETTINGS))
  {
    var ws := ComposeWants(sys, SETTINGS);
    ComposeFiles(sys, now);
    forall i | 0 <= i < |ws| ensures Accepted(sys, now, Example(), SETTINGS, ws[i]) {
      ComposeFileName(i);
      assert ws[i].role == COMPOSE_ROLES[i] && ws[i].path == FILES[i];
    }
  }

  lemma {:induction false} FixedInputs()
    ensures var bundle, images := Under(BUNDLE, "compose-secrets.env"), Under(DOCKER, "images.lock.env");
      && InputPathOk(Join(WORK, bundle), SecretPaths) && SourceOk(Join(WORK, bundle), SecretPaths)
      && InputPathOk(Join(WORK, images), ImagesLock)
  {
    assert IsAbsolute(BUNDLE) && IsAbsolute(DOCKER);
    BundleIsContained();
  }

  lemma {:induction false} InputIsAccepted(sys: System, now: Moment, w: Want)
    requires ExampleSystem(sys) && CallFrom(now, WORK) && !IsCompose(w.role)
    requires InputPathOk(Join(WORK, w.path), w.role) && SourceOk(Join(WORK, w.path), w.role)
    requires w.role.ImageSelection? ==>
      w.path == if IsAbsolute(w.path) then Under(RUNTIME, SELECTION) else RelativeToRoot(Under(RUNTIME, SELECTION))
    ensures Accepted(sys, now, Example(), SETTINGS, w)
  {
  }

  lemma {:induction false} EnvironmentIsAccepted(sys: System, now: Moment, selection: string, n: nat)
    requires ExampleSystem(sys) && CallFrom(now, WORK) && GoodSelection(selection, n)
    ensures AllAccepted(sys, now, Example(), SETTINGS, EnvironmentOf(selection))
  {
    var ws := EnvironmentOf(selection);
    FixedInputs();
    forall i | 0 <= i < 3 ensures Accepted(sys, now, Example(), SETTINGS, ws[i]) {
      if i == 2 {
        InputIsAccepted(sys, now, Want(selection, ImageSelection, false));
      } else {
        InputIsAccepted(sys, now, ws[i]);
      }
    }
  }

  lemma {:induction false} NoBaseEnvironment(records: seq<Record>)
    requires forall i :: 0 <= i < |records| ==> !records[i].role.BaseEnvironment?
    ensures BaseEnvironment !in Payloads(records)
  {
    if records != [] {
      NoBaseEnvironment(records[..|records| - 1]);
    }
  }

  lemma {:induction false} CrossRoles(sys: System, now: Moment, selection: string)
    requires CallFrom(now, WORK)
    ensures now.crossRoleOk(Payloads(ObserveAll(sys, now, Example(), EnvironmentOf(selection))), Files)
  {
    var records := ObserveAll(sys, now, Example(), EnvironmentOf(selection));
    forall i | 0 <= i < |records| ensures !records[i].role.BaseEnvironment? {
      assert records[i].role == EnvironmentOf(selection)[i].role;
    }
    NoBaseEnvironment(records);
  }

  lemma {:induction false} ExampleFreezes(sys: System, now: Moment, selection: string, n: nat)
    requires ExampleSystem(sys) && CallFrom(now, WORK) && GoodSelection(selection, n)
    ensures Freezable(sys, now, Example(), SETTINGS, GivenPaths(selection))
  {
    ExampleIsTaken(sys, now, selection, n);
    Environment(selection);
    ComposeFiles(sys, now);
    ComposeIsAccepted(sys, now);
    EnvironmentIsAccepted(sys, now, selection, n);
    CrossRoles(sys, now, selection);
  }

  /** Absolute paths and the rules are the same from every working directory. */
  lemma {:induction false} ExampleIsComparable(sys: System, now: Moment, later: Moment, directory: string)
    requires ExampleSystem(sys) && CallFrom(now, WORK) && CallFrom(later, directory)
    ensures Comparable(sys, now, later)
  {
    forall t: string ensures FixedPath(sys, now, now.abspath(t)) {
      assert IsAbsolute(Join(WORK, t));
    }
    assert IsAbsolute(DOCKER) && IsAbsolute(BUNDLE);
  }

  // ---------------------------------------------------------------- a misplaced selection

  lemma {:induction false} SelectionIsMisplaced(sys: System, now: Moment)
    requires ExampleSystem(sys) && CallFrom(now, WORK)
    ensures !ExactSelection(sys, now, SETTINGS, EnvironmentOf(GIVEN))
  {
    BothSelections();
    Lengths(15);
    Lengths(16);
    KeyOf(sys, now, WORK, GIVEN);
    assert EnvironmentOf(GIVEN)[2].role.ImageSelection?;
  }

  /** The example freezes; what is frozen does not verify, though nothing has changed, from whatever
      working directory: that of the freezing, the repository's root, or any other. */
  lemma {:induction false} FreezesWithoutVerifying(sys: System, now: Moment, later: Moment, directory: string)
    requires ExampleSystem(sys) && CallFrom(now, WORK) && CallFrom(later, directory)
    ensures Freezable(sys, now, Example(), SETTINGS, GivenPaths(GIVEN))
    ensures !Verifies(sys, later, Example(), Frozen(sys, now, Example(), SETTINGS, GivenPaths(GIVEN)))
  {
    BothSelections();
    ExampleIsComparable(sys, now, later, directory);
    ExampleFreezes(sys, now, GIVEN, 15);
    Environment(GIVEN);
    SelectionIsMisplaced(sys, now);
    FrozenVerifiesLater(sys, now, later, Example(), SETTINGS, GivenPaths(GIVEN));
  }

  // ---------------------------------------------------------------- a misplaced manifest

  /** The output is accepted as it is given, and is a new file. */
  lemma {:induction false} OutputIsAccepted(sys: System, now: Moment)
    requires ExampleSystem(sys) && CallFrom(now, WORK)
    ensures ManifestPathOk(sys, now, OUTPUT, SETTINGS)
    ensures Key(sys, now, OUTPUT) == Under(WORK, OUTPUT) && Under(WORK, OUTPUT) !in Example()
  {
    Relative(MANIFEST);
    BelowWork(OUTPUT);
    forall n: nat | n < 17 ensures FILES[n] != Under(WORK, OUTPUT) {
      Lengths(n);
      assert |Under(WORK, OUTPUT)| == 85;
    }
  }

  lemma {:induction false} SameDirectory(a: string, b: string, name: string)
    ensures Under(a, name) == Under(b, name) ==> a == b
  {
    assert Under(a, name)[..|a|] == a && Under(b, name)[..|b|] == b;
  }

  /** No other working directory has a text for that file that the rule accepts. */
  lemma {:induction false} OutputIsRefused(sys: System, directory: string, path: string)
    requires ExampleSystem(sys) && directory != WORK && Join(directory, path) == Under(WORK, OUTPUT)
    ensures !MatchesExactPath(sys, path, Under(RUNTIME, MANIFEST))
  {
    Relative(MANIFEST);
    assert |Under(WORK, OUTPUT)| != |Under(RUNTIME, MANIFEST)|;
    if !IsAbsolute(path) && path == OUTPUT {
      SameDirectory(directory, WORK, OUTPUT);
    }
  }

  lemma {:induction false} SelectionIsExact(sys: System, now: Moment)
    requires ExampleSystem(sys) && CallFrom(now, WORK)
    ensures ExactSelection(sys, now, SETTINGS, EnvironmentOf(EXACT))
  {
    var ws := EnvironmentOf(EXACT);
    ExactIsAbsolute(sys, now);
    forall i | 0 <= i < 3 && ws[i].role.ImageSelection?
      ensures sys.normcase(now.abspath(ws[i].path)) == sys.normcase(sys.selectionPath(SETTINGS))
    {
      assert i == 2 && ws[2].path == EXACT;
    }
  }

  lemma {:induction false} ExactIsAbsolute(sys: System, now: Moment)
    requires ExampleSystem(sys) && CallFrom(now, WORK)
    ensures sys.normcase(now.abspath(EXACT)) == sys.normcase(sys.selectionPath(SETTINGS))
  {
    assert IsAbsolute(RUNTIME);
  }

  /** With the selection where it must be, and the output given as the rule asks, the example freezes
      and publishes its manifest. From any other working directory, and by whatever path it is
      given, that file does not verify, though nothing has changed. */
  lemma {:induction false} PublishesWithoutVerifying(sys: System, now: Moment, later: Moment, directory: string,
                                                     path: string, inode: Inode)
    requires ExampleSystem(sys) && CallFrom(now, WORK) && CallFrom(later, directory) && directory != WORK
    requires Key(sys, later, path) == Key(sys, now, OUTPUT)
    ensures Freezable(sys, now, Example(), SETTINGS, GivenPaths(EXACT)) && ManifestPathOk(sys, now, OUTPUT, SETTINGS)
    ensures ExactSelection(sys, now, SETTINGS, EnvWants(SETTINGS, GivenPaths(EXACT)))
    ensures var m := Frozen(sys, now, Example(), SETTINGS, GivenPaths(EXACT));
      Verified(sys, later, Published(sys, now, Example(), OUTPUT, inode, m), path) == None
  {
    BothSelections();
    ExampleFreezes(sys, now, EXACT, 16);
    Environment(EXACT);
    SelectionIsExact(sys, now);
    OutputIsAccepted(sys, now);
    KeyOf(sys, later, directory, path);
    OutputIsRefused(sys, directory, path);
  }
}
