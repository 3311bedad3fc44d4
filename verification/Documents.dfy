/** The documents that a Web promotion reads and writes, as values: image selections, frozen
    Compose manifests and promotion journals.

    A payload is the parsed document itself, and for a selection also how its text is laid out, so
    two payloads are equal exactly when the bytes are. A SHA-256 digest is a constructor over the
    payload it was taken of, which states the assumption that digests are injective. */
module Documents {
  import opened Options

  type Inode = nat

  /** The two closed key sets of an image selection: one revision shared by both images, or one
      revision each. */
  datatype Selection =
    | Shared(apiImage: string, webImage: string, revision: string, apiImageId: string, webImageId: string)
    | Split(apiImage: string, webImage: string, apiRevision: string, webRevision: string,
            apiImageId: string, webImageId: string)

  /** How the text of a selection is laid out. A closed text has an entry on every line, and its keys
      in the prescribed order; one that is not closed may have blank lines and comments as well, or
      another order. `detail` tells texts apart that agree in everything else. */
  datatype Layout = Layout(closed: bool, detail: string)

  /** The layout of the texts that a promotion writes. */
  const CANONICAL := Layout(true, "")

  /** What an input of a deployment is for: a Compose file, an environment file, or a file that an
      environment file refers to. */
  datatype Role =
    | BaseFile | ReleaseFile | VerifyFile | GpuCompatFile | CpuFile | SecretsFile
    | BaseEnvironment | SecretPaths | ProductionFiles | ProductionDirect | RollbackDirect | ImagesLock
    | ImageSelection | PreSelection | PostSelection
    | DatabaseBootstrap | Secret(name: string) | SecretState
    | OtherRole(name: string)

  datatype Record = Record(role: Role, path: string, sha256: Digest, sensitive: bool)

  datatype Mode =
    | Production | VerifyMode | CiMode | RollbackVerify | RollbackPre | RollbackPostMigration | RollbackWebOnly
    | OtherMode(name: string)

  datatype GpuMode = Raw | Compat | CpuOnly | OtherGpuMode(name: string)

  datatype SecretMode = Files | Direct | OtherSecretMode(name: string)

  datatype Project = TrainFactory | OtherProject(name: string)

  datatype Settings = Settings(mode: Mode, project: Project, gpuMode: GpuMode, secretMode: SecretMode,
                               rollbackVariant: Option<string>)

  datatype Manifest = Manifest(settings: Settings, composeFiles: seq<Record>, envFiles: seq<Record>,
                               referencedFiles: seq<Record>)

  datatype Phase = Applying | Committing

  /** What every journal of one promotion repeats unchanged. */
  datatype Transaction = Transaction(nonce: nat, oldSelection: File, oldManifest: File,
                                     newSelection: Payload, newManifestDigest: Digest,
                                     oldWebId: string, targetWebId: string, revision: string,
                                     apiImageId: string)

  /** One journal: the transaction, the inodes recorded so far, and the journal it supersedes. */
  datatype Journal = Journal(tx: Transaction, phase: Phase, selectionId: Option<Inode>,
                             preparedId: Option<Inode>, manifestId: Option<Inode>,
                             previousId: Option<Inode>, previousDigest: Option<Digest>)

  datatype Payload =
    | Bytes(raw: seq<char>)
    | SelectionText(selection: Selection, layout: Layout)
    | ManifestJson(manifest: Manifest)
    | JournalJson(journal: Journal)

  datatype Digest = Sha256(of: Payload)

  datatype File = File(inode: Inode, payload: Payload)

  /** The operator's arguments: the Web image to promote. */
  datatype Request = Request(webImage: string, webImageId: string, webRevision: string)

  /** The text that a promotion writes for a selection. */
  function Rendered(s: Selection): Payload {
    SelectionText(s, CANONICAL)
  }

  /** A selection text that recovery reads; a promotion reads the others too. */
  predicate Closed(p: Payload) {
    p.SelectionText? && p.layout.closed
  }

  /** The path that every image-selection record of a production manifest must name. */
  const SELECTION_FILE: string := ".runtime/release.env"

  function ApiRevision(s: Selection): string {
    match s
    case Shared(_, _, revision, _, _) => revision
    case Split(_, _, revision, _, _, _) => revision
  }

  /** The part of a selection that a Web promotion must not touch. */
  datatype Api = Api(image: string, imageId: string, revision: string)

  function ApiOf(s: Selection): Api {
    Api(s.apiImage, s.apiImageId, ApiRevision(s))
  }

  /** The part that it replaces. */
  datatype Web = Web(image: string, imageId: string, revision: string)

  function WebOf(s: Selection): Web {
    match s
    case Shared(_, image, revision, _, id) => Web(image, id, revision)
    case Split(_, image, _, revision, _, id) => Web(image, id, revision)
  }

  /** What a request makes of a selection, field by field. */
  predicate Replaces(was: Selection, will: Selection, request: Request) {
    && will.Split?
    && will.apiImage == was.apiImage && will.apiImageId == was.apiImageId
    && will.apiRevision == (if was.Shared? then was.revision else was.apiRevision)
    && will.webImage == request.webImage && will.webImageId == request.webImageId
    && will.webRevision == request.webRevision
  }

  /** The old API with the requested Web image. */
  function ForwardSelection(source: Selection, request: Request): (s: Selection)
    ensures Replaces(source, s, request)
    ensures ApiOf(s) == ApiOf(source)
    ensures WebOf(s) == Web(request.webImage, request.webImageId, request.webRevision)
  {
    Split(source.apiImage, request.webImage, ApiRevision(source), request.webRevision,
          source.apiImageId, request.webImageId)
  }

  function SelectionRecords(records: seq<Record>): nat {
    if records == [] then 0
    else (if records[0].role.ImageSelection? then 1 else 0) + SelectionRecords(records[1..])
  }

  predicate SelectionPathsMatch(records: seq<Record>) {
    forall i :: 0 <= i < |records| && records[i].role.ImageSelection? ==> records[i].path == SELECTION_FILE
  }

  /** Every image-selection record gets the digest of `selection`; nothing else changes. */
  function Restamp(records: seq<Record>, selection: Payload): (r: seq<Record>)
    ensures |r| == |records|
    ensures forall i :: 0 <= i < |r| ==>
      && r[i].role == records[i].role && r[i].path == records[i].path
      && r[i].sensitive == records[i].sensitive
      && r[i].sha256 == if r[i].role.ImageSelection? then Sha256(selection) else records[i].sha256
  {
    seq(|records|, i requires 0 <= i < |records| =>
      if records[i].role.ImageSelection? then records[i].(sha256 := Sha256(selection)) else records[i])
  }

  /** The manifest that names `selection` instead of the selection it named before. */
  function ForwardManifest(m: Manifest, selection: Payload): Option<Manifest> {
    if SelectionRecords(m.envFiles) == 1 && SelectionPathsMatch(m.envFiles)
    then Some(m.(envFiles := Restamp(m.envFiles, selection)))
    else None
  }

  /** `will` is `was`, but for the digests of its image-selection records, which are that of `selection`. */
  predicate NamesInstead(was: Manifest, will: Manifest, selection: Payload) {
    && will.settings == was.settings && will.composeFiles == was.composeFiles
    && will.referencedFiles == was.referencedFiles && |will.envFiles| == |was.envFiles|
    && forall i :: 0 <= i < |was.envFiles| ==>
         && will.envFiles[i].role == was.envFiles[i].role && will.envFiles[i].path == was.envFiles[i].path
         && will.envFiles[i].sensitive == was.envFiles[i].sensitive
         && will.envFiles[i].sha256 ==
              if was.envFiles[i].role.ImageSelection? then Sha256(selection) else was.envFiles[i].sha256
  }

  /** `manifest` is a production manifest whose single image-selection record names the selection
      file and carries the digest of `selection`, however that is laid out. */
  predicate Coherent(selection: Payload, manifest: Payload) {
    && selection.SelectionText?
    && manifest.ManifestJson?
    && var m := manifest.manifest;
    && m.settings.mode.Production? && m.settings.project.TrainFactory?
    && SelectionRecords(m.envFiles) == 1
    && SelectionPathsMatch(m.envFiles)
    && forall i :: 0 <= i < |m.envFiles| && m.envFiles[i].role.ImageSelection? ==>
         m.envFiles[i].sha256 == Sha256(selection)
  }

  lemma {:induction false} RestampKeepsCount(records: seq<Record>, restamped: seq<Record>)
    requires |restamped| == |records|
    requires forall i :: 0 <= i < |records| ==> restamped[i].role == records[i].role
    ensures SelectionRecords(restamped) == SelectionRecords(records)
  {
    if records != [] {
      RestampKeepsCount(records[1..], restamped[1..]);
    }
  }

  /** Forwarding a coherent pair always succeeds and gives a coherent pair again. */
  lemma ForwardIsCoherent(selection: Payload, manifest: Payload, next: Payload)
    requires Coherent(selection, manifest) && next.SelectionText?
    ensures ForwardManifest(manifest.manifest, next).Some?
    ensures Coherent(next, ManifestJson(ForwardManifest(manifest.manifest, next).value))
    ensures NamesInstead(manifest.manifest, ForwardManifest(manifest.manifest, next).value, next)
  {
    var m := manifest.manifest;
    RestampKeepsCount(m.envFiles, Restamp(m.envFiles, next));
  }

  /** Only the last selection counts: forwarding twice is forwarding to the second selection, and
      forwarding back to the selection a manifest already names gives that manifest back. */
  lemma ForwardComposes(m: Manifest, first: Payload, second: Payload)
    requires ForwardManifest(m, first).Some?
    ensures ForwardManifest(ForwardManifest(m, first).value, second) == ForwardManifest(m, second)
    ensures Coherent(first, ManifestJson(m)) ==> ForwardManifest(m, first) == Some(m)
  {
    RestampKeepsCount(m.envFiles, Restamp(m.envFiles, first));
    assert Restamp(Restamp(m.envFiles, first), second) == Restamp(m.envFiles, second);
    if Coherent(first, ManifestJson(m)) {
      assert Restamp(m.envFiles, first) == m.envFiles;
    }
  }
}
