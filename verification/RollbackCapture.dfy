/** Capturing the running API and Web images for a rollback: both images get a tag, then a selection
    and a manifest that name the tags are published. Whatever fails on the way, what was done is undone.

    Every command may fail, before or after it took effect, and other programs may change tags,
    containers and files between the steps of the capture. Nobody interferes while it is undone. */
module RollbackCapture {
  import opened Options
  import opened Documents
  import SelectionFiles
  import Texts

  type ImageId = string

  datatype Service = ApiService | WebService

  /** What the two tags of one capture have in common: the start of the release's revision, and the
      random token that the capture drew. */
  datatype Stamp = Stamp(release: string, token: string)

  function StampOf(revision: string, token: string): Stamp {
    Stamp(if |revision| < 12 then revision else revision[..12], token)
  }

  predicate ValidToken(token: string) {
    |token| == 32 && SelectionFiles.Hexadecimal(token)
  }

  predicate ValidStamp(stamp: Stamp) {
    |stamp.release| == 12 && SelectionFiles.Hexadecimal(stamp.release) && ValidToken(stamp.token)
  }

  function TagOf(stamp: Stamp, service: Service): string {
    "trainfactory-rollback-" + stamp.release + "-" + stamp.token +
      (if service.ApiService? then "-api" else "-web") + ":captured"
  }

  lemma {:induction false} TagsDiffer(stamp: Stamp)
    ensures TagOf(stamp, ApiService) != TagOf(stamp, WebService)
  {
    var common := "trainfactory-rollback-" + stamp.release + "-" + stamp.token;
    assert TagOf(stamp, ApiService)[|common| + 1] == 'a' && TagOf(stamp, WebService)[|common| + 1] == 'w';
  }

  lemma {:induction false} TagParts(stamp: Stamp, service: Service)
    requires ValidStamp(stamp)
    ensures var tag, n := TagOf(stamp, service), |"trainfactory-rollback-"|;
      |tag| > n + 45 && tag[n..n + 12] == stamp.release && tag[n + 13..n + 45] == stamp.token
  {
  }

  /** No two captures of different releases or with different tokens have a tag in common. */
  lemma {:induction false} TagsOfCapturesDiffer(stamp: Stamp, service: Service, other: Stamp, another: Service)
    requires ValidStamp(stamp) && ValidStamp(other) && TagOf(stamp, service) == TagOf(other, another)
    ensures stamp == other && service == another
  {
    TagParts(stamp, service);
    TagParts(other, another);
    TagsDiffer(stamp);
  }

  datatype Container = Container(id: string, image: ImageId)

  datatype Output = SelectionOutput | ManifestOutput

  datatype Intent = Intent(tag: string, image: ImageId)

  /** What is known of a captured service: its container, its image and the revision in the image's label. */
  datatype Capture = Capture(tag: string, container: string, image: ImageId, revision: string)

  datatype Result = Success(api: Capture, web: Capture) | Failed | CleanupFailed

  // ---------------------------------------------------------------- accounts of what was done

  /** Every tag is an old one or an intent, and no old one is lost. */
  predicate TagsAccounted(before: map<string, ImageId>, now: map<string, ImageId>, intents: seq<Intent>) {
    (forall t :: t in before ==> t in now && now[t] == before[t]) &&
    (forall t :: t in now ==> (t in before && now[t] == before[t]) || Intent(t, now[t]) in intents) &&
    (forall i :: i in intents ==> i.tag !in before)
  }

  /** Every output is an old one, an owned one or one that a failed publication left. */
  predicate OutputsAccounted(before: map<Output, File>, now: map<Output, File>, owned: map<Output, Inode>,
                             left: set<Output>)
  {
    (forall p :: p in before ==> p in now && now[p] == before[p]) &&
    (forall p :: p in now ==>
       (p in before && now[p] == before[p]) || (p in owned && owned[p] == now[p].inode) || p in left) &&
    (forall p :: p in owned || p in left ==> p !in before)
  }

  /** Tags were removed only where they pointed at the captured image. */
  predicate OnlyIntendedGo(before: map<string, ImageId>, now: map<string, ImageId>, intents: seq<Intent>) {
    (forall t :: t in now ==> t in before && now[t] == before[t]) &&
    (forall t :: t in before && t !in now ==> Intent(t, before[t]) in intents)
  }

  /** Outputs were removed only where they were still the published file. */
  predicate OnlyOwnedGo(before: map<Output, File>, now: map<Output, File>, owned: map<Output, Inode>) {
    (forall p :: p in now ==> p in before && now[p] == before[p]) &&
    (forall p :: p in before && p !in now ==> p in owned && owned[p] == before[p].inode)
  }

  /** Nothing that the capture did is left. */
  predicate TagsUndone(now: map<string, ImageId>, intents: seq<Intent>) {
    forall i :: i in intents ==> i.tag !in now
  }

  predicate OutputsUndone(now: map<Output, File>, owned: map<Output, Inode>) {
    forall p :: p in owned && p in now ==> now[p].inode != owned[p]
  }

  /** The tag is gone already, or is still what the capture made it. */
  predicate PointsAt(tags: map<string, ImageId>, i: Intent) {
    i.tag in tags ==> tags[i.tag] == i.image
  }

  class Host {
    /** Nobody else changes anything. */
    const alone: bool
    /** No command fails. */
    const calm: bool
    /** The revision in the label of each image, which its id determines. */
    const labels: map<ImageId, string>
    var tags: map<string, ImageId>
    var containers: map<Service, Container>
    var outputs: map<Output, File>

    /** The capture's own lists. */
    var tagIntents: seq<Intent>
    var ownedOutputs: map<Output, Inode>
    /** What publications that did not return left behind. */
    ghost var left: set<Output>
    /** The tags and outputs when the undoing began. */
    ghost var tagsAtUndo: map<string, ImageId>
    ghost var outputsAtUndo: map<Output, File>

    constructor (tags: map<string, ImageId>, containers: map<Service, Container>, outputs: map<Output, File>,
                 labels: map<ImageId, string>, alone: bool, calm: bool)
      ensures this.tags == tags && this.containers == containers && this.outputs == outputs
      ensures this.labels == labels && this.alone == alone && this.calm == calm
      ensures tagIntents == [] && ownedOutputs == map[] && left == {}
    {
      this.labels, this.alone, this.calm := labels, alone, calm;
      this.tags, this.containers, this.outputs := tags, containers, outputs;
      tagIntents, ownedOutputs, left := [], map[], {};
      tagsAtUndo, outputsAtUndo := tags, outputs;
    }

    method Hazard() returns (yes: bool)
      ensures calm ==> !yes
    {
      yes := *;
      yes := yes && !calm;
    }

    /** Other programs at work. */
    method Others()
      modifies this`tags, this`containers, this`outputs
      ensures alone ==> tags == old(tags) && containers == old(containers) && outputs == old(outputs)
    {
      if !alone {
        tags, containers, outputs := *, *, *;
      }
    }

    // -------------------------------------------------------------- undoing

    /** Removes the tag of one intent, if it still points at the captured image. */
    method UndoTag(intent: Intent) returns (failed: bool)
      modifies this`tags
      ensures OnlyIntendedGo(old(tags), tags, [intent])
      ensures !failed ==> intent.tag !in tags
      ensures calm && PointsAt(old(tags), intent) ==> !failed
    {
      var fails := Hazard();
      if fails {
        return true;
      }
      if intent.tag !in tags {
        return false;
      }
      fails := Hazard();
      if fails || tags[intent.tag] != intent.image {
        return true;
      }
      failed := Hazard();
      var effect := Hazard();
      if !failed || effect {
        tags := tags - {intent.tag};
      }
    }

    method UndoTags() returns (failed: bool)
      modifies this`tags
      ensures OnlyIntendedGo(old(tags), tags, tagIntents)
      ensures !failed ==> TagsUndone(tags, tagIntents)
      ensures calm && (forall i :: i in tagIntents ==> PointsAt(old(tags), i)) ==> !failed
    {
      failed := false;
      var k := |tagIntents|;
      while k > 0
        invariant 0 <= k <= |tagIntents|
        invariant OnlyIntendedGo(old(tags), tags, tagIntents)
        invariant !failed ==> forall i :: k <= i < |tagIntents| ==> tagIntents[i].tag !in tags
        invariant calm && (forall i :: i in tagIntents ==> PointsAt(old(tags), i)) ==> !failed
      {
        k := k - 1;
        ghost var before := tags;
        assert tagIntents[k] in tagIntents;
        var stuck := UndoTag(tagIntents[k]);
        GoOn(old(tags), before, tags, tagIntents, k);
        failed := failed || stuck;
      }
    }

    method UnlinkOwnedOutput(p: Output, identity: Inode) returns (ok: bool)
      modifies this`outputs
      ensures OnlyOwnedGo(old(outputs), outputs, map[p := identity])
      ensures ok ==> OutputsUndone(outputs, map[p := identity])
      ensures calm ==> ok
    {
      var fails := Hazard();
      if fails {
        return false;
      }
      if p !in outputs || outputs[p].inode != identity {
        return true;
      }
      fails := Hazard();
      if fails {
        return false;
      }
      outputs := outputs - {p};
      return true;
    }

    method UndoOutputs() returns (failed: bool)
      modifies this`outputs
      ensures OnlyOwnedGo(old(outputs), outputs, ownedOutputs)
      ensures !failed ==> OutputsUndone(outputs, ownedOutputs)
      ensures calm ==> !failed
    {
      failed := false;
      var todo := ownedOutputs.Keys;
      while todo != {}
        invariant todo <= ownedOutputs.Keys
        invariant OnlyOwnedGo(old(outputs), outputs, ownedOutputs)
        invariant calm ==> !failed
        invariant !failed ==>
          forall p :: p in ownedOutputs && p !in todo && p in outputs ==> outputs[p].inode != ownedOutputs[p]
        decreases todo
      {
        var p :| p in todo;
        ghost var before := outputs;
        var ok := UnlinkOwnedOutput(p, ownedOutputs[p]);
        todo := todo - {p};
        failed := failed || !ok;
      }
    }

    /** What happens after an exception. */
    method Undo() returns (r: Result)
      modifies this`tags, this`outputs
      ensures r.Failed? || r.CleanupFailed?
      ensures OnlyIntendedGo(old(tags), tags, tagIntents) && OnlyOwnedGo(old(outputs), outputs, ownedOutputs)
      ensures r.Failed? ==> TagsUndone(tags, tagIntents) && OutputsUndone(outputs, ownedOutputs)
      ensures calm && (forall i :: i in tagIntents ==> PointsAt(old(tags), i)) ==> r.Failed?
    {
      var stuckTags := UndoTags();
      var stuckOutputs := UndoOutputs();
      return if stuckTags || stuckOutputs then CleanupFailed else Failed;
    }

    // -------------------------------------------------------------- doing

    /** The tags and outputs of `tags0` and `outputs0` and what the capture did, and no more. */
    ghost predicate Accounted(tags0: map<string, ImageId>, outputs0: map<Output, File>)
      reads this
    {
      alone ==> TagsAccounted(tags0, tags, tagIntents) && OutputsAccounted(outputs0, outputs, ownedOutputs, left)
    }

    /** Captures one service: its image gets a new tag. The intent is noted before the tag is made. */
    method CaptureService(stamp: Stamp, service: Service, ghost tags0: map<string, ImageId>,
                          ghost outputs0: map<Output, File>)
        returns (c: Option<Capture>)
      requires Accounted(tags0, outputs0)
      modifies this`tags, this`containers, this`outputs, this`tagIntents
      ensures Accounted(tags0, outputs0)
      ensures alone ==> containers == old(containers) && outputs == old(outputs)
      ensures c.Some? ==>
        c.value.tag == TagOf(stamp, service) && tagIntents == old(tagIntents) + [Intent(c.value.tag, c.value.image)]
      ensures c.Some? && alone ==>
        service in containers && containers[service] == Container(c.value.container, c.value.image)
      ensures c.Some? && alone ==> c.value.tag !in old(tags) && tags == old(tags)[c.value.tag := c.value.image]
      ensures c.None? ==> old(tagIntents) <= tagIntents
      ensures c.Some? ==> c.value.tag in tags && tags[c.value.tag] == c.value.image
      ensures c.Some? ==> Labelled(labels, c.value.image, c.value.revision)
      ensures calm && alone && CanCapture(labels, stamp, service, old(tags), old(containers)) ==> c.Some?
    {
      Others();
      var fails := Hazard();
      if fails || service !in containers {
        return None;
      }
      var container := containers[service];
      if container.image !in labels || !Labelled(labels, container.image, labels[container.image]) {
        return None;
      }
      var revision := labels[container.image];
      Others();
      fails := Hazard();
      if fails || service !in containers || containers[service] != container {
        return None;
      }
      var tag := TagOf(stamp, service);
      Others();
      fails := Hazard();
      if fails || tag in tags {
        return None;
      }
      NoteIntent(tags0, tags, tagIntents, Intent(tag, container.image));
      tagIntents := tagIntents + [Intent(tag, container.image)];
      fails := Hazard();
      var effect := Hazard();
      if !fails || effect {
        AddIntended(tags0, tags, tagIntents, Intent(tag, container.image));
        tags := tags[tag := container.image];
      }
      if fails {
        return None;
      }
      Others();
      fails := Hazard();
      if fails || tag !in tags || tags[tag] != container.image {
        return None;
      }
      return Some(Capture(tag, container.id, container.image, revision));
    }

    /** Publishes a file that must not exist. A failed publication removes what it wrote, unless that
        fails too. */
    method Publish(p: Output, payload: Payload, ghost tags0: map<string, ImageId>, ghost outputs0: map<Output, File>)
        returns (ok: bool)
      requires Accounted(tags0, outputs0)
      modifies this`outputs, this`ownedOutputs, this`left
      ensures Accounted(tags0, outputs0)
      ensures ok ==> p !in old(outputs) && p in ownedOutputs && ownedOutputs == old(ownedOutputs)[p := ownedOutputs[p]]
      ensures ok ==> outputs == old(outputs)[p := File(ownedOutputs[p], payload)] && left == old(left)
      ensures !ok ==> ownedOutputs == old(ownedOutputs) && left <= old(left) + {p}
      ensures calm && p !in old(outputs) ==> ok
    {
      var fails := Hazard();
      if p in outputs || fails {
        return false;
      }
      var inode: Inode := *;
      outputs := outputs[p := File(inode, payload)];
      fails := Hazard();
      if fails {
        var stays := Hazard();
        if stays {
          left := left + {p};
        } else {
          outputs := outputs - {p};
        }
        return false;
      }
      ownedOutputs := ownedOutputs[p := inode];
      return true;
    }

    method CaptureBoth(stamp: Stamp, ghost tags0: map<string, ImageId>, ghost outputs0: map<Output, File>)
        returns (done: Option<(Capture, Capture)>)
      requires tagIntents == [] && Accounted(tags0, outputs0) && tags == tags0
      modifies this`tags, this`containers, this`outputs, this`tagIntents
      ensures Accounted(tags0, outputs0) && (alone ==> outputs == old(outputs))
      ensures done.Some? && alone ==> tags == Tagged(tags0, stamp, done.value.0, done.value.1)
      ensures done.Some? ==>
        done.value.0.tag == TagOf(stamp, ApiService) && done.value.1.tag == TagOf(stamp, WebService)
      ensures alone ==> containers == old(containers)
      ensures done.Some? && alone ==>
        Holds(containers, ApiService, done.value.0) && Holds(containers, WebService, done.value.1)
      ensures done.Some? ==> BothLabelled(labels, done.value.0, done.value.1)
      ensures done.Some? && alone ==> NewTags(stamp, old(tags))
      ensures calm && alone && Capturable(labels, stamp, old(tags), old(containers)) ==> done.Some?
    {
      var api := CaptureService(stamp, ApiService, tags0, outputs0);
      if api.None? {
        return None;
      }
      TagsDiffer(stamp);
      var web := CaptureService(stamp, WebService, tags0, outputs0);
      return if web.None? then None else Some((api.value, web.value));
    }

    method PublishBoth(api: Capture, web: Capture, m: Manifest, ghost tags0: map<string, ImageId>,
                       ghost outputs0: map<Output, File>)
        returns (ok: bool)
      requires ownedOutputs == map[] && left == {} && Accounted(tags0, outputs0) && (alone ==> outputs == outputs0)
      modifies this`tags, this`containers, this`outputs, this`ownedOutputs, this`left
      ensures Accounted(tags0, outputs0) && (alone ==> tags == old(tags) && containers == old(containers))
      ensures ok ==> left == {}
      ensures calm && alone && outputs0 == map[] ==> ok
      ensures ok && alone ==> Written(outputs0, outputs, api, web, m)
    {
      ok := Publish(SelectionOutput, Rendered(SelectionOf(api, web)), tags0, outputs0);
      if !ok {
        return;
      }
      Others();
      var fails := Hazard();
      if fails {
        return false;
      }
      ok := Publish(ManifestOutput, ManifestJson(m), tags0, outputs0);
      if ok && alone {
        NothingBefore(outputs0);
      }
    }

    /** Everything that can raise: both services, the selection, the manifest, the last checks. */
    method Attempt(stamp: Stamp, m: Manifest) returns (done: Option<(Capture, Capture)>)
      requires tagIntents == [] && ownedOutputs == map[] && left == {}
      modifies this`tags, this`containers, this`outputs, this`tagIntents, this`ownedOutputs, this`left
      ensures Accounted(old(tags), old(outputs))
      ensures done.Some? ==>
        left == {} && Holds(containers, ApiService, done.value.0) && Holds(containers, WebService, done.value.1)
      ensures done.Some? && alone ==> tags == Tagged(old(tags), stamp, done.value.0, done.value.1)
      ensures done.Some? && alone ==> Written(old(outputs), outputs, done.value.0, done.value.1, m)
      ensures done.Some? ==>
        done.value.0.tag == TagOf(stamp, ApiService) && done.value.1.tag == TagOf(stamp, WebService)
      ensures done.Some? ==> BothLabelled(labels, done.value.0, done.value.1)
      ensures done.Some? && alone ==> NewTags(stamp, old(tags))
      ensures calm && alone && Capturable(labels, stamp, old(tags), old(containers)) && old(outputs) == map[] ==>
        done.Some?
    {
      ghost var tags0, outputs0 := tags, outputs;
      var both := CaptureBoth(stamp, tags0, outputs0);
      if both.None? {
        return None;
      }
      Others();
      var fails := Hazard();
      if fails {
        return None;
      }
      var ok := PublishBoth(both.value.0, both.value.1, m, tags0, outputs0);
      if !ok {
        return None;
      }
      Others();
      fails := Hazard();
      if fails || !Holds(containers, ApiService, both.value.0) || !Holds(containers, WebService, both.value.1) {
        return None;
      }
      return both;
    }

    /** The command. */
    method CaptureRollback(revision: string, token: string, m: Manifest) returns (r: Result)
      requires tagIntents == [] && ownedOutputs == map[] && left == {}
      modifies this`tags, this`containers, this`outputs, this`tagIntents, this`ownedOutputs, this`left,
        this`tagsAtUndo, this`outputsAtUndo
      ensures r.Failed? ==> TagsUndone(tags, tagIntents) && OutputsUndone(outputs, ownedOutputs)
      ensures r.Failed? && alone ==> tags == old(tags) && (left == {} ==> outputs == old(outputs))
      ensures !r.Success? ==>
        OnlyIntendedGo(tagsAtUndo, tags, tagIntents) && OnlyOwnedGo(outputsAtUndo, outputs, ownedOutputs)
      ensures alone ==> (forall t :: t in old(tags) ==> t in tags && tags[t] == old(tags)[t])
      ensures alone ==> (forall p :: p in old(outputs) ==> p in outputs && outputs[p] == old(outputs)[p])
      ensures r.Success? ==> left == {} && Holds(containers, ApiService, r.api) && Holds(containers, WebService, r.web)
      ensures r.Success? && alone ==> tags == Tagged(old(tags), StampOf(revision, token), r.api, r.web)
      ensures r.Success? && alone ==> Written(old(outputs), outputs, r.api, r.web, m)
      ensures r.Success? && alone ==> Publishes(labels, tags, containers, outputs[SelectionOutput].payload)
      ensures r.Success? ==> SelectionFiles.Revision(revision) && ValidToken(token)
      ensures r.Success? && alone ==> NamedFor(revision, token, old(tags), outputs[SelectionOutput].payload)
      ensures
        calm && alone && SelectionFiles.Revision(revision) && ValidToken(token) && old(outputs) == map[] &&
        Capturable(labels, StampOf(revision, token), old(tags), old(containers))
        ==> r.Success?
    {
      tagsAtUndo, outputsAtUndo := tags, outputs;
      var fails := Hazard();
      if fails || SelectionOutput in outputs || ManifestOutput in outputs || !SelectionFiles.Revision(revision) {
        return Failed;
      }
      if !ValidToken(token) {
        return Failed;
      }
      var stamp := StampOf(revision, token);
      ghost var tags0, outputs0 := tags, outputs;
      var done := Attempt(stamp, m);
      if done.Some? {
        if alone {
          PublishedNames(labels, tags0, tags, containers, stamp, done.value.0, done.value.1);
          PublishedIsValid(revision, token, tags0, done.value.0, done.value.1);
        }
        return Success(done.value.0, done.value.1);
      }
      tagsAtUndo, outputsAtUndo := tags, outputs;
      r := Undo();
      if alone {
        TagsRestored(tags0, tagsAtUndo, tags, tagIntents);
        OutputsRestored(outputs0, outputsAtUndo, outputs, ownedOutputs, left);
      }
    }
  }

  lemma {:induction false} GoOn(first: map<string, ImageId>, before: map<string, ImageId>, now: map<string, ImageId>,
                                intents: seq<Intent>, k: nat)
    requires k < |intents| && OnlyIntendedGo(first, before, intents) && OnlyIntendedGo(before, now, [intents[k]])
    ensures OnlyIntendedGo(first, now, intents)
  {
    forall t | t in first && t !in now ensures Intent(t, first[t]) in intents {
      if t in before {
        assert Intent(t, before[t]) in [intents[k]];
      }
    }
  }

  lemma {:induction false} NoteIntent(before: map<string, ImageId>, now: map<string, ImageId>, intents: seq<Intent>,
                                      i: Intent)
    requires i.tag !in now
    ensures TagsAccounted(before, now, intents) ==> TagsAccounted(before, now, intents + [i])
  {
  }

  lemma {:induction false} AddIntended(before: map<string, ImageId>, now: map<string, ImageId>, intents: seq<Intent>,
                                       i: Intent)
    requires i.tag !in now && i in intents
    ensures TagsAccounted(before, now, intents) ==> TagsAccounted(before, now[i.tag := i.image], intents)
  {
  }

  predicate Holds(containers: map<Service, Container>, service: Service, c: Capture) {
    service in containers && containers[service] == Container(c.container, c.image)
  }

  /** The image has an id of the right form and this revision, of the right form, in its label. */
  predicate Labelled(labels: map<ImageId, string>, image: ImageId, revision: string) {
    SelectionFiles.ImageId(image) && SelectionFiles.Revision(revision) && image in labels && labels[image] == revision
  }

  /** The service runs, its image is labelled and nobody has the new tag. */
  predicate CanCapture(labels: map<ImageId, string>, stamp: Stamp, service: Service, tags: map<string, ImageId>,
                       containers: map<Service, Container>)
  {
    service in containers && TagOf(stamp, service) !in tags &&
    containers[service].image in labels &&
    Labelled(labels, containers[service].image, labels[containers[service].image])
  }

  predicate Capturable(labels: map<ImageId, string>, stamp: Stamp, tags: map<string, ImageId>,
                       containers: map<Service, Container>)
  {
    CanCapture(labels, stamp, ApiService, tags, containers) && CanCapture(labels, stamp, WebService, tags, containers)
  }

  /** Both captured images have their tags, which are new; no other tag changed. */
  function Tagged(before: map<string, ImageId>, stamp: Stamp, api: Capture, web: Capture): map<string, ImageId> {
    before[TagOf(stamp, ApiService) := api.image][TagOf(stamp, WebService) := web.image]
  }

  function SelectionOf(api: Capture, web: Capture): Selection {
    Split(api.tag, web.tag, api.revision, web.revision, api.image, web.image)
  }

  predicate BothLabelled(labels: map<ImageId, string>, api: Capture, web: Capture) {
    Labelled(labels, api.image, api.revision) && Labelled(labels, web.image, web.revision)
  }

  predicate NewTags(stamp: Stamp, tags: map<string, ImageId>) {
    TagOf(stamp, ApiService) !in tags && TagOf(stamp, WebService) !in tags
  }

  /** The name is a tag of the image, the service runs that image and its label has that revision. */
  predicate Identifies(labels: map<ImageId, string>, tags: map<string, ImageId>, containers: map<Service, Container>,
                       service: Service, name: string, id: ImageId, revision: string)
  {
    && name in tags && tags[name] == id
    && service in containers && containers[service].image == id
    && id in labels && labels[id] == revision
  }

  /** The published text names the images that the two services run, each in its own place. */
  predicate Publishes(labels: map<ImageId, string>, tags: map<string, ImageId>, containers: map<Service, Container>,
                      p: Payload)
  {
    && p.SelectionText? && p.layout == CANONICAL && p.selection.Split?
    && var s := p.selection;
      && Identifies(labels, tags, containers, ApiService, s.apiImage, s.apiImageId, s.apiRevision)
      && Identifies(labels, tags, containers, WebService, s.webImage, s.webImageId, s.webRevision)
  }

  /** It is a selection that both readers read back, and its image names are new and say of which
      release they are and for which service. */
  predicate NamedFor(revision: string, token: string, before: map<string, ImageId>, p: Payload) {
    && p.SelectionText? && p.selection.Split? && |revision| >= 12
    && var s, common := p.selection, "trainfactory-rollback-" + revision[..12] + "-" + token;
      && SelectionFiles.ValidSelection(s)
      && s.apiImage == common + "-api:captured" && s.apiImage !in before
      && s.webImage == common + "-web:captured" && s.webImage !in before
  }

  lemma {:induction false} PublishedNames(labels: map<ImageId, string>, before: map<string, ImageId>,
                                          tags: map<string, ImageId>, containers: map<Service, Container>,
                                          stamp: Stamp, api: Capture, web: Capture)
    requires tags == Tagged(before, stamp, api, web)
    requires api.tag == TagOf(stamp, ApiService) && web.tag == TagOf(stamp, WebService)
    requires Holds(containers, ApiService, api) && Holds(containers, WebService, web)
    requires BothLabelled(labels, api, web)
    ensures Publishes(labels, tags, containers, Rendered(SelectionOf(api, web)))
  {
    TagsDiffer(stamp);
  }

  lemma {:induction false} TagIsImageName(stamp: Stamp, service: Service)
    requires ValidStamp(stamp)
    ensures SelectionFiles.ImageName(TagOf(stamp, service))
  {
    var tag := TagOf(stamp, service);
    assert tag[0] == 't';
    assert forall i :: 0 <= i < |tag| ==> SelectionFiles.Alphanumeric(tag[i]) || tag[i] in ":-";
    forall i | 0 <= i <= |tag|
      ensures !Texts.StartsWith(tag[i..], "..") && !Texts.StartsWith(tag[i..], "//")
    {
      if |tag| - i >= 2 {
        assert tag[i..][..2][0] == tag[i];
      }
    }
  }

  lemma {:induction false} PublishedIsValid(revision: string, token: string, before: map<string, ImageId>,
                                            api: Capture, web: Capture)
    requires SelectionFiles.Revision(revision) && ValidToken(token)
    requires api.tag == TagOf(StampOf(revision, token), ApiService)
    requires web.tag == TagOf(StampOf(revision, token), WebService)
    requires SelectionFiles.ImageId(api.image) && SelectionFiles.Revision(api.revision)
    requires SelectionFiles.ImageId(web.image) && SelectionFiles.Revision(web.revision)
    requires NewTags(StampOf(revision, token), before)
    ensures NamedFor(revision, token, before, Rendered(SelectionOf(api, web)))
  {
    var stamp := StampOf(revision, token);
    TagIsImageName(stamp, ApiService);
    TagIsImageName(stamp, WebService);
    var common := "trainfactory-rollback-" + revision[..12] + "-" + token;
    assert TagOf(stamp, ApiService) == common + "-api:captured";
    assert TagOf(stamp, WebService) == common + "-web:captured";
  }

  /** The selection of the captured images and the manifest were published where nothing was. */
  predicate Written(before: map<Output, File>, now: map<Output, File>, api: Capture, web: Capture, m: Manifest) {
    now.Keys == {SelectionOutput, ManifestOutput} && before == map[] &&
    now[SelectionOutput].payload == Rendered(SelectionOf(api, web)) &&
    now[ManifestOutput].payload == ManifestJson(m)
  }

  lemma {:induction false} NothingBefore(before: map<Output, File>)
    requires SelectionOutput !in before && ManifestOutput !in before
    ensures before == map[]
  {
    forall p: Output ensures p !in before {
      assert p == SelectionOutput || p == ManifestOutput;
    }
  }

  /** Undoing all intents gives the tags back that were there in the beginning. */
  lemma {:induction false} TagsRestored(first: map<string, ImageId>, before: map<string, ImageId>,
                                        now: map<string, ImageId>, intents: seq<Intent>)
    requires TagsAccounted(first, before, intents) && OnlyIntendedGo(before, now, intents)
    ensures forall t :: t in first ==> t in now && now[t] == first[t]
    ensures TagsUndone(now, intents) ==> now == first
  {
  }

  lemma {:induction false} OutputsRestored(first: map<Output, File>, before: map<Output, File>, now: map<Output, File>,
                                           owned: map<Output, Inode>, left: set<Output>)
    requires OutputsAccounted(first, before, owned, left) && OnlyOwnedGo(before, now, owned)
    ensures forall p :: p in first ==> p in now && now[p] == first[p]
    ensures OutputsUndone(now, owned) && left == {} ==> now == first
  {
  }
}
