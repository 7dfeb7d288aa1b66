/** Requests as the S3 endpoints hand them to the object service, one after the other: every run of
    them is a run on version stacks, and what is proved of those runs holds of the service. */
module Service {
  import opened Common
  import opened Cipher
  import opened Storage
  import opened Tables
  import opened Usage
  import opened Modes
  import opened ObjectStore
  import opened Changes
  import opened Multipart
  import opened Objects
  import UriCodec
  import VS = VersionStacks

  datatype Request =
    | SetVersioning(bucket: Bucket, versioning: Versioning)
    | PutObject(bucket: Bucket, key: Key, source: Source, contentMd5: Option<string>, declaredLength: Option<nat>, maxBytes: Option<nat>)
    | GetObject(bucket: Bucket, key: Key)
    | CopyObject(bucket: Bucket, key: Key, versionId: Option<VersionId>, target: Bucket, targetKey: Key)
    | DeleteObject(bucket: Bucket, key: Key, versionId: Option<VersionId>)
    | CreateUpload(bucket: Bucket, key: Key)
    | UploadPart(bucket: Bucket, upload: UploadId, number: int, source: Source, contentMd5: Option<string>, declaredLength: Option<nat>,
                 maxBytes: Option<nat>)
    | CompleteUpload(bucket: Bucket, upload: UploadId, parts: seq<CompletePart>)
    | AbortUpload(bucket: Bucket, upload: UploadId)

  datatype Outcome = Done | Found(bytes: seq<byte>) | Refused

  /** The requests that, unless refused, are an operation on the stacks. */
  predicate Changing(request: Request)
  {
    !request.GetObject? && !request.CreateUpload? && !request.UploadPart? && !request.AbortUpload?
  }

  /** No route matches an empty key. */
  predicate Routed(request: Request) { request.CreateUpload? ==> request.key != "" }

  // ---- What a request asks for ----

  /** The bytes a reader of the version, or of the newest one, gets. */
  ghost predicate Reads(stacks: VS.Stacks, slot: Slot, versionId: Option<VersionId>, content: seq<byte>)
  {
    if versionId.None? then slot in VS.Live(stacks) && VS.Live(stacks)[slot] == content
    else VS.Entry(versionId.value, Some(content)) in VS.At(stacks, slot)
  }

  /** The operation a request stands for; which id it draws is up to the service. What a completed
      upload puts is the business of `CompleteMultipartUpload`. */
  ghost predicate Asks(s: VS.State, request: Request, op: VS.Op)
  {
    match request
    case SetVersioning(bucket, versioning) => op == VS.SetVersioning(bucket, versioning)
    case PutObject(bucket, key, source, _, _, _) => op.Put? && op.slot == (bucket, key) && op.content == Flatten(source.chunks)
    case CopyObject(bucket, key, versionId, target, targetKey) =>
      op.Put? && op.slot == (target, targetKey) && Reads(s.stacks, (bucket, key), versionId, op.content)
    case DeleteObject(bucket, key, versionId) =>
      if versionId.None? then op.Delete? && op.slot == (bucket, key) else op == VS.DeleteVersion((bucket, key), versionId.value)
    case CompleteUpload(bucket, upload, _) => op.Put? && op.slot == (upload.bucket, upload.key) && upload.bucket == bucket
    case _ => false
  }

  function Shown(view: map<Slot, seq<byte>>, slot: Slot): Outcome { if slot in view then Found(view[slot]) else Refused }

  // ---- One request ----

  datatype Moment = Moment(state: VS.State, t: Tables)

  ghost function Now(service: ObjectsService): Moment
    reads service, service.storage
  {
    Moment(VS.State(ModesOf(service.t), service.Stacks()), service.t)
  }

  /** No key and no upload is nameless. */
  ghost predicate Named(m: Moment)
  {
    (forall slot :: slot in m.state.stacks ==> slot.1 != "") && (forall upload :: upload in m.t.uploads ==> upload.key != "")
  }

  /** A request is answered by the operation it asks for, or refused without one; a read gets what the
      newest version holds. */
  ghost predicate Answered(s: VS.State, request: Request, outcome: Outcome, op: Option<VS.Op>)
  {
    && (op.Some? ==> Asks(s, request, op.value) && VS.Fresh(s, op.value))
    && (Changing(request) ==> (op.Some? <==> outcome == Done))
    && (request.GetObject? ==> outcome == Shown(VS.Live(s.stacks), (request.bucket, request.key)))
  }

  ghost predicate Handled(before: Moment, request: Request, outcome: Outcome, op: Option<VS.Op>, after: Moment)
  {
    && Answered(before.state, request, outcome, op)
    && after.state == (if op.Some? then VS.Apply(before.state, op.value) else before.state)
    && (WithinQuota(before.t) ==> WithinQuota(after.t))
    && (Named(before) && Routed(request) ==> Named(after))
  }

  lemma NothingHandled(m: Moment, request: Request)
    requires !request.GetObject?
    ensures Handled(m, request, Refused, None, m)
  {}

  /** The stacks a request leaves are those of its operation under the modes of all buckets. */
  lemma Performs(suite: Suite, t: Tables, blobs: Blobs, nextPath: Path, bucket: BucketRow, op: VS.Op, t': Tables)
    requires Sane(suite, t, blobs, nextPath) && SoundStacks(t, StacksOf(suite, t, blobs)) && t'.buckets == t.buckets
    requires bucket in t.buckets && !op.SetVersioning? && op.slot.0 == bucket.guid && (op.Put? || op.Delete? ==> op.draw == t.next)
    ensures var s := VS.State(ModesOf(t), StacksOf(suite, t, blobs));
            VS.Fresh(s, op) && VS.State(ModesOf(t'), Does(bucket, StacksOf(suite, t, blobs), op)) == VS.Apply(s, op)
  {
    hide StacksOf, ModesOf, Does, Sane, SoundStacks, VS.Fresh, VS.Apply;
    RequestIsStep(suite, t, blobs, nextPath, bucket, op);
    SameModes(t, t');
  }

  /** An operation that puts no nameless key makes none. */
  lemma StaysNamed(before: Moment, op: VS.Op, after: Moment)
    requires after.state == VS.Apply(before.state, op) && after.t.uploads.Keys <= before.t.uploads.Keys
    requires Named(before) && (op.Put? ==> op.slot.1 != "")
    ensures Named(after)
  {}

  method FindBucket(service: ObjectsService, guid: Bucket) returns (found: Option<BucketRow>)
    requires service.Valid()
    ensures found.None? <==> guid !in Guids(service.t.buckets)
    ensures found.Some? ==> found.value in service.t.buckets && found.value.guid == guid
  {
    var rows := Filter(service.t.buckets, (b: BucketRow) => b.guid == guid);
    if rows == [] {
      assert forall b :: b in service.t.buckets ==> b.guid != guid;
      return None;
    }
    assert rows[0] in rows;
    found := Some(rows[0]);
  }

  method Versioning(service: ObjectsService, request: Request) returns (outcome: Outcome, ghost op: Option<VS.Op>)
    requires service.Valid() && request.SetVersioning? && request.bucket in Guids(service.t.buckets)
    modifies service
    ensures service.Valid() && Handled(old(Now(service)), request, outcome, op, Now(service))
  {
    hide Sane, SoundStacks, StacksOf, ModesOf, WithinQuota, SetVersioningIn, VS.Live;
    var r := service.SetVersioning(request.bucket, request.versioning);
    if WithinQuota(old(service.t)) {
      SetWithinQuota(old(service.t), request.bucket, request.versioning);
    }
    if r.Err? {
      return Refused, None;
    }
    op := Some(VS.SetVersioning(request.bucket, request.versioning));
    outcome := Done;
  }

  method Get(service: ObjectsService, request: Request) returns (outcome: Outcome)
    requires service.Valid() && request.GetObject?
    ensures outcome == Shown(service.Live(), (request.bucket, request.key))
  {
    hide Sane, SoundStacks, StacksOf, VS.Live, Content;
    var slot := (request.bucket, request.key);
    LiveStacks(service.Stacks());
    var version := service.GetVersion(request.bucket, request.key, None);
    if version.Err? {
      return Refused;
    }
    TopLive(service.Stacks(), slot, EntryOf(service.storage.suite, service.storage.blobs, version.value));
    if version.value.isDeleteMarker {
      return Refused;
    }
    var read := service.ReadPayload(version.value, None);
    outcome := Found(read.value.bytes);
  }

  method Put(service: ObjectsService, bucket: BucketRow, request: Request) returns (outcome: Outcome, ghost op: Option<VS.Op>)
    requires service.Valid() && request.PutObject? && bucket in service.t.buckets && bucket.guid == request.bucket
    modifies service, service.storage
    ensures service.Valid() && Handled(old(Now(service)), request, outcome, op, Now(service))
  {
    hide Sane, SoundStacks, StacksOf, ModesOf, PartsOf, WithinQuota, VS.Live, Does, Makes, Refusal, Flatten, UriCodec.Utf8Text, VS.Apply, VS.Fresh;
    ghost var m := Now(service);
    var r := service.Put(bucket, request.key, request.source, request.contentMd5, request.declaredLength, request.maxBytes);
    if r.Err? {
      NothingHandled(m, request);
      return Refused, None;
    }
    ghost var put := VS.Put((bucket.guid, request.key), old(service.t.next), Flatten(request.source.chunks));
    Performs(service.storage.suite, old(service.t), old(service.storage.blobs), old(service.storage.nextPath), bucket, put, service.t);
    ghost var change := Commit(bucket, request.key, NewVersion(r.value.versionId, false, r.value.size, r.value.etag, Some(old(service.storage.nextPath)),
                                                               r.value.encryption));
    MakesWithinQuota(service.storage.suite, old(service.t), old(service.storage.blobs), old(service.storage.nextPath), change, service.t);
    if Named(m) {
      StaysNamed(m, put, Now(service));
    }
    op := Some(put);
    outcome := Done;
  }

  method Copy(service: ObjectsService, source: BucketRow, target: BucketRow, request: Request) returns (outcome: Outcome, ghost op: Option<VS.Op>)
    requires service.Valid() && request.CopyObject? && source in service.t.buckets && target in service.t.buckets
    requires source.guid == request.bucket && target.guid == request.target
    modifies service, service.storage
    ensures service.Valid() && Handled(old(Now(service)), request, outcome, op, Now(service))
  {
    hide Sane, SoundStacks, StacksOf, ModesOf, PartsOf, WithinQuota, VS.Live, Does, Makes, CopyRefusal, Content, VS.Apply, VS.Fresh;
    ghost var m := Now(service);
    NothingHandled(m, request);
    var version := service.GetVersion(source.guid, request.key, request.versionId);
    if version.Err? {
      return Refused, None;
    }
    TopReads(service.Stacks(), (source.guid, request.key), request.versionId, EntryOf(service.storage.suite, service.storage.blobs, version.value));
    var r := service.Copy(version.value, target, request.targetKey);
    if r.Err? {
      return Refused, None;
    }
    ghost var payload := old(Content(service.storage.suite, service.storage.blobs, version.value.path.value, version.value.encryption));
    ghost var put := VS.Put((target.guid, request.targetKey), old(service.t.next), payload);
    Performs(service.storage.suite, old(service.t), old(service.storage.blobs), old(service.storage.nextPath), target, put, service.t);
    ghost var v :| Makes(old(service.t), Commit(target, request.targetKey, v), service.t);
    MakesWithinQuota(service.storage.suite, old(service.t), old(service.storage.blobs), old(service.storage.nextPath),
                     Commit(target, request.targetKey, v), service.t);
    if Named(m) {
      NoNamelessCopy(old(service.t), target, request.targetKey, |payload|);
      StaysNamed(m, put, Now(service));
    }
    op := Some(put);
    outcome := Done;
  }

  lemma NoNamelessCopy(t: Tables, target: BucketRow, key: Key, size: nat)
    requires CopyRefusal(t, target, key, size) == None
    ensures key != ""
  {}

  /** A version found by its id, or on top of the stack, is what a reader gets. */
  lemma TopReads(stacks: VS.Stacks, slot: Slot, versionId: Option<VersionId>, e: VS.Entry)
    requires slot in stacks && if versionId.None? then stacks[slot] != [] && stacks[slot][|stacks[slot]| - 1] == e
                               else e in stacks[slot] && e.versionId == versionId.value
    ensures e.content.Some? ==> Reads(stacks, slot, versionId, e.content.value)
  {}

  method Delete(service: ObjectsService, bucket: BucketRow, request: Request) returns (outcome: Outcome, ghost op: Option<VS.Op>)
    requires service.Valid() && request.DeleteObject? && bucket in service.t.buckets && bucket.guid == request.bucket
    modifies service, service.storage
    ensures service.Valid() && Handled(old(Now(service)), request, outcome, op, Now(service))
  {
    hide Sane, SoundStacks, StacksOf, ModesOf, PartsOf, WithinQuota, VS.Live, Does, Makes, VS.Apply, VS.Fresh;
    ghost var m, t0, blobs0 := Now(service), service.t, service.storage.blobs;
    ghost var n0 := service.storage.nextPath;
    var slot := (bucket.guid, request.key);
    ghost var delete := if request.versionId.None? then VS.Delete(slot, service.t.next) else VS.DeleteVersion(slot, request.versionId.value);
    Performs(service.storage.suite, service.t, service.storage.blobs, service.storage.nextPath, bucket, delete, service.t);
    var r := service.Delete(bucket, request.key, request.versionId);
    if r.Err? {
      NothingHandled(m, request);
      return Refused, None;
    }
    SameModes(t0, service.t);
    if service.t != t0 {
      ghost var change :| Makes(t0, change, service.t);
      MakesWithinQuota(service.storage.suite, t0, blobs0, n0, change, service.t);
    }
    if Named(m) {
      StaysNamed(m, delete, Now(service));
    }
    op := Some(delete);
    outcome := Done;
  }

  method Complete(service: ObjectsService, bucket: BucketRow, request: Request) returns (outcome: Outcome, ghost op: Option<VS.Op>)
    requires service.Valid() && request.CompleteUpload? && bucket in service.t.buckets && bucket.guid == request.bucket
    modifies service, service.storage
    ensures service.Valid() && Handled(old(Now(service)), request, outcome, op, Now(service))
  {
    hide Sane, SoundStacks, StacksOf, ModesOf, PartsOf, WithinQuota, VS.Live, Does, Makes, Selection, FirstFault, Filter, VS.Apply, VS.Fresh;
    ghost var m := Now(service);
    var upload := request.upload;
    var r := service.CompleteMultipartUpload(bucket, upload, request.parts);
    if r.Err? {
      NothingHandled(m, request);
      return Refused, None;
    }
    ghost var put := VS.Put((upload.bucket, upload.key), old(service.t.next), Assembled(old(service.Parts()), upload, request.parts));
    Performs(service.storage.suite, old(service.t), old(service.storage.blobs), old(service.storage.nextPath), bucket, put, service.t);
    ghost var change :| Makes(old(service.t), change, service.t);
    MakesWithinQuota(service.storage.suite, old(service.t), old(service.storage.blobs), old(service.storage.nextPath), change, service.t);
    if Named(m) {
      StaysNamed(m, put, Now(service));
    }
    op := Some(put);
    outcome := Done;
  }

  /** The requests that leave the stacks alone. */
  method Stage(service: ObjectsService, bucket: BucketRow, request: Request) returns (outcome: Outcome)
    requires service.Valid() && bucket in service.t.buckets && bucket.guid == request.bucket
    requires request.CreateUpload? || request.UploadPart? || request.AbortUpload?
    modifies service, service.storage
    ensures service.Valid() && Handled(old(Now(service)), request, outcome, None, Now(service))
  {
    hide Sane, SoundStacks, StacksOf, ModesOf, PartsOf, WithinQuota, VS.Live, Does, Makes, Refusal, Flatten;
    ghost var m, t0, blobs0 := Now(service), service.t, service.storage.blobs;
    ghost var n0 := service.storage.nextPath;
    outcome := Done;
    match request {
      case CreateUpload(_, key) =>
        var upload := service.CreateMultipartUpload(bucket, key);
      case UploadPart(_, upload, number, source, contentMd5, declaredLength, maxBytes) =>
        var r := service.UploadPart(bucket, upload, number, source, contentMd5, declaredLength, maxBytes);
        outcome := if r.Ok? then Done else Refused;
      case AbortUpload(_, upload) =>
        var r := service.AbortMultipartUpload(bucket.guid, upload);
        outcome := if r.Ok? then Done else Refused;
    }
    SameModes(t0, service.t);
    if service.t != t0 {
      ghost var change :| Makes(t0, change, service.t);
      MakesWithinQuota(service.storage.suite, t0, blobs0, n0, change, service.t);
    }
  }

  /** A request on a bucket, or copy source, that does not exist is refused. */
  method Handle(service: ObjectsService, request: Request) returns (outcome: Outcome, ghost op: Option<VS.Op>)
    requires service.Valid()
    modifies service, service.storage
    ensures service.Valid() && Handled(old(Now(service)), request, outcome, op, Now(service))
  {
    hide Sane, SoundStacks, StacksOf, ModesOf, WithinQuota, VS.Live, Asks, VS.Fresh, Guids;
    op := None;
    if request.GetObject? {
      outcome := Get(service, request);
      return;
    }
    outcome := Refused;
    NothingHandled(Now(service), request);
    var found := FindBucket(service, request.bucket);
    if found.None? {
      return;
    }
    if request.CreateUpload? || request.UploadPart? || request.AbortUpload? {
      outcome := Stage(service, found.value, request);
      return;
    }
    match request {
      case SetVersioning(_, _) => outcome, op := Versioning(service, request);
      case PutObject(_, _, _, _, _, _) => outcome, op := Put(service, found.value, request);
      case CopyObject(_, _, _, target, _) =>
        var onto := FindBucket(service, target);
        if onto.Some? {
          outcome, op := Copy(service, found.value, onto.value, request);
        }
      case DeleteObject(_, _, _) => outcome, op := Delete(service, found.value, request);
      case CompleteUpload(_, _, _) => outcome, op := Complete(service, found.value, request);
      case _ =>
    }
  }

  // ---- Runs ----

  /** The operations that were performed, in order. */
  function Performed(trace: seq<Option<VS.Op>>): seq<VS.Op>
  {
    if trace == [] then []
    else
      var n := |trace| - 1;
      Performed(trace[..n]) + match trace[n] case None => [] case Some(op) => [op]
  }

  lemma PerformedSnoc(trace: seq<Option<VS.Op>>, op: Option<VS.Op>)
    ensures Performed(trace + [op]) == if op.Some? then Performed(trace) + [op.value] else Performed(trace)
  {
    assert (trace + [op])[..|trace|] == trace;
  }

  lemma {:induction false} PerformedIn(trace: seq<Option<VS.Op>>, op: VS.Op)
    requires op in Performed(trace)
    ensures Some(op) in trace
  {
    var n := |trace| - 1;
    if op in Performed(trace[..n]) {
      PerformedIn(trace[..n], op);
    }
  }

  /** Every request is answered in the state the operations before it lead to. */
  ghost predicate Transcript(s: VS.State, requests: seq<Request>, outcomes: seq<Outcome>, trace: seq<Option<VS.Op>>)
  {
    && |requests| == |outcomes| == |trace|
    && VS.FreshRun(s, Performed(trace))
    && forall i {:trigger requests[i]} :: 0 <= i < |requests| ==> Answered(VS.Run(s, Performed(trace[..i])), requests[i], outcomes[i], trace[i])
  }

  predicate NamesVersion(request: Request) { request.DeleteObject? && request.versionId.Some? }

  /** An operation that was performed was asked for. */
  lemma AskedFor(s: VS.State, requests: seq<Request>, outcomes: seq<Outcome>, trace: seq<Option<VS.Op>>, op: VS.Op) returns (i: nat)
    requires Transcript(s, requests, outcomes, trace) && op in Performed(trace)
    ensures i < |requests| && Asks(VS.Run(s, Performed(trace[..i])), requests[i], op)
  {
    hide Performed, VS.Run, VS.FreshRun, VS.Fresh, Asks;
    PerformedIn(trace, op);
    i :| 0 <= i < |trace| && trace[i] == Some(op);
    assert Answered(VS.Run(s, Performed(trace[..i])), requests[i], outcomes[i], trace[i]);
  }

  lemma {:induction false} PrefixPerformed(trace: seq<Option<VS.Op>>, i: nat, op: VS.Op)
    requires i <= |trace| && op in Performed(trace[..i])
    ensures op in Performed(trace)
  {
    if i < |trace| {
      var n := |trace| - 1;
      assert trace[..n][..i] == trace[..i];
      PrefixPerformed(trace[..n], i, op);
    } else {
      assert trace[..i] == trace;
    }
  }

  /** As long as no request deletes a version by name, every read of a run answers what a plain map
      holds that the same operations were performed on. */
  lemma ReadsShowMap(s: VS.State, requests: seq<Request>, outcomes: seq<Outcome>, trace: seq<Option<VS.Op>>, i: nat)
    requires Transcript(s, requests, outcomes, trace) && forall request :: request in requests ==> !NamesVersion(request)
    requires i <= |requests|
    ensures VS.Live(VS.Run(s, Performed(trace[..i])).stacks) == VS.RunMap(VS.Live(s.stacks), Performed(trace[..i]))
    ensures i < |requests| && requests[i].GetObject? ==>
              outcomes[i] == Shown(VS.RunMap(VS.Live(s.stacks), Performed(trace[..i])), (requests[i].bucket, requests[i].key))
  {
    hide Performed, VS.Run, VS.RunMap, VS.FreshRun, VS.Fresh, VS.Live;
    forall op | op in Performed(trace[..i])
      ensures !op.DeleteVersion?
    {
      PrefixPerformed(trace, i, op);
      var j := AskedFor(s, requests, outcomes, trace, op);
      assert requests[j] in requests;
    }
    VS.RunRefinesMap(s, Performed(trace[..i]));
    assert i < |requests| ==> Answered(VS.Run(s, Performed(trace[..i])), requests[i], outcomes[i], trace[i]);
  }

  lemma NamedByRequest(s: VS.State, requests: seq<Request>, outcomes: seq<Outcome>, trace: seq<Option<VS.Op>>, slot: Slot, id: VersionId)
    requires Transcript(s, requests, outcomes, trace) && VS.DeleteVersion(slot, id) in Performed(trace)
    ensures DeleteObject(slot.0, slot.1, Some(id)) in requests
  {
    hide Performed, VS.Run, VS.FreshRun;
    var j := AskedFor(s, requests, outcomes, trace, VS.DeleteVersion(slot, id));
    assert requests[j] in requests;
  }

  /** A version with an id of its own outlives every run without a request that deletes it by name. */
  lemma VersionsOutlive(s: VS.State, requests: seq<Request>, outcomes: seq<Outcome>, trace: seq<Option<VS.Op>>, slot: Slot, e: VS.Entry)
    requires Transcript(s, requests, outcomes, trace) && VS.Sound(s)
    requires e in VS.At(s.stacks, slot) && e.versionId != Null && DeleteObject(slot.0, slot.1, Some(e.versionId)) !in requests
    ensures e in VS.At(VS.Run(s, Performed(trace)).stacks, slot)
  {
    hide Performed, VS.Run, VS.FreshRun, VS.Fresh, VS.Sound, VS.At;
    if VS.DeleteVersion(slot, e.versionId) in Performed(trace) {
      NamedByRequest(s, requests, outcomes, trace, slot, e.versionId);
    }
    VS.OnlyNamedDeletesRemove(s, Performed(trace), slot, e);
  }

  /** Any number of requests, one after the other. */
  method Serve(service: ObjectsService, requests: seq<Request>) returns (outcomes: seq<Outcome>, ghost trace: seq<Option<VS.Op>>)
    requires service.Valid()
    modifies service, service.storage
    ensures service.Valid()
    ensures Transcript(old(Now(service)).state, requests, outcomes, trace)
    ensures Now(service).state == VS.Run(old(Now(service)).state, Performed(trace))
    ensures (forall request :: request in requests ==> !NamesVersion(request)) ==> service.Live() == VS.RunMap(old(service.Live()), Performed(trace))
    ensures forall slot, e :: e in VS.At(old(service.Stacks()), slot) && e.versionId != Null && DeleteObject(slot.0, slot.1, Some(e.versionId)) !in requests ==>
              e in VS.At(service.Stacks(), slot)
    ensures old(WithinQuota(service.t)) ==> WithinQuota(service.t)
    ensures old(Named(Now(service))) && (forall request :: request in requests ==> Routed(request)) ==> Named(Now(service))
  {
    hide Sane, SoundStacks, StacksOf, ModesOf, WithinQuota, Answered, Performed, Named, Routed, VS.Run, VS.FreshRun, VS.Apply, VS.Fresh;
    ghost var s := Now(service).state;
    outcomes, trace := [], [];
    NothingPerformed(s);
    for i := 0 to |requests|
      invariant service.Valid()
      invariant Transcript(s, requests[..i], outcomes, trace)
      invariant Now(service).state == VS.Run(s, Performed(trace))
      invariant old(WithinQuota(service.t)) ==> WithinQuota(service.t)
      invariant old(Named(Now(service))) && (forall request :: request in requests[..i] ==> Routed(request)) ==> Named(Now(service))
    {
      var outcome, op := Handle(service, requests[i]);
      assert requests[..i + 1] == requests[..i] + [requests[i]];
      TranscriptSnoc(s, requests[..i], outcomes, trace, requests[i], outcome, op);
      outcomes, trace := outcomes + [outcome], trace + [op];
    }
    assert requests[..|requests|] == requests;
    assert trace[..|trace|] == trace;
    if forall request :: request in requests ==> !NamesVersion(request) {
      ReadsShowMap(s, requests, outcomes, trace, |requests|);
    }
    forall slot, e | e in VS.At(s.stacks, slot) && e.versionId != Null && DeleteObject(slot.0, slot.1, Some(e.versionId)) !in requests
      ensures e in VS.At(service.Stacks(), slot)
    {
      SoundState(old(service.t), s);
      VersionsOutlive(s, requests, outcomes, trace, slot, e);
    }
  }

  lemma SoundState(t: Tables, s: VS.State)
    requires SoundStacks(t, s.stacks) && s.modes == ModesOf(t)
    ensures VS.Sound(s)
  {}

  lemma NothingPerformed(s: VS.State)
    ensures VS.Run(s, Performed([])) == s && Transcript(s, [], [], [])
  {}

  lemma TranscriptSnoc(s: VS.State, requests: seq<Request>, outcomes: seq<Outcome>, trace: seq<Option<VS.Op>>, request: Request, outcome: Outcome,
                       op: Option<VS.Op>)
    requires Transcript(s, requests, outcomes, trace) && Answered(VS.Run(s, Performed(trace)), request, outcome, op)
    ensures Transcript(s, requests + [request], outcomes + [outcome], trace + [op])
    ensures VS.Run(s, Performed(trace + [op]))
            == if op.Some? then VS.Apply(VS.Run(s, Performed(trace)), op.value) else VS.Run(s, Performed(trace))
  {
    hide Performed, VS.Run, VS.FreshRun, VS.Apply, VS.Fresh, Asks;
    PerformedSnoc(trace, op);
    if op.Some? {
      VS.RunSnoc(s, Performed(trace), op.value);
    }
    forall i | 0 <= i < |requests + [request]|
      ensures Answered(VS.Run(s, Performed((trace + [op])[..i])), (requests + [request])[i], (outcomes + [outcome])[i], (trace + [op])[i])
    {
      assert (trace + [op])[..i] == trace[..i];
      assert trace[..|trace|] == trace;
      assert i < |requests| ==> Answered(VS.Run(s, Performed(trace[..i])), requests[i], outcomes[i], trace[i]);
    }
  }
}
