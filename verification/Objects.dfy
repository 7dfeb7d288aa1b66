/** `ObjectsService`: the requests on objects and multipart uploads, run one at a time over the
    tables and the blob store. Each is proved to be one operation on version stacks. */
module Objects {
  import opened Common
  import opened Cipher
  import opened Storage
  import opened Tables
  import opened Usage
  import opened ObjectStore
  import opened Changes
  import opened Modes
  import opened Multipart
  import FM = FolderMove
  import Listing
  import LL = LiveListing
  import Text
  import UriCodec
  import VS = VersionStacks

  const MAX_KEY_BYTES := 1024
  const MAX_PART_NUMBER := 10000

  datatype Error =
    | InvalidVersioning
    | InvalidKey
    | ObjectNotFound
    | VersionNotFound
    | UploadNotFound
    | BadDigest
    | Quota(quota: QuotaError)
    | Part(part: PartError)
    | Blob(blob: Storage.Error)

  datatype PutResult = PutResult(versionId: VersionId, etag: string, size: nat, encryption: Encryption)

  datatype DeleteResult = DeleteResult(versionId: Option<VersionId>, isDeleteMarker: bool)

  datatype PartResult = PartResult(etag: string, size: nat, encryption: Encryption)

  // ---- Keys ----

  /** Non-empty, at most 1024 UTF-8 bytes, no control characters. */
  predicate ValidKey(key: Key)
  {
    && key != "" && |UriCodec.Utf8Text(key)| <= MAX_KEY_BYTES
    && forall i :: 0 <= i < |key| ==> key[i] >= ' ' && key[i] != '\U{7f}'
  }

  // ---- Why a payload is refused ----

  function QuotaRefusal(t: Tables, bucket: BucketRow, bytes: nat): Option<Error>
  {
    match AssertQuota(t, bucket, bytes) case None => None case Some(e) => Some(Quota(e))
  }

  /** The checks in the order they are made: the announced size against the ceiling and the quotas,
      then - the payload having arrived - its real size, whether it is complete, its digest and the
      quotas again. */
  function Refusal(t: Tables, bucket: BucketRow, size: nat, etag: string, broken: bool, contentMd5: Option<string>, declaredLength: Option<nat>,
                   maxBytes: Option<nat>): Option<Error>
  {
    if declaredLength.Some? && maxBytes.Some? && declaredLength.value > maxBytes.value then Some(Blob(PayloadTooLarge))
    else if QuotaRefusal(t, bucket, if declaredLength.Some? then declaredLength.value else 0).Some? then
      QuotaRefusal(t, bucket, if declaredLength.Some? then declaredLength.value else 0)
    else if maxBytes.Some? && size > maxBytes.value then Some(Blob(PayloadTooLarge))
    else if broken then Some(Blob(SourceBroken))
    else if contentMd5.Some? && contentMd5.value != etag then Some(BadDigest)
    else QuotaRefusal(t, bucket, size)
  }

  /** Neither the announced nor the real size is above the ceiling, the payload is complete and has the
      announced digest, and the quotas leave room for both sizes. */
  predicate Accepts(t: Tables, bucket: BucketRow, source: Source, etag: string, contentMd5: Option<string>, declaredLength: Option<nat>,
                    maxBytes: Option<nat>)
  {
    var size := |Flatten(source.chunks)|;
    && (maxBytes.Some? ==> size <= maxBytes.value && (declaredLength.Some? ==> declaredLength.value <= maxBytes.value))
    && !source.broken && (contentMd5.Some? ==> contentMd5.value == etag)
    && (declaredLength.Some? ==> AssertQuota(t, bucket, declaredLength.value) == None) && AssertQuota(t, bucket, size) == None
  }

  /** That is when a payload is taken in; otherwise the reason given is a true one. */
  lemma RefusalExact(t: Tables, bucket: BucketRow, source: Source, etag: string, contentMd5: Option<string>, declaredLength: Option<nat>,
                     maxBytes: Option<nat>)
    ensures var size := |Flatten(source.chunks)|;
            var refusal := Refusal(t, bucket, size, etag, source.broken, contentMd5, declaredLength, maxBytes);
            && (refusal == None <==> Accepts(t, bucket, source, etag, contentMd5, declaredLength, maxBytes))
            && (refusal == Some(BadDigest) ==> contentMd5.Some? && contentMd5.value != etag && !source.broken)
            && (refusal == Some(Blob(PayloadTooLarge)) ==>
                  maxBytes.Some? && (size > maxBytes.value || (declaredLength.Some? && declaredLength.value > maxBytes.value)))
            && (refusal == Some(Blob(SourceBroken)) ==> source.broken)
  {
    hide AssertQuota, Flatten;
    AnnouncedNothing(t, bucket, |Flatten(source.chunks)|);
  }

  /** Where a payload fits, nothing fits as well. */
  lemma AnnouncedNothing(t: Tables, bucket: BucketRow, size: nat)
    ensures AssertQuota(t, bucket, size) == None ==> AssertQuota(t, bucket, 0) == None
  {
    AssertQuotaExact(t, bucket, size);
    AssertQuotaExact(t, bucket, 0);
  }

  lemma ValidKeyExact(key: Key)
    ensures ValidKey(key) <==> 0 < |UriCodec.Utf8Text(key)| <= 1024 && forall c :: c in key ==> 32 <= c as int != 127
  {
    hide UriCodec.Utf8;
    assert key != "" ==> UriCodec.Utf8Text(key) == UriCodec.Utf8(key[0]) + UriCodec.Utf8Text(key[1..]);
    if ValidKey(key) {
      forall c | c in key
        ensures 32 <= c as int != 127
      {
        var i :| 0 <= i < |key| && key[i] == c;
      }
    } else if forall c :: c in key ==> 32 <= c as int != 127 {
      forall i | 0 <= i < |key|
        ensures key[i] >= ' ' && key[i] != '\U{7f}'
      {
        assert key[i] in key;
      }
    }
  }

  /** A copy announces no size and carries no digest. */
  function CopyRefusal(t: Tables, target: BucketRow, key: Key, size: nat): Option<Error>
  {
    if !ValidKey(key) then Some(InvalidKey)
    else if QuotaRefusal(t, target, 0).Some? then QuotaRefusal(t, target, 0)
    else QuotaRefusal(t, target, size)
  }

  lemma UnannouncedRefusal(t: Tables, target: BucketRow, size: nat, etag: string)
    ensures Refusal(t, target, size, etag, false, None, None, None)
            == if QuotaRefusal(t, target, 0).Some? then QuotaRefusal(t, target, 0) else QuotaRefusal(t, target, size)
  {}

  /** Why one round of the copying loop stops it: the key is not there, or its bytes are refused. A
      key under a delete marker is passed over. */
  ghost function CopyError(t: Tables, stacks: VS.Stacks, source: BucketRow, target: BucketRow, key: Key, destination: Key): Option<Error>
  {
    if (source.guid, key) !in stacks then Some(ObjectNotFound)
    else if (source.guid, key) !in VS.Live(stacks) then None
    else CopyRefusal(t, target, destination, |VS.Live(stacks)[(source.guid, key)]|)
  }

  /** The requests `copyKeys` turns down before it looks at a key. */
  predicate CopyGuard(source: BucketRow, target: BucketRow, sourceKey: Key, targetKey: Key)
  {
    && sourceKey != "" && targetKey != ""
    && !(source.guid == target.guid && (sourceKey == targetKey || (FM.EndsWithSlash(sourceKey) && sourceKey <= targetKey)))
  }

  /** The keys `copyKeys` goes through: the one named, or all that are stored under the folder. */
  ghost predicate KeysToCopy(stacks: VS.Stacks, bucket: Bucket, sourceKey: Key, keys: seq<Key>)
  {
    if FM.EndsWithSlash(sourceKey) then FM.Starts(sourceKey, keys) && Text.Ascending(keys) && forall key :: key in keys <==> (bucket, key) in stacks && sourceKey <= key
    else keys == [sourceKey]
  }

  // ---- Requests ----

  /** The id a request draws is fresh in its key's stack. */
  lemma DrawIsFresh(suite: Suite, t: Tables, blobs: Blobs, nextPath: Path, op: VS.Op)
    requires Sane(suite, t, blobs, nextPath) && (op.Put? || op.Delete? ==> op.draw == t.next)
    ensures VS.Fresh(VS.State(ModesOf(t), StacksOf(suite, t, blobs)), op)
  {
    hide Filter, TablesSound, Stored, Content, ModesOf;
    if (op.Put? || op.Delete?) && op.slot in t.objects {
      var history := History(t, t.objects[op.slot].id);
      SaneTables(suite, t, blobs, nextPath);
      forall i | 0 <= i < |history|
        ensures history[i].versionId != Random(t.next)
      {
        HistoryRows(t, t.objects[op.slot].id, history[i]);
        OldRow(t, history[i]);
      }
    }
  }

  /** So every request of the service is a step of the stack runs, which keeps them sound. */
  lemma RequestIsStep(suite: Suite, t: Tables, blobs: Blobs, nextPath: Path, bucket: BucketRow, op: VS.Op)
    requires Sane(suite, t, blobs, nextPath) && SoundStacks(t, StacksOf(suite, t, blobs))
    requires bucket in t.buckets && !op.SetVersioning? && op.slot.0 == bucket.guid && (op.Put? || op.Delete? ==> op.draw == t.next)
    ensures var s := VS.State(ModesOf(t), StacksOf(suite, t, blobs));
            && VS.Fresh(s, op) && VS.Apply(s, op) == VS.State(ModesOf(t), Does(bucket, StacksOf(suite, t, blobs), op))
            && SoundStacks(t, Does(bucket, StacksOf(suite, t, blobs), op))
  {
    hide StacksOf, ModesOf, Does, Stored, Consistent, UniquePaths, UniqueParts, UploadsSound, VS.Sound, VS.Fresh, VS.Apply;
    DrawIsFresh(suite, t, blobs, nextPath, op);
    DoesIsApply(t, bucket, StacksOf(suite, t, blobs), op);
    VS.StepSound(VS.State(ModesOf(t), StacksOf(suite, t, blobs)), op);
  }

  lemma RequestKeeps(suite: Suite, t: Tables, blobs: Blobs, nextPath: Path, bucket: BucketRow, op: VS.Op, t': Tables)
    requires Sane(suite, t, blobs, nextPath) && SoundStacks(t, StacksOf(suite, t, blobs)) && t'.buckets == t.buckets
    requires bucket in t.buckets && !op.SetVersioning? && op.slot.0 == bucket.guid && (op.Put? || op.Delete? ==> op.draw == t.next)
    ensures SoundStacks(t', Does(bucket, StacksOf(suite, t, blobs), op))
  {
    hide StacksOf, Does, Sane, SoundStacks, VS.Apply, VS.Fresh;
    RequestIsStep(suite, t, blobs, nextPath, bucket, op);
    SoundUnder(t, t', Does(bucket, StacksOf(suite, t, blobs), op));
  }

  lemma SetVersioningSane(suite: Suite, t: Tables, blobs: Blobs, nextPath: Path, buckets: seq<BucketRow>)
    requires Sane(suite, t, blobs, nextPath) && DistinctBuckets(buckets)
    ensures Sane(suite, t.(buckets := buckets), blobs, nextPath)
    ensures StacksOf(suite, t.(buckets := buckets), blobs) == StacksOf(suite, t, blobs)
  {
    hide Filter, Consistent, UniquePaths, DistinctBuckets, VersionStored, PartStored, StacksOf;
    var t' := t.(buckets := buckets);
    SameVersions(t, t');
    SamePaths(t, t');
    SameObjects(suite, t, t', blobs);
    forall path: Path
      ensures Claimed(t', path) <==> Claimed(t, path)
    {
      SameClaims(t, t', path);
    }
    hide Claimed;
  }

  lemma SameClaims(t: Tables, t': Tables, path: Path)
    requires t'.versions == t.versions && t'.parts == t.parts
    ensures Claimed(t', path) <==> Claimed(t, path)
  {}

  /** The tables move by one allowed change. */
  ghost predicate Makes(t: Tables, change: Change, t': Tables) { Allowed(t, change) && t' == Changed(t, change) }

  lemma SameBuckets(t: Tables, change: Change)
    ensures Changed(t, change).buckets == t.buckets && Changed(t, change).users == t.users
    ensures change.Commit? || change.Drop? || change.Purge? || change.StorePart? ==> Changed(t, change).uploads == t.uploads
  {
    hide Filter;
  }

  /** A drawn id was never used. */
  lemma DrawFresh(t: Tables, versioning: Versioning, v: NewVersion)
    requires Consistent(t) && v.versionId == VS.NextVersionId(versioning, t.next)
    requires if v.isDeleteMarker then v.path == None && v.size == 0 else v.path.Some?
    ensures Committable(t, v)
  {
    hide Filter, ObjectSound, Rising, DistinctIds;
    forall w | w in t.versions
      ensures w.versionId != Random(t.next)
    {
      assert RowSound(t, w);
    }
  }

  /** A sane store after a fresh blob has been written to it. */
  lemma Written(suite: Suite, t: Tables, blobs: Blobs, path: Path, bytes: seq<byte>)
    requires Sane(suite, t, blobs, path)
    ensures var blobs' := blobs[path := bytes];
            && TablesSound(t) && Stored(suite, t, blobs') && !Claimed(t, path)
            && StacksOf(suite, t, blobs') == StacksOf(suite, t, blobs)
            && PartsOf(suite, t.parts, blobs') == PartsOf(suite, t.parts, blobs)
            && (forall p: Path :: p in blobs' <==> Claimed(t, p) || p == path)
            && (forall p: Path :: p in blobs' ==> p < path + 1)
  {
    hide Stored, Claimed, TablesSound, StacksOf, PartsOf;
    Untouched(suite, t, blobs, path, bytes);
    SameStacks(suite, t, blobs, blobs[path := bytes]);
  }

  lemma PutSettles(suite: Suite, t: Tables, blobs: Blobs, path: Path, bytes: seq<byte>, bucket: BucketRow, key: Key, v: NewVersion, payload: seq<byte>)
    requires Sane(suite, t, blobs, path) && bucket in t.buckets
    requires v.versionId == VS.NextVersionId(bucket.versioning, t.next)
    requires !v.isDeleteMarker && v.size == |payload| && v.path == Some(path)
    requires Load(suite, bytes, v.encryption) == Ok(payload) && AssertQuota(t, bucket, v.size) == None
    ensures Makes(t, Commit(bucket, key, v), CommitVersion(t, (bucket.guid, key), v))
    ensures var t' := CommitVersion(t, (bucket.guid, key), v);
            var kept := blobs[path := bytes] - PathSet(Replaced(t, (bucket.guid, key), v));
            && Sane(suite, t', kept, path + 1)
            && StacksOf(suite, t', kept) == Does(bucket, StacksOf(suite, t, blobs), VS.Put((bucket.guid, key), t.next, payload))
            && PartsOf(suite, t'.parts, kept) == PartsOf(suite, t.parts, blobs)
  {
    hide Filter, Load, Stored, Claimed, Replaced, CommitVersion, Committable, StacksOf, PartsOf, Consistent, UniquePaths, UniqueParts, UploadsSound, DistinctBuckets, AssertQuota, Sane;
    Written(suite, t, blobs, path, bytes);
    DrawFresh(t, bucket.versioning, v);
    CommitSettles(suite, t, blobs[path := bytes], (bucket.guid, key), v, path + 1);
  }

  lemma MarkerSettles(suite: Suite, t: Tables, blobs: Blobs, nextPath: Path, bucket: BucketRow, key: Key)
    requires Sane(suite, t, blobs, nextPath) && bucket in t.buckets && bucket.versioning != Disabled && (bucket.guid, key) in t.objects
    ensures var v := Marker(VS.NextVersionId(bucket.versioning, t.next));
            var t' := CommitVersion(t, (bucket.guid, key), v);
            var kept := blobs - PathSet(Replaced(t, (bucket.guid, key), v));
            && Makes(t, Commit(bucket, key, v), t')
            && Sane(suite, t', kept, nextPath)
            && StacksOf(suite, t', kept) == Does(bucket, StacksOf(suite, t, blobs), VS.Delete((bucket.guid, key), t.next))
            && PartsOf(suite, t'.parts, kept) == PartsOf(suite, t.parts, blobs)
  {
    hide Filter, Stored, Claimed, Replaced, CommitVersion, Committable, PartsOf, Consistent, UniquePaths, UniqueParts, UploadsSound, DistinctBuckets, AssertQuota, StackOf;
    DrawFresh(t, bucket.versioning, Marker(VS.NextVersionId(bucket.versioning, t.next)));
    CommitSettles(suite, t, blobs, (bucket.guid, key), Marker(VS.NextVersionId(bucket.versioning, t.next)), nextPath);
  }

  lemma PartSettles(suite: Suite, t: Tables, blobs: Blobs, bytes: seq<byte>, bucket: BucketRow, part: PartRow, payload: seq<byte>)
    requires Sane(suite, t, blobs, part.path) && bucket in t.buckets
    requires part.upload.bucket == bucket.guid && InProgressUpload(t, part.upload) && part.size == |payload|
    requires Load(suite, bytes, part.encryption) == Ok(payload) && AssertQuota(t, bucket, part.size) == None
    ensures Makes(t, StorePart(bucket, part), UpsertPart(t, part))
    ensures var t', previous := UpsertPart(t, part), PreviousPath(t, part.upload, part.number);
            var written := blobs[part.path := bytes];
            var kept := if previous.Some? then written - {previous.value} else written;
            && Sane(suite, t', kept, part.path + 1)
            && StacksOf(suite, t', kept) == StacksOf(suite, t, blobs)
            && PartsOf(suite, t'.parts, kept) == PartsOf(suite, t.parts, blobs)[(part.upload, part.number) := payload]
  {
    hide Filter, Load, Stored, Claimed, PreviousPath, UpsertPart, StacksOf, PartsOf, TablesSound, AssertQuota, Sane;
    Written(suite, t, blobs, part.path, bytes);
    StorePartSound(t, part);
    StorePartSettles(suite, t, blobs[part.path := bytes], part, part.path + 1);
  }

  lemma CompleteSettles(suite: Suite, t: Tables, blobs: Blobs, path: Path, bytes: seq<byte>, bucket: BucketRow, upload: UploadId,
                        selected: seq<PartRow>, v: NewVersion, payload: seq<byte>)
    requires Sane(suite, t, blobs, path) && bucket in t.buckets && upload.bucket == bucket.guid && InProgressUpload(t, upload)
    requires Ascending(selected) && forall p :: p in selected ==> p in t.parts && p.upload == upload
    requires v.versionId == VS.NextVersionId(bucket.versioning, t.next)
    requires !v.isDeleteMarker && v.size == |payload| == PartSizes(selected) && v.path == Some(path)
    requires Load(suite, bytes, v.encryption) == Ok(payload)
    ensures Makes(t, CompleteUpload(bucket, upload, selected, v), Complete(t, upload, v))
    ensures var slot := (upload.bucket, upload.key);
            var t' := Complete(t, upload, v);
            var kept := blobs[path := bytes] - (PathSet(StoredPaths(t, upload)) + PathSet(Replaced(t, slot, v)));
            && Sane(suite, t', kept, path + 1)
            && StacksOf(suite, t', kept) == Does(bucket, StacksOf(suite, t, blobs), VS.Put(slot, t.next, payload))
            && PartsOf(suite, t'.parts, kept) == WithoutUpload(PartsOf(suite, t.parts, blobs), upload)
  {
    hide Filter, Load, Stored, Claimed, Replaced, StoredPaths, CommitVersion, Committable, StacksOf, PartsOf, Consistent, UniquePaths, UniqueParts,
         UploadsSound, DistinctBuckets, AssertQuota, Sane, Ascending, PartSizes, DeleteParts, SetStatus, VS.Push;
    var slot := (upload.bucket, upload.key);
    var blobs' := blobs[path := bytes];
    Written(suite, t, blobs, path, bytes);
    DrawFresh(t, bucket.versioning, v);
    CommitSound(t, slot, v);
    CommitStored(suite, t, blobs', slot, v);
    CommitReleases(t, blobs', slot, v);
    CommitPushes(suite, t, blobs', slot, v);
    CommitUploads(t, slot, v);
    var t1 := CommitVersion(t, slot, v);
    RetireSound(t1, upload, Completed);
    RetireSettles(suite, t1, blobs', upload, Completed, PathSet(Replaced(t, slot, v)), path + 1);
    SameStoredPaths(t, t1, upload);
  }

  lemma SameStoredPaths(t: Tables, t': Tables, upload: UploadId)
    requires t'.parts == t.parts
    ensures StoredPaths(t', upload) == StoredPaths(t, upload)
  {}

  lemma AbortSettles(suite: Suite, t: Tables, blobs: Blobs, nextPath: Path, upload: UploadId)
    requires Sane(suite, t, blobs, nextPath) && InProgressUpload(t, upload)
    ensures var t' := SetStatus(DeleteParts(t, upload), upload, Aborted);
            var kept := blobs - PathSet(StoredPaths(t, upload));
            && Makes(t, AbortUpload(upload), t')
            && Sane(suite, t', kept, nextPath)
            && StacksOf(suite, t', kept) == StacksOf(suite, t, blobs)
            && PartsOf(suite, t'.parts, kept) == WithoutUpload(PartsOf(suite, t.parts, blobs), upload)
  {
    hide Filter, Stored, Claimed, StoredPaths, StacksOf, PartsOf, TablesSound;
    RetireSound(t, upload, Aborted);
    RetireSettles(suite, t, blobs, upload, Aborted, {}, nextPath);
    assert PathSet(StoredPaths(t, upload)) + {} == PathSet(StoredPaths(t, upload));
    RetireOrder(t, upload, Aborted);
  }

  /** Dropping an upload's parts and setting its status may be done in either order. */
  lemma RetireOrder(t: Tables, upload: UploadId, status: UploadStatus)
    ensures SetStatus(DeleteParts(t, upload), upload, status) == DeleteParts(SetStatus(t, upload, status), upload)
  {}

  lemma OpenSettles(suite: Suite, t: Tables, blobs: Blobs, nextPath: Path, slot: Slot)
    requires Sane(suite, t, blobs, nextPath)
    ensures Makes(t, OpenUpload(slot), CreateUpload(t, slot))
    ensures Sane(suite, CreateUpload(t, slot), blobs, nextPath)
    ensures StacksOf(suite, CreateUpload(t, slot), blobs) == StacksOf(suite, t, blobs)
  {
    hide Filter, StacksOf, Consistent, UniquePaths;
    ChangeSound(t, OpenUpload(slot));
    SameObjects(suite, t, CreateUpload(t, slot), blobs);
  }

  lemma StillSane(suite: Suite, t: Tables, blobs: Blobs, nextPath: Path, nextPath': Path)
    requires Sane(suite, t, blobs, nextPath) && nextPath <= nextPath'
    ensures Sane(suite, t, blobs, nextPath')
  {}

  lemma SaneTables(suite: Suite, t: Tables, blobs: Blobs, nextPath: Path)
    requires Sane(suite, t, blobs, nextPath)
    ensures TablesSound(t) && Consistent(t) && Stored(suite, t, blobs)
  {}

  /** Rows and stacks name the same versions. */
  lemma RowInStack(suite: Suite, t: Tables, blobs: Blobs, slot: Slot, v: VersionRow)
    requires slot in t.objects
    requires v in t.versions && v.objectGuid == t.objects[slot].id
    ensures EntryOf(suite, blobs, v) in StacksOf(suite, t, blobs)[slot]
  {
    hide Filter, EntryOf;
    var history := History(t, t.objects[slot].id);
    assert v in history;
    var i :| 0 <= i < |history| && history[i] == v;
    assert StacksOf(suite, t, blobs)[slot][i] == EntryOf(suite, blobs, v);
  }

  lemma StackRow(suite: Suite, t: Tables, blobs: Blobs, slot: Slot, id: VersionId)
    requires slot in t.objects && exists e :: e in StacksOf(suite, t, blobs)[slot] && e.versionId == id
    ensures exists v :: v in t.versions && v.objectGuid == t.objects[slot].id && v.versionId == id
  {
    hide Filter;
    var history := History(t, t.objects[slot].id);
    var e :| e in StacksOf(suite, t, blobs)[slot] && e.versionId == id;
    var i :| 0 <= i < |history| && EntryOf(suite, blobs, history[i]) == e;
    HistoryRows(t, t.objects[slot].id, history[i]);
  }

  /** The row the `latest` field names is the top of the stack. */
  lemma LatestTop(suite: Suite, t: Tables, blobs: Blobs, slot: Slot, v: VersionRow)
    requires Consistent(t) && slot in t.objects && v in t.versions && Some(v.guid) == t.objects[slot].latest
    ensures var stack := StacksOf(suite, t, blobs)[slot];
            stack != [] && stack[|stack| - 1] == EntryOf(suite, blobs, v) && v.objectGuid == t.objects[slot].id
  {
    hide Filter, EntryOf, Consistent, Load;
    var history := History(t, t.objects[slot].id);
    LatestRow(t, slot);
    var top := history[|history| - 1];
    assert top in history;
    HistoryRows(t, t.objects[slot].id, top);
    GuidUnique(t, v, top);
  }

  /** The objects a bucket's usage counts are those a client sees in it. */
  lemma UsageCountsLive(suite: Suite, t: Tables, blobs: Blobs, nextPath: Path, bucket: Bucket)
    requires Sane(suite, t, blobs, nextPath)
    ensures BucketUsage(t, bucket).objectCount == |set slot | slot in VS.Live(StacksOf(suite, t, blobs)) && slot.0 == bucket|
    ensures BucketUsage(t, bucket).totalBytes == BucketUsage(t, bucket).versionBytes + BucketUsage(t, bucket).multipartBytes == Bytes(t, bucket)
  {
    hide Filter, Stored, UniquePaths, UniqueParts, UploadsSound, VersionSizes, PartSizes, Visible, VS.Live, StacksOf;
    forall slot
      ensures slot in t.objects && Visible(t, slot) <==> slot in VS.Live(StacksOf(suite, t, blobs))
    {
      VisibleLive(suite, t, blobs, slot);
    }
    assert (set slot | slot in t.objects && slot.0 == bucket && Visible(t, slot))
           == (set slot | slot in VS.Live(StacksOf(suite, t, blobs)) && slot.0 == bucket);
  }

  lemma VisibleLive(suite: Suite, t: Tables, blobs: Blobs, slot: Slot)
    requires Consistent(t)
    ensures slot in t.objects && Visible(t, slot) <==> slot in VS.Live(StacksOf(suite, t, blobs))
  {
    hide Filter, Consistent, Content, StackOf;
    if slot in t.objects {
      LatestRow(t, slot);
      var history := History(t, t.objects[slot].id);
      var top := history[|history| - 1];
      LatestTop(suite, t, blobs, slot, top);
      OldRow(t, top);
      forall v | v in t.versions && Some(v.guid) == t.objects[slot].latest
        ensures v == top
      {
        GuidUnique(t, v, top);
      }
    }
  }

  lemma LatestRow(t: Tables, slot: Slot)
    requires Consistent(t) && slot in t.objects
    ensures var history := History(t, t.objects[slot].id);
            history != [] && t.objects[slot].latest == Some(history[|history| - 1].guid) && history[|history| - 1] in t.versions
  {
    hide Filter;
    assert ObjectSound(t, slot);
    var history := History(t, t.objects[slot].id);
    assert history[|history| - 1] in history;
    HistoryRows(t, t.objects[slot].id, history[|history| - 1]);
  }

  /** A named version is on record exactly when its id is in the stack; removing one that is not
      changes nothing. */
  lemma NamedInStack(suite: Suite, t: Tables, blobs: Blobs, slot: Slot, id: VersionId)
    requires slot in t.objects && Consistent(t)
    ensures (exists v :: v in t.versions && v.objectGuid == t.objects[slot].id && v.versionId == id)
            <==> exists e :: e in StacksOf(suite, t, blobs)[slot] && e.versionId == id
    ensures (forall e :: e in StacksOf(suite, t, blobs)[slot] ==> e.versionId != id)
            ==> VS.Remove(StacksOf(suite, t, blobs), slot, id) == StacksOf(suite, t, blobs)
  {
    hide Filter, EntryOf, Consistent, StackOf;
    var stack := StacksOf(suite, t, blobs)[slot];
    if v :| v in t.versions && v.objectGuid == t.objects[slot].id && v.versionId == id {
      RowInStack(suite, t, blobs, slot, v);
      EntryId(suite, blobs, v);
    }
    if e :| e in stack && e.versionId == id {
      StackRow(suite, t, blobs, slot, id);
    } else {
      FilterAll(stack, VS.Without(id));
      ObjectOf(t, slot);
      StackNotEmpty(suite, t, blobs, slot);
    }
  }

  /** The stack's one entry with a row's id has no bytes exactly when the row is a delete marker. */
  lemma RowEntry(suite: Suite, t: Tables, blobs: Blobs, nextPath: Path, slot: Slot, v: VersionRow)
    requires Sane(suite, t, blobs, nextPath) && SoundStacks(t, StacksOf(suite, t, blobs))
    requires slot in t.objects && v in t.versions && v.objectGuid == t.objects[slot].id
    ensures forall e :: e in StacksOf(suite, t, blobs)[slot] && e.versionId == v.versionId ==> (v.isDeleteMarker <==> e.content.None?)
  {
    hide Filter, Stored, UniquePaths, UniqueParts, UploadsSound, ModesOf, StackOf, ObjectSound, Rising, DistinctIds, Content;
    RowInStack(suite, t, blobs, slot, v);
    assert RowSound(t, v);
    forall e | e in StacksOf(suite, t, blobs)[slot] && e.versionId == v.versionId
      ensures e == EntryOf(suite, blobs, v)
    {
      OneEntry(StacksOf(suite, t, blobs)[slot], e, EntryOf(suite, blobs, v));
    }
  }

  lemma OneEntry(stack: seq<VS.Entry>, a: VS.Entry, b: VS.Entry)
    requires VS.Distinct(stack) && a in stack && b in stack && a.versionId == b.versionId
    ensures a == b
  {}

  lemma EntryId(suite: Suite, blobs: Blobs, v: VersionRow)
    ensures EntryOf(suite, blobs, v).versionId == v.versionId
  {}

  lemma StackNotEmpty(suite: Suite, t: Tables, blobs: Blobs, slot: Slot)
    requires slot in t.objects && History(t, t.objects[slot].id) != []
    ensures StacksOf(suite, t, blobs)[slot] != []
  {}

  class ObjectsService {
    const storage: StorageService
    /** The MD5 of the parts' MD5s, with the part count. */
    const multipartEtag: seq<string> -> string
    var t: Tables

    ghost predicate Valid()
      reads this, storage
    {
      storage.Valid() && Sane(storage.suite, t, storage.blobs, storage.nextPath) && SoundStacks(t, Stacks())
    }

    ghost function Stacks(): VS.Stacks
      reads this, storage
    {
      StacksOf(storage.suite, t, storage.blobs)
    }

    ghost function Parts(): map<PartKey, seq<byte>>
      reads this, storage
    {
      PartsOf(storage.suite, t.parts, storage.blobs)
    }

    /** A store without objects yet; its buckets and users are already there. */
    constructor (storage: StorageService, multipartEtag: seq<string> -> string, buckets: seq<BucketRow>, users: map<string, Option<nat>>)
      requires storage.Valid() && storage.blobs == map[] && DistinctBuckets(buckets)
      ensures Valid() && this.storage == storage && Stacks() == map[] && Parts() == map[]
    {
      this.storage, this.multipartEtag := storage, multipartEtag;
      t := Tables(buckets, users, map[], [], map[], [], 0);
    }

    /** Setting a bucket's versioning, with the handlers' guard: no bucket returns to `disabled`. */
    method SetVersioning(guid: Bucket, versioning: Versioning) returns (r: Result<(), Error>)
      requires Valid() && guid in Guids(t.buckets)
      modifies this`t
      ensures Valid() && Stacks() == old(Stacks()) && Parts() == old(Parts())
      ensures r.Err? <==> versioning == Disabled
      ensures r.Err? ==> r.error == InvalidVersioning && t == old(t)
      ensures r.Ok? ==> t == old(t).(buckets := SetVersioningIn(old(t).buckets, guid, versioning))
      ensures VS.State(ModesOf(t), Stacks()) == VS.Apply(VS.State(ModesOf(old(t)), old(Stacks())), VS.SetVersioning(guid, versioning))
    {
      hide Filter, Sane, SoundStacks, StacksOf, PartsOf, ModesOf, DistinctBuckets;
      if versioning == Disabled {
        return Err(InvalidVersioning);
      }
      SaneTables(storage.suite, t, storage.blobs, storage.nextPath);
      SetModes(t, guid, versioning);
      SetSound(t, Stacks(), guid, versioning);
      SetVersioningSane(storage.suite, t, storage.blobs, storage.nextPath, SetVersioningIn(t.buckets, guid, versioning));
      t := t.(buckets := SetVersioningIn(t.buckets, guid, versioning));
      r := Ok(());
    }

    /** `deleteBlobs` */
    method DeleteBlobs(paths: seq<Path>)
      requires storage.Valid()
      modifies storage`blobs
      ensures storage.Valid() && storage.blobs == old(storage.blobs) - PathSet(paths)
    {
      for i := 0 to |paths|
        invariant storage.Valid() && storage.blobs == old(storage.blobs) - PathSet(paths[..i])
      {
        storage.Delete(paths[i]);
        assert paths[..i + 1] == paths[..i] + [paths[i]];
      }
      assert paths[..|paths|] == paths;
    }

    /** `commitVersion`: one transaction. */
    method CommitRow(slot: Slot, v: NewVersion) returns (orphaned: seq<Path>)
      modifies this`t
      ensures t == CommitVersion(old(t), slot, v) && orphaned == Replaced(old(t), slot, v)
    {
      hide Filter;
      var tx := t;
      var objectRow := UpsertedObject(tx, slot);
      orphaned := [];
      if v.versionId == Null {
        orphaned := Paths(Filter(tx.versions, NullOf(objectRow.id)));
        tx := tx.(versions := Filter(tx.versions, NotNullOf(objectRow.id)));
      }
      var version := VersionRow(tx.next + 1, objectRow.id, v.versionId, v.isDeleteMarker, v.size, v.etag, v.path, v.encryption);
      tx := tx.(versions := tx.versions + [version], next := tx.next + 2);
      tx := tx.(objects := tx.objects[slot := objectRow.(latest := Some(version.guid))]);
      t := tx;
    }

    /** Takes a payload in: announced, streamed to disk, and checked again before anything is
        committed. A refused payload leaves no blob. */
    method Receive(bucket: BucketRow, source: Source, contentMd5: Option<string>, declaredLength: Option<nat>, maxBytes: Option<nat>)
      returns (r: Result<WriteResult, Error>)
      requires Valid()
      modifies storage
      ensures r.Err? ==> Valid()
      ensures storage.Valid() && storage.nextPath <= old(storage.nextPath) + 1
      ensures var payload := Flatten(source.chunks);
              var refusal := Refusal(t, bucket, |payload|, storage.suite.md5(payload), source.broken, contentMd5, declaredLength, maxBytes);
              && (refusal.Some? ==> r == Err(refusal.value) && storage.blobs == old(storage.blobs))
              && (refusal.None? ==>
                    && r == Ok(WriteResult(old(storage.nextPath), |payload|, storage.suite.md5(payload),
                                           Descriptor(storage.createKey(old(storage.nextPath)))))
                    && storage.nextPath == old(storage.nextPath) + 1
                    && storage.blobs == old(storage.blobs)[old(storage.nextPath) := Store(storage.suite, payload, storage.createKey(old(storage.nextPath)))]
                    && Load(storage.suite, storage.blobs[old(storage.nextPath)], r.value.encryption) == Ok(payload)
                    && AssertQuota(t, bucket, |payload|) == None)
    {
      hide AssertQuota, Sane, SoundStacks, Store, Load, Flatten;
      if declaredLength.Some? && maxBytes.Some? && declaredLength.value > maxBytes.value {
        return Err(Blob(PayloadTooLarge));
      }
      var quota := AssertQuota(t, bucket, if declaredLength.Some? then declaredLength.value else 0);
      if quota.Some? {
        return Err(Quota(quota.value));
      }
      var written := storage.Write(source, maxBytes);
      StillSane(storage.suite, t, old(storage.blobs), old(storage.nextPath), storage.nextPath);
      if written.Err? {
        return Err(Blob(written.error));
      }
      if contentMd5.Some? && contentMd5.value != written.value.etag {
        storage.Delete(written.value.path);
        assert storage.blobs == old(storage.blobs);
        return Err(BadDigest);
      }
      quota := AssertQuota(t, bucket, written.value.size);
      if quota.Some? {
        storage.Delete(written.value.path);
        assert storage.blobs == old(storage.blobs);
        return Err(Quota(quota.value));
      }
      r := Ok(written.value);
    }

    /** A put is refused, leaving no trace, or pushes its payload onto the key's stack. What is stored is
        complete, has the announced digest and fits. */
    method Put(bucket: BucketRow, key: Key, source: Source, contentMd5: Option<string>, declaredLength: Option<nat>, maxBytes: Option<nat>)
      returns (r: Result<PutResult, Error>)
      requires Valid() && bucket in t.buckets
      modifies this, storage
      ensures Valid() && t.buckets == old(t.buckets) && t.uploads == old(t.uploads)
      ensures var payload := Flatten(source.chunks);
              var refusal := if !ValidKey(key) then Some(InvalidKey)
                             else Refusal(old(t), bucket, |payload|, storage.suite.md5(payload), source.broken, contentMd5, declaredLength, maxBytes);
              && (refusal.Some? ==> r == Err(refusal.value) && t == old(t) && storage.blobs == old(storage.blobs))
              && (refusal.None? ==>
                    && r.Ok? && r.value.etag == storage.suite.md5(payload) && r.value.size == |payload|
                    && r.value.versionId == VS.NextVersionId(bucket.versioning, old(t.next))
                    && Stacks() == Does(bucket, old(Stacks()), VS.Put((bucket.guid, key), old(t.next), payload))
                    && Parts() == old(Parts())
                    && Makes(old(t), Commit(bucket, key, NewVersion(r.value.versionId, false, r.value.size, r.value.etag,
                                                                    Some(old(storage.nextPath)), r.value.encryption)), t))
      ensures r.Ok? <==> ValidKey(key) && Accepts(old(t), bucket, source, storage.suite.md5(Flatten(source.chunks)), contentMd5, declaredLength, maxBytes)
    {
      hide AssertQuota, Sane, SoundStacks, Store, Load, Flatten, Refusal, Accepts, ValidKey, QuotaRefusal, CommitVersion, Replaced, StacksOf, PartsOf, UriCodec.Utf8Text, Does;
      RefusalExact(t, bucket, source, storage.suite.md5(Flatten(source.chunks)), contentMd5, declaredLength, maxBytes);
      if !ValidKey(key) {
        return Err(InvalidKey);
      }
      var written := Receive(bucket, source, contentMd5, declaredLength, maxBytes);
      if written.Err? {
        return Err(written.error);
      }
      var w := written.value;
      var versionId := VS.NextVersionId(bucket.versioning, t.next);
      var v := NewVersion(versionId, false, w.size, w.etag, Some(w.path), w.encryption);
      PutSettles(storage.suite, t, old(storage.blobs), w.path, storage.blobs[w.path], bucket, key, v, Flatten(source.chunks));
      var replaced := CommitRow((bucket.guid, key), v);
      DeleteBlobs(replaced);
      SameBuckets(old(t), Commit(bucket, key, v));
      RequestKeeps(storage.suite, old(t), old(storage.blobs), old(storage.nextPath), bucket, VS.Put((bucket.guid, key), old(t.next), Flatten(source.chunks)), t);
      r := Ok(PutResult(versionId, w.etag, w.size, w.encryption));
    }

    /** `deleteVersion`: one named version, for good; the key goes with its last one. */
    method DeleteVersion(objectGuid: ObjectId, versionId: VersionId) returns (r: Result<DeleteResult, Error>)
      requires Valid() && HasObject(t, objectGuid)
      modifies this, storage
      ensures Valid() && t.buckets == old(t.buckets) && t.uploads == old(t.uploads) && storage.nextPath == old(storage.nextPath)
      ensures r.Ok? <==> exists v :: v in old(t.versions) && v.objectGuid == objectGuid && v.versionId == versionId
      ensures r.Err? ==> r.error == VersionNotFound && t == old(t) && storage.blobs == old(storage.blobs)
      ensures r.Ok? ==>
                && r.value.versionId == Some(versionId)
                && Stacks() == VS.Remove(old(Stacks()), SlotOf(objectGuid), versionId)
                && Parts() == old(Parts())
                && (forall e :: e in VS.At(old(Stacks()), SlotOf(objectGuid)) && e.versionId == versionId ==> (r.value.isDeleteMarker <==> e.content.None?))
                && exists v :: Makes(old(t), Drop(v), t) && v.objectGuid == objectGuid && v.versionId == versionId
    {
      hide Filter, Sane, SoundStacks, StacksOf, PartsOf, DropVersion;
      var found := Filter(t.versions, (v: VersionRow) => v.objectGuid == objectGuid && v.versionId == versionId);
      if found == [] {
        return Err(VersionNotFound);
      }
      var version := found[0];
      assert version in found;
      RowEntry(storage.suite, t, storage.blobs, storage.nextPath, SlotOf(objectGuid), version);
      DropSettles(storage.suite, t, storage.blobs, version, storage.nextPath);
      t := DropVersion(t, objectGuid, version.guid);
      if version.path.Some? {
        DeleteBlobs([version.path.value]);
        assert storage.blobs == old(storage.blobs) - {version.path.value};
      }
      assert Makes(old(t), Drop(version), t);
      SameBuckets(old(t), Drop(version));
      RemovalSound(old(t), t, old(Stacks()), SlotOf(objectGuid), versionId);
      r := Ok(DeleteResult(Some(versionId), version.isDeleteMarker));
    }

    /** `purgeObject` and the deletion of what it orphaned. */
    method PurgeKey(slot: Slot)
      requires Valid() && slot in t.objects
      modifies this, storage
      ensures Valid() && storage.nextPath == old(storage.nextPath) && Parts() == old(Parts())
      ensures Stacks() == old(Stacks()) - {slot} && Makes(old(t), Purge(slot), t)
      ensures t.buckets == old(t.buckets) && t.uploads == old(t.uploads)
    {
      hide Filter, Sane, SoundStacks, StacksOf, PartsOf, PurgeObject, Purged;
      PurgeSettles(storage.suite, t, storage.blobs, slot, storage.nextPath);
      var purged := Purged(t, t.objects[slot].id);
      t := PurgeObject(t, t.objects[slot].id);
      DeleteBlobs(purged);
      SameBuckets(old(t), Purge(slot));
      RemovalSound(old(t), t, old(Stacks()), slot, Null);
    }

    /** A delete marker goes on top of the stack. */
    method MarkDeleted(bucket: BucketRow, key: Key) returns (versionId: VersionId)
      requires Valid() && bucket in t.buckets && bucket.versioning != Disabled && (bucket.guid, key) in t.objects
      modifies this, storage
      ensures Valid() && storage.nextPath == old(storage.nextPath) && Parts() == old(Parts())
      ensures versionId == VS.NextVersionId(bucket.versioning, old(t.next))
      ensures Stacks() == Does(bucket, old(Stacks()), VS.Delete((bucket.guid, key), old(t.next)))
      ensures Makes(old(t), Commit(bucket, key, Marker(versionId)), t)
      ensures t.buckets == old(t.buckets) && t.uploads == old(t.uploads)
    {
      hide Filter, Sane, SoundStacks, StacksOf, PartsOf, CommitVersion, Replaced, Does;
      versionId := VS.NextVersionId(bucket.versioning, t.next);
      MarkerSettles(storage.suite, t, storage.blobs, storage.nextPath, bucket, key);
      var replaced := CommitRow((bucket.guid, key), Marker(versionId));
      DeleteBlobs(replaced);
      SameBuckets(old(t), Commit(bucket, key, Marker(versionId)));
      RequestKeeps(storage.suite, old(t), old(storage.blobs), old(storage.nextPath), bucket, VS.Delete((bucket.guid, key), old(t.next)), t);
    }

    /** `delete`: without a version id, a purge or a delete marker, depending on the bucket's mode;
        with one, that version. Deleting what is not there succeeds. */
    method Delete(bucket: BucketRow, key: Key, versionId: Option<VersionId>) returns (r: Result<DeleteResult, Error>)
      requires Valid() && bucket in t.buckets
      modifies this, storage
      ensures Valid() && storage.nextPath == old(storage.nextPath) && t.buckets == old(t.buckets) && t.uploads == old(t.uploads)
      ensures Parts() == old(Parts())
      ensures Stacks() == Does(bucket, old(Stacks()),
                               if versionId.None? then VS.Delete((bucket.guid, key), old(t.next)) else VS.DeleteVersion((bucket.guid, key), versionId.value))
      ensures r.Err? <==> versionId.Some? && (bucket.guid, key) in old(Stacks())
                          && forall e :: e in old(Stacks())[(bucket.guid, key)] ==> e.versionId != versionId.value
      ensures r.Err? ==> r.error == VersionNotFound
      ensures r.Err? || (bucket.guid, key) !in old(Stacks()) ==> t == old(t) && storage.blobs == old(storage.blobs)
      ensures r.Ok? && (bucket.guid, key) in old(Stacks()) ==> exists change :: Makes(old(t), change, t)
      ensures r.Ok? ==> var slot, marker := (bucket.guid, key), VS.NextVersionId(bucket.versioning, old(t.next));
                        if slot !in old(Stacks()) || (versionId.None? && bucket.versioning == Disabled) then r.value == DeleteResult(None, false)
                        else if versionId.None? then r.value == DeleteResult(Some(marker), true)
                        else r.value.versionId == versionId
                             && forall e :: e in old(Stacks())[slot] && e.versionId == versionId.value ==> (r.value.isDeleteMarker <==> e.content.None?)
    {
      hide Filter, Sane, SoundStacks, StacksOf, PartsOf, Makes, Does, Consistent, TablesSound, Stored, VS.Remove, VS.Push;
      var slot := (bucket.guid, key);
      StackKeys(storage.suite, t, storage.blobs, slot);
      DoesDelete(bucket, Stacks(), slot, t.next);
      DoesDeleteVersion(bucket, Stacks(), slot, if versionId.Some? then versionId.value else Null);
      SaneTables(storage.suite, t, storage.blobs, storage.nextPath);
      if slot !in t.objects {
        RemoveAbsent(Stacks(), slot, if versionId.Some? then versionId.value else Null);
        return Ok(DeleteResult(None, false));
      }
      if versionId.Some? {
        ObjectOf(t, slot);
        NamedInStack(storage.suite, t, storage.blobs, slot, versionId.value);
        r := DeleteVersion(t.objects[slot].id, versionId.value);
      } else if bucket.versioning == Disabled {
        PurgeKey(slot);
        r := Ok(DeleteResult(None, false));
      } else {
        var marker := MarkDeleted(bucket, key);
        r := Ok(DeleteResult(Some(marker), true));
      }
    }

    /** `getVersion`: the named version, or the newest. */
    method GetVersion(bucketGuid: Bucket, key: Key, versionId: Option<VersionId>) returns (r: Result<VersionRow, Error>)
      requires Valid()
      ensures (bucketGuid, key) !in Stacks() ==> r == Err(ObjectNotFound)
      ensures (bucketGuid, key) in Stacks() && versionId.None? ==>
                var stack := Stacks()[(bucketGuid, key)];
                r.Ok? && stack != [] && EntryOf(storage.suite, storage.blobs, r.value) == stack[|stack| - 1]
      ensures (bucketGuid, key) in Stacks() && versionId.Some? ==>
                var stack := Stacks()[(bucketGuid, key)];
                && (r.Ok? <==> exists e :: e in stack && e.versionId == versionId.value)
                && (r.Ok? ==> r.value.versionId == versionId.value && EntryOf(storage.suite, storage.blobs, r.value) in stack)
                && (r.Err? ==> r.error == VersionNotFound)
      ensures r.Ok? ==> r.value in t.versions && SlotOf(r.value.objectGuid) == (bucketGuid, key) && (r.value.isDeleteMarker <==> r.value.path.None?)
    {
      hide Filter, Sane, SoundStacks, StacksOf, EntryOf, Consistent, TablesSound, Stored;
      var slot := (bucketGuid, key);
      StackKeys(storage.suite, t, storage.blobs, slot);
      SaneTables(storage.suite, t, storage.blobs, storage.nextPath);
      if slot !in t.objects {
        return Err(ObjectNotFound);
      }
      var found := t.objects[slot];
      ObjectOf(t, slot);
      var matches: seq<VersionRow>;
      if versionId.Some? {
        matches := Filter(t.versions, (v: VersionRow) => v.objectGuid == found.id && v.versionId == versionId.value);
        NamedInStack(storage.suite, t, storage.blobs, slot, versionId.value);
      } else {
        matches := Filter(t.versions, (v: VersionRow) => Some(v.guid) == found.latest);
        LatestRow(t, slot);
        var history := History(t, found.id);
        assert history[|history| - 1] in matches;
      }
      if matches == [] {
        return Err(if versionId.Some? then VersionNotFound else ObjectNotFound);
      }
      var version := matches[0];
      assert version in matches;
      OldRow(t, version);
      if versionId.Some? {
        RowInStack(storage.suite, t, storage.blobs, slot, version);
      } else {
        LatestTop(storage.suite, t, storage.blobs, slot, version);
      }
      r := Ok(version);
    }

    /** `readPayload`: the version's bytes, or a range of them. */
    method ReadPayload(version: VersionRow, range: Option<Range>) returns (r: Result<ReadResult, Error>)
      requires Valid() && version in t.versions && version.path.Some?
      requires range.Some? ==> range.value.start <= range.value.end
      ensures r.Ok?
      ensures var payload := Content(storage.suite, storage.blobs, version.path.value, version.encryption);
              && |payload| == version.size
              && (range.None? ==> r.value == ReadResult(payload, version.size))
              && (range.Some? ==> r.value.bytes == Slice(payload, range.value.start, range.value.end))
              && (range.Some? && range.value.end < version.size ==>
                    r.value.bytes == payload[range.value.start..range.value.end + 1] && |r.value.bytes| == r.value.size)
    {
      hide Sane, SoundStacks, Load;
      VersionReadable(storage.suite, t, storage.blobs, storage.nextPath, version);
      var read := storage.Read(version.path.value, range, version.encryption);
      r := Ok(read.value);
    }

    /** `copy`: the source version's bytes become a new version of the target key, unless the key or
        a quota forbids it. */
    method Copy(source: VersionRow, target: BucketRow, key: Key) returns (r: Result<PutResult, Error>)
      requires Valid() && source in t.versions && target in t.buckets
      modifies this, storage
      ensures Valid() && t.buckets == old(t.buckets) && t.uploads == old(t.uploads)
      ensures source.path.None? ==> r == Err(ObjectNotFound)
      ensures r.Err? ==> t == old(t) && storage.blobs == old(storage.blobs)
      ensures source.path.Some? ==>
                var payload := old(Content(storage.suite, storage.blobs, source.path.value, source.encryption));
                var refusal := CopyRefusal(old(t), target, key, |payload|);
                && (refusal.Some? ==> r == Err(refusal.value))
                && (refusal.None? ==>
                      && r.Ok? && r.value.size == |payload| && r.value.versionId == VS.NextVersionId(target.versioning, old(t.next))
                      && Stacks() == Does(target, old(Stacks()), VS.Put((target.guid, key), old(t.next), payload))
                      && Parts() == old(Parts())
                      && exists v :: Makes(old(t), Commit(target, key, v), t))
    {
      hide Sane, SoundStacks, Content, StacksOf, PartsOf, Does, Makes, Refusal, UriCodec.Utf8Text, Flatten, QuotaRefusal;
      if source.path.None? {
        return Err(ObjectNotFound);
      }
      var read := ReadPayload(source, None);
      UnannouncedRefusal(t, target, |read.value.bytes|, storage.suite.md5(read.value.bytes));
      r := Put(target, key, Source(storage.chunking(read.value.bytes), false), None, None, None);
    }

    method CreateMultipartUpload(bucket: BucketRow, key: Key) returns (upload: UploadId)
      requires Valid() && bucket in t.buckets
      modifies this`t
      ensures Valid() && upload !in old(t.uploads) && upload.bucket == bucket.guid && upload.key == key
      ensures t.uploads == old(t.uploads)[upload := InProgress] && t.buckets == old(t.buckets)
      ensures Stacks() == old(Stacks()) && Parts() == old(Parts()) && Makes(old(t), OpenUpload((bucket.guid, key)), t)
    {
      hide Sane, SoundStacks, StacksOf, PartsOf;
      OpenSettles(storage.suite, t, storage.blobs, storage.nextPath, (bucket.guid, key));
      upload := UploadId(bucket.guid, key, t.next);
      FreshUpload(storage.suite, t, storage.blobs, storage.nextPath, upload);
      t := CreateUpload(t, (bucket.guid, key));
      SoundUnder(old(t), t, Stacks());
    }

    /** `requireUpload` */
    predicate Requires(bucketGuid: Bucket, upload: UploadId)
      reads this
    {
      InProgressUpload(t, upload) && upload.bucket == bucketGuid
    }

    /** `uploadPart`: the part number's bytes are replaced and the previous blob goes. */
    method UploadPart(bucket: BucketRow, upload: UploadId, partNumber: int, source: Source, contentMd5: Option<string>,
                      declaredLength: Option<nat>, maxBytes: Option<nat>)
      returns (r: Result<PartResult, Error>)
      requires Valid() && bucket in t.buckets
      modifies this, storage
      ensures Valid() && t.buckets == old(t.buckets) && t.uploads == old(t.uploads)
      ensures var payload := Flatten(source.chunks);
              var refusal := if !old(Requires(bucket.guid, upload)) then Some(UploadNotFound)
                             else if partNumber < 1 || partNumber > MAX_PART_NUMBER then Some(Part(InvalidPart))
                             else Refusal(old(t), bucket, |payload|, storage.suite.md5(payload), source.broken, contentMd5, declaredLength, maxBytes);
              && (refusal.Some? ==> r == Err(refusal.value) && t == old(t) && storage.blobs == old(storage.blobs))
              && (refusal.None? ==>
                    && r.Ok? && r.value.etag == storage.suite.md5(payload) && r.value.size == |payload|
                    && Stacks() == old(Stacks())
                    && Parts() == old(Parts())[(upload, partNumber) := payload]
                    && Makes(old(t), StorePart(bucket, PartRow(upload, partNumber, r.value.size, r.value.etag, old(storage.nextPath), r.value.encryption)), t))
      ensures r.Ok? <==> old(Requires(bucket.guid, upload)) && 1 <= partNumber <= 10000
                         && Accepts(old(t), bucket, source, storage.suite.md5(Flatten(source.chunks)), contentMd5, declaredLength, maxBytes)
    {
      hide AssertQuota, Sane, SoundStacks, Store, Load, Flatten, Refusal, Accepts, QuotaRefusal, PreviousPath, UpsertPart, StacksOf, PartsOf;
      RefusalExact(t, bucket, source, storage.suite.md5(Flatten(source.chunks)), contentMd5, declaredLength, maxBytes);
      if !Requires(bucket.guid, upload) {
        return Err(UploadNotFound);
      }
      if partNumber < 1 || partNumber > MAX_PART_NUMBER {
        return Err(Part(InvalidPart));
      }
      var written := Receive(bucket, source, contentMd5, declaredLength, maxBytes);
      if written.Err? {
        return Err(written.error);
      }
      var w := written.value;
      var part := PartRow(upload, partNumber, w.size, w.etag, w.path, w.encryption);
      PartSettles(storage.suite, t, old(storage.blobs), storage.blobs[w.path], bucket, part, Flatten(source.chunks));
      var previous := PreviousPath(t, upload, partNumber);
      t := UpsertPart(t, part);
      if previous.Some? {
        DeleteBlobs([previous.value]);
        assert PathSet([previous.value]) == {previous.value};
      }
      SameBuckets(old(t), StorePart(bucket, part));
      SoundUnder(old(t), t, Stacks());
      r := Ok(PartResult(w.etag, w.size, w.encryption));
    }

    /** `abortMultipartUpload` */
    method AbortMultipartUpload(bucketGuid: Bucket, upload: UploadId) returns (r: Result<(), Error>)
      requires Valid()
      modifies this, storage
      ensures Valid() && storage.nextPath == old(storage.nextPath) && t.buckets == old(t.buckets)
      ensures r.Ok? <==> old(Requires(bucketGuid, upload))
      ensures r.Err? ==> r.error == UploadNotFound && t == old(t) && storage.blobs == old(storage.blobs)
      ensures r.Ok? ==> Stacks() == old(Stacks()) && Parts() == WithoutUpload(old(Parts()), upload) && Makes(old(t), Changes.AbortUpload(upload), t)
      ensures r.Ok? ==> t.uploads == old(t.uploads)[upload := Aborted]
    {
      hide Filter, Sane, SoundStacks, StacksOf, PartsOf, StoredPaths, Makes;
      if !Requires(bucketGuid, upload) {
        return Err(UploadNotFound);
      }
      var parts := StoredPaths(t, upload);
      AbortSettles(storage.suite, t, storage.blobs, storage.nextPath, upload);
      t := DeleteParts(t, upload);
      t := SetStatus(t, upload, Aborted);
      DeleteBlobs(parts);
      SameBuckets(old(t), Changes.AbortUpload(upload));
      SoundUnder(old(t), t, Stacks());
      r := Ok(());
    }

    /** `completeMultipartUpload`: accepted exactly when the list selects stored parts; the key's new
        top is then what was last uploaded under the listed numbers, one after the other, and the
        upload leaves no part behind. */
    method CompleteMultipartUpload(bucket: BucketRow, upload: UploadId, parts: seq<CompletePart>) returns (r: Result<PutResult, Error>)
      requires Valid() && bucket in t.buckets
      modifies this, storage
      ensures Valid() && t.buckets == old(t.buckets)
      ensures var stored := Filter(old(t).parts, InUpload(upload));
              && (r.Ok? <==> old(Requires(bucket.guid, upload)) && parts != [] && exists ordered :: Selection(parts, stored, ordered))
              && (r.Err? ==> t == old(t) && storage.blobs == old(storage.blobs)
                             && if !old(Requires(bucket.guid, upload)) then r.error == UploadNotFound
                                else if parts == [] then r.error == Part(InvalidPart)
                                else r.error.Part? && FirstFault(parts, stored, r.error.part))
      ensures r.Ok? ==>
                && r.value.size == |Assembled(old(Parts()), upload, parts)|
                && Stacks() == Does(bucket, old(Stacks()), VS.Put((upload.bucket, upload.key), old(t.next), Assembled(old(Parts()), upload, parts)))
                && Parts() == WithoutUpload(old(Parts()), upload)
                && t.uploads == old(t.uploads)[upload := Completed]
                && r.value.versionId == VS.NextVersionId(bucket.versioning, old(t.next))
                && exists ordered :: Selection(parts, Filter(old(t).parts, InUpload(upload)), ordered) && r.value.etag == multipartEtag(Etags(ordered))
      ensures r.Ok? ==> exists change :: Makes(old(t), change, t)
      ensures forall other :: SameButQuotes(parts, other) ==>
                && (r.Ok? <==> old(Requires(bucket.guid, upload)) && other != []
                               && exists ordered :: Selection(other, Filter(old(t).parts, InUpload(upload)), ordered))
                && (r.Err? && r.error.Part? && other != [] ==> FirstFault(other, Filter(old(t).parts, InUpload(upload)), r.error.part))
    {
      QuotesIrrelevant(parts, Filter(t.parts, InUpload(upload)));
      hide Filter, Sane, SoundStacks, StacksOf, PartsOf, StoredPaths, Replaced, CommitVersion, Selection, FirstFault, Store, Load, LoadAll, Makes, Does,
           Ascending, PartSizes, Flatten;
      if !Requires(bucket.guid, upload) {
        return Err(UploadNotFound);
      }
      if parts == [] {
        return Err(Part(InvalidPart));
      }
      var stored := Filter(t.parts, InUpload(upload));
      SaneParts(storage.suite, t, storage.blobs, storage.nextPath, upload);
      var matched := MatchRequestedParts(parts, stored);
      if matched.Err? {
        return Err(Part(matched.error));
      }
      var ordered := matched.value;
      SelectedParts(storage.suite, t, storage.blobs, storage.nextPath, upload, parts, ordered);
      var concatenated := storage.Concat(Sources(ordered));
      var w := concatenated.value;
      var etag := multipartEtag(Etags(ordered));
      var versionId := VS.NextVersionId(bucket.versioning, t.next);
      var v := NewVersion(versionId, false, w.size, etag, Some(w.path), w.encryption);
      CompleteSettles(storage.suite, t, old(storage.blobs), w.path, storage.blobs[w.path], bucket, upload, ordered, v,
                      Assembled(old(Parts()), upload, parts));
      CompleteStatus(t, upload, v);
      var storedPaths := StoredPaths(t, upload);
      var replaced := CommitRow((upload.bucket, upload.key), v);
      t := SetStatus(t, upload, Completed);
      t := DeleteParts(t, upload);
      DeleteBlobs(storedPaths + replaced);
      PathSetConcat(storedPaths, replaced);
      RequestKeeps(storage.suite, old(t), old(storage.blobs), old(storage.nextPath), bucket,
                   VS.Put((upload.bucket, upload.key), old(t.next), Assembled(old(Parts()), upload, parts)), t);
      r := Ok(PutResult(versionId, etag, w.size, w.encryption));
    }

    /** What a client sees. */
    ghost function Live(): map<Slot, seq<byte>>
      reads this, storage
    {
      VS.Live(Stacks())
    }

    /** `keysUnder`: every key stored under a prefix, delete-marked ones too, in byte order. */
    method KeysUnder(bucketGuid: Bucket, prefix: Key) returns (keys: seq<Key>)
      requires Valid()
      ensures FM.Starts(prefix, keys) && Text.Ascending(keys)
      ensures forall key :: key in keys <==> (bucketGuid, key) in Stacks() && prefix <= key
    {
      hide Sane, SoundStacks, Text.Less, Text.LikePrefix, StackOf;
      var found := set slot | slot in t.objects && slot.0 == bucketGuid && Text.LikePrefix(slot.1, prefix) :: slot.1;
      forall key
        ensures key in found <==> (bucketGuid, key) in Stacks() && prefix <= key
      {
        Text.LikePrefixExact(key, prefix);
        assert (bucketGuid, key).1 == key;
      }
      keys := Text.InOrder(found);
    }

    /** What a listing runs over: the latest versions that are not delete markers, by key. */
    method LatestRows(bucketGuid: Bucket) returns (rows: seq<Listing.Row>)
      requires Valid()
      ensures LL.Shows(rows, Live(), bucketGuid)
    {
      hide Sane, SoundStacks, StacksOf, Content, VS.Live, Text.Less;
      var keys := KeysUnder(bucketGuid, "");
      rows := [];
      for i := 0 to |keys|
        invariant Listing.Sorted(rows)
        invariant forall j :: 0 <= j < |rows| ==> rows[j].key in keys[..i] && (bucketGuid, rows[j].key) in Live()
                                                  && rows[j].size == |Live()[(bucketGuid, rows[j].key)]|
        invariant forall key :: key in keys[..i] && (bucketGuid, key) in Live() ==> exists j :: 0 <= j < |rows| && rows[j].key == key
      {
        var key := keys[i];
        assert key in keys && keys[..i + 1] == keys[..i] + [key];
        var found := GetVersion(bucketGuid, key, None);
        var version := found.value;
        TopLive(Stacks(), (bucketGuid, key), EntryOf(storage.suite, storage.blobs, version));
        if !version.isDeleteMarker {
          VersionReadable(storage.suite, t, storage.blobs, storage.nextPath, version);
          ghost var before := rows;
          rows := rows + [Listing.Row(key, version.size, version.etag)];
          assert rows[|before|].key == key && forall j :: 0 <= j < |before| ==> rows[j] == before[j];
        }
      }
      assert keys[..|keys|] == keys;
      LiveStacks(Stacks());
    }

    /** One round of the copying loop: a key that reads as absent is passed over. */
    method CopyKey(source: BucketRow, target: BucketRow, key: Key, destination: Key) returns (r: Result<(), Error>)
      requires Valid() && source in t.buckets && target in t.buckets
      modifies this, storage
      ensures Valid() && t.buckets == old(t.buckets) && t.uploads == old(t.uploads)
      ensures var error := CopyError(old(t), old(Stacks()), source, target, key, destination); r == if error.Some? then Err(error.value) else Ok(())
      ensures r.Err? ==> t == old(t) && storage.blobs == old(storage.blobs)
      ensures r.Ok? ==> Live() == if (source.guid, key) in old(Live()) then old(Live())[(target.guid, destination) := old(Live())[(source.guid, key)]]
                                  else old(Live())
      ensures r.Ok? ==> forall slot :: slot in old(Stacks()) ==> slot in Stacks()
      ensures old(WithinQuota(t)) ==> WithinQuota(t)
    {
      hide Sane, SoundStacks, StacksOf, PartsOf, Does, Makes, Content, WithinQuota, VS.Live, CopyRefusal;
      var version := GetVersion(source.guid, key, None);
      if version.Err? {
        return Err(version.error);
      }
      TopLive(Stacks(), (source.guid, key), EntryOf(storage.suite, storage.blobs, version.value));
      if version.value.isDeleteMarker {
        return Ok(());
      }
      var copied := Copy(version.value, target, destination);
      if copied.Err? {
        return Err(copied.error);
      }
      ghost var v :| Makes(old(t), Commit(target, destination, v), t);
      MakesWithinQuota(storage.suite, old(t), old(storage.blobs), old(storage.nextPath), Commit(target, destination, v), t);
      DoesLive(target, old(Stacks()), VS.Put((target.guid, destination), old(t.next),
                                             old(Content(storage.suite, storage.blobs, version.value.path.value, version.value.encryption))));
      r := Ok(());
    }

    /** `copyKeys`: server-side copy or rename of a key, or of every key of a folder. What it comes to
        is `FolderMove.CopiedKeys`. It fails on its guards, when there is no key to copy, or at the
        first key that cannot be copied; then the keys before that are copied and none is removed. */
    method CopyKeys(source: BucketRow, target: BucketRow, sourceKey: Key, targetKey: Key, move: bool) returns (r: Result<nat, Error>)
      requires Valid() && source in t.buckets && target in t.buckets
      modifies this, storage
      ensures Valid() && t.buckets == old(t.buckets) && t.uploads == old(t.uploads)
      ensures !CopyGuard(source, target, sourceKey, targetKey) ==> r == Err(InvalidKey) && t == old(t) && storage.blobs == old(storage.blobs)
      ensures CopyGuard(source, target, sourceKey, targetKey) ==>
                var isFolder := FM.EndsWithSlash(sourceKey);
                var targetPrefix := FM.TargetPrefix(isFolder, targetKey);
                exists keys ::
                  && KeysToCopy(old(Stacks()), source.guid, sourceKey, keys)
                  && if r.Ok? then
                       && |keys| == r.value > 0 && (source.guid, keys[0]) in old(Stacks())
                       && Live() == FM.CopiedKeys(old(Live()), source.guid, target.guid, isFolder, sourceKey, targetPrefix, keys, move)
                     else if keys == [] then r.error == ObjectNotFound && t == old(t) && storage.blobs == old(storage.blobs)
                     else CopyStops(old(Live()), source, target, isFolder, sourceKey, targetPrefix, keys, r.error)
      ensures forall to :: r.Ok? && FM.Slashed(sourceKey) && FM.NamesFolder(targetKey, to) && FM.Apart(source.guid, target.guid, sourceKey, to) ==>
                FM.PrefixReplaced(old(Live()), Live(), source.guid, target.guid, sourceKey, to, move)
                && forall rest :: (source.guid, sourceKey + rest) in old(Live()) ==>
                     && (target.guid, to + rest) in Live() && Live()[(target.guid, to + rest)] == old(Live())[(source.guid, sourceKey + rest)]
                     && (move ==> (source.guid, sourceKey + rest) !in Live())
      ensures r.Ok? && !FM.Slashed(sourceKey) ==>
                var from, copied := (source.guid, sourceKey), old(Live());
                var shown := if from in copied then copied[(target.guid, targetKey) := copied[from]] else copied;
                Live() == if move then shown - {from} else shown
      ensures old(WithinQuota(t)) ==> WithinQuota(t)
    {
      hide Sane, SoundStacks, StacksOf, PartsOf, Does, WithinQuota, VS.Live, FM.Copied, FM.PrefixReplaced, Text.Ascending, CopyStops;
      if sourceKey == "" || targetKey == "" {
        return Err(InvalidKey);
      }
      if source.guid == target.guid && sourceKey == targetKey {
        return Err(InvalidKey);
      }
      var isFolder := FM.EndsWithSlash(sourceKey);
      if isFolder && source.guid == target.guid && sourceKey <= targetKey {
        return Err(InvalidKey);
      }
      var keys := [sourceKey];
      if isFolder {
        keys := KeysUnder(source.guid, sourceKey);
      }
      assert KeysToCopy(old(Stacks()), source.guid, sourceKey, keys);
      if |keys| == 0 {
        return Err(ObjectNotFound);
      }
      var targetPrefix := FM.TargetPrefix(isFolder, targetKey);
      r := CopyEach(source, target, isFolder, sourceKey, targetPrefix, keys);
      if r.Ok? && move {
        DeleteEach(source, keys);
      }
      FM.SlashedExact(sourceKey);
      if r.Ok? && isFolder && FM.Apart(source.guid, target.guid, sourceKey, targetPrefix) {
        LiveStacks(old(Stacks()));
        FM.ApartReplaces(old(Live()), source.guid, target.guid, sourceKey, targetPrefix, keys, move);
        FolderCopied(old(Live()), Live(), source.guid, target.guid, sourceKey, targetPrefix, move);
      }
      FM.TargetPrefixExact(targetKey, targetPrefix);
      if r.Ok? && !isFolder {
        FM.LoneKey(old(Live()), source.guid, target.guid, sourceKey, targetKey, move);
      }
    }

    /** The loop has copied the keys before some key, which cannot be copied as things now stand. */
    ghost predicate CopyStops(view: FM.View, source: BucketRow, target: BucketRow, isFolder: bool, sourceKey: Key, targetPrefix: Key, keys: seq<Key>,
                              error: Error)
      requires isFolder ==> FM.Starts(sourceKey, keys)
      reads this, storage
    {
      exists n: nat ::
        && n < |keys| && (isFolder ==> FM.Starts(sourceKey, keys[..n]) && sourceKey <= keys[n])
        && Live() == FM.Copied(view, source.guid, target.guid, isFolder, sourceKey, targetPrefix, keys[..n])
        && CopyError(t, Stacks(), source, target, keys[n], FM.Destination(isFolder, sourceKey, targetPrefix, keys[n])) == Some(error)
    }

    method CopyEach(source: BucketRow, target: BucketRow, isFolder: bool, sourceKey: Key, targetPrefix: Key, keys: seq<Key>) returns (r: Result<nat, Error>)
      requires Valid() && source in t.buckets && target in t.buckets && keys != []
      requires isFolder ==> FM.Starts(sourceKey, keys)
      modifies this, storage
      ensures Valid() && t.buckets == old(t.buckets) && t.uploads == old(t.uploads)
      ensures r.Ok? ==> r.value == |keys| && Live() == FM.Copied(old(Live()), source.guid, target.guid, isFolder, sourceKey, targetPrefix, keys)
      ensures r.Ok? ==> (source.guid, keys[0]) in old(Stacks())
      ensures r.Err? ==> CopyStops(old(Live()), source, target, isFolder, sourceKey, targetPrefix, keys, r.error)
      ensures old(WithinQuota(t)) ==> WithinQuota(t)
    {
      hide Sane, SoundStacks, StacksOf, PartsOf, WithinQuota, VS.Live, FM.Copied, CopyRefusal;
      NothingCopied(Live(), source.guid, target.guid, isFolder, sourceKey, targetPrefix);
      assert keys[..0] == [];
      for i := 0 to |keys|
        invariant Valid() && t.buckets == old(t.buckets) && t.uploads == old(t.uploads)
        invariant isFolder ==> FM.Starts(sourceKey, keys[..i])
        invariant Live() == FM.Copied(old(Live()), source.guid, target.guid, isFolder, sourceKey, targetPrefix, keys[..i])
        invariant i == 0 ==> Stacks() == old(Stacks())
        invariant i > 0 ==> (source.guid, keys[0]) in old(Stacks())
        invariant old(WithinQuota(t)) ==> WithinQuota(t)
      {
        var key := keys[i];
        assert key in keys;
        ghost var before := keys[..i];
        ghost var stacks0 := Stacks();
        var copied := CopyKey(source, target, key, FM.Destination(isFolder, sourceKey, targetPrefix, key));
        if copied.Err? {
          assert Stacks() == stacks0;
          return Err(copied.error);
        }
        assert keys[..i + 1] == before + [key];
        CopiedSnoc(old(Live()), source.guid, target.guid, isFolder, sourceKey, targetPrefix, before, key);
      }
      assert keys[..|keys|] == keys;
      r := Ok(|keys|);
    }

    /** The deletions of a move: a key per request, without a version id. */
    method DeleteEach(bucket: BucketRow, keys: seq<Key>)
      requires Valid() && bucket in t.buckets
      modifies this, storage
      ensures Valid() && t.buckets == old(t.buckets) && t.uploads == old(t.uploads)
      ensures Live() == FM.Removed(old(Live()), bucket.guid, keys)
      ensures old(WithinQuota(t)) ==> WithinQuota(t)
    {
      hide Sane, SoundStacks, StacksOf, PartsOf, Does, Makes, WithinQuota, VS.Live;
      assert FM.Removed(Live(), bucket.guid, keys[..0]) == Live();
      for i := 0 to |keys|
        invariant Valid() && t.buckets == old(t.buckets) && t.uploads == old(t.uploads)
        invariant Live() == FM.Removed(old(Live()), bucket.guid, keys[..i])
        invariant old(WithinQuota(t)) ==> WithinQuota(t)
      {
        ghost var t0, blobs0, stacks0 := t, storage.blobs, Stacks();
        ghost var n0 := storage.nextPath;
        var deleted := Delete(bucket, keys[i], None);
        DoesLive(bucket, stacks0, VS.Delete((bucket.guid, keys[i]), t0.next));
        if t != t0 {
          ghost var change :| Makes(t0, change, t);
          MakesWithinQuota(storage.suite, t0, blobs0, n0, change, t);
        }
        RemovedSnoc(old(Live()), bucket.guid, keys, i);
      }
      assert keys[..|keys|] == keys;
    }
  }

  lemma FolderCopied(before: FM.View, after: FM.View, source: Bucket, target: Bucket, from: Key, to: Key, move: bool)
    requires FM.PrefixReplaced(before, after, source, target, from, to, move) && FM.Apart(source, target, from, to)
    ensures forall rest :: (source, from + rest) in before ==>
              && (target, to + rest) in after && after[(target, to + rest)] == before[(source, from + rest)]
              && (move ==> (source, from + rest) !in after)
  {
    hide FM.PrefixReplaced, FM.Apart;
    forall rest | (source, from + rest) in before
      ensures (target, to + rest) in after && after[(target, to + rest)] == before[(source, from + rest)]
      ensures move ==> (source, from + rest) !in after
    {
      FM.Reappears(before, after, source, target, from, to, move, rest);
    }
  }

  lemma LiveStacks(stacks: VS.Stacks)
    ensures forall slot :: slot in VS.Live(stacks) ==> slot in stacks
  {}

  lemma TopLive(stacks: VS.Stacks, slot: Slot, top: VS.Entry)
    requires slot in stacks && stacks[slot] != [] && stacks[slot][|stacks[slot]| - 1] == top
    ensures slot in VS.Live(stacks) <==> top.content.Some?
    ensures top.content.Some? ==> VS.Live(stacks)[slot] == top.content.value
  {}

  lemma DoesLive(bucket: BucketRow, stacks: VS.Stacks, op: VS.Op)
    requires (op.Put? || op.Delete?) && op.slot.0 == bucket.guid
    ensures VS.Live(Does(bucket, stacks, op)) == VS.ApplyMap(VS.Live(stacks), op)
    ensures op.Put? ==> forall slot :: slot in stacks ==> slot in Does(bucket, stacks, op)
  {
    hide Filter, VS.Live;
    VS.StepLive(VS.State(map[bucket.guid := bucket.versioning], stacks), op);
  }

  lemma MakesWithinQuota(suite: Suite, t: Tables, blobs: Blobs, nextPath: Path, change: Change, t': Tables)
    requires Sane(suite, t, blobs, nextPath) && Makes(t, change, t')
    ensures WithinQuota(t) ==> WithinQuota(t')
  {
    hide WithinQuota, TablesSound, Allowed, Changed;
    if WithinQuota(t) {
      ChangeWithinQuota(t, change);
    }
  }

  lemma NothingCopied(view: FM.View, source: Bucket, target: Bucket, isFolder: bool, sourceKey: Key, targetPrefix: Key)
    ensures FM.Copied(view, source, target, isFolder, sourceKey, targetPrefix, []) == view
  {}

  lemma CopiedSnoc(view: FM.View, source: Bucket, target: Bucket, isFolder: bool, sourceKey: Key, targetPrefix: Key, keys: seq<Key>, key: Key)
    requires isFolder ==> FM.Starts(sourceKey, keys) && sourceKey <= key
    ensures isFolder ==> FM.Starts(sourceKey, keys + [key])
    ensures var before := FM.Copied(view, source, target, isFolder, sourceKey, targetPrefix, keys);
            FM.Copied(view, source, target, isFolder, sourceKey, targetPrefix, keys + [key])
            == if (source, key) in before then before[(target, FM.Destination(isFolder, sourceKey, targetPrefix, key)) := before[(source, key)]] else before
  {
    assert (keys + [key])[..|keys|] == keys;
  }

  lemma RemovedSnoc(view: FM.View, bucket: Bucket, keys: seq<Key>, i: nat)
    requires i < |keys|
    ensures FM.Removed(view, bucket, keys[..i + 1]) == FM.Removed(view, bucket, keys[..i]) - {(bucket, keys[i])}
  {
    assert keys[..i + 1] == keys[..i] + [keys[i]];
  }

  lemma PathSetConcat(a: seq<Path>, b: seq<Path>)
    ensures PathSet(a + b) == PathSet(a) + PathSet(b)
  {}

  function Etags(ordered: seq<PartRow>): (etags: seq<string>)
    ensures |etags| == |ordered| && forall i :: 0 <= i < |ordered| ==> etags[i] == ordered[i].etag
  {
    if ordered == [] then [] else [ordered[0].etag] + Etags(ordered[1..])
  }

  lemma CompleteStatus(t: Tables, upload: UploadId, v: NewVersion)
    requires InProgressUpload(t, upload)
    ensures Complete(t, upload, v).uploads == t.uploads[upload := Completed] && Complete(t, upload, v).buckets == t.buckets
  {
    hide Filter;
  }

  lemma FreshUpload(suite: Suite, t: Tables, blobs: Blobs, nextPath: Path, upload: UploadId)
    requires Sane(suite, t, blobs, nextPath) && upload.serial == t.next
    ensures upload !in t.uploads
  {}

  lemma VersionReadable(suite: Suite, t: Tables, blobs: Blobs, nextPath: Path, v: VersionRow)
    requires Sane(suite, t, blobs, nextPath) && v in t.versions && v.path.Some?
    ensures v.path.value in blobs && Load(suite, blobs[v.path.value], v.encryption).Ok?
    ensures |Content(suite, blobs, v.path.value, v.encryption)| == v.size
  {
    hide TablesSound, Load;
    assert VersionStored(suite, blobs, v);
  }

  lemma SaneParts(suite: Suite, t: Tables, blobs: Blobs, nextPath: Path, upload: UploadId)
    requires Sane(suite, t, blobs, nextPath)
    ensures UniqueNumbers(Filter(t.parts, InUpload(upload)))
  {
    hide Filter, Stored, Consistent, UniquePaths;
  }

  /** What a selection of an upload's parts concatenates to. */
  lemma SelectedParts(suite: Suite, t: Tables, blobs: Blobs, nextPath: Path, upload: UploadId, requested: seq<CompletePart>, ordered: seq<PartRow>)
    requires Sane(suite, t, blobs, nextPath) && Selection(requested, Filter(t.parts, InUpload(upload)), ordered)
    ensures Ascending(ordered) && forall p :: p in ordered ==> p in t.parts && p.upload == upload
    ensures forall source :: source in Sources(ordered) ==> source.path < nextPath
    ensures var payload := Assembled(PartsOf(suite, t.parts, blobs), upload, requested);
            LoadAll(suite, blobs, Sources(ordered)) == Ok(payload) && |payload| == PartSizes(ordered)
  {
    hide Filter, Consistent, UniquePaths, UniqueParts, Load, LoadAll, PartsOf, Content, Strips, PartStored, Ascending, PartSizes, Flatten, Contents;
    forall p | p in ordered
      ensures p in t.parts && p.upload == upload && PartStored(suite, blobs, p) && p.path < nextPath
    {
      var i :| 0 <= i < |ordered| && ordered[i] == p;
      assert PartClaims(t, p.path);
      ClaimedByPart(t, p.path);
    }
    forall i | 0 <= i < |requested|
      ensures ordered[i] in t.parts && ordered[i].upload == upload && ordered[i].number == requested[i].number
    {
      assert ordered[i] in ordered;
    }
    PartsConcatenate(suite, blobs, ordered);
    SourcesIn(ordered, nextPath);
    AssembledContents(suite, t, blobs, upload, requested, ordered);
  }

  lemma StackKeys(suite: Suite, t: Tables, blobs: Blobs, slot: Slot)
    ensures slot in StacksOf(suite, t, blobs) <==> slot in t.objects
  {}

  lemma DoesDelete(bucket: BucketRow, stacks: VS.Stacks, slot: Slot, draw: nat)
    requires slot.0 == bucket.guid
    ensures slot !in stacks ==> Does(bucket, stacks, VS.Delete(slot, draw)) == stacks
    ensures slot in stacks && bucket.versioning == Disabled ==> Does(bucket, stacks, VS.Delete(slot, draw)) == stacks - {slot}
  {}

  lemma DoesDeleteVersion(bucket: BucketRow, stacks: VS.Stacks, slot: Slot, id: VersionId)
    ensures Does(bucket, stacks, VS.DeleteVersion(slot, id)) == VS.Remove(stacks, slot, id)
  {}

  lemma RemoveAbsent(s: VS.Stacks, slot: Slot, id: VersionId)
    requires slot !in s
    ensures VS.Remove(s, slot, id) == s
  {}
}
