/** The changes requests make to the tables, as the object service guards them, and what every
    sequential run of them keeps. */
module Changes {
  import opened Common
  import opened Storage
  import opened Tables
  import opened Usage
  import opened ObjectStore

  datatype Change =
    | Commit(bucket: BucketRow, key: Key, version: NewVersion)
    | Drop(row: VersionRow)
    | Purge(slot: Slot)
    | OpenUpload(slot: Slot)
    | StorePart(bucket: BucketRow, part: PartRow)
    | CompleteUpload(bucket: BucketRow, upload: UploadId, selected: seq<PartRow>, version: NewVersion)
    | AbortUpload(upload: UploadId)

  function Changed(t: Tables, change: Change): Tables
  {
    match change
    case Commit(bucket, key, v) => CommitVersion(t, (bucket.guid, key), v)
    case Drop(v) => DropVersion(t, v.objectGuid, v.guid)
    case Purge(slot) => if slot in t.objects then PurgeObject(t, t.objects[slot].id) else t
    case OpenUpload(slot) => CreateUpload(t, slot)
    case StorePart(_, part) => UpsertPart(t, part)
    case CompleteUpload(_, upload, _, v) => Complete(t, upload, v)
    case AbortUpload(upload) => DeleteParts(SetStatus(t, upload, Aborted), upload)
  }

  /** The guards the service checks before it changes anything. Completing an upload is the one
      write without a quota check. */
  ghost predicate Allowed(t: Tables, change: Change)
  {
    match change
    case Commit(bucket, _, v) =>
      && bucket in t.buckets && Committable(t, v)
      && (v.path.Some? ==> !Claimed(t, v.path.value) && AssertQuota(t, bucket, v.size) == None)
    case Drop(v) => v in t.versions
    case Purge(slot) => slot in t.objects
    case OpenUpload(_) => true
    case StorePart(bucket, part) =>
      && bucket in t.buckets && part.upload.bucket == bucket.guid && InProgressUpload(t, part.upload)
      && !Claimed(t, part.path) && AssertQuota(t, bucket, part.size) == None
    case CompleteUpload(bucket, upload, selected, v) =>
      && bucket in t.buckets && upload.bucket == bucket.guid && InProgressUpload(t, upload)
      && Ascending(selected) && (forall p :: p in selected ==> p in t.parts && p.upload == upload)
      && Committable(t, v) && v.path.Some? && !Claimed(t, v.path.value) && v.size == PartSizes(selected)
    case AbortUpload(upload) => InProgressUpload(t, upload)
  }

  // ---- Soundness ----

  lemma StorePartSound(t: Tables, part: PartRow)
    requires TablesSound(t) && InProgressUpload(t, part.upload) && !Claimed(t, part.path)
    ensures TablesSound(UpsertPart(t, part))
  {
    hide Filter, UniquePaths, Claimed;
    UpsertPartClaims(t, part);
    SameVersions(t, UpsertPart(t, part));
  }

  /** Consistency is about versions and objects only. */
  lemma SameVersions(t: Tables, t': Tables)
    requires Consistent(t) && t'.versions == t.versions && t'.objects == t.objects && t.next <= t'.next
    ensures Consistent(t')
  {
    hide Filter, ObjectSound, RowSound, HasObject, DistinctIds;
    forall slot | slot in t'.objects
      ensures ObjectSound(t', slot)
    {
      SameObject(t, t', slot);
    }
    forall v | v in t'.versions
      ensures HasObject(t', v.objectGuid) && RowSound(t', v)
    {
      SameVersion(t, t', v);
    }
  }

  lemma SameObject(t: Tables, t': Tables, slot: Slot)
    requires slot in t.objects && ObjectSound(t, slot)
    requires t'.versions == t.versions && t'.objects == t.objects && t.next <= t'.next
    ensures ObjectSound(t', slot)
  {
    hide Filter;
  }

  lemma SameVersion(t: Tables, t': Tables, v: VersionRow)
    requires HasObject(t, v.objectGuid) && RowSound(t, v)
    requires t'.objects == t.objects && t.next <= t'.next
    ensures HasObject(t', v.objectGuid) && RowSound(t', v)
  {}

  lemma RetireSound(t: Tables, upload: UploadId, status: UploadStatus)
    requires TablesSound(t)
    ensures TablesSound(DeleteParts(SetStatus(t, upload, status), upload))
  {
    hide Filter, Claimed, UniquePaths, Consistent, UniqueParts, UploadsSound, DistinctBuckets;
    var t1 := SetStatus(t, upload, status);
    SamePaths(t, t1);
    DeletePartsClaims(t1, upload);
    SameVersions(t, DeleteParts(t1, upload));
    RetiredParts(t, upload, status);
  }

  lemma RetiredParts(t: Tables, upload: UploadId, status: UploadStatus)
    requires UniqueParts(t) && UploadsSound(t)
    ensures UniqueParts(DeleteParts(SetStatus(t, upload, status), upload)) && UploadsSound(DeleteParts(SetStatus(t, upload, status), upload))
  {
    hide Filter;
  }

  lemma SamePaths(t: Tables, t': Tables)
    requires UniquePaths(t) && t'.versions == t.versions && t'.parts == t.parts
    ensures UniquePaths(t')
  {}

  lemma {:induction false} ChangeSound(t: Tables, change: Change)
    requires TablesSound(t) && Allowed(t, change)
    ensures TablesSound(Changed(t, change))
  {
    hide Filter, Consistent, UniquePaths, Claimed, Committable, CommitVersion, AssertQuota, Ascending;
    match change {
      case Commit(bucket, key, v) => CommitSound(t, (bucket.guid, key), v);
      case Drop(v) =>
        DropConsistent(t, v);
        DropClaims(t, v.objectGuid, v.guid);
      case Purge(slot) =>
        PurgeConsistent(t, t.objects[slot].id);
        PurgeClaims(t, t.objects[slot].id);
      case OpenUpload(slot) =>
        SameVersions(t, CreateUpload(t, slot));
        SamePaths(t, CreateUpload(t, slot));
      case StorePart(_, part) => StorePartSound(t, part);
      case CompleteUpload(_, upload, _, v) =>
        CommitSound(t, (upload.bucket, upload.key), v);
        RetireSound(CommitVersion(t, (upload.bucket, upload.key), v), upload, Completed);
      case AbortUpload(upload) => RetireSound(t, upload, Aborted);
    }
  }

  // ---- Quotas ----

  lemma {:induction false} ChangeWithinQuota(t: Tables, change: Change)
    requires TablesSound(t) && WithinQuota(t) && Allowed(t, change)
    ensures WithinQuota(Changed(t, change))
  {
    hide Filter, Consistent, UniquePaths, UniqueParts, DistinctBuckets, Claimed, WithinQuota, Grows, CommitVersion, AssertQuota, Committable, Ascending, PartSizes;
    var t' := Changed(t, change);
    match change {
      case Commit(bucket, key, v) =>
        CommitGrows(t, (bucket.guid, key), v);
        QuotaKept(t, t', bucket, if v.path.Some? then v.size else 0);
      case Drop(v) =>
        DropGrows(t, v.objectGuid, v.guid, "");
        QuotaFree(t, t', "");
      case Purge(slot) =>
        PurgeGrows(t, t.objects[slot].id, "");
        QuotaFree(t, t', "");
      case OpenUpload(slot) =>
        CreateUploadGrows(t, slot, "");
        QuotaFree(t, t', "");
      case StorePart(bucket, part) =>
        UpsertPartGrows(t, part);
        QuotaKept(t, t', bucket, part.size);
      case CompleteUpload(bucket, upload, selected, v) =>
        CompleteGrows(t, upload, selected, v, "");
        QuotaFree(t, t', "");
      case AbortUpload(upload) =>
        AbortGrows(t, upload, "");
        QuotaFree(t, t', "");
    }
  }

  /** A commit that replaces nothing adds its bytes. */
  lemma CommitAdds(t: Tables, bucket: BucketRow, key: Key, v: NewVersion)
    requires Consistent(t) && v.versionId != Null && v.path.Some?
    ensures Bytes(CommitVersion(t, (bucket.guid, key), v), bucket.guid) == Bytes(t, bucket.guid) + v.size
    ensures CommitVersion(t, (bucket.guid, key), v).buckets == t.buckets
  {
    hide Filter, VersionSizes, PartSizes;
    var row := NewRow(t, (bucket.guid, key), v);
    if (bucket.guid, key) in t.objects {
      ObjectOf(t, (bucket.guid, key));
    }
    FilterConcat(t.versions, [row], Charged(bucket.guid));
    VersionSizesConcat(Filter(t.versions, Charged(bucket.guid)), Filter([row], Charged(bucket.guid)));
    OneCharged(row, bucket.guid);
  }

  lemma OneCharged(row: VersionRow, bucket: Bucket)
    requires Charged(bucket)(row)
    ensures VersionSizes(Filter([row], Charged(bucket))) == row.size
  {
    assert [row][1..] == [];
  }

  /** The check and the commit are separate. Of two writes that were both checked before either was
      committed, the bucket holds both in the end - and is within its quota if and only if they fit
      together, which neither check asked. */
  lemma CheckedApart(t: Tables, bucket: BucketRow, first: Key, v: NewVersion, second: Key, w: NewVersion)
    requires TablesSound(t) && Allowed(t, Commit(bucket, first, v)) && Allowed(t, Commit(bucket, second, w))
    requires bucket.quotaBytes.Some? && v.versionId != Null && w.versionId != Null && v.path.Some? && w.path.Some?
    ensures var t' := CommitVersion(CommitVersion(t, (bucket.guid, first), v), (bucket.guid, second), w);
            BucketWithin(t', bucket) <==> Bytes(t, bucket.guid) + v.size + w.size <= bucket.quotaBytes.value
  {
    hide Bytes, CommitVersion, AssertQuota, Consistent, Committable, Claimed;
    CommitConsistent(t, (bucket.guid, first), v);
    CommitAdds(t, bucket, first, v);
    CommitAdds(CommitVersion(t, (bucket.guid, first), v), bucket, second, w);
  }

  // ---- Runs ----

  function Run(t: Tables, changes: seq<Change>): Tables
    decreases |changes|
  {
    if changes == [] then t else Run(Changed(t, changes[0]), changes[1..])
  }

  ghost predicate AllowedRun(t: Tables, changes: seq<Change>)
    decreases |changes|
  {
    changes == [] || (Allowed(t, changes[0]) && AllowedRun(Changed(t, changes[0]), changes[1..]))
  }

  /** Every sequential run keeps the tables sound: every object has a version, its `latest` field
      names its own newest one, version ids are unique and no two rows share a blob. */
  lemma {:induction false} RunKeepsTablesSound(t: Tables, changes: seq<Change>)
    requires TablesSound(t) && AllowedRun(t, changes)
    ensures TablesSound(Run(t, changes))
    decreases |changes|
  {
    if changes != [] {
      hide TablesSound, Changed, Allowed;
      ChangeSound(t, changes[0]);
      RunKeepsTablesSound(Changed(t, changes[0]), changes[1..]);
    }
  }

  /** Every sequential run that starts within quota stays within quota, for every bucket and every
      owner, at every operation boundary. */
  lemma {:induction false} RunKeepsQuota(t: Tables, changes: seq<Change>)
    requires TablesSound(t) && WithinQuota(t) && AllowedRun(t, changes)
    ensures WithinQuota(Run(t, changes))
    decreases |changes|
  {
    if changes != [] {
      hide TablesSound, Changed, Allowed, WithinQuota;
      ChangeSound(t, changes[0]);
      ChangeWithinQuota(t, changes[0]);
      RunKeepsQuota(Changed(t, changes[0]), changes[1..]);
    }
  }
}
