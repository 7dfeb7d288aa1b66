/** `UsageService`: how much disk a bucket or a user occupies, derived from the tables, and the
    quota check built on top of it. */
module Usage {
  import opened Common
  import opened Tables

  datatype Usage = Usage(objectCount: nat, versionCount: nat, versionBytes: nat, multipartBytes: nat, totalBytes: nat)

  datatype QuotaError = BucketQuotaExceeded | UserQuotaExceeded

  const EMPTY_USAGE := Usage(0, 0, 0, 0, 0)

  // ---- Totals ----

  function VersionSizes(vs: seq<VersionRow>): nat
  {
    if vs == [] then 0 else vs[0].size + VersionSizes(vs[1..])
  }

  function PartSizes(ps: seq<PartRow>): nat
  {
    if ps == [] then 0 else ps[0].size + PartSizes(ps[1..])
  }

  /** Delete markers hold no bytes and are not counted. */
  function Charged(bucket: Bucket): VersionRow -> bool { (v: VersionRow) => v.objectGuid.bucket == bucket && v.path.Some? }

  function Held(uploads: map<UploadId, UploadStatus>, bucket: Bucket): PartRow -> bool
  {
    (p: PartRow) => p.upload.bucket == bucket && p.upload in uploads && uploads[p.upload] == InProgress
  }

  function VersionBytes(t: Tables, bucket: Bucket): nat { VersionSizes(Filter(t.versions, Charged(bucket))) }

  function MultipartBytes(t: Tables, bucket: Bucket): nat { PartSizes(Filter(t.parts, Held(t.uploads, bucket))) }

  function Bytes(t: Tables, bucket: Bucket): nat { VersionBytes(t, bucket) + MultipartBytes(t, bucket) }

  predicate Visible(t: Tables, slot: Slot)
  {
    slot in t.objects && exists v :: v in t.versions && Some(v.guid) == t.objects[slot].latest && !v.isDeleteMarker
  }

  function BucketUsage(t: Tables, bucket: Bucket): Usage
  {
    Usage(|set slot | slot in t.objects && slot.0 == bucket && Visible(t, slot)|, |Filter(t.versions, Charged(bucket))|,
          VersionBytes(t, bucket), MultipartBytes(t, bucket), Bytes(t, bucket))
  }

  function Add(left: Usage, right: Usage): Usage
  {
    Usage(left.objectCount + right.objectCount, left.versionCount + right.versionCount, left.versionBytes + right.versionBytes,
          left.multipartBytes + right.multipartBytes, left.totalBytes + right.totalBytes)
  }

  function OwnedBy(user: string): BucketRow -> bool { (b: BucketRow) => b.owner == user }

  /** The `reduce` over the buckets' usages. */
  function Reduce(t: Tables, buckets: seq<BucketRow>, total: Usage): Usage
    decreases |buckets|
  {
    if buckets == [] then total else Reduce(t, buckets[1..], Add(total, BucketUsage(t, buckets[0].guid)))
  }

  function UserUsage(t: Tables, user: string): Usage { Reduce(t, Filter(t.buckets, OwnedBy(user)), EMPTY_USAGE) }

  /** Refuses bytes that would push the bucket, or its owner, past their quota. */
  function AssertQuota(t: Tables, bucket: BucketRow, bytes: nat): Option<QuotaError>
  {
    if bucket.quotaBytes.Some? && BucketUsage(t, bucket.guid).totalBytes + bytes > bucket.quotaBytes.value then Some(BucketQuotaExceeded)
    else if bucket.owner !in t.users || t.users[bucket.owner].None? then None
    else if UserUsage(t, bucket.owner).totalBytes + bytes > t.users[bucket.owner].value then Some(UserQuotaExceeded)
    else None
  }

  // ---- What a user's total is ----

  /** The bytes of several buckets together. */
  function TotalBytes(t: Tables, buckets: seq<BucketRow>): nat
  {
    if buckets == [] then 0 else Bytes(t, buckets[0].guid) + TotalBytes(t, buckets[1..])
  }

  lemma {:induction false} ReduceTotal(t: Tables, buckets: seq<BucketRow>, total: Usage)
    ensures Reduce(t, buckets, total).totalBytes == total.totalBytes + TotalBytes(t, buckets)
    decreases |buckets|
  {
    if buckets != [] {
      ReduceTotal(t, buckets[1..], Add(total, BucketUsage(t, buckets[0].guid)));
    }
  }

  ghost predicate DistinctBuckets(buckets: seq<BucketRow>)
  {
    forall i, j :: 0 <= i < j < |buckets| ==> buckets[i].guid != buckets[j].guid
  }

  /** Nothing but one bucket may have grown, and that by at most so many bytes. */
  ghost predicate Grows(t: Tables, t': Tables, bucket: Bucket, bytes: nat)
  {
    && t'.buckets == t.buckets && t'.users == t.users
    && forall b: Bucket :: Bytes(t', b) <= Bytes(t, b) + if b == bucket then bytes else 0
  }

  lemma {:induction false} TotalGrows(t: Tables, t': Tables, buckets: seq<BucketRow>, bucket: Bucket, bytes: nat)
    requires Grows(t, t', bucket, bytes) && DistinctBuckets(buckets)
    ensures TotalBytes(t', buckets) <= TotalBytes(t, buckets) + bytes
    ensures (forall b :: b in buckets ==> b.guid != bucket) ==> TotalBytes(t', buckets) <= TotalBytes(t, buckets)
  {
    hide Bytes;
    if buckets != [] {
      TotalGrows(t, t', buckets[1..], bucket, bytes);
      if buckets[0].guid == bucket {
        forall b | b in buckets[1..]
          ensures b.guid != bucket
        {}
      }
    }
  }

  lemma {:induction false} FilterDistinct(buckets: seq<BucketRow>, keep: BucketRow -> bool)
    requires DistinctBuckets(buckets)
    ensures DistinctBuckets(Filter(buckets, keep))
  {
    if buckets != [] {
      FilterDistinct(buckets[1..], keep);
      var rest := Filter(buckets[1..], keep);
      forall j | 0 <= j < |rest|
        ensures buckets[0].guid != rest[j].guid
      {
        assert rest[j] in buckets[1..];
      }
    }
  }

  /** A write is refused if and only if its bytes would push the bucket past its quota, or else the
      buckets of its owner together past the owner's. */
  lemma AssertQuotaExact(t: Tables, bucket: BucketRow, bytes: nat)
    ensures AssertQuota(t, bucket, bytes) == Some(BucketQuotaExceeded)
            <==> bucket.quotaBytes.Some? && Bytes(t, bucket.guid) + bytes > bucket.quotaBytes.value
    ensures AssertQuota(t, bucket, bytes) == Some(UserQuotaExceeded)
            <==> AssertQuota(t, bucket, bytes) != Some(BucketQuotaExceeded) && bucket.owner in t.users && t.users[bucket.owner].Some?
                 && TotalBytes(t, Filter(t.buckets, OwnedBy(bucket.owner))) + bytes > t.users[bucket.owner].value
  {
    hide Bytes, Filter, TotalBytes, Reduce;
    ReduceTotal(t, Filter(t.buckets, OwnedBy(bucket.owner)), EMPTY_USAGE);
  }

  // ---- Quotas hold ----

  ghost predicate BucketWithin(t: Tables, b: BucketRow) { b.quotaBytes.Some? ==> Bytes(t, b.guid) <= b.quotaBytes.value }

  ghost predicate UserWithin(t: Tables, user: string)
  {
    user in t.users && t.users[user].Some? ==> UserUsage(t, user).totalBytes <= t.users[user].value
  }

  ghost predicate WithinQuota(t: Tables)
  {
    && (forall b :: b in t.buckets ==> BucketWithin(t, b))
    && (forall user :: UserWithin(t, user))
  }

  /** A user's total grows with the growing bucket only if the user owns it. */
  lemma UserGrows(t: Tables, t': Tables, bucket: BucketRow, bytes: nat, user: string)
    requires Grows(t, t', bucket.guid, bytes) && DistinctBuckets(t.buckets) && bucket in t.buckets
    ensures UserUsage(t', user).totalBytes <= UserUsage(t, user).totalBytes + if bucket.owner == user then bytes else 0
  {
    hide Filter, Reduce, Grows, TotalBytes;
    var mine := Filter(t.buckets, OwnedBy(user));
    assert t'.buckets == t.buckets by { GrowsBuckets(t, t', bucket.guid, bytes); }
    FilterDistinct(t.buckets, OwnedBy(user));
    ReduceTotal(t, mine, EMPTY_USAGE);
    ReduceTotal(t', mine, EMPTY_USAGE);
    TotalGrows(t, t', mine, bucket.guid, bytes);
    if bucket.owner != user {
      forall b | b in mine
        ensures b.guid != bucket.guid
      {
        if b.guid == bucket.guid {
          SameBucketRow(t.buckets, b, bucket);
        }
      }
    }
  }

  lemma GrowsBuckets(t: Tables, t': Tables, bucket: Bucket, bytes: nat)
    requires Grows(t, t', bucket, bytes)
    ensures t'.buckets == t.buckets && t'.users == t.users
  {}

  lemma SameBucketRow(buckets: seq<BucketRow>, a: BucketRow, b: BucketRow)
    requires DistinctBuckets(buckets) && a in buckets && b in buckets && a.guid == b.guid
    ensures a == b
  {}

  /** Growth the quota check passed - or no growth at all - keeps every bucket and every owner
      within quota. */
  lemma QuotaKept(t: Tables, t': Tables, bucket: BucketRow, bytes: nat)
    requires WithinQuota(t) && DistinctBuckets(t.buckets) && bucket in t.buckets
    requires Grows(t, t', bucket.guid, bytes)
    requires bytes == 0 || AssertQuota(t, bucket, bytes) == None
    ensures WithinQuota(t')
  {
    hide UserUsage, DistinctBuckets;
    forall b | b in t'.buckets
      ensures BucketWithin(t', b)
    {
      assert BucketWithin(t, b);
      if b.guid == bucket.guid {
        SameBucketRow(t.buckets, b, bucket);
      }
    }
    forall user
      ensures UserWithin(t', user)
    {
      assert UserWithin(t, user);
      UserGrows(t, t', bucket, bytes, user);
    }
  }

  /** A change that lets no bucket grow needs no check. */
  lemma QuotaFree(t: Tables, t': Tables, bucket: Bucket)
    requires WithinQuota(t) && DistinctBuckets(t.buckets) && Grows(t, t', bucket, 0)
    ensures WithinQuota(t')
  {
    hide Filter, Reduce, TotalBytes;
    forall b | b in t'.buckets
      ensures BucketWithin(t', b)
    {
      assert BucketWithin(t, b);
    }
    forall user
      ensures UserWithin(t', user)
    {
      assert UserWithin(t, user);
      var mine := Filter(t.buckets, OwnedBy(user));
      FilterDistinct(t.buckets, OwnedBy(user));
      ReduceTotal(t, mine, EMPTY_USAGE);
      ReduceTotal(t', mine, EMPTY_USAGE);
      TotalGrows(t, t', mine, bucket, 0);
    }
  }

  // ---- What each transaction does to the totals ----

  lemma {:induction false} VersionSizesConcat(a: seq<VersionRow>, b: seq<VersionRow>)
    ensures VersionSizes(a + b) == VersionSizes(a) + VersionSizes(b)
  {
    if a == [] {
      assert a + b == b;
    } else {
      assert (a + b)[1..] == a[1..] + b;
      VersionSizesConcat(a[1..], b);
    }
  }

  lemma {:induction false} PartSizesConcat(a: seq<PartRow>, b: seq<PartRow>)
    ensures PartSizes(a + b) == PartSizes(a) + PartSizes(b)
  {
    if a == [] {
      assert a + b == b;
    } else {
      assert (a + b)[1..] == a[1..] + b;
      PartSizesConcat(a[1..], b);
    }
  }

  /** Row by row: a version with a blob weighs its size in its own bucket and nothing anywhere else, a
      marker weighs nothing. */
  lemma VersionWeighs(t: Tables, v: VersionRow, bucket: Bucket)
    ensures VersionBytes(t.(versions := []), bucket) == 0
    ensures var before, after := BucketUsage(t, bucket), BucketUsage(t.(versions := t.versions + [v]), bucket);
            var counts := v.objectGuid.bucket == bucket && v.path != None;
            && after.versionCount == before.versionCount + (if counts then 1 else 0)
            && after.versionBytes == before.versionBytes + (if counts then v.size else 0)
  {
    hide Visible, MultipartBytes;
    var rows := Filter(t.versions, Charged(bucket));
    FilterConcat(t.versions, [v], Charged(bucket));
    assert [v][1..] == [];
    VersionSizesConcat(rows, Filter([v], Charged(bucket)));
  }

  /** And a part weighs its size in the bucket of its upload while that is in progress. */
  lemma PartWeighs(t: Tables, p: PartRow, bucket: Bucket)
    ensures MultipartBytes(t.(parts := []), bucket) == 0
    ensures MultipartBytes(t.(parts := t.parts + [p]), bucket)
            == MultipartBytes(t, bucket) + if p.upload.bucket == bucket && InProgressUpload(t, p.upload) then p.size else 0
  {
    var rows := Filter(t.parts, Held(t.uploads, bucket));
    FilterConcat(t.parts, [p], Held(t.uploads, bucket));
    assert [p][1..] == [];
    PartSizesConcat(rows, Filter([p], Held(t.uploads, bucket)));
  }

  /** Dropping rows never raises a total. */
  lemma {:induction false} FewerVersions(vs: seq<VersionRow>, keep: VersionRow -> bool)
    ensures VersionSizes(Filter(vs, keep)) <= VersionSizes(vs)
  {
    if vs != [] {
      FewerVersions(vs[1..], keep);
      if keep(vs[0]) {
        assert Filter(vs, keep)[1..] == Filter(vs[1..], keep);
      }
    }
  }

  /** Rows dropped and rows kept make up the whole. */
  lemma {:induction false} PartsSplit(ps: seq<PartRow>, keep: PartRow -> bool, drop: PartRow -> bool)
    requires forall p :: p in ps ==> keep(p) != drop(p)
    ensures PartSizes(Filter(ps, keep)) + PartSizes(Filter(ps, drop)) == PartSizes(ps)
  {
    if ps != [] {
      PartsSplit(ps[1..], keep, drop);
      if keep(ps[0]) {
        assert Filter(ps, keep)[1..] == Filter(ps[1..], keep);
      } else {
        assert Filter(ps, drop)[1..] == Filter(ps[1..], drop);
      }
    }
  }

  lemma {:induction false} FewerParts(ps: seq<PartRow>, narrow: PartRow -> bool, wide: PartRow -> bool)
    requires forall p :: p in ps && narrow(p) ==> wide(p)
    ensures PartSizes(Filter(ps, narrow)) <= PartSizes(Filter(ps, wide))
  {
    if ps != [] {
      FewerParts(ps[1..], narrow, wide);
      if wide(ps[0]) {
        assert Filter(ps, wide)[1..] == Filter(ps[1..], wide);
      }
      if narrow(ps[0]) {
        assert Filter(ps, narrow)[1..] == Filter(ps[1..], narrow);
      }
    }
  }

  lemma SingleSize(v: VersionRow, keep: VersionRow -> bool)
    ensures VersionSizes(Filter([v], keep)) == if keep(v) then v.size else 0
  {
    assert [v][1..] == [];
  }

  lemma SinglePart(p: PartRow, keep: PartRow -> bool)
    ensures PartSizes(Filter([p], keep)) == if keep(p) then p.size else 0
  {
    assert [p][1..] == [];
  }

  /** Filtered rows of filtered rows weigh no more than the filtered rows. */
  lemma NarrowedVersions(vs: seq<VersionRow>, keep: VersionRow -> bool, bucket: Bucket)
    ensures VersionSizes(Filter(Filter(vs, keep), Charged(bucket))) <= VersionSizes(Filter(vs, Charged(bucket)))
  {
    hide Filter, VersionSizes;
    FilterCommute(vs, keep, Charged(bucket));
    FewerVersions(Filter(vs, Charged(bucket)), keep);
  }

  lemma CommitGrows(t: Tables, slot: Slot, v: NewVersion)
    requires Consistent(t)
    ensures Grows(t, CommitVersion(t, slot, v), slot.0, if v.path.Some? then v.size else 0)
  {
    hide Filter, VersionSizes, PartSizes, Consistent;
    var t', row := CommitVersion(t, slot, v), NewRow(t, slot, v);
    NewObject(t, slot);
    forall b: Bucket
      ensures Bytes(t', b) <= Bytes(t, b) + if b == slot.0 then if v.path.Some? then v.size else 0 else 0
    {
      FilterConcat(Kept(t, slot, v), [row], Charged(b));
      VersionSizesConcat(Filter(Kept(t, slot, v), Charged(b)), Filter([row], Charged(b)));
      SingleSize(row, Charged(b));
      NarrowedVersions(t.versions, NotNullOf(row.objectGuid), b);
    }
  }

  lemma DropGrows(t: Tables, id: ObjectId, guid: nat, bucket: Bucket)
    ensures Grows(t, DropVersion(t, id, guid), bucket, 0)
  {
    hide Filter, VersionSizes, PartSizes;
    forall b: Bucket
      ensures Bytes(DropVersion(t, id, guid), b) <= Bytes(t, b)
    {
      NarrowedVersions(t.versions, WithoutGuid(guid), b);
    }
  }

  lemma PurgeGrows(t: Tables, id: ObjectId, bucket: Bucket)
    ensures Grows(t, PurgeObject(t, id), bucket, 0)
  {
    hide Filter, VersionSizes, PartSizes;
    forall b: Bucket
      ensures Bytes(PurgeObject(t, id), b) <= Bytes(t, b)
    {
      NarrowedVersions(t.versions, NotOf(id), b);
    }
  }

  /** A new upload holds no parts yet. */
  lemma CreateUploadGrows(t: Tables, slot: Slot, bucket: Bucket)
    requires forall p :: p in t.parts ==> p.upload in t.uploads
    requires UploadId(slot.0, slot.1, t.next) !in t.uploads
    ensures Grows(t, CreateUpload(t, slot), bucket, 0)
  {
    hide Filter, VersionSizes, PartSizes;
    var t' := CreateUpload(t, slot);
    forall b: Bucket
      ensures Bytes(t', b) <= Bytes(t, b)
    {
      FilterAgree(t.parts, Held(t.uploads, b), Held(t'.uploads, b));
    }
  }

  lemma UpsertPartGrows(t: Tables, part: PartRow)
    ensures Grows(t, UpsertPart(t, part), part.upload.bucket, part.size)
  {
    hide Filter, VersionSizes, PartSizes;
    forall b: Bucket
      ensures Bytes(UpsertPart(t, part), b) <= Bytes(t, b) + if b == part.upload.bucket then part.size else 0
    {
      var kept := Filter(t.parts, NotPart(part.upload, part.number));
      FilterConcat(kept, [part], Held(t.uploads, b));
      PartSizesConcat(Filter(kept, Held(t.uploads, b)), Filter([part], Held(t.uploads, b)));
      SinglePart(part, Held(t.uploads, b));
      FilterCommute(t.parts, NotPart(part.upload, part.number), Held(t.uploads, b));
      var held := Filter(t.parts, Held(t.uploads, b));
      PartsSplit(held, NotPart(part.upload, part.number), IsPart(part.upload, part.number));
    }
  }

  /** Retiring an upload, in whatever way, releases exactly the parts stored under it. */
  lemma RetireReleases(t: Tables, upload: UploadId, status: UploadStatus)
    requires InProgressUpload(t, upload)
    ensures var t' := DeleteParts(SetStatus(t, upload, status), upload);
            && t'.versions == t.versions && t'.buckets == t.buckets && t'.users == t.users
            && forall b: Bucket :: MultipartBytes(t', b) + (if b == upload.bucket then PartSizes(Filter(t.parts, InUpload(upload))) else 0) == MultipartBytes(t, b)
  {
    hide Filter, PartSizes;
    var t' := DeleteParts(SetStatus(t, upload, status), upload);
    forall b: Bucket
      ensures MultipartBytes(t', b) + (if b == upload.bucket then PartSizes(Filter(t.parts, InUpload(upload))) else 0) == MultipartBytes(t, b)
    {
      RetireBucket(t, upload, t'.uploads, b);
    }
  }

  lemma RetireBucket(t: Tables, upload: UploadId, uploads: map<UploadId, UploadStatus>, b: Bucket)
    requires InProgressUpload(t, upload)
    requires forall other :: other != upload ==> (other in uploads <==> other in t.uploads) && (other in uploads ==> uploads[other] == t.uploads[other])
    ensures PartSizes(Filter(Filter(t.parts, NotInUpload(upload)), Held(uploads, b)))
            + (if b == upload.bucket then PartSizes(Filter(t.parts, InUpload(upload))) else 0)
            == PartSizes(Filter(t.parts, Held(t.uploads, b)))
  {
    hide Filter, PartSizes;
    var held, kept := Filter(t.parts, Held(t.uploads, b)), Filter(t.parts, NotInUpload(upload));
    FilterAgree(kept, Held(uploads, b), Held(t.uploads, b));
    FilterCommute(t.parts, NotInUpload(upload), Held(t.uploads, b));
    PartsSplit(held, NotInUpload(upload), InUpload(upload));
    if b == upload.bucket {
      FilterNarrow(t.parts, Held(t.uploads, b), InUpload(upload));
    } else {
      FilterNone(held, InUpload(upload));
      NoSizes();
    }
  }

  lemma NoSizes()
    ensures PartSizes([]) == 0
  {}

  lemma AbortGrows(t: Tables, upload: UploadId, bucket: Bucket)
    requires InProgressUpload(t, upload)
    ensures Grows(t, DeleteParts(SetStatus(t, upload, Aborted), upload), bucket, 0)
  {
    hide Filter, VersionSizes, PartSizes;
    RetireReleases(t, upload, Aborted);
  }

  // ---- Why completing an upload needs no quota check ----

  ghost predicate Ascending(ps: seq<PartRow>)
  {
    forall i, j :: 0 <= i < j < |ps| ==> ps[i].number < ps[j].number
  }

  /** A strictly ascending selection weighs at most the stored parts it is taken from. */
  lemma {:induction false} SelectionWeighs(selected: seq<PartRow>, stored: seq<PartRow>)
    requires Ascending(selected) && forall p :: p in selected ==> p in stored
    ensures PartSizes(selected) <= PartSizes(stored)
    decreases |selected|
  {
    if selected != [] {
      var first, rest := selected[0], selected[1..];
      assert first in selected;
      var i :| 0 <= i < |stored| && stored[i] == first;
      var others := stored[..i] + stored[i + 1..];
      forall p | p in rest
        ensures p in others
      {
        assert p in selected;
        var k :| 0 <= k < |stored| && stored[k] == p;
        assert p.number > first.number && k != i;
        assert p == if k < i then others[k] else others[k - 1];
      }
      SelectionWeighs(rest, others);
      PartSizesConcat(stored[..i], stored[i + 1..]);
      PartSizesConcat(stored[..i], [first] + stored[i + 1..]);
      assert stored == stored[..i] + ([first] + stored[i + 1..]);
      assert ([first] + stored[i + 1..])[1..] == stored[i + 1..];
    }
  }

  function Complete(t: Tables, upload: UploadId, v: NewVersion): Tables
  {
    DeleteParts(SetStatus(CommitVersion(t, (upload.bucket, upload.key), v), upload, Completed), upload)
  }

  lemma CompleteGrows(t: Tables, upload: UploadId, selected: seq<PartRow>, v: NewVersion, bucket: Bucket)
    requires Consistent(t) && InProgressUpload(t, upload)
    requires Ascending(selected) && forall p :: p in selected ==> p in t.parts && p.upload == upload
    requires v.size == PartSizes(selected)
    ensures Grows(t, Complete(t, upload, v), bucket, 0)
  {
    hide Filter, VersionSizes, PartSizes, Consistent, CommitVersion;
    var stored := Filter(t.parts, InUpload(upload));
    SelectionWeighs(selected, stored);
    var t1 := CommitVersion(t, (upload.bucket, upload.key), v);
    CommitGrows(t, (upload.bucket, upload.key), v);
    CommitUploads(t, (upload.bucket, upload.key), v);
    RetireReleases(t1, upload, Completed);
    forall b: Bucket
      ensures Bytes(Complete(t, upload, v), b) <= Bytes(t, b)
    {
      assert MultipartBytes(t1, b) == MultipartBytes(t, b);
    }
  }

  lemma CommitUploads(t: Tables, slot: Slot, v: NewVersion)
    ensures CommitVersion(t, slot, v).uploads == t.uploads && CommitVersion(t, slot, v).parts == t.parts
  {}
}
