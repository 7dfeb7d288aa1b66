/** The metadata tables - bucket, object, object_version, multipart_upload, multipart_part - and the
    database transactions the object service runs on them, each a function of the tables. */
module Tables {
  import opened Common
  import opened Storage

  type Bucket = string
  type Key = string
  type Slot = (Bucket, Key)

  datatype Versioning = Disabled | Enabled | Suspended

  /** `null`, or a random id drawn once. */
  datatype VersionId = Null | Random(n: nat)

  datatype BucketRow = BucketRow(guid: Bucket, owner: string, quotaBytes: Option<nat>, versioning: Versioning)

  /** An object's guid; a row's bucket and key never change, so the guid stands for them too. */
  datatype ObjectId = ObjectId(bucket: Bucket, key: Key, serial: nat)

  datatype ObjectRow = ObjectRow(id: ObjectId, latest: Option<nat>)

  datatype VersionRow = VersionRow(guid: nat, objectGuid: ObjectId, versionId: VersionId, isDeleteMarker: bool, size: nat, etag: string,
                                   path: Option<Path>, encryption: Encryption)

  datatype UploadStatus = InProgress | Completed | Aborted

  datatype UploadId = UploadId(bucket: Bucket, key: Key, serial: nat)

  datatype PartRow = PartRow(upload: UploadId, number: nat, size: nat, etag: string, path: Path, encryption: Encryption)

  /** `versions` is kept in `created_at` order; `next` supplies fresh guids and ids. */
  datatype Tables = Tables(buckets: seq<BucketRow>, users: map<string, Option<nat>>, objects: map<Slot, ObjectRow>,
                           versions: seq<VersionRow>, uploads: map<UploadId, UploadStatus>, parts: seq<PartRow>, next: nat)

  // ---- WHERE clauses ----

  function Of(id: ObjectId): VersionRow -> bool { (v: VersionRow) => v.objectGuid == id }
  function NotOf(id: ObjectId): VersionRow -> bool { (v: VersionRow) => v.objectGuid != id }
  function WithoutGuid(guid: nat): VersionRow -> bool { (v: VersionRow) => v.guid != guid }
  function NullOf(id: ObjectId): VersionRow -> bool { (v: VersionRow) => v.objectGuid == id && v.versionId == Null }
  function NotNullOf(id: ObjectId): VersionRow -> bool { (v: VersionRow) => !(v.objectGuid == id && v.versionId == Null) }
  function InUpload(upload: UploadId): PartRow -> bool { (p: PartRow) => p.upload == upload }
  function NotInUpload(upload: UploadId): PartRow -> bool { (p: PartRow) => p.upload != upload }
  function NotPart(upload: UploadId, number: nat): PartRow -> bool { (p: PartRow) => !(p.upload == upload && p.number == number) }
  function IsPart(upload: UploadId, number: nat): PartRow -> bool { (p: PartRow) => p.upload == upload && p.number == number }

  function Paths(vs: seq<VersionRow>): seq<Path>
  {
    if vs == [] then []
    else (if vs[0].path.Some? then [vs[0].path.value] else []) + Paths(vs[1..])
  }

  lemma {:induction false} PathsIn(vs: seq<VersionRow>, path: Path)
    ensures path in Paths(vs) <==> exists v :: v in vs && v.path == Some(path)
  {
    if vs != [] {
      PathsIn(vs[1..], path);
      assert vs == [vs[0]] + vs[1..];
    }
  }

  function PartPaths(ps: seq<PartRow>): seq<Path>
  {
    if ps == [] then [] else [ps[0].path] + PartPaths(ps[1..])
  }

  /** The row uploadPart reads before it replaces it. */
  function PreviousPath(t: Tables, upload: UploadId, number: nat): Option<Path>
  {
    var found := Filter(t.parts, IsPart(upload, number));
    if found == [] then None else Some(found[0].path)
  }

  function StoredPaths(t: Tables, upload: UploadId): seq<Path> { PartPaths(Filter(t.parts, InUpload(upload))) }

  lemma {:induction false} PartPathsIn(ps: seq<PartRow>, path: Path)
    ensures path in PartPaths(ps) <==> exists p :: p in ps && p.path == path
  {
    if ps != [] {
      PartPathsIn(ps[1..], path);
      assert ps == [ps[0]] + ps[1..];
    }
  }

  function VersionPathSet(t: Tables): set<Path> { set v | v in t.versions && v.path.Some? :: v.path.value }

  function PartPathSet(t: Tables): set<Path> { set p | p in t.parts :: p.path }

  // ---- Transactions ----

  /** What a writer knows of the version it commits. */
  datatype NewVersion = NewVersion(versionId: VersionId, isDeleteMarker: bool, size: nat, etag: string, path: Option<Path>, encryption: Encryption)

  function Marker(versionId: VersionId): NewVersion { NewVersion(versionId, true, 0, "", None, None) }

  /** The object row of a slot, inserted if it is not there. */
  function UpsertedObject(t: Tables, slot: Slot): ObjectRow
  {
    if slot in t.objects then t.objects[slot] else ObjectRow(ObjectId(slot.0, slot.1, t.next), None)
  }

  function NewRow(t: Tables, slot: Slot, v: NewVersion): VersionRow
  {
    VersionRow(t.next + 1, UpsertedObject(t, slot).id, v.versionId, v.isDeleteMarker, v.size, v.etag, v.path, v.encryption)
  }

  function Kept(t: Tables, slot: Slot, v: NewVersion): seq<VersionRow>
  {
    if v.versionId == Null then Filter(t.versions, NotNullOf(UpsertedObject(t, slot).id)) else t.versions
  }

  /** `commitVersion`'s transaction: upsert the object, drop a replaced `null` version, insert the
      new one and point the object at it. */
  function CommitVersion(t: Tables, slot: Slot, v: NewVersion): Tables
  {
    var row := NewRow(t, slot, v);
    t.(objects := t.objects[slot := ObjectRow(row.objectGuid, Some(row.guid))],
       versions := Kept(t, slot, v) + [row],
       next := t.next + 2)
  }

  /** The storage paths `commitVersion` hands back for deletion. */
  function Replaced(t: Tables, slot: Slot, v: NewVersion): seq<Path>
  {
    if v.versionId == Null then Paths(Filter(t.versions, NullOf(UpsertedObject(t, slot).id))) else []
  }

  function SlotOf(id: ObjectId): Slot { (id.bucket, id.key) }

  predicate HasObject(t: Tables, id: ObjectId)
  {
    SlotOf(id) in t.objects && t.objects[SlotOf(id)].id == id
  }

  /** `deleteVersion`'s transaction: drop the row, then point the object at its newest remaining
      version or drop the object with its last one. */
  function DropVersion(t: Tables, id: ObjectId, guid: nat): Tables
  {
    var versions := Filter(t.versions, WithoutGuid(guid));
    var mine := Filter(versions, Of(id));
    var objects :=
      if !HasObject(t, id) then t.objects
      else if mine != [] then t.objects[SlotOf(id) := ObjectRow(id, Some(mine[|mine| - 1].guid))]
      else t.objects - {SlotOf(id)};
    t.(versions := versions, objects := objects)
  }

  /** `purgeObject`'s transaction. */
  function PurgeObject(t: Tables, id: ObjectId): Tables
  {
    t.(versions := Filter(t.versions, NotOf(id)),
       objects := if HasObject(t, id) then t.objects - {SlotOf(id)} else t.objects)
  }

  function Purged(t: Tables, id: ObjectId): seq<Path> { Paths(Filter(t.versions, Of(id))) }

  function CreateUpload(t: Tables, slot: Slot): Tables
  {
    t.(uploads := t.uploads[UploadId(slot.0, slot.1, t.next) := InProgress], next := t.next + 1)
  }

  predicate InProgressUpload(t: Tables, upload: UploadId) { upload in t.uploads && t.uploads[upload] == InProgress }

  function UpsertPart(t: Tables, part: PartRow): Tables
  {
    t.(parts := Filter(t.parts, NotPart(part.upload, part.number)) + [part])
  }

  function DeleteParts(t: Tables, upload: UploadId): Tables
  {
    t.(parts := Filter(t.parts, NotInUpload(upload)))
  }

  function SetStatus(t: Tables, upload: UploadId, status: UploadStatus): Tables
  {
    if upload in t.uploads then t.(uploads := t.uploads[upload := status]) else t
  }

  // ---- Histories ----

  /** An object's versions, oldest first. */
  function History(t: Tables, id: ObjectId): seq<VersionRow> { Filter(t.versions, Of(id)) }

  /** What the tables always satisfy between transactions. */
  ghost predicate Consistent(t: Tables)
  {
    && (forall slot :: slot in t.objects ==> ObjectSound(t, slot))
    && (forall v :: v in t.versions ==> HasObject(t, v.objectGuid) && RowSound(t, v))
    && Rising(t.versions, t.next)
    && DistinctIds(t.versions)
  }

  /** An object row is its slot's, and its `latest` field names its own newest version. */
  ghost predicate ObjectSound(t: Tables, slot: Slot)
    requires slot in t.objects
  {
    var row := t.objects[slot];
    var history := History(t, row.id);
    && SlotOf(row.id) == slot && row.id.serial < t.next
    && history != [] && row.latest == Some(history[|history| - 1].guid)
  }

  ghost predicate RowSound(t: Tables, v: VersionRow)
  {
    && (v.versionId.Random? ==> v.versionId.n < t.next)
    && (v.isDeleteMarker ==> v.path == None && v.size == 0)
    && (!v.isDeleteMarker ==> v.path.Some?)
  }

  ghost predicate Rising(vs: seq<VersionRow>, bound: nat)
  {
    && (forall i, j :: 0 <= i < j < |vs| ==> vs[i].guid < vs[j].guid)
    && (forall i :: 0 <= i < |vs| ==> vs[i].guid < bound)
  }

  /** Version ids are unique within an object - so at most one of them is `null`. */
  ghost predicate DistinctIds(vs: seq<VersionRow>)
  {
    forall i, j :: 0 <= i < j < |vs| && vs[i].objectGuid == vs[j].objectGuid ==> vs[i].versionId != vs[j].versionId
  }

  lemma {:induction false} FilterRising(vs: seq<VersionRow>, bound: nat, keep: VersionRow -> bool)
    requires Rising(vs, bound) && DistinctIds(vs)
    ensures Rising(Filter(vs, keep), bound) && DistinctIds(Filter(vs, keep))
  {
    if vs != [] {
      var rest := Filter(vs[1..], keep);
      assert Filter(vs, keep) == if keep(vs[0]) then [vs[0]] + rest else rest;
      assert forall w :: w in rest ==> w in vs[1..];
      hide Filter;
      FilterRising(vs[1..], bound, keep);
      HeadRises(vs, bound);
      if keep(vs[0]) {
        ConsRising(vs[0], rest, bound);
      }
    }
  }

  /** What stands in front of the rows that rise. */
  ghost predicate Before(v: VersionRow, rest: seq<VersionRow>, bound: nat)
  {
    v.guid < bound && forall w :: w in rest ==> v.guid < w.guid && (v.objectGuid == w.objectGuid ==> v.versionId != w.versionId)
  }

  lemma HeadRises(vs: seq<VersionRow>, bound: nat)
    requires vs != [] && Rising(vs, bound) && DistinctIds(vs)
    ensures Before(vs[0], vs[1..], bound)
  {
    forall w | w in vs[1..]
      ensures vs[0].guid < w.guid && (vs[0].objectGuid == w.objectGuid ==> vs[0].versionId != w.versionId)
    {
      var k :| 0 <= k < |vs[1..]| && vs[1..][k] == w;
      assert vs[k + 1] == w;
    }
  }

  lemma ConsRising(v: VersionRow, rest: seq<VersionRow>, bound: nat)
    requires Rising(rest, bound) && DistinctIds(rest) && Before(v, rest, bound)
    ensures Rising([v] + rest, bound) && DistinctIds([v] + rest)
  {}

  lemma RisingSnoc(vs: seq<VersionRow>, bound: nat, v: VersionRow)
    requires Rising(vs, bound) && DistinctIds(vs) && bound <= v.guid
    requires forall w :: w in vs && w.objectGuid == v.objectGuid ==> w.versionId != v.versionId
    ensures Rising(vs + [v], v.guid + 1) && DistinctIds(vs + [v])
  {}

  /** The row a commit adds belongs to the slot's object and says what the writer knew. */
  lemma NewRowSays(t: Tables, slot: Slot, v: NewVersion)
    requires Consistent(t)
    ensures var row := NewRow(t, slot, v);
            && SlotOf(row.objectGuid) == slot && (slot in t.objects ==> row.objectGuid == t.objects[slot].id)
            && NewVersion(row.versionId, row.isDeleteMarker, row.size, row.etag, row.path, row.encryption) == v
  {
    NewObject(t, slot);
  }

  /** The new history of the committed slot, and that of every other object. */
  lemma CommitHistory(t: Tables, slot: Slot, v: NewVersion, id: ObjectId)
    ensures var row := NewRow(t, slot, v);
            History(CommitVersion(t, slot, v), id)
            == if id != row.objectGuid then History(t, id)
               else (if v.versionId == Null then Filter(History(t, id), NotNullOf(id)) else History(t, id)) + [row]
  {
    var row := NewRow(t, slot, v);
    FilterConcat(Kept(t, slot, v), [row], Of(id));
    assert Filter([row], Of(id)) == (if row.objectGuid == id then [row] else []) by {
      assert [row][1..] == [];
    }
    if v.versionId == Null {
      FilterCommute(t.versions, NotNullOf(row.objectGuid), Of(id));
      if id != row.objectGuid {
        FilterAll(History(t, id), NotNullOf(row.objectGuid));
      }
    }
  }

  lemma CommitRow(t: Tables, slot: Slot, v: NewVersion, w: VersionRow)
    requires Consistent(t) && Committable(t, v) && w in CommitVersion(t, slot, v).versions
    ensures HasObject(CommitVersion(t, slot, v), w.objectGuid) && RowSound(CommitVersion(t, slot, v), w)
  {
    hide Filter, Consistent, Kept;
    CommitRows(t, slot, v, w);
    if w in t.versions {
      OldRow(t, w);
    }
    NewObject(t, slot);
  }

  lemma OldRow(t: Tables, w: VersionRow)
    requires Consistent(t) && w in t.versions
    ensures HasObject(t, w.objectGuid) && RowSound(t, w)
  {}

  lemma NewObject(t: Tables, slot: Slot)
    requires Consistent(t)
    ensures SlotOf(UpsertedObject(t, slot).id) == slot
  {
    assert slot in t.objects ==> ObjectSound(t, slot);
  }

  lemma CommitSlot(t: Tables, slot: Slot, v: NewVersion, s: Slot)
    requires Consistent(t) && s in CommitVersion(t, slot, v).objects
    ensures ObjectSound(CommitVersion(t, slot, v), s)
  {
    hide Filter, History, Rising, DistinctIds, RowSound;
    var t' := CommitVersion(t, slot, v);
    CommitHistory(t, slot, v, t'.objects[s].id);
    assert slot in t.objects ==> ObjectSound(t, slot);
    if s != slot {
      assert ObjectSound(t, s);
    }
  }

  /** A version id is `null` or newly drawn, and exactly the delete markers have no bytes. */
  ghost predicate Committable(t: Tables, v: NewVersion)
  {
    && (v.versionId.Random? ==> v.versionId.n < t.next + 2 && forall w :: w in t.versions ==> w.versionId != v.versionId)
    && (if v.isDeleteMarker then v.path == None && v.size == 0 else v.path.Some?)
  }

  lemma CommitConsistent(t: Tables, slot: Slot, v: NewVersion)
    requires Consistent(t) && Committable(t, v)
    ensures Consistent(CommitVersion(t, slot, v))
  {
    hide Filter, ObjectSound, RowSound, HasObject, Rising, DistinctIds, History;
    var t', row := CommitVersion(t, slot, v), NewRow(t, slot, v);
    CommitRising(t, slot, v);
    forall w | w in t'.versions
      ensures HasObject(t', w.objectGuid) && RowSound(t', w)
    {
      CommitRow(t, slot, v, w);
    }
    forall s | s in t'.objects
      ensures ObjectSound(t', s)
    {
      CommitSlot(t, slot, v, s);
    }
  }

  lemma CommitRising(t: Tables, slot: Slot, v: NewVersion)
    requires Rising(t.versions, t.next) && DistinctIds(t.versions) && Committable(t, v)
    ensures Rising(CommitVersion(t, slot, v).versions, t.next + 2) && DistinctIds(CommitVersion(t, slot, v).versions)
  {
    hide Filter, Rising, DistinctIds;
    var row, kept := NewRow(t, slot, v), Kept(t, slot, v);
    if v.versionId == Null {
      FilterRising(t.versions, t.next, NotNullOf(row.objectGuid));
    }
    RisingWider(kept, t.next);
    RisingSnoc(kept, t.next + 1, row);
  }

  lemma RisingWider(vs: seq<VersionRow>, bound: nat)
    requires Rising(vs, bound)
    ensures Rising(vs, bound + 1)
  {}

  lemma DropHistory(t: Tables, dropped: ObjectId, guid: nat, id: ObjectId)
    ensures History(DropVersion(t, dropped, guid), id) == Filter(History(t, id), WithoutGuid(guid))
  {
    FilterCommute(t.versions, WithoutGuid(guid), Of(id));
  }

  /** Dropping one of an object's versions leaves every other object's history alone. */
  lemma DropOthers(t: Tables, v: VersionRow, id: ObjectId)
    requires Consistent(t) && v in t.versions && id != v.objectGuid
    ensures History(DropVersion(t, v.objectGuid, v.guid), id) == History(t, id)
  {
    hide Consistent, DropVersion, Filter;
    DropHistory(t, v.objectGuid, v.guid, id);
    forall w | w in History(t, id)
      ensures w.guid != v.guid
    {
      if w.guid == v.guid {
        GuidUnique(t, v, w);
      }
    }
    FilterAll(History(t, id), WithoutGuid(v.guid));
  }

  lemma DropRow(t: Tables, v: VersionRow, w: VersionRow)
    requires Consistent(t) && v in t.versions && w in DropVersion(t, v.objectGuid, v.guid).versions
    ensures HasObject(DropVersion(t, v.objectGuid, v.guid), w.objectGuid) && RowSound(DropVersion(t, v.objectGuid, v.guid), w)
  {
    hide Filter, Rising, DistinctIds, ObjectSound;
    assert w in t.versions;
    if w.objectGuid == v.objectGuid {
      assert w in Filter(DropVersion(t, v.objectGuid, v.guid).versions, Of(v.objectGuid));
    }
  }

  lemma DropSlot(t: Tables, v: VersionRow, slot: Slot)
    requires Consistent(t) && v in t.versions && slot in DropVersion(t, v.objectGuid, v.guid).objects
    ensures ObjectSound(DropVersion(t, v.objectGuid, v.guid), slot)
  {
    hide Filter, Consistent, History;
    var t' := DropVersion(t, v.objectGuid, v.guid);
    var id := t.objects[slot].id;
    SlotSound(t, slot, v);
    if id != v.objectGuid {
      DropOthers(t, v, id);
      assert t'.objects[slot] == t.objects[slot];
    } else {
      assert History(t', id) == Filter(t'.versions, Of(id)) by { HistoryOf(t', id); }
    }
  }

  lemma HistoryOf(t: Tables, id: ObjectId)
    ensures History(t, id) == Filter(t.versions, Of(id))
  {}

  lemma SlotSound(t: Tables, slot: Slot, v: VersionRow)
    requires Consistent(t) && slot in t.objects && v in t.versions
    ensures ObjectSound(t, slot) && HasObject(t, v.objectGuid)
  {}

  lemma DropConsistent(t: Tables, v: VersionRow)
    requires Consistent(t) && v in t.versions
    ensures Consistent(DropVersion(t, v.objectGuid, v.guid))
  {
    hide Filter, ObjectSound, RowSound, HasObject, Rising, DistinctIds;
    var t' := DropVersion(t, v.objectGuid, v.guid);
    FilterRising(t.versions, t.next, WithoutGuid(v.guid));
    forall w | w in t'.versions
      ensures HasObject(t', w.objectGuid) && RowSound(t', w)
    {
      DropRow(t, v, w);
    }
    forall s | s in t'.objects
      ensures ObjectSound(t', s)
    {
      DropSlot(t, v, s);
    }
  }

  lemma GuidUnique(t: Tables, v: VersionRow, w: VersionRow)
    requires Consistent(t) && v in t.versions && w in t.versions && v.guid == w.guid
    ensures v == w
  {}

  lemma PurgeHistory(t: Tables, id: ObjectId, other: ObjectId)
    ensures History(PurgeObject(t, id), other) == if other == id then [] else History(t, other)
  {
    hide Filter;
    FilterCommute(t.versions, NotOf(id), Of(other));
    if other == id {
      FilterNone(History(t, id), NotOf(id));
    } else {
      FilterAll(History(t, other), NotOf(id));
    }
  }

  lemma PurgeRow(t: Tables, id: ObjectId, w: VersionRow)
    requires Consistent(t) && w in PurgeObject(t, id).versions
    ensures HasObject(PurgeObject(t, id), w.objectGuid) && RowSound(PurgeObject(t, id), w)
  {
    hide Consistent, Filter;
    OldRow(t, w);
  }

  lemma PurgeSlot(t: Tables, id: ObjectId, slot: Slot)
    requires Consistent(t) && slot in PurgeObject(t, id).objects
    ensures ObjectSound(PurgeObject(t, id), slot)
  {
    hide Filter, History, Rising, DistinctIds, RowSound;
    assert ObjectSound(t, slot);
    PurgeHistory(t, id, t.objects[slot].id);
  }

  lemma PurgeConsistent(t: Tables, id: ObjectId)
    requires Consistent(t)
    ensures Consistent(PurgeObject(t, id))
  {
    hide Filter, ObjectSound, RowSound, HasObject, Rising, DistinctIds;
    var t' := PurgeObject(t, id);
    FilterRising(t.versions, t.next, NotOf(id));
    forall w | w in t'.versions
      ensures HasObject(t', w.objectGuid) && RowSound(t', w)
    {
      PurgeRow(t, id, w);
    }
    forall s | s in t'.objects
      ensures ObjectSound(t', s)
    {
      PurgeSlot(t, id, s);
    }
  }

  // ---- Which row claims which blob ----

  /** No two rows share a blob. */
  ghost predicate UniquePaths(t: Tables)
  {
    && (forall v, w :: v in t.versions && w in t.versions && v.path.Some? && v.path == w.path ==> v == w)
    && (forall p, q :: p in t.parts && q in t.parts && p.path == q.path ==> p == q)
    && (forall v, p :: v in t.versions && p in t.parts ==> v.path != Some(p.path))
  }

  ghost predicate VersionClaims(t: Tables, path: Path)
  {
    exists v :: v in t.versions && v.path == Some(path)
  }

  ghost predicate PartClaims(t: Tables, path: Path)
  {
    exists p :: p in t.parts && p.path == path
  }

  /** Some committed row names the blob. */
  ghost predicate Claimed(t: Tables, path: Path) { VersionClaims(t, path) || PartClaims(t, path) }

  lemma CommitRows(t: Tables, slot: Slot, v: NewVersion, w: VersionRow)
    ensures w in CommitVersion(t, slot, v).versions <==>
              w == NewRow(t, slot, v)
              || (w in t.versions && !(v.versionId == Null && w.objectGuid == NewRow(t, slot, v).objectGuid && w.versionId == Null))
  {}

  /** A commit claims its own fresh blob and releases exactly the ones it reports. */
  lemma CommitClaims(t: Tables, slot: Slot, v: NewVersion, path: Path)
    requires UniquePaths(t) && (v.path.Some? ==> !Claimed(t, v.path.value))
    ensures Claimed(CommitVersion(t, slot, v), path) <==>
              Some(path) == v.path || (Claimed(t, path) && path !in Replaced(t, slot, v))
    ensures path in Replaced(t, slot, v) ==> VersionClaims(t, path) && !Claimed(CommitVersion(t, slot, v), path)
  {
    hide Filter, UniquePaths, CommitVersion, Paths;
    var t', row := CommitVersion(t, slot, v), NewRow(t, slot, v);
    assert t'.parts == t.parts by { CommitParts(t, slot, v); }
    PathsIn(Filter(t.versions, NullOf(row.objectGuid)), path);
    if path in Replaced(t, slot, v) {
      var w :| w in t.versions && w.objectGuid == row.objectGuid && w.versionId == Null && w.path == Some(path);
      ReleasedPath(t, slot, v, w);
    } else if u :| u in t.versions && u.path == Some(path) {
      CommitRows(t, slot, v, u);
    }
    if Some(path) == v.path {
      CommitRows(t, slot, v, row);
    }
    if u :| u in t'.versions && u.path == Some(path) {
      CommitRows(t, slot, v, u);
    }
  }

  lemma CommitParts(t: Tables, slot: Slot, v: NewVersion)
    ensures CommitVersion(t, slot, v).parts == t.parts
  {}

  lemma ReleasedPath(t: Tables, slot: Slot, v: NewVersion, w: VersionRow)
    requires UniquePaths(t) && (v.path.Some? ==> !Claimed(t, v.path.value))
    requires v.versionId == Null && w in t.versions && w.objectGuid == NewRow(t, slot, v).objectGuid && w.versionId == Null && w.path.Some?
    ensures !Claimed(CommitVersion(t, slot, v), w.path.value)
  {
    hide Filter;
    if u :| u in CommitVersion(t, slot, v).versions && u.path == w.path {
      CommitRows(t, slot, v, u);
    }
  }

  lemma CommitUnique(t: Tables, slot: Slot, v: NewVersion)
    requires UniquePaths(t) && (v.path.Some? ==> !Claimed(t, v.path.value))
    ensures UniquePaths(CommitVersion(t, slot, v))
  {
    hide Filter;
    var t' := CommitVersion(t, slot, v);
    forall u, w | u in t'.versions && w in t'.versions && u.path.Some? && u.path == w.path
      ensures u == w
    {
      CommitRows(t, slot, v, u);
      CommitRows(t, slot, v, w);
    }
    forall u, p | u in t'.versions && p in t'.parts
      ensures u.path != Some(p.path)
    {
      CommitRows(t, slot, v, u);
    }
  }

  lemma DropClaims(t: Tables, id: ObjectId, guid: nat)
    requires UniquePaths(t)
    ensures UniquePaths(DropVersion(t, id, guid))
    ensures forall path: Path :: Claimed(DropVersion(t, id, guid), path) <==>
              Claimed(t, path) && !(exists v :: v in t.versions && v.guid == guid && v.path == Some(path))
  {
    var t' := DropVersion(t, id, guid);
    forall path: Path
      ensures Claimed(t', path) <==> Claimed(t, path) && !(exists v :: v in t.versions && v.guid == guid && v.path == Some(path))
    {
      if v :| v in t.versions && v.path == Some(path) {
        if v.guid != guid {
          assert v in t'.versions;
        }
      }
    }
  }

  lemma PurgeClaims(t: Tables, id: ObjectId)
    requires UniquePaths(t)
    ensures UniquePaths(PurgeObject(t, id))
    ensures forall path: Path :: Claimed(PurgeObject(t, id), path) <==> Claimed(t, path) && path !in Purged(t, id)
    ensures forall path: Path :: path in Purged(t, id) ==> Claimed(t, path)
  {
    var t' := PurgeObject(t, id);
    forall path: Path
      ensures Claimed(t', path) <==> Claimed(t, path) && path !in Purged(t, id)
      ensures path in Purged(t, id) ==> Claimed(t, path)
    {
      PathsIn(Filter(t.versions, Of(id)), path);
      if v :| v in t.versions && v.path == Some(path) {
        if v.objectGuid != id {
          assert v in t'.versions;
        }
      }
    }
  }

  lemma UpsertPartClaims(t: Tables, part: PartRow)
    requires UniquePaths(t) && !Claimed(t, part.path)
    ensures UniquePaths(UpsertPart(t, part))
    ensures forall path: Path :: Claimed(UpsertPart(t, part), path) <==>
              path == part.path
              || (Claimed(t, path) && !(exists p :: p in t.parts && p.upload == part.upload && p.number == part.number && p.path == path))
  {
    var t' := UpsertPart(t, part);
    assert forall p :: p in t'.parts <==> p == part || (p in t.parts && !(p.upload == part.upload && p.number == part.number));
    forall path: Path
      ensures Claimed(t', path) <==>
              path == part.path
              || (Claimed(t, path) && !(exists p :: p in t.parts && p.upload == part.upload && p.number == part.number && p.path == path))
    {
      if p :| p in t.parts && p.path == path {
        if !(p.upload == part.upload && p.number == part.number) {
          assert p in t'.parts;
        }
      }
    }
  }

  lemma DeletePartsClaims(t: Tables, upload: UploadId)
    requires UniquePaths(t)
    ensures UniquePaths(DeleteParts(t, upload))
    ensures forall path: Path :: Claimed(DeleteParts(t, upload), path) <==>
              Claimed(t, path) && !(exists p :: p in t.parts && p.upload == upload && p.path == path)
  {
    var t' := DeleteParts(t, upload);
    forall path: Path
      ensures Claimed(t', path) <==> Claimed(t, path) && !(exists p :: p in t.parts && p.upload == upload && p.path == path)
    {
      if p :| p in t.parts && p.path == path {
        if p.upload != upload {
          assert p in t'.parts;
        }
      }
    }
  }
}
