/** The tables and the blobs together: what they stand for, what they always satisfy, and that
    every change a request makes is the corresponding operation on version stacks. */
module ObjectStore {
  import opened Common
  import opened Cipher
  import opened Storage
  import opened Tables
  import opened Usage
  import VS = VersionStacks

  type Blobs = map<Path, seq<byte>>

  function PathSet(paths: seq<Path>): set<Path> { set path | path in paths }

  // ---- What a row's blob holds ----

  function Content(suite: Suite, blobs: Blobs, path: Path, encryption: Encryption): seq<byte>
  {
    if path !in blobs then []
    else match Load(suite, blobs[path], encryption) case Ok(payload) => payload case Err(_) => []
  }

  /** The blob is there and opens to so many bytes. */
  ghost predicate Holds(suite: Suite, blobs: Blobs, path: Path, encryption: Encryption, size: nat)
  {
    path in blobs && Load(suite, blobs[path], encryption).Ok? && |Load(suite, blobs[path], encryption).value| == size
  }

  ghost predicate VersionStored(suite: Suite, blobs: Blobs, v: VersionRow)
  {
    v.path.Some? ==> Holds(suite, blobs, v.path.value, v.encryption, v.size)
  }

  ghost predicate PartStored(suite: Suite, blobs: Blobs, p: PartRow) { Holds(suite, blobs, p.path, p.encryption, p.size) }

  /** Every committed row can be read. */
  ghost predicate Stored(suite: Suite, t: Tables, blobs: Blobs)
  {
    && (forall v :: v in t.versions ==> VersionStored(suite, blobs, v))
    && (forall p :: p in t.parts ==> PartStored(suite, blobs, p))
  }

  /** No part number is stored twice under an upload. */
  ghost predicate UniqueParts(t: Tables)
  {
    forall p, q :: p in t.parts && q in t.parts && p.upload == q.upload && p.number == q.number ==> p == q
  }

  ghost predicate UploadsSound(t: Tables)
  {
    && (forall u :: u in t.uploads ==> u.serial < t.next)
    && (forall p :: p in t.parts ==> p.upload in t.uploads)
  }

  /** What the tables satisfy at every operation boundary. */
  ghost predicate TablesSound(t: Tables)
  {
    Consistent(t) && UniquePaths(t) && UniqueParts(t) && UploadsSound(t) && DistinctBuckets(t.buckets)
  }

  // ---- What it all stands for ----

  function EntryOf(suite: Suite, blobs: Blobs, v: VersionRow): VS.Entry
  {
    VS.Entry(v.versionId, if v.path.Some? then Some(Content(suite, blobs, v.path.value, v.encryption)) else None)
  }

  function Entries(suite: Suite, blobs: Blobs, vs: seq<VersionRow>): (es: seq<VS.Entry>)
    ensures |es| == |vs|
    ensures forall i :: 0 <= i < |vs| ==> es[i] == EntryOf(suite, blobs, vs[i])
  {
    if vs == [] then [] else [EntryOf(suite, blobs, vs[0])] + Entries(suite, blobs, vs[1..])
  }

  function StackOf(suite: Suite, t: Tables, blobs: Blobs, slot: Slot): seq<VS.Entry>
    requires slot in t.objects
  {
    Entries(suite, blobs, History(t, t.objects[slot].id))
  }

  function StacksOf(suite: Suite, t: Tables, blobs: Blobs): VS.Stacks
  {
    map slot | slot in t.objects :: StackOf(suite, t, blobs, slot)
  }

  type PartKey = (UploadId, nat)

  function PartKeys(parts: seq<PartRow>): set<PartKey> { set p | p in parts :: (p.upload, p.number) }

  function PartAt(parts: seq<PartRow>, key: PartKey): (p: PartRow)
    requires key in PartKeys(parts)
    ensures p in parts && p.upload == key.0 && p.number == key.1
  {
    assert Filter(parts, IsPart(key.0, key.1)) != [] by {
      var p :| p in parts && p.upload == key.0 && p.number == key.1;
      assert p in Filter(parts, IsPart(key.0, key.1));
    }
    Filter(parts, IsPart(key.0, key.1))[0]
  }

  /** The bytes last uploaded as each part of each upload. */
  function PartsOf(suite: Suite, parts: seq<PartRow>, blobs: Blobs): map<PartKey, seq<byte>>
  {
    map key | key in PartKeys(parts) :: var p := PartAt(parts, key); Content(suite, blobs, p.path, p.encryption)
  }

  // ---- Blobs nobody claims do not matter ----

  /** The blobs some row names are the same. */
  ghost predicate SameClaimed(t: Tables, blobs: Blobs, blobs': Blobs)
  {
    forall path: Path :: Claimed(t, path) && path in blobs ==> path in blobs' && blobs'[path] == blobs[path]
  }

  lemma SameRow(suite: Suite, t: Tables, blobs: Blobs, blobs': Blobs, v: VersionRow)
    requires Stored(suite, t, blobs) && SameClaimed(t, blobs, blobs') && v in t.versions
    ensures VersionStored(suite, blobs', v) && EntryOf(suite, blobs', v) == EntryOf(suite, blobs, v)
  {
    hide Load;
    if v.path.Some? {
      assert VersionStored(suite, blobs, v);
      assert VersionClaims(t, v.path.value);
    }
  }

  lemma SamePart(suite: Suite, t: Tables, blobs: Blobs, blobs': Blobs, p: PartRow)
    requires Stored(suite, t, blobs) && SameClaimed(t, blobs, blobs') && p in t.parts
    ensures PartStored(suite, blobs', p) && Content(suite, blobs', p.path, p.encryption) == Content(suite, blobs, p.path, p.encryption)
  {
    hide Load;
    assert PartStored(suite, blobs, p);
    assert PartClaims(t, p.path);
  }

  lemma SameStored(suite: Suite, t: Tables, blobs: Blobs, blobs': Blobs)
    requires Stored(suite, t, blobs) && SameClaimed(t, blobs, blobs')
    ensures Stored(suite, t, blobs')
  {
    hide Stored, SameClaimed, VersionStored, PartStored, EntryOf, Content;
    forall v | v in t.versions
      ensures VersionStored(suite, blobs', v)
    {
      SameRow(suite, t, blobs, blobs', v);
    }
    forall p | p in t.parts
      ensures PartStored(suite, blobs', p)
    {
      SamePart(suite, t, blobs, blobs', p);
    }
    assert Stored(suite, t, blobs') by { AllStored(suite, t, blobs'); }
  }

  lemma AllStored(suite: Suite, t: Tables, blobs: Blobs)
    requires forall v :: v in t.versions ==> VersionStored(suite, blobs, v)
    requires forall p :: p in t.parts ==> PartStored(suite, blobs, p)
    ensures Stored(suite, t, blobs)
  {}

  lemma SameStack(suite: Suite, t: Tables, blobs: Blobs, blobs': Blobs, slot: Slot)
    requires Stored(suite, t, blobs) && SameClaimed(t, blobs, blobs') && slot in t.objects
    ensures StackOf(suite, t, blobs', slot) == StackOf(suite, t, blobs, slot)
  {
    hide Stored, SameClaimed, EntryOf, Entries;
    var vs := History(t, t.objects[slot].id);
    forall v | v in vs
      ensures EntryOf(suite, blobs', v) == EntryOf(suite, blobs, v)
    {
      SameRow(suite, t, blobs, blobs', v);
    }
    SameEntries(suite, blobs, blobs', vs);
  }

  lemma SameStacks(suite: Suite, t: Tables, blobs: Blobs, blobs': Blobs)
    requires Stored(suite, t, blobs) && SameClaimed(t, blobs, blobs')
    ensures Stored(suite, t, blobs')
    ensures StacksOf(suite, t, blobs') == StacksOf(suite, t, blobs)
    ensures PartsOf(suite, t.parts, blobs') == PartsOf(suite, t.parts, blobs)
  {
    hide Stored, SameClaimed, StackOf, PartAt, Content;
    SameStored(suite, t, blobs, blobs');
    forall slot | slot in t.objects
      ensures StackOf(suite, t, blobs', slot) == StackOf(suite, t, blobs, slot)
    {
      SameStack(suite, t, blobs, blobs', slot);
    }
    forall key | key in PartKeys(t.parts)
      ensures var p := PartAt(t.parts, key); Content(suite, blobs', p.path, p.encryption) == Content(suite, blobs, p.path, p.encryption)
    {
      SamePart(suite, t, blobs, blobs', PartAt(t.parts, key));
    }
  }

  lemma SameEntries(suite: Suite, blobs: Blobs, blobs': Blobs, vs: seq<VersionRow>)
    requires forall v :: v in vs ==> EntryOf(suite, blobs', v) == EntryOf(suite, blobs, v)
    ensures Entries(suite, blobs', vs) == Entries(suite, blobs, vs)
  {
    hide EntryOf;
    forall i | 0 <= i < |vs|
      ensures EntryOf(suite, blobs', vs[i]) == EntryOf(suite, blobs, vs[i])
    {
      assert vs[i] in vs;
    }
  }

  // ---- Transactions are stack operations ----

  /** Choosing rows and then reading them is reading them and then choosing. */
  lemma {:induction false} EntriesFilter(suite: Suite, blobs: Blobs, vs: seq<VersionRow>, rows: VersionRow -> bool, entries: VS.Entry -> bool)
    requires forall v :: v in vs ==> rows(v) == entries(EntryOf(suite, blobs, v))
    ensures Entries(suite, blobs, Filter(vs, rows)) == Filter(Entries(suite, blobs, vs), entries)
  {
    if vs != [] {
      hide EntryOf;
      EntriesFilter(suite, blobs, vs[1..], rows, entries);
      assert vs[0] in vs;
      assert Entries(suite, blobs, vs)[1..] == Entries(suite, blobs, vs[1..]);
      assert Entries(suite, blobs, vs)[0] == EntryOf(suite, blobs, vs[0]);
    }
  }

  lemma EntriesSnoc(suite: Suite, blobs: Blobs, vs: seq<VersionRow>, v: VersionRow)
    ensures Entries(suite, blobs, vs + [v]) == Entries(suite, blobs, vs) + [EntryOf(suite, blobs, v)]
  {
    hide EntryOf;
  }

  lemma HistoryRows(t: Tables, id: ObjectId, v: VersionRow)
    requires v in History(t, id)
    ensures v in t.versions && v.objectGuid == id
  {}

  /** The history of an object that has no row is empty. */
  lemma NoHistory(t: Tables, slot: Slot)
    requires Consistent(t) && slot !in t.objects
    ensures History(t, UpsertedObject(t, slot).id) == []
  {
    hide Filter, ObjectSound, RowSound;
    var id := UpsertedObject(t, slot).id;
    forall v | v in t.versions
      ensures !Of(id)(v)
    {
      OldRow(t, v);
    }
    FilterNone(t.versions, Of(id));
  }

  lemma ObjectOf(t: Tables, slot: Slot)
    requires Consistent(t) && slot in t.objects
    ensures SlotOf(t.objects[slot].id) == slot && History(t, t.objects[slot].id) != []
  {
    assert ObjectSound(t, slot);
  }

  /** A commit pushes onto its slot's stack. */
  lemma CommitPushes(suite: Suite, t: Tables, blobs: Blobs, slot: Slot, v: NewVersion)
    requires Consistent(t)
    ensures StacksOf(suite, CommitVersion(t, slot, v), blobs)
            == VS.Push(StacksOf(suite, t, blobs), slot, EntryOf(suite, blobs, NewRow(t, slot, v)))
  {
    hide Filter, Consistent, EntryOf, History, Entries;
    var t', row := CommitVersion(t, slot, v), NewRow(t, slot, v);
    var before, after := StacksOf(suite, t, blobs), StacksOf(suite, t', blobs);
    CommitHistory(t, slot, v, row.objectGuid);
    forall s | s in t'.objects && s != slot
      ensures after[s] == before[s]
    {
      ObjectOf(t, s);
      NewObject(t, slot);
      CommitHistory(t, slot, v, t.objects[s].id);
    }
    CommitStack(suite, t, blobs, slot, v);
  }

  lemma CommitStack(suite: Suite, t: Tables, blobs: Blobs, slot: Slot, v: NewVersion)
    requires Consistent(t)
    ensures StackOf(suite, CommitVersion(t, slot, v), blobs, slot)
            == VS.Push(StacksOf(suite, t, blobs), slot, EntryOf(suite, blobs, NewRow(t, slot, v)))[slot]
  {
    hide Filter, Consistent, History, Entries;
    var row := NewRow(t, slot, v);
    var id := row.objectGuid;
    var before := History(t, id);
    CommitHistory(t, slot, v, id);
    assert Entries(suite, blobs, before) == VS.At(StacksOf(suite, t, blobs), slot) by {
      if slot !in t.objects {
        NoHistory(t, slot);
        NoEntries(suite, blobs);
      }
    }
    forall w | w in before
      ensures NotNullOf(id)(w) == VS.NotNullEntry()(EntryOf(suite, blobs, w))
    {
      HistoryRows(t, id, w);
    }
    EntriesFilter(suite, blobs, before, NotNullOf(id), VS.NotNullEntry());
    EntriesSnoc(suite, blobs, if v.versionId == Null then Filter(before, NotNullOf(id)) else before, row);
  }

  lemma NoEntries(suite: Suite, blobs: Blobs)
    ensures Entries(suite, blobs, []) == []
  {}

  /** Dropping a version removes it from its slot's stack. */
  lemma DropRemoves(suite: Suite, t: Tables, blobs: Blobs, v: VersionRow)
    requires Consistent(t) && v in t.versions
    ensures StacksOf(suite, DropVersion(t, v.objectGuid, v.guid), blobs)
            == VS.Remove(StacksOf(suite, t, blobs), SlotOf(v.objectGuid), v.versionId)
  {
    hide Filter, Consistent, EntryOf, History, Entries;
    var t', slot := DropVersion(t, v.objectGuid, v.guid), SlotOf(v.objectGuid);
    OldRow(t, v);
    var before, after := StacksOf(suite, t, blobs), StacksOf(suite, t', blobs);
    DropStack(suite, t, blobs, v);
    HistoryOf(t', v.objectGuid);
    NoEntries(suite, blobs);
    forall s | s in t'.objects && s != slot
      ensures after[s] == before[s]
    {
      ObjectOf(t, s);
      DropOthers(t, v, t.objects[s].id);
    }
  }

  lemma DropStack(suite: Suite, t: Tables, blobs: Blobs, v: VersionRow)
    requires Consistent(t) && v in t.versions
    ensures Entries(suite, blobs, History(DropVersion(t, v.objectGuid, v.guid), v.objectGuid))
            == Filter(Entries(suite, blobs, History(t, v.objectGuid)), VS.Without(v.versionId))
  {
    hide Filter, Consistent, History, Entries, DropVersion;
    DropHistory(t, v.objectGuid, v.guid, v.objectGuid);
    forall w | w in History(t, v.objectGuid)
      ensures WithoutGuid(v.guid)(w) == VS.Without(v.versionId)(EntryOf(suite, blobs, w))
    {
      HistoryRows(t, v.objectGuid, w);
      IdUnique(t, v, w);
    }
    EntriesFilter(suite, blobs, History(t, v.objectGuid), WithoutGuid(v.guid), VS.Without(v.versionId));
  }

  lemma IdUnique(t: Tables, v: VersionRow, w: VersionRow)
    requires Consistent(t) && v in t.versions && w in t.versions && v.objectGuid == w.objectGuid
    ensures v.guid == w.guid <==> v.versionId == w.versionId
  {}

  /** Purging an object removes its stack. */
  lemma PurgeRemoves(suite: Suite, t: Tables, blobs: Blobs, slot: Slot)
    requires Consistent(t) && slot in t.objects
    ensures StacksOf(suite, PurgeObject(t, t.objects[slot].id), blobs) == StacksOf(suite, t, blobs) - {slot}
  {
    hide Filter, Consistent, History, Entries;
    var id := t.objects[slot].id;
    ObjectOf(t, slot);
    forall s | s in t.objects && s != slot
      ensures History(PurgeObject(t, id), t.objects[s].id) == History(t, t.objects[s].id)
    {
      ObjectOf(t, s);
      PurgeHistory(t, id, t.objects[s].id);
    }
  }

  // ---- Parts ----

  lemma PartAtUnique(t: Tables, p: PartRow)
    requires UniqueParts(t) && p in t.parts
    ensures (p.upload, p.number) in PartKeys(t.parts) && PartAt(t.parts, (p.upload, p.number)) == p
  {
    hide Filter;
  }

  /** Re-uploading a part number replaces its bytes and nothing else. */
  lemma UpsertPartUpdates(suite: Suite, t: Tables, blobs: Blobs, part: PartRow)
    requires UniqueParts(t)
    ensures UniqueParts(UpsertPart(t, part))
    ensures PartsOf(suite, UpsertPart(t, part).parts, blobs)
            == PartsOf(suite, t.parts, blobs)[(part.upload, part.number) := Content(suite, blobs, part.path, part.encryption)]
  {
    hide Filter, Content, PartAt;
    var t' := UpsertPart(t, part);
    forall p
      ensures p in t'.parts <==> p == part || (p in t.parts && !(p.upload == part.upload && p.number == part.number))
    {}
    forall p | p in t'.parts
      ensures PartAt(t'.parts, (p.upload, p.number)) == p
    {
      PartAtUnique(t', p);
    }
    forall p | p in t.parts
      ensures PartAt(t.parts, (p.upload, p.number)) == p
    {
      PartAtUnique(t, p);
    }
  }

  /** Dropping an upload's parts drops nothing else. */
  lemma DeletePartsForgets(suite: Suite, t: Tables, blobs: Blobs, upload: UploadId)
    requires UniqueParts(t)
    ensures UniqueParts(DeleteParts(t, upload))
    ensures PartsOf(suite, DeleteParts(t, upload).parts, blobs)
            == map key | key in PartsOf(suite, t.parts, blobs) && key.0 != upload :: PartsOf(suite, t.parts, blobs)[key]
  {
    hide Filter, Content, PartAt;
    var t' := DeleteParts(t, upload);
    forall p
      ensures p in t'.parts <==> p in t.parts && p.upload != upload
    {}
    forall p | p in t'.parts
      ensures PartAt(t'.parts, (p.upload, p.number)) == p && PartAt(t.parts, (p.upload, p.number)) == p
    {
      PartAtUnique(t', p);
      PartAtUnique(t, p);
    }
  }

  // ---- Changes with their blobs ----

  /** At every operation boundary: sound tables, every committed row readable, and - with no
      request in flight - not one blob that no row claims. */
  ghost predicate Sane(suite: Suite, t: Tables, blobs: Blobs, nextPath: Path)
  {
    && TablesSound(t) && Stored(suite, t, blobs)
    && (forall path: Path :: path in blobs <==> Claimed(t, path))
    && (forall path: Path :: Claimed(t, path) ==> path < nextPath)
  }

  lemma Untouched(suite: Suite, t: Tables, blobs: Blobs, nextPath: Path, bytes: seq<byte>)
    requires Sane(suite, t, blobs, nextPath)
    ensures !Claimed(t, nextPath)
    ensures SameClaimed(t, blobs, blobs[nextPath := bytes])
  {
    hide TablesSound, Stored, Claimed;
  }

  lemma CommitStored(suite: Suite, t: Tables, blobs: Blobs, slot: Slot, v: NewVersion)
    requires Stored(suite, t, blobs)
    requires v.path.Some? ==> Holds(suite, blobs, v.path.value, v.encryption, v.size)
    ensures Stored(suite, CommitVersion(t, slot, v), blobs)
  {
    hide Filter, Holds, PartStored;
    var t' := CommitVersion(t, slot, v);
    forall w | w in t'.versions
      ensures VersionStored(suite, blobs, w)
    {
      CommitRows(t, slot, v, w);
    }
  }

  /** Deleting exactly the blobs a change released leaves a sane store that stands for the same. */
  lemma Settled(suite: Suite, t: Tables, blobs: Blobs, released: set<Path>, nextPath: Path)
    requires TablesSound(t) && Stored(suite, t, blobs)
    requires forall path: Path :: path in blobs && path !in released <==> Claimed(t, path)
    requires forall path: Path :: path in blobs ==> path < nextPath
    ensures Sane(suite, t, blobs - released, nextPath)
    ensures StacksOf(suite, t, blobs - released) == StacksOf(suite, t, blobs)
    ensures PartsOf(suite, t.parts, blobs - released) == PartsOf(suite, t.parts, blobs)
  {
    hide TablesSound, Stored, Claimed, StacksOf, PartsOf;
    SameStacks(suite, t, blobs, blobs - released);
  }

  /** Committing a version over a sane store - its blob, if it has one, freshly written - and then
      deleting what it replaced. */
  lemma CommitSettles(suite: Suite, t: Tables, blobs: Blobs, slot: Slot, v: NewVersion, nextPath: Path)
    requires TablesSound(t) && Stored(suite, t, blobs) && Committable(t, v)
    requires v.path.Some? ==> !Claimed(t, v.path.value) && Holds(suite, blobs, v.path.value, v.encryption, v.size)
    requires forall path: Path :: path in blobs <==> Claimed(t, path) || v.path == Some(path)
    requires forall path: Path :: path in blobs ==> path < nextPath
    ensures var t', kept := CommitVersion(t, slot, v), blobs - PathSet(Replaced(t, slot, v));
            && Sane(suite, t', kept, nextPath)
            && StacksOf(suite, t', kept)
               == VS.Push(StacksOf(suite, t, blobs), slot,
                          VS.Entry(v.versionId, if v.path.Some? then Some(Content(suite, blobs, v.path.value, v.encryption)) else None))
            && t'.parts == t.parts && PartsOf(suite, t'.parts, kept) == PartsOf(suite, t.parts, blobs)
  {
    hide Filter, Stored, Claimed, Holds, Replaced, CommitVersion, Committable, StacksOf, PartsOf, Consistent, UniquePaths, UniqueParts, UploadsSound, DistinctBuckets;
    var t', released := CommitVersion(t, slot, v), PathSet(Replaced(t, slot, v));
    CommitSound(t, slot, v);
    CommitStored(suite, t, blobs, slot, v);
    CommitReleases(t, blobs, slot, v);
    CommitPushes(suite, t, blobs, slot, v);
    CommitUploads(t, slot, v);
    Settled(suite, t', blobs, released, nextPath);
  }

  /** The blobs a commit reports as replaced are exactly those no row claims any more. */
  lemma CommitReleases(t: Tables, blobs: Blobs, slot: Slot, v: NewVersion)
    requires UniquePaths(t) && (v.path.Some? ==> !Claimed(t, v.path.value))
    requires forall path: Path :: path in blobs <==> Claimed(t, path) || v.path == Some(path)
    ensures forall path: Path :: path in blobs && path !in Replaced(t, slot, v) <==> Claimed(CommitVersion(t, slot, v), path)
  {
    hide Filter, Claimed, Replaced, CommitVersion, UniquePaths;
    forall path: Path
      ensures path in blobs && path !in Replaced(t, slot, v) <==> Claimed(CommitVersion(t, slot, v), path)
    {
      CommitClaims(t, slot, v, path);
      if path in Replaced(t, slot, v) {
        ClaimedByVersion(t, path);
      }
    }
  }

  lemma ClaimedByVersion(t: Tables, path: Path)
    requires VersionClaims(t, path)
    ensures Claimed(t, path)
  {}

  lemma CommitSound(t: Tables, slot: Slot, v: NewVersion)
    requires TablesSound(t) && Committable(t, v) && (v.path.Some? ==> !Claimed(t, v.path.value))
    ensures TablesSound(CommitVersion(t, slot, v))
  {
    hide Filter, Consistent, UniquePaths, Committable;
    CommitConsistent(t, slot, v);
    CommitUnique(t, slot, v);
  }

  lemma DropSettles(suite: Suite, t: Tables, blobs: Blobs, v: VersionRow, nextPath: Path)
    requires Sane(suite, t, blobs, nextPath) && v in t.versions
    ensures var t', kept := DropVersion(t, v.objectGuid, v.guid), if v.path.Some? then blobs - {v.path.value} else blobs;
            && Sane(suite, t', kept, nextPath)
            && StacksOf(suite, t', kept) == VS.Remove(StacksOf(suite, t, blobs), SlotOf(v.objectGuid), v.versionId)
            && t'.parts == t.parts && PartsOf(suite, t'.parts, kept) == PartsOf(suite, t.parts, blobs)
  {
    hide Filter, Claimed, StacksOf, PartsOf, Consistent, UniquePaths, UniqueParts, UploadsSound, DistinctBuckets, VersionStored, PartStored;
    var t' := DropVersion(t, v.objectGuid, v.guid);
    var released: set<Path> := if v.path.Some? then {v.path.value} else {};
    DropConsistent(t, v);
    DropClaims(t, v.objectGuid, v.guid);
    DropParts(t, v);
    DropRemoves(suite, t, blobs, v);
    forall path: Path
      ensures path in blobs && path !in released <==> Claimed(t', path)
    {
      DroppedPath(t, v, path);
    }
    assert blobs - {} == blobs;
    Settled(suite, t', blobs, released, nextPath);
  }

  lemma DropParts(t: Tables, v: VersionRow)
    requires UniqueParts(t) && UploadsSound(t)
    ensures DropVersion(t, v.objectGuid, v.guid).parts == t.parts
    ensures UniqueParts(DropVersion(t, v.objectGuid, v.guid)) && UploadsSound(DropVersion(t, v.objectGuid, v.guid))
  {
    hide Filter;
  }

  lemma DroppedPath(t: Tables, v: VersionRow, path: Path)
    requires Consistent(t) && v in t.versions
    ensures (exists w :: w in t.versions && w.guid == v.guid && w.path == Some(path)) <==> v.path == Some(path)
  {
    hide Consistent;
    forall w | w in t.versions && w.guid == v.guid
      ensures w == v
    {
      GuidUnique(t, v, w);
    }
  }

  lemma PurgeSettles(suite: Suite, t: Tables, blobs: Blobs, slot: Slot, nextPath: Path)
    requires Sane(suite, t, blobs, nextPath) && slot in t.objects
    ensures var t' := PurgeObject(t, t.objects[slot].id);
            var kept := blobs - PathSet(Purged(t, t.objects[slot].id));
            && Sane(suite, t', kept, nextPath)
            && StacksOf(suite, t', kept) == StacksOf(suite, t, blobs) - {slot}
            && t'.parts == t.parts && PartsOf(suite, t'.parts, kept) == PartsOf(suite, t.parts, blobs)
  {
    hide Filter, Claimed, StacksOf, PartsOf, Purged, Consistent, UniquePaths, UniqueParts, UploadsSound, DistinctBuckets, VersionStored, PartStored;
    var id := t.objects[slot].id;
    var t', released := PurgeObject(t, id), PathSet(Purged(t, id));
    PurgeConsistent(t, id);
    PurgeClaims(t, id);
    PurgeParts(t, id);
    PurgeRemoves(suite, t, blobs, slot);
    Settled(suite, t', blobs, released, nextPath);
  }

  lemma PurgeParts(t: Tables, id: ObjectId)
    requires UniqueParts(t) && UploadsSound(t)
    ensures PurgeObject(t, id).parts == t.parts
    ensures UniqueParts(PurgeObject(t, id)) && UploadsSound(PurgeObject(t, id))
  {
    hide Filter;
  }

  // ---- Parts with their blobs ----

  lemma UpsertPartStored(suite: Suite, t: Tables, blobs: Blobs, part: PartRow)
    requires Stored(suite, t, blobs) && PartStored(suite, blobs, part)
    ensures Stored(suite, UpsertPart(t, part), blobs)
  {
    hide Filter, PartStored, VersionStored;
  }

  /** The blobs a re-uploaded part number releases: the one of its previous row. */
  lemma PreviousClaims(t: Tables, upload: UploadId, number: nat, path: Path)
    requires UniqueParts(t)
    ensures PreviousPath(t, upload, number) == Some(path) <==> exists p :: p in t.parts && p.upload == upload && p.number == number && p.path == path
  {
    hide UniqueParts;
    var found := Filter(t.parts, IsPart(upload, number));
    if p :| p in t.parts && p.upload == upload && p.number == number && p.path == path {
      assert p in found && found[0] in found;
      PartUnique(t, p, found[0]);
    } else if found != [] {
      assert found[0] in found;
    }
  }

  lemma PartUnique(t: Tables, p: PartRow, q: PartRow)
    requires UniqueParts(t) && p in t.parts && q in t.parts && p.upload == q.upload && p.number == q.number
    ensures p == q
  {}

  /** Versions and objects do not notice parts. */
  lemma SameObjects(suite: Suite, t: Tables, t': Tables, blobs: Blobs)
    requires t'.versions == t.versions && t'.objects == t.objects
    ensures StacksOf(suite, t', blobs) == StacksOf(suite, t, blobs)
  {}

  lemma StorePartSettles(suite: Suite, t: Tables, blobs: Blobs, part: PartRow, nextPath: Path)
    requires TablesSound(t) && TablesSound(UpsertPart(t, part)) && Stored(suite, t, blobs)
    requires !Claimed(t, part.path) && PartStored(suite, blobs, part)
    requires forall path: Path :: path in blobs <==> Claimed(t, path) || part.path == path
    requires forall path: Path :: path in blobs ==> path < nextPath
    ensures var t', previous := UpsertPart(t, part), PreviousPath(t, part.upload, part.number);
            var kept := if previous.Some? then blobs - {previous.value} else blobs;
            && Sane(suite, t', kept, nextPath)
            && StacksOf(suite, t', kept) == StacksOf(suite, t, blobs)
            && PartsOf(suite, t'.parts, kept)
               == PartsOf(suite, t.parts, blobs)[(part.upload, part.number) := Content(suite, blobs, part.path, part.encryption)]
  {
    hide Filter, Stored, Claimed, PartStored, StacksOf, PartsOf, PreviousPath, Consistent, UniqueParts, UploadsSound, DistinctBuckets, UniquePaths;
    var t', previous := UpsertPart(t, part), PreviousPath(t, part.upload, part.number);
    var released: set<Path> := if previous.Some? then {previous.value} else {};
    UpsertPartStored(suite, t, blobs, part);
    UpsertPartClaims(t, part);
    forall path: Path
      ensures path in blobs && path !in released <==> Claimed(t', path)
    {
      PreviousClaims(t, part.upload, part.number, path);
      if path == part.path && path in released {
        assert PartClaims(t, path);
        ClaimedByPart(t, path);
      }
    }
    SameObjects(suite, t, t', blobs);
    UpsertPartUpdates(suite, t, blobs, part);
    assert blobs - {} == blobs;
    Settled(suite, t', blobs, released, nextPath);
  }

  lemma ClaimedByPart(t: Tables, path: Path)
    requires PartClaims(t, path)
    ensures Claimed(t, path)
  {}

  lemma StoredClaims(t: Tables, upload: UploadId, path: Path)
    ensures path in StoredPaths(t, upload) <==> exists p :: p in t.parts && p.upload == upload && p.path == path
  {
    PartPathsIn(Filter(t.parts, InUpload(upload)), path);
  }

  lemma RetireStored(suite: Suite, t: Tables, blobs: Blobs, upload: UploadId, status: UploadStatus)
    requires Stored(suite, t, blobs)
    ensures Stored(suite, DeleteParts(SetStatus(t, upload, status), upload), blobs)
  {
    hide Filter, PartStored, VersionStored;
  }

  /** What is left of the parts when one upload's are gone. */
  function WithoutUpload(parts: map<PartKey, seq<byte>>, upload: UploadId): map<PartKey, seq<byte>>
  {
    map key | key in parts && key.0 != upload :: parts[key]
  }

  /** Retiring an upload - having perhaps committed a version before - and then deleting the blobs
      of its parts and those the commit replaced. */
  lemma RetireSettles(suite: Suite, t: Tables, blobs: Blobs, upload: UploadId, status: UploadStatus, replaced: set<Path>, nextPath: Path)
    requires TablesSound(t) && TablesSound(DeleteParts(SetStatus(t, upload, status), upload)) && Stored(suite, t, blobs)
    requires forall path: Path :: path in blobs && path !in replaced <==> Claimed(t, path)
    requires forall path: Path :: path in blobs ==> path < nextPath
    ensures var t' := DeleteParts(SetStatus(t, upload, status), upload);
            var kept := blobs - (PathSet(StoredPaths(t, upload)) + replaced);
            && Sane(suite, t', kept, nextPath)
            && StacksOf(suite, t', kept) == StacksOf(suite, t, blobs)
            && PartsOf(suite, t'.parts, kept) == WithoutUpload(PartsOf(suite, t.parts, blobs), upload)
  {
    hide Filter, Stored, Claimed, PartStored, StacksOf, PartsOf, StoredPaths, Consistent, UniqueParts, UploadsSound, DistinctBuckets, UniquePaths;
    var t1 := SetStatus(t, upload, status);
    var t' := DeleteParts(t1, upload);
    var released := PathSet(StoredPaths(t, upload)) + replaced;
    RetireStored(suite, t, blobs, upload, status);
    SamePathsStatus(t, upload, status);
    DeletePartsClaims(t1, upload);
    forall path: Path
      ensures path in blobs && path !in released <==> Claimed(t', path)
    {
      StoredClaims(t, upload, path);
    }
    SameObjects(suite, t, t', blobs);
    DeletePartsForgets(suite, t, blobs, upload);
    Settled(suite, t', blobs, released, nextPath);
  }

  lemma SamePathsStatus(t: Tables, upload: UploadId, status: UploadStatus)
    requires UniquePaths(t)
    ensures UniquePaths(SetStatus(t, upload, status))
    ensures forall path: Path :: Claimed(SetStatus(t, upload, status), path) <==> Claimed(t, path)
  {}
}
