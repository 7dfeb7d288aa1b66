/** One request running alone. Starting from a store without leaked blobs, its atomic steps come to
    exactly the change of the tables it stands for, and at its end the files on disk are again
    exactly those some row claims. */
module BlobSolo {
  import opened Common
  import opened Storage
  import opened Tables
  import opened Usage
  import opened ObjectStore
  import opened BlobProtocol
  import Changes

  /** Sound tables over exactly the blobs they claim. */
  ghost predicate Clean(w: World)
  {
    && TablesSound(w.t)
    && forall path: Path :: (path in w.blobs <==> Claimed(w.t, path)) && (path in w.blobs ==> path < w.nextPath)
  }

  /** The steps lead to these tables, with no claimed blob missing and no unclaimed one left. */
  ghost predicate ComesTo(c: Config, w: World, pid: Pid, steps: seq<Step>, t: Tables)
  {
    && IsRun(c, w, steps)
    && var end := Final(c, w, steps);
    && end.t == t && end.now == w.now && end.procs == w.procs[pid := Deleting([])]
    && forall path: Path :: path in end.blobs <==> Claimed(t, path)
  }

  /** A request that has committed deletes what it was left with, file by file. */
  lemma {:induction false} Unlinks(c: Config, w: World, pid: Pid, paths: seq<Path>) returns (steps: seq<Step>)
    requires pid in w.procs && w.procs[pid] == Deleting(paths)
    ensures IsRun(c, w, steps)
    ensures Final(c, w, steps) == w.(blobs := w.blobs - PathSet(paths), procs := w.procs[pid := Deleting([])])
    decreases |paths|
  {
    hide IsRun, Final;
    if paths == [] {
      EndRun(c, w);
      steps := [];
      assert w.blobs - PathSet([]) == w.blobs && w.procs[pid := Deleting([])] == w.procs;
    } else {
      var w' := Apply(c, w, DeleteBlob(pid));
      var rest := Unlinks(c, w', pid, paths[1..]);
      RunStep(c, w, DeleteBlob(pid), w', rest);
      steps := [DeleteBlob(pid)] + rest;
      assert paths == [paths[0]] + paths[1..];
      assert PathSet(paths) == {paths[0]} + PathSet(paths[1..]);
      assert w.blobs - {paths[0]} - PathSet(paths[1..]) == w.blobs - PathSet(paths);
    }
  }

  /** The world after a request alone: its tables, its new file if any, and what it deleted. */
  function After(w: World, pid: Pid, t: Tables, written: bool, paths: set<Path>): World
  {
    var blobs := if written then w.blobs[w.nextPath := w.now] else w.blobs;
    w.(t := t, blobs := blobs - paths, nextPath := if written then w.nextPath + 1 else w.nextPath, procs := w.procs[pid := Deleting([])])
  }

  lemma Arrives(c: Config, w: World, pid: Pid, steps: seq<Step>, t: Tables, written: bool, paths: set<Path>)
    requires IsRun(c, w, steps) && Final(c, w, steps) == After(w, pid, t, written, paths)
    requires forall path: Path :: (path in w.blobs || (written && path == w.nextPath)) && path !in paths <==> Claimed(t, path)
    ensures ComesTo(c, w, pid, steps, t)
  {
    hide IsRun, Final, Claimed;
  }

  /** The step is enabled and leads there. */
  ghost predicate Leads(c: Config, w: World, step: Step, w': World) { BlobProtocol.Enabled(c, w, step) && Apply(c, w, step) == w' }

  // ---- Versions ----

  lemma PutAlone(c: Config, w: World, pid: Pid, bucket: BucketRow, key: Key, v: NewVersion) returns (steps: seq<Step>)
    requires Clean(w) && Idle(w, pid) && v.path == Some(w.nextPath)
    ensures ComesTo(c, w, pid, steps, Changes.Changed(w.t, Changes.Commit(bucket, key, v)))
  {
    hide IsRun, Final, Claimed, TablesSound, CommitVersion, Replaced;
    var slot := (bucket.guid, key);
    var w1 := Opened(w, pid, PutJob(slot));
    var w2 := Committed(w1, CommitVersion(w.t, slot, v), pid, Deleting(Replaced(w.t, slot, v)));
    var rest := Unlinks(c, w2, pid, Replaced(w.t, slot, v));
    RunStep(c, w1, CommitPut(pid, v), w2, rest);
    rest := [CommitPut(pid, v)] + rest;
    RunStep(c, w, StartPut(pid, slot), w1, rest);
    steps := [StartPut(pid, slot)] + rest;
    CleanPaths(w);
    CommitKeepsClean(w.t, w1.blobs.Keys, slot, v);
  }

  lemma CleanPaths(w: World)
    requires Clean(w)
    ensures UniquePaths(w.t) && UniqueParts(w.t) && Consistent(w.t)
  {}

  /** Deleting what a commit replaced leaves what the new tables claim. */
  lemma CommitKeepsClean(t: Tables, files: set<Path>, slot: Slot, v: NewVersion)
    requires UniquePaths(t) && (v.path.Some? ==> !Claimed(t, v.path.value))
    requires forall path: Path :: path in files <==> Claimed(t, path) || v.path == Some(path)
    ensures forall path: Path :: path in files && path !in Replaced(t, slot, v) <==> Claimed(CommitVersion(t, slot, v), path)
  {
    hide Filter, Claimed, Replaced, CommitVersion, UniquePaths;
    forall path: Path
      ensures path in files && path !in Replaced(t, slot, v) <==> Claimed(CommitVersion(t, slot, v), path)
    {
      CommitClaims(t, slot, v, path);
      if path in Replaced(t, slot, v) {
        ClaimedByVersion(t, path);
      }
    }
  }

  lemma MarkerAlone(c: Config, w: World, pid: Pid, bucket: BucketRow, key: Key, versionId: VersionId) returns (steps: seq<Step>)
    requires Clean(w) && Idle(w, pid)
    ensures ComesTo(c, w, pid, steps, Changes.Changed(w.t, Changes.Commit(bucket, key, Marker(versionId))))
  {
    hide IsRun, Final, Claimed, TablesSound, CommitVersion, Replaced;
    var slot := (bucket.guid, key);
    var w1 := Committed(w, CommitVersion(w.t, slot, Marker(versionId)), pid, Deleting(Replaced(w.t, slot, Marker(versionId))));
    var rest := Unlinks(c, w1, pid, Replaced(w.t, slot, Marker(versionId)));
    RunStep(c, w, CommitMarker(pid, slot, versionId), w1, rest);
    steps := [CommitMarker(pid, slot, versionId)] + rest;
    CleanPaths(w);
    CommitKeepsClean(w.t, w.blobs.Keys, slot, Marker(versionId));
  }

  lemma PurgeAlone(c: Config, w: World, pid: Pid, slot: Slot) returns (steps: seq<Step>)
    requires Clean(w) && Idle(w, pid) && slot in w.t.objects
    ensures ComesTo(c, w, pid, steps, Changes.Changed(w.t, Changes.Purge(slot)))
  {
    hide IsRun, Final, Claimed, TablesSound, PurgeObject, Purged, ComesTo, BlobProtocol.Enabled, Apply, UniquePaths;
    var id := w.t.objects[slot].id;
    steps := PurgeRun(c, w, pid, id);
    CleanPaths(w);
    PurgeClaims(w.t, id);
    Arrives(c, w, pid, steps, PurgeObject(w.t, id), false, PathSet(Purged(w.t, id)));
  }

  lemma PurgeRun(c: Config, w: World, pid: Pid, id: ObjectId) returns (steps: seq<Step>)
    requires Idle(w, pid)
    ensures IsRun(c, w, steps) && Final(c, w, steps) == After(w, pid, PurgeObject(w.t, id), false, PathSet(Purged(w.t, id)))
  {
    hide IsRun, Final, PurgeObject, Purged, PathSet;
    var w1 := Committed(w, PurgeObject(w.t, id), pid, Deleting(Purged(w.t, id)));
    var rest := Unlinks(c, w1, pid, Purged(w.t, id));
    RunStep(c, w, Step.Purge(pid, id), w1, rest);
    steps := [Step.Purge(pid, id)] + rest;
  }

  lemma DropAlone(c: Config, w: World, pid: Pid, v: VersionRow) returns (steps: seq<Step>)
    requires Clean(w) && Idle(w, pid) && v in w.t.versions
    ensures ComesTo(c, w, pid, steps, Changes.Changed(w.t, Changes.Drop(v)))
  {
    hide IsRun, Final, Claimed, TablesSound, DropVersion, Consistent, ComesTo, BlobProtocol.Enabled, Apply, UniquePaths;
    var paths := if v.path.Some? then [v.path.value] else [];
    steps := DropRun(c, w, pid, v, paths);
    CleanPaths(w);
    DropClaims(w.t, v.objectGuid, v.guid);
    forall path: Path
      ensures path in PathSet(paths) <==> exists x :: x in w.t.versions && x.guid == v.guid && x.path == Some(path)
    {
      DroppedPath(w.t, v, path);
    }
    Arrives(c, w, pid, steps, DropVersion(w.t, v.objectGuid, v.guid), false, PathSet(paths));
  }

  lemma DropRun(c: Config, w: World, pid: Pid, v: VersionRow, paths: seq<Path>) returns (steps: seq<Step>)
    requires Idle(w, pid) && v in w.t.versions && paths == if v.path.Some? then [v.path.value] else []
    ensures IsRun(c, w, steps) && Final(c, w, steps) == After(w, pid, DropVersion(w.t, v.objectGuid, v.guid), false, PathSet(paths))
  {
    hide IsRun, Final, DropVersion, PathSet;
    var w1 := Moved(w, pid, VersionRead(v));
    var w2 := Committed(w1, DropVersion(w.t, v.objectGuid, v.guid), pid, Deleting(paths));
    steps := Unlinks(c, w2, pid, paths);
    RunStep(c, w1, DropRead(pid), w2, steps);
    steps := [DropRead(pid)] + steps;
    RunStep(c, w, ReadVersion(pid, v), w1, steps);
    steps := [ReadVersion(pid, v)] + steps;
  }

  // ---- Uploads ----

  lemma OpenAlone(c: Config, w: World, pid: Pid, slot: Slot) returns (steps: seq<Step>)
    requires Clean(w) && Idle(w, pid)
    ensures ComesTo(c, w, pid, steps, Changes.Changed(w.t, Changes.OpenUpload(slot)))
  {
    hide IsRun, Final, TablesSound;
    var w1 := Committed(w, CreateUpload(w.t, slot), pid, Deleting([]));
    EndRun(c, w1);
    RunStep(c, w, Step.OpenUpload(pid, slot), w1, []);
    steps := [Step.OpenUpload(pid, slot)] + [];
  }

  lemma PartAlone(c: Config, w: World, pid: Pid, bucket: BucketRow, part: PartRow) returns (steps: seq<Step>)
    requires Clean(w) && Idle(w, pid) && InProgressUpload(w.t, part.upload) && part.path == w.nextPath
    ensures ComesTo(c, w, pid, steps, Changes.Changed(w.t, Changes.StorePart(bucket, part)))
  {
    hide IsRun, Final, Claimed, TablesSound, UpsertPart, PreviousPath, UniqueParts, ComesTo, BlobProtocol.Enabled, Apply, UniquePaths;
    var previous := PreviousPath(w.t, part.upload, part.number);
    var paths := if previous.Some? then [previous.value] else [];
    steps := PartRun(c, w, pid, part, previous, paths);
    CleanPaths(w);
    UpsertPartClaims(w.t, part);
    forall path: Path
      ensures path in PathSet(paths) <==> exists p :: p in w.t.parts && p.upload == part.upload && p.number == part.number && p.path == path
      ensures path in PathSet(paths) ==> Claimed(w.t, path)
    {
      PreviousClaims(w.t, part.upload, part.number, path);
      PartClaimed(w.t, path);
    }
    Arrives(c, w, pid, steps, UpsertPart(w.t, part), true, PathSet(paths));
  }

  lemma PartRun(c: Config, w: World, pid: Pid, part: PartRow, previous: Option<Path>, paths: seq<Path>) returns (steps: seq<Step>)
    requires Idle(w, pid) && InProgressUpload(w.t, part.upload) && part.path == w.nextPath
    requires previous == PreviousPath(w.t, part.upload, part.number) && paths == if previous.Some? then [previous.value] else []
    ensures IsRun(c, w, steps) && Final(c, w, steps) == After(w, pid, UpsertPart(w.t, part), true, PathSet(paths))
  {
    hide IsRun, Final, UpsertPart, PreviousPath, PathSet;
    var w1 := Moved(w, pid, UploadRequired(part.upload));
    var w2 := Opened(w1, pid, PartJob(part.upload, part.number));
    var w3 := Moved(w2, pid, PartWritten(part.path, w.now, part.upload, part.number, previous));
    var w4 := Committed(w3, UpsertPart(w.t, part), pid, Deleting(paths));
    steps := Unlinks(c, w4, pid, paths);
    PartSteps(c, w, pid, part, previous);
    hide BlobProtocol.Enabled, Apply;
    RunStep(c, w3, CommitPart(pid, part), w4, steps);
    steps := [CommitPart(pid, part)] + steps;
    RunStep(c, w2, ReadPrevious(pid), w3, steps);
    steps := [ReadPrevious(pid)] + steps;
    RunStep(c, w1, StartPart(pid, part.number), w2, steps);
    steps := [StartPart(pid, part.number)] + steps;
    RunStep(c, w, RequireUpload(pid, part.upload), w1, steps);
    steps := [RequireUpload(pid, part.upload)] + steps;
  }

  lemma PartSteps(c: Config, w: World, pid: Pid, part: PartRow, previous: Option<Path>)
    requires Idle(w, pid) && InProgressUpload(w.t, part.upload) && part.path == w.nextPath
    requires previous == PreviousPath(w.t, part.upload, part.number)
    ensures var w1 := Moved(w, pid, UploadRequired(part.upload));
            var w2 := Opened(w1, pid, PartJob(part.upload, part.number));
            var w3 := Moved(w2, pid, PartWritten(part.path, w.now, part.upload, part.number, previous));
            var w4 := Committed(w3, UpsertPart(w.t, part), pid, Deleting(if previous.Some? then [previous.value] else []));
            && Leads(c, w, RequireUpload(pid, part.upload), w1) && Leads(c, w1, StartPart(pid, part.number), w2)
            && Leads(c, w2, ReadPrevious(pid), w3) && Leads(c, w3, CommitPart(pid, part), w4)
  {
    hide UpsertPart, PreviousPath;
  }

  lemma PartClaimed(t: Tables, path: Path)
    ensures (exists p :: p in t.parts && p.path == path) ==> Claimed(t, path)
  {}

  /** Completing reads the stored parts first, commits, and drops the parts in two more transactions;
      alone, that comes to the one change. */
  lemma CompleteAlone(c: Config, w: World, pid: Pid, bucket: BucketRow, upload: UploadId, selected: seq<PartRow>, v: NewVersion) returns (steps: seq<Step>)
    requires Clean(w) && Idle(w, pid) && InProgressUpload(w.t, upload) && v.path == Some(w.nextPath)
    ensures ComesTo(c, w, pid, steps, Changes.Changed(w.t, Changes.CompleteUpload(bucket, upload, selected, v)))
  {
    hide IsRun, Final, Claimed, TablesSound, Replaced, StoredPaths, ComesTo, BlobProtocol.Enabled, Apply, UniquePaths, Complete, InProgressUpload;
    steps := CompleteRun(c, w, pid, upload, v);
    CleanPaths(w);
    CompleteKeepsClean(w.t, w.blobs.Keys + {w.nextPath}, upload, v);
    var stored, replaced := StoredPaths(w.t, upload), Replaced(w.t, (upload.bucket, upload.key), v);
    assert forall path :: path in PathSet(stored + replaced) <==> path in stored + replaced;
    Arrives(c, w, pid, steps, Complete(w.t, upload, v), true, PathSet(stored + replaced));
  }

  lemma CompleteRun(c: Config, w: World, pid: Pid, upload: UploadId, v: NewVersion) returns (steps: seq<Step>)
    requires Idle(w, pid) && InProgressUpload(w.t, upload) && v.path == Some(w.nextPath)
    ensures IsRun(c, w, steps)
    ensures Final(c, w, steps)
            == After(w, pid, Complete(w.t, upload, v), true, PathSet(StoredPaths(w.t, upload) + Replaced(w.t, (upload.bucket, upload.key), v)))
  {
    hide IsRun, Final, CommitVersion, Replaced, StoredPaths, DeleteParts, SetStatus, PathSet;
    var stored := StoredPaths(w.t, upload);
    var w1 := Moved(w, pid, UploadRequired(upload));
    var w2 := Moved(w1, pid, StoredRead(upload, stored));
    steps := FinishRun(c, w2, pid, upload, v, stored);
    ReadSteps(c, w, pid, upload);
    hide BlobProtocol.Enabled, Apply;
    RunStep(c, w1, ReadStored(pid), w2, steps);
    steps := [ReadStored(pid)] + steps;
    RunStep(c, w, RequireUpload(pid, upload), w1, steps);
    steps := [RequireUpload(pid, upload)] + steps;
  }

  lemma FinishRun(c: Config, w2: World, pid: Pid, upload: UploadId, v: NewVersion, stored: seq<Path>) returns (steps: seq<Step>)
    requires pid in w2.procs && w2.procs[pid] == StoredRead(upload, stored) && v.path == Some(w2.nextPath)
    ensures IsRun(c, w2, steps)
    ensures Final(c, w2, steps)
            == After(w2, pid, Complete(w2.t, upload, v), true, PathSet(stored + Replaced(w2.t, (upload.bucket, upload.key), v)))
  {
    hide IsRun, Final, CommitVersion, Replaced, DeleteParts, SetStatus, PathSet;
    var slot := (upload.bucket, upload.key);
    var replaced := Replaced(w2.t, slot, v);
    var t1 := CommitVersion(w2.t, slot, v);
    var t2 := SetStatus(t1, upload, Completed);
    var w3 := Opened(w2, pid, CompleteJob(upload, stored));
    var w4 := Committed(w3, t1, pid, VersionCommitted(upload, stored, replaced));
    var w5 := Committed(w4, t2, pid, UploadCompleted(upload, stored, replaced));
    var w6 := Committed(w5, DeleteParts(t2, upload), pid, Deleting(stored + replaced));
    FinishSteps(c, w2, pid, upload, v, stored, replaced, t1, t2);
    steps := Unlinks(c, w6, pid, stored + replaced);
    hide BlobProtocol.Enabled, Apply;
    RunStep(c, w5, DropCompletedParts(pid), w6, steps);
    steps := [DropCompletedParts(pid)] + steps;
    RunStep(c, w4, MarkCompleted(pid), w5, steps);
    steps := [MarkCompleted(pid)] + steps;
    RunStep(c, w3, CommitComplete(pid, v), w4, steps);
    steps := [CommitComplete(pid, v)] + steps;
    RunStep(c, w2, StartConcat(pid), w3, steps);
    steps := [StartConcat(pid)] + steps;
  }

  lemma ReadSteps(c: Config, w: World, pid: Pid, upload: UploadId)
    requires Idle(w, pid) && InProgressUpload(w.t, upload)
    ensures var w1 := Moved(w, pid, UploadRequired(upload));
            && Leads(c, w, RequireUpload(pid, upload), w1)
            && Leads(c, w1, ReadStored(pid), Moved(w1, pid, StoredRead(upload, StoredPaths(w.t, upload))))
            && Leads(c, w1, ReadAbort(pid), Moved(w1, pid, AbortRead(upload, StoredPaths(w.t, upload))))
  {
    hide StoredPaths;
  }

  lemma FinishSteps(c: Config, w2: World, pid: Pid, upload: UploadId, v: NewVersion, stored: seq<Path>, replaced: seq<Path>, t1: Tables, t2: Tables)
    requires pid in w2.procs && w2.procs[pid] == StoredRead(upload, stored) && v.path == Some(w2.nextPath)
    requires t1 == CommitVersion(w2.t, (upload.bucket, upload.key), v) && t2 == SetStatus(t1, upload, Completed)
    requires replaced == Replaced(w2.t, (upload.bucket, upload.key), v)
    ensures var w3 := Opened(w2, pid, CompleteJob(upload, stored));
            var w4 := Committed(w3, t1, pid, VersionCommitted(upload, stored, replaced));
            var w5 := Committed(w4, t2, pid, UploadCompleted(upload, stored, replaced));
            var w6 := Committed(w5, DeleteParts(t2, upload), pid, Deleting(stored + replaced));
            && Leads(c, w2, StartConcat(pid), w3) && Leads(c, w3, CommitComplete(pid, v), w4)
            && Leads(c, w4, MarkCompleted(pid), w5) && Leads(c, w5, DropCompletedParts(pid), w6)
  {
    hide CommitVersion, Replaced, DeleteParts, SetStatus;
  }

  lemma CompleteKeepsClean(t: Tables, files: set<Path>, upload: UploadId, v: NewVersion)
    requires UniquePaths(t) && v.path.Some? && !Claimed(t, v.path.value)
    requires forall path: Path :: path in files <==> Claimed(t, path) || v.path == Some(path)
    ensures forall path: Path ::
              path in files && path !in StoredPaths(t, upload) + Replaced(t, (upload.bucket, upload.key), v) <==> Claimed(Complete(t, upload, v), path)
  {
    hide Filter, Claimed, Replaced, CommitVersion, UniquePaths, StoredPaths, DeleteParts, SetStatus;
    var slot := (upload.bucket, upload.key);
    var t1 := CommitVersion(t, slot, v);
    var t2 := SetStatus(t1, upload, Completed);
    CommitKeepsClean(t, files, slot, v);
    CommitUnique(t, slot, v);
    CommitParts(t, slot, v);
    SamePathsStatus(t1, upload, Completed);
    StatusParts(t1, upload, Completed);
    DeletePartsClaims(t2, upload);
    forall path: Path
      ensures path in StoredPaths(t, upload) <==> exists p :: p in t2.parts && p.upload == upload && p.path == path
    {
      StoredClaims(t, upload, path);
    }
  }

  lemma StatusParts(t: Tables, upload: UploadId, status: UploadStatus)
    ensures SetStatus(t, upload, status).parts == t.parts
  {}

  lemma AbortAlone(c: Config, w: World, pid: Pid, upload: UploadId) returns (steps: seq<Step>)
    requires Clean(w) && Idle(w, pid) && InProgressUpload(w.t, upload)
    ensures ComesTo(c, w, pid, steps, Changes.Changed(w.t, Changes.AbortUpload(upload)))
  {
    hide IsRun, Final, Claimed, TablesSound, StoredPaths, DeleteParts, SetStatus, ComesTo, BlobProtocol.Enabled, Apply, UniquePaths;
    var stored := StoredPaths(w.t, upload);
    steps := AbortRun(c, w, pid, upload, stored);
    CleanPaths(w);
    EitherOrder(w.t, upload);
    SamePathsStatus(w.t, upload, Aborted);
    StatusParts(w.t, upload, Aborted);
    DeletePartsClaims(SetStatus(w.t, upload, Aborted), upload);
    forall path: Path
      ensures path in stored <==> exists p :: p in w.t.parts && p.upload == upload && p.path == path
    {
      StoredClaims(w.t, upload, path);
    }
    Arrives(c, w, pid, steps, SetStatus(DeleteParts(w.t, upload), upload, Aborted), false, PathSet(stored));
  }

  lemma AbortRun(c: Config, w: World, pid: Pid, upload: UploadId, stored: seq<Path>) returns (steps: seq<Step>)
    requires Idle(w, pid) && InProgressUpload(w.t, upload) && stored == StoredPaths(w.t, upload)
    ensures IsRun(c, w, steps) && Final(c, w, steps) == After(w, pid, SetStatus(DeleteParts(w.t, upload), upload, Aborted), false, PathSet(stored))
  {
    hide IsRun, Final, StoredPaths, DeleteParts, SetStatus, PathSet;
    var w1 := Moved(w, pid, UploadRequired(upload));
    var w2 := Moved(w1, pid, AbortRead(upload, stored));
    var w3 := Committed(w2, DeleteParts(w.t, upload), pid, AbortDropped(upload, stored));
    var w4 := Committed(w3, SetStatus(w3.t, upload, Aborted), pid, Deleting(stored));
    steps := Unlinks(c, w4, pid, stored);
    ReadSteps(c, w, pid, upload);
    AbortSteps(c, w2, pid, upload, stored);
    hide BlobProtocol.Enabled, Apply;
    RunStep(c, w3, MarkAborted(pid), w4, steps);
    steps := [MarkAborted(pid)] + steps;
    RunStep(c, w2, DropAbortedParts(pid), w3, steps);
    steps := [DropAbortedParts(pid)] + steps;
    RunStep(c, w1, ReadAbort(pid), w2, steps);
    steps := [ReadAbort(pid)] + steps;
    RunStep(c, w, RequireUpload(pid, upload), w1, steps);
    steps := [RequireUpload(pid, upload)] + steps;
  }

  lemma AbortSteps(c: Config, w2: World, pid: Pid, upload: UploadId, stored: seq<Path>)
    requires pid in w2.procs && w2.procs[pid] == AbortRead(upload, stored)
    ensures var w3 := Committed(w2, DeleteParts(w2.t, upload), pid, AbortDropped(upload, stored));
            && Leads(c, w2, DropAbortedParts(pid), w3)
            && Leads(c, w3, MarkAborted(pid), Committed(w3, SetStatus(w3.t, upload, Aborted), pid, Deleting(stored)))
  {
    hide DeleteParts, SetStatus;
  }

  lemma EitherOrder(t: Tables, upload: UploadId)
    ensures SetStatus(DeleteParts(t, upload), upload, Aborted) == DeleteParts(SetStatus(t, upload, Aborted), upload)
  {}

  // ---- A sweep ----

  function Orphans(w: World, referenced: set<Path>, youngerThan: int): set<Path>
  {
    set path | path in w.blobs && path !in referenced && w.blobs[path] <= youngerThan
  }

  lemma {:induction false} Collects(c: Config, w: World, pid: Pid, start: int, referenced: set<Path>, youngerThan: int) returns (steps: seq<Step>)
    requires pid in w.procs && w.procs[pid] == GcListing(start, referenced, youngerThan)
    ensures IsRun(c, w, steps) && Final(c, w, steps) == w.(blobs := w.blobs - Orphans(w, referenced, youngerThan))
    decreases |Orphans(w, referenced, youngerThan)|
  {
    hide IsRun, Final;
    var orphans := Orphans(w, referenced, youngerThan);
    if orphans == {} {
      EndRun(c, w);
      steps := [];
      assert w.blobs - orphans == w.blobs;
    } else {
      var path :| path in orphans;
      var w1 := Moved(w, pid, GcChosen(start, referenced, youngerThan, path));
      var w2 := w.(blobs := w.blobs - {path});
      assert w2.procs == w1.procs[pid := GcListing(start, referenced, youngerThan)];
      assert Orphans(w2, referenced, youngerThan) == orphans - {path};
      var rest := Collects(c, w2, pid, start, referenced, youngerThan);
      RunStep(c, w1, DeleteOrphan(pid), w2, rest);
      rest := [DeleteOrphan(pid)] + rest;
      RunStep(c, w, ChooseOrphan(pid, path), w1, rest);
      steps := [ChooseOrphan(pid, path)] + rest;
      assert w.blobs - {path} - (orphans - {path}) == w.blobs - orphans;
    }
  }

  /** A sweep alone changes no table and deletes exactly the unclaimed blobs that are old enough. */
  lemma SweepAlone(c: Config, w: World, pid: Pid) returns (steps: seq<Step>)
    requires Idle(w, pid)
    ensures IsRun(c, w, steps) && Final(c, w, steps).t == w.t
    ensures forall path: Path :: path in Final(c, w, steps).blobs
              <==> path in w.blobs && (Claimed(w.t, path) || w.blobs[path] > w.now - c.blobMinAge)
  {
    hide IsRun, Final, VersionPathSet, PartPathSet, Claimed, BlobProtocol.Enabled, Apply, Swept;
    steps := SweepRun(c, w, pid, VersionPathSet(w.t) + PartPathSet(w.t), w.now - c.blobMinAge);
    forall path: Path
      ensures path in VersionPathSet(w.t) + PartPathSet(w.t) <==> Claimed(w.t, path)
    {
      PathSetsClaim(w.t, path);
    }
  }

  lemma SweepRun(c: Config, w: World, pid: Pid, referenced: set<Path>, youngerThan: int) returns (steps: seq<Step>)
    requires Idle(w, pid) && referenced == VersionPathSet(w.t) + PartPathSet(w.t) && youngerThan == w.now - c.blobMinAge
    ensures IsRun(c, w, steps) && Final(c, w, steps).t == w.t
    ensures Final(c, w, steps).blobs == w.blobs - Orphans(w, referenced, youngerThan)
  {
    hide IsRun, Final, VersionPathSet, PartPathSet;
    var w1 := Moved(w, pid, GcStarted(w.now));
    var w2 := Moved(w1, pid, GcVersionsRead(w.now, VersionPathSet(w.t)));
    var w3 := Moved(w2, pid, GcReferencesRead(w.now, referenced));
    var w4 := Moved(w3, pid, GcListing(w.now, referenced, youngerThan));
    steps := Collects(c, w4, pid, w.now, referenced, youngerThan);
    RunStep(c, w3, ComputeCutoff(pid), w4, steps);
    steps := [ComputeCutoff(pid)] + steps;
    RunStep(c, w2, ReadPartPaths(pid), w3, steps);
    steps := [ReadPartPaths(pid)] + steps;
    RunStep(c, w1, ReadVersionPaths(pid), w2, steps);
    steps := [ReadVersionPaths(pid)] + steps;
    RunStep(c, w, BeginSweep(pid), w1, steps);
    steps := [BeginSweep(pid)] + steps;
  }

  lemma PathSetsClaim(t: Tables, path: Path)
    ensures path in VersionPathSet(t) + PartPathSet(t) <==> Claimed(t, path)
  {}
}
