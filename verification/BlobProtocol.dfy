/** The blob protocol under concurrency: every request is a small program of atomic steps - a blob
    write, a database transaction or query, a blob delete - interleaved with every other request
    and with garbage collection sweeps, and free to crash between any two steps. */
module BlobProtocol {
  import opened Common
  import opened Storage
  import opened Tables

  type Pid = nat

  /** What a written blob is for. */
  datatype Job =
    | PutJob(slot: Slot)
    | PartJob(upload: UploadId, number: nat)
    | CompleteJob(upload: UploadId, stored: seq<Path>)

  /** Where a request stands; `touched` is the last time its own blob was written to. */
  datatype Pc =
    | Writing(path: Path, touched: int, job: Job)
    | PartWritten(path: Path, touched: int, upload: UploadId, number: nat, previous: Option<Path>)
    | UploadRequired(upload: UploadId)
    | StoredRead(upload: UploadId, stored: seq<Path>)
    | VersionCommitted(upload: UploadId, stored: seq<Path>, replaced: seq<Path>)
    | UploadCompleted(upload: UploadId, stored: seq<Path>, replaced: seq<Path>)
    | AbortRead(upload: UploadId, stored: seq<Path>)
    | AbortDropped(upload: UploadId, stored: seq<Path>)
    | VersionRead(version: VersionRow)
    | Deleting(paths: seq<Path>)
    | GcStarted(start: int)
    | GcVersionsRead(start: int, referenced: set<Path>)
    | GcReferencesRead(start: int, referenced: set<Path>)
    | GcListing(start: int, referenced: set<Path>, youngerThan: int)
    | GcChosen(start: int, referenced: set<Path>, youngerThan: int, path: Path)

  /** `blobs` gives each file on disk the time it was last written; paths from `nextPath` on are
      unused. */
  datatype World = World(t: Tables, blobs: map<Path, int>, now: int, nextPath: Path, procs: map<Pid, Pc>)

  /** `maxDelay` bounds the time from one write of a blob to the next, and from the last to its
      commit; `readDelay` the time from the start of the sweep's reference read to its cutoff. */
  datatype Config = Config(maxDelay: nat, readDelay: nat, blobMinAge: nat)

  ghost predicate Configured(c: Config) { c.maxDelay + c.readDelay < c.blobMinAge }

  datatype Step =
    | Tick(time: nat)
    | Crash(pid: Pid)
    | StartPut(pid: Pid, slot: Slot)
    | OpenUpload(pid: Pid, slot: Slot)
    | RequireUpload(pid: Pid, upload: UploadId)
    | StartPart(pid: Pid, number: nat)
    | StartConcat(pid: Pid)
    | Append(pid: Pid)
    | Discard(pid: Pid)
    | CommitPut(pid: Pid, version: NewVersion)
    | ReadPrevious(pid: Pid)
    | CommitPart(pid: Pid, part: PartRow)
    | ReadStored(pid: Pid)
    | CommitComplete(pid: Pid, version: NewVersion)
    | MarkCompleted(pid: Pid)
    | DropCompletedParts(pid: Pid)
    | ReadAbort(pid: Pid)
    | DropAbortedParts(pid: Pid)
    | MarkAborted(pid: Pid)
    | CommitMarker(pid: Pid, slot: Slot, versionId: VersionId)
    | Purge(pid: Pid, id: ObjectId)
    | ReadVersion(pid: Pid, row: VersionRow)
    | DropRead(pid: Pid)
    | DeleteBlob(pid: Pid)
    | BeginSweep(pid: Pid)
    | ReadVersionPaths(pid: Pid)
    | ReadPartPaths(pid: Pid)
    | ComputeCutoff(pid: Pid)
    | ChooseOrphan(pid: Pid, path: Path)
    | DeleteOrphan(pid: Pid)

  // ---- Steps ----

  predicate Idle(w: World, pid: Pid) { pid !in w.procs }

  /** The writer's next touch of its blob is not later than the assumed delay. */
  predicate Timely(c: Config, w: World, touched: int) { w.now <= touched + c.maxDelay }

  predicate Enabled(c: Config, w: World, step: Step)
  {
    match step
    case Tick(_) => true
    case Crash(pid) => pid in w.procs
    case StartPut(pid, _) => Idle(w, pid)
    case OpenUpload(pid, _) => Idle(w, pid)
    case RequireUpload(pid, upload) => Idle(w, pid) && InProgressUpload(w.t, upload)
    case StartPart(pid, _) => pid in w.procs && w.procs[pid].UploadRequired?
    case StartConcat(pid) => pid in w.procs && w.procs[pid].StoredRead?
    case Append(pid) => pid in w.procs && w.procs[pid].Writing? && Timely(c, w, w.procs[pid].touched)
    case Discard(pid) => pid in w.procs && w.procs[pid].Writing?
    case CommitPut(pid, v) => pid in w.procs && w.procs[pid].Writing? && w.procs[pid].job.PutJob?
                              && Timely(c, w, w.procs[pid].touched) && v.path == Some(w.procs[pid].path)
    case ReadPrevious(pid) => pid in w.procs && w.procs[pid].Writing? && w.procs[pid].job.PartJob?
    case CommitPart(pid, part) => pid in w.procs && w.procs[pid].PartWritten? && Timely(c, w, w.procs[pid].touched)
                                  && part.upload == w.procs[pid].upload && part.number == w.procs[pid].number && part.path == w.procs[pid].path
    case ReadStored(pid) => pid in w.procs && w.procs[pid].UploadRequired?
    case CommitComplete(pid, v) => pid in w.procs && w.procs[pid].Writing? && w.procs[pid].job.CompleteJob?
                                   && Timely(c, w, w.procs[pid].touched) && v.path == Some(w.procs[pid].path)
    case MarkCompleted(pid) => pid in w.procs && w.procs[pid].VersionCommitted?
    case DropCompletedParts(pid) => pid in w.procs && w.procs[pid].UploadCompleted?
    case ReadAbort(pid) => pid in w.procs && w.procs[pid].UploadRequired?
    case DropAbortedParts(pid) => pid in w.procs && w.procs[pid].AbortRead?
    case MarkAborted(pid) => pid in w.procs && w.procs[pid].AbortDropped?
    case CommitMarker(pid, _, _) => Idle(w, pid)
    case Purge(pid, _) => Idle(w, pid)
    case ReadVersion(pid, v) => Idle(w, pid) && v in w.t.versions
    case DropRead(pid) => pid in w.procs && w.procs[pid].VersionRead?
    case DeleteBlob(pid) => pid in w.procs && w.procs[pid].Deleting? && w.procs[pid].paths != []
    case BeginSweep(pid) => Idle(w, pid)
    case ReadVersionPaths(pid) => pid in w.procs && w.procs[pid].GcStarted?
    case ReadPartPaths(pid) => pid in w.procs && w.procs[pid].GcVersionsRead?
    case ComputeCutoff(pid) => pid in w.procs && w.procs[pid].GcReferencesRead? && w.now <= w.procs[pid].start + c.readDelay
    case ChooseOrphan(pid, path) => pid in w.procs && w.procs[pid].GcListing? && path in w.blobs
                                    && path !in w.procs[pid].referenced && w.blobs[path] <= w.procs[pid].youngerThan
    case DeleteOrphan(pid) => pid in w.procs && w.procs[pid].GcChosen?
  }

  /** A write begins: a file appears at a path nobody has used. */
  function Opened(w: World, pid: Pid, job: Job): World
  {
    w.(blobs := w.blobs[w.nextPath := w.now], nextPath := w.nextPath + 1, procs := w.procs[pid := Writing(w.nextPath, w.now, job)])
  }

  /** More bytes arrive; a file unlinked meanwhile stays unlinked. */
  function Appended(w: World, pid: Pid, path: Path, job: Job): World
  {
    w.(blobs := if path in w.blobs then w.blobs[path := w.now] else w.blobs, procs := w.procs[pid := Writing(path, w.now, job)])
  }

  function Moved(w: World, pid: Pid, pc: Pc): World { w.(procs := w.procs[pid := pc]) }

  /** A transaction commits and the request moves on. */
  function Committed(w: World, t: Tables, pid: Pid, pc: Pc): World { w.(t := t, procs := w.procs[pid := pc]) }

  /** A file is gone - or was already - and the request moves on. */
  function Unlinked(w: World, path: Path, pid: Pid, pc: Pc): World
  {
    w.(blobs := w.blobs - {path}, procs := w.procs[pid := pc])
  }

  function Apply(c: Config, w: World, step: Step): World
    requires Enabled(c, w, step)
  {
    match step
    case Tick(time) => w.(now := w.now + time)
    case Crash(pid) => w.(procs := w.procs - {pid})
    case StartPut(pid, slot) => Opened(w, pid, PutJob(slot))
    case OpenUpload(pid, slot) => Committed(w, CreateUpload(w.t, slot), pid, Deleting([]))
    case RequireUpload(pid, upload) => Moved(w, pid, UploadRequired(upload))
    case StartPart(pid, number) => Opened(w, pid, PartJob(w.procs[pid].upload, number))
    case StartConcat(pid) => Opened(w, pid, CompleteJob(w.procs[pid].upload, w.procs[pid].stored))
    case Append(pid) =>
      Appended(w, pid, w.procs[pid].path, w.procs[pid].job)
    case Discard(pid) => Moved(w, pid, Deleting([w.procs[pid].path]))
    case CommitPut(pid, v) =>
      var slot := w.procs[pid].job.slot;
      Committed(w, CommitVersion(w.t, slot, v), pid, Deleting(Replaced(w.t, slot, v)))
    case ReadPrevious(pid) =>
      var pc := w.procs[pid];
      Moved(w, pid, PartWritten(pc.path, pc.touched, pc.job.upload, pc.job.number, PreviousPath(w.t, pc.job.upload, pc.job.number)))
    case CommitPart(pid, part) =>
      Committed(w, UpsertPart(w.t, part), pid, Deleting(if w.procs[pid].previous.Some? then [w.procs[pid].previous.value] else []))
    case ReadStored(pid) => Moved(w, pid, StoredRead(w.procs[pid].upload, StoredPaths(w.t, w.procs[pid].upload)))
    case CommitComplete(pid, v) =>
      var job := w.procs[pid].job;
      var slot := (job.upload.bucket, job.upload.key);
      Committed(w, CommitVersion(w.t, slot, v), pid, VersionCommitted(job.upload, job.stored, Replaced(w.t, slot, v)))
    case MarkCompleted(pid) =>
      var pc := w.procs[pid];
      Committed(w, SetStatus(w.t, pc.upload, Completed), pid, UploadCompleted(pc.upload, pc.stored, pc.replaced))
    case DropCompletedParts(pid) =>
      Committed(w, DeleteParts(w.t, w.procs[pid].upload), pid, Deleting(w.procs[pid].stored + w.procs[pid].replaced))
    case ReadAbort(pid) => Moved(w, pid, AbortRead(w.procs[pid].upload, StoredPaths(w.t, w.procs[pid].upload)))
    case DropAbortedParts(pid) =>
      Committed(w, DeleteParts(w.t, w.procs[pid].upload), pid, AbortDropped(w.procs[pid].upload, w.procs[pid].stored))
    case MarkAborted(pid) => Committed(w, SetStatus(w.t, w.procs[pid].upload, Aborted), pid, Deleting(w.procs[pid].stored))
    case CommitMarker(pid, slot, versionId) =>
      Committed(w, CommitVersion(w.t, slot, Marker(versionId)), pid, Deleting(Replaced(w.t, slot, Marker(versionId))))
    case Purge(pid, id) => Committed(w, PurgeObject(w.t, id), pid, Deleting(Purged(w.t, id)))
    case ReadVersion(pid, v) => Moved(w, pid, VersionRead(v))
    case DropRead(pid) =>
      var v := w.procs[pid].version;
      Committed(w, DropVersion(w.t, v.objectGuid, v.guid), pid, Deleting(if v.path.Some? then [v.path.value] else []))
    case DeleteBlob(pid) => Unlinked(w, w.procs[pid].paths[0], pid, Deleting(w.procs[pid].paths[1..]))
    case _ => Swept(c, w, step)
  }

  predicate IsSweep(step: Step)
  {
    step.BeginSweep? || step.ReadVersionPaths? || step.ReadPartPaths? || step.ComputeCutoff? || step.ChooseOrphan? || step.DeleteOrphan?
  }

  function Swept(c: Config, w: World, step: Step): World
    requires Enabled(c, w, step) && IsSweep(step)
  {
    match step
    case BeginSweep(pid) => Moved(w, pid, GcStarted(w.now))
    case ReadVersionPaths(pid) => Moved(w, pid, GcVersionsRead(w.procs[pid].start, VersionPathSet(w.t)))
    case ReadPartPaths(pid) => Moved(w, pid, GcReferencesRead(w.procs[pid].start, w.procs[pid].referenced + PartPathSet(w.t)))
    case ComputeCutoff(pid) => Moved(w, pid, GcListing(w.procs[pid].start, w.procs[pid].referenced, w.now - c.blobMinAge))
    case ChooseOrphan(pid, path) =>
      Moved(w, pid, GcChosen(w.procs[pid].start, w.procs[pid].referenced, w.procs[pid].youngerThan, path))
    case DeleteOrphan(pid) =>
      var pc := w.procs[pid];
      Unlinked(w, pc.path, pid, GcListing(pc.start, pc.referenced, pc.youngerThan))
  }

  // ---- The invariant ----

  predicate Owns(pc: Pc, path: Path) { (pc.Writing? || pc.PartWritten?) && pc.path == path }

  /** The request may still commit the blob. */
  ghost predicate LiveOwned(c: Config, w: World, path: Path)
  {
    exists pid :: pid in w.procs && Owns(w.procs[pid], path) && Timely(c, w, w.procs[pid].touched)
  }

  /** The blob is safe: every committed row has its file. */
  ghost predicate Safe(w: World)
  {
    forall path: Path :: Claimed(w.t, path) ==> path in w.blobs
  }

  ghost predicate Disk(w: World)
  {
    && (forall path: Path :: path in w.blobs ==> path < w.nextPath && w.blobs[path] <= w.now)
    && Safe(w) && UniquePaths(w.t)
  }

  /** A writer's blob belongs to no row and to no other writer, and is on disk while it can still
      be committed in time. */
  ghost predicate OwnerOk(c: Config, w: World, pid: Pid)
    requires pid in w.procs && (w.procs[pid].Writing? || w.procs[pid].PartWritten?)
  {
    var pc := w.procs[pid];
    && pc.path < w.nextPath && pc.touched <= w.now
    && !Claimed(w.t, pc.path)
    && (pc.path in w.blobs ==> w.blobs[pc.path] == pc.touched)
    && (Timely(c, w, pc.touched) ==> pc.path in w.blobs)
    && (forall other :: other in w.procs && Owns(w.procs[other], pc.path) ==> other == pid)
  }

  /** Nobody can still commit the blob: it is not fresh, and a writer that owns it is too late. */
  ghost predicate Stale(c: Config, w: World, path: Path) { path < w.nextPath && !LiveOwned(c, w, path) }

  /** No row claims the blob, and none ever will. */
  ghost predicate Doomed(c: Config, w: World, path: Path) { Stale(c, w, path) && !Claimed(w.t, path) }

  ghost predicate OnlyPart(t: Tables, path: Path, upload: UploadId, number: nat)
  {
    !VersionClaims(t, path) && forall p :: p in t.parts && p.path == path ==> p.upload == upload && p.number == number
  }

  ghost predicate OnlyUpload(t: Tables, path: Path, upload: UploadId)
  {
    !VersionClaims(t, path) && forall p :: p in t.parts && p.path == path ==> p.upload == upload
  }

  ghost predicate OnlyVersion(t: Tables, path: Path, guid: nat)
  {
    !PartClaims(t, path) && forall v :: v in t.versions && v.path == Some(path) ==> v.guid == guid
  }

  ghost predicate AllDoomed(c: Config, w: World, paths: seq<Path>)
  {
    forall path :: path in paths ==> Doomed(c, w, path)
  }

  ghost predicate AllUpload(c: Config, w: World, paths: seq<Path>, upload: UploadId)
  {
    forall path :: path in paths ==> Stale(c, w, path) && OnlyUpload(w.t, path, upload)
  }

  /** Everything the rows claim was read by the sweep or is too recent for it. */
  ghost predicate Accounted(c: Config, w: World, start: int, referenced: set<Path>, versions: bool, parts: bool)
  {
    && start <= w.now
    && (versions ==> forall path: Path :: VersionClaims(w.t, path) ==> path in referenced || Recent(c, w, path, start))
    && (parts ==> forall path: Path :: PartClaims(w.t, path) ==> path in referenced || Recent(c, w, path, start))
  }

  ghost predicate Recent(c: Config, w: World, path: Path, start: int)
  {
    path in w.blobs && w.blobs[path] + c.maxDelay >= start
  }

  /** What a request knows about the blobs it is going to delete: no row but the one it is about to
      drop claims them, and no writer will bring them back. */
  ghost predicate PcOk(c: Config, w: World, pc: Pc)
  {
    match pc
    case Writing(_, _, job) => job.CompleteJob? ==> AllUpload(c, w, job.stored, job.upload)
    case PartWritten(_, _, upload, number, previous) =>
      previous.Some? ==> Stale(c, w, previous.value) && OnlyPart(w.t, previous.value, upload, number)
    case UploadRequired(_) => true
    case StoredRead(upload, stored) => AllUpload(c, w, stored, upload)
    case VersionCommitted(upload, stored, replaced) => AllUpload(c, w, stored, upload) && AllDoomed(c, w, replaced)
    case UploadCompleted(upload, stored, replaced) => AllUpload(c, w, stored, upload) && AllDoomed(c, w, replaced)
    case AbortRead(upload, stored) => AllUpload(c, w, stored, upload)
    case AbortDropped(_, stored) => AllDoomed(c, w, stored)
    case VersionRead(v) => v.path.Some? ==> Stale(c, w, v.path.value) && OnlyVersion(w.t, v.path.value, v.guid)
    case Deleting(paths) => AllDoomed(c, w, paths)
    case GcStarted(start) => start <= w.now
    case GcVersionsRead(start, referenced) => Accounted(c, w, start, referenced, true, false)
    case GcReferencesRead(start, referenced) => Accounted(c, w, start, referenced, true, true)
    case GcListing(start, referenced, youngerThan) =>
      Accounted(c, w, start, referenced, true, true) && youngerThan + c.maxDelay < start
    case GcChosen(start, referenced, youngerThan, path) =>
      Accounted(c, w, start, referenced, true, true) && youngerThan + c.maxDelay < start && Doomed(c, w, path)
  }

  ghost predicate Owners(c: Config, w: World)
  {
    forall pid :: pid in w.procs && (w.procs[pid].Writing? || w.procs[pid].PartWritten?) ==> OwnerOk(c, w, pid)
  }

  ghost predicate Inv(c: Config, w: World)
  {
    && Disk(w)
    && Owners(c, w)
    && (forall pid :: pid in w.procs ==> PcOk(c, w, w.procs[pid]))
  }

  // ---- What no step can undo ----

  /** New rows claim only blobs whose writer commits in time; owners keep their blob and touch it
      only in time; files change only when written. */
  ghost predicate Evolves(c: Config, w: World, w': World)
  {
    && w.now <= w'.now && w.nextPath <= w'.nextPath
    && (forall v :: v in w'.t.versions ==> v in w.t.versions || v.path.None? || LiveOwned(c, w, v.path.value))
    && (forall p :: p in w'.t.parts ==> p in w.t.parts || LiveOwned(c, w, p.path))
    && (forall pid, path: Path :: pid in w'.procs && Owns(w'.procs[pid], path) ==>
          || path >= w.nextPath
          || (pid in w.procs && Owns(w.procs[pid], path)
              && (w'.procs[pid].touched == w.procs[pid].touched || Timely(c, w, w.procs[pid].touched))))
    && (forall path: Path :: path in w'.blobs ==> path >= w.nextPath || (path in w.blobs && w'.blobs[path] >= w.blobs[path]))
  }

  lemma StaleStays(c: Config, w: World, w': World, path: Path)
    requires Evolves(c, w, w') && Stale(c, w, path)
    ensures Stale(c, w', path)
    ensures forall v :: v in w'.t.versions && v.path == Some(path) ==> v in w.t.versions
    ensures forall p :: p in w'.t.parts && p.path == path ==> p in w.t.parts
  {
    forall pid | pid in w'.procs
      ensures !(Owns(w'.procs[pid], path) && Timely(c, w', w'.procs[pid].touched))
    {}
  }

  lemma DoomedStays(c: Config, w: World, w': World, path: Path)
    requires Evolves(c, w, w') && Doomed(c, w, path)
    ensures Doomed(c, w', path)
  {
    hide Evolves;
    StaleStays(c, w, w', path);
    NoVersionStays(w, w', path);
    NoPartStays(w, w', path);
  }

  lemma UploadStays(c: Config, w: World, w': World, paths: seq<Path>, upload: UploadId)
    requires Evolves(c, w, w') && AllUpload(c, w, paths, upload)
    ensures AllUpload(c, w', paths, upload)
  {
    hide Evolves, Stale;
    forall path | path in paths
      ensures Stale(c, w', path) && OnlyUpload(w'.t, path, upload)
    {
      StaleStays(c, w, w', path);
      NoVersionStays(w, w', path);
    }
  }

  lemma RecentStays(c: Config, w: World, w': World, path: Path, start: int)
    requires Evolves(c, w, w') && Disk(w') && Claimed(w'.t, path)
    requires path < w.nextPath && Recent(c, w, path, start)
    ensures Recent(c, w', path, start)
  {}

  lemma CommittedRecent(c: Config, w: World, path: Path, start: int)
    requires Owners(c, w) && LiveOwned(c, w, path) && start <= w.now
    ensures Recent(c, w, path, start) && path < w.nextPath
  {
    var pid :| pid in w.procs && Owns(w.procs[pid], path) && Timely(c, w, w.procs[pid].touched);
    assert OwnerOk(c, w, pid);
  }

  lemma AccountedStays(c: Config, w: World, w': World, start: int, referenced: set<Path>, versions: bool, parts: bool)
    requires Evolves(c, w, w') && Disk(w) && Disk(w') && Owners(c, w)
    requires Accounted(c, w, start, referenced, versions, parts)
    ensures Accounted(c, w', start, referenced, versions, parts)
  {
    hide Disk, Owners, Recent, LiveOwned;
    assert start <= w'.now;
    if versions {
      forall path: Path | VersionClaims(w'.t, path) && path !in referenced
        ensures Recent(c, w', path, start)
      {
        var v :| v in w'.t.versions && v.path == Some(path);
        AccountedPath(c, w, w', path, start, v in w.t.versions);
      }
    }
    if parts {
      forall path: Path | PartClaims(w'.t, path) && path !in referenced
        ensures Recent(c, w', path, start)
      {
        var p :| p in w'.t.parts && p.path == path;
        AccountedPath(c, w, w', path, start, p in w.t.parts);
      }
    }
  }

  lemma AccountedPath(c: Config, w: World, w': World, path: Path, start: int, before: bool)
    requires Evolves(c, w, w') && Disk(w) && Disk(w') && Owners(c, w) && start <= w.now
    requires Claimed(w'.t, path)
    requires if before then Recent(c, w, path, start) else LiveOwned(c, w, path)
    ensures Recent(c, w', path, start)
  {
    hide Evolves, Owners, LiveOwned;
    if !before {
      CommittedRecent(c, w, path, start);
    }
    RecentStays(c, w, w', path, start);
  }

  /** Whatever the others do, a request's knowledge stays true. */
  lemma PcStays(c: Config, w: World, w': World, pc: Pc)
    requires Evolves(c, w, w') && Disk(w) && Disk(w') && Owners(c, w)
    requires PcOk(c, w, pc)
    ensures PcOk(c, w', pc)
  {
    hide Evolves, Disk, Owners, Stale, Claimed, Accounted, AllUpload;
    match pc {
      case Writing(_, _, job) =>
        if job.CompleteJob? {
          UploadStays(c, w, w', job.stored, job.upload);
        }
      case PartWritten(_, _, upload, number, previous) =>
        if previous.Some? {
          StaleStays(c, w, w', previous.value);
          NoVersionStays(w, w', previous.value);
        }
      case UploadRequired(_) =>
      case StoredRead(upload, stored) => UploadStays(c, w, w', stored, upload);
      case VersionCommitted(upload, stored, replaced) =>
        UploadStays(c, w, w', stored, upload);
        AllDoomedStays(c, w, w', replaced);
      case UploadCompleted(upload, stored, replaced) =>
        UploadStays(c, w, w', stored, upload);
        AllDoomedStays(c, w, w', replaced);
      case AbortRead(upload, stored) => UploadStays(c, w, w', stored, upload);
      case AbortDropped(_, stored) => AllDoomedStays(c, w, w', stored);
      case VersionRead(v) =>
        if v.path.Some? {
          StaleStays(c, w, w', v.path.value);
          NoPartStays(w, w', v.path.value);
        }
      case Deleting(paths) => AllDoomedStays(c, w, w', paths);
      case GcStarted(_) => TimePasses(c, w, w');
      case GcVersionsRead(start, referenced) => AccountedStays(c, w, w', start, referenced, true, false);
      case GcReferencesRead(start, referenced) => AccountedStays(c, w, w', start, referenced, true, true);
      case GcListing(start, referenced, _) => AccountedStays(c, w, w', start, referenced, true, true);
      case GcChosen(start, referenced, _, path) =>
        AccountedStays(c, w, w', start, referenced, true, true);
        DoomedStays(c, w, w', path);
    }
  }

  lemma TimePasses(c: Config, w: World, w': World)
    requires Evolves(c, w, w')
    ensures w.now <= w'.now
  {}

  lemma AllDoomedStays(c: Config, w: World, w': World, paths: seq<Path>)
    requires Evolves(c, w, w') && AllDoomed(c, w, paths)
    ensures AllDoomed(c, w', paths)
  {
    hide Evolves, Doomed;
    forall path | path in paths
      ensures Doomed(c, w', path)
    {
      DoomedStays(c, w, w', path);
    }
  }

  lemma NoVersionStays(w: World, w': World, path: Path)
    requires forall v :: v in w'.t.versions && v.path == Some(path) ==> v in w.t.versions
    ensures !VersionClaims(w.t, path) ==> !VersionClaims(w'.t, path)
  {}

  lemma NoPartStays(w: World, w': World, path: Path)
    requires forall p :: p in w'.t.parts && p.path == path ==> p in w.t.parts
    ensures !PartClaims(w.t, path) ==> !PartClaims(w'.t, path)
  {}

  // ---- The effects steps have on the world ----

  ghost predicate Keeps(c: Config, w: World, w': World) { Evolves(c, w, w') && Disk(w') && Owners(c, w') }

  predicate IsOwner(pc: Pc) { pc.Writing? || pc.PartWritten? }

  /** A transaction adds no claim but the request's own blob, which it commits in time. */
  lemma CommitEffect(c: Config, w: World, t: Tables, pid: Pid, pc: Pc, own: Option<Path>)
    requires Inv(c, w) && UniquePaths(t) && !IsOwner(pc)
    requires own.Some? ==> pid in w.procs && Owns(w.procs[pid], own.value) && Timely(c, w, w.procs[pid].touched)
    requires forall v :: v in t.versions ==> v in w.t.versions || v.path.None? || v.path == own
    requires forall p :: p in t.parts ==> p in w.t.parts || Some(p.path) == own
    ensures Keeps(c, w, Committed(w, t, pid, pc))
  {
    var w' := Committed(w, t, pid, pc);
    forall path: Path | Claimed(t, path)
      ensures Claimed(w.t, path) || Some(path) == own
      ensures path in w.blobs
    {
      if own.Some? {
        assert OwnerOk(c, w, pid);
      }
    }
    forall other | other in w'.procs && IsOwner(w'.procs[other])
      ensures OwnerOk(c, w', other)
    {
      assert OwnerOk(c, w, other);
    }
  }

  lemma MoveEffect(c: Config, w: World, pid: Pid, pc: Pc)
    requires Inv(c, w)
    requires IsOwner(pc) ==> pid in w.procs && Owns(w.procs[pid], pc.path) && w.procs[pid].touched == pc.touched
    ensures Keeps(c, w, Moved(w, pid, pc))
  {
    var w' := Moved(w, pid, pc);
    forall other | other in w'.procs && IsOwner(w'.procs[other])
      ensures OwnerOk(c, w', other)
    {
      assert OwnerOk(c, w, other);
    }
  }

  lemma OpenEffect(c: Config, w: World, pid: Pid, job: Job)
    requires Inv(c, w)
    requires pid in w.procs ==> !IsOwner(w.procs[pid])
    ensures Keeps(c, w, Opened(w, pid, job))
  {
    var w' := Opened(w, pid, job);
    forall other | other in w'.procs && IsOwner(w'.procs[other])
      ensures OwnerOk(c, w', other)
    {
      if other != pid {
        assert OwnerOk(c, w, other);
      }
    }
  }

  lemma AppendEffect(c: Config, w: World, pid: Pid)
    requires Inv(c, w) && pid in w.procs && w.procs[pid].Writing? && Timely(c, w, w.procs[pid].touched)
    ensures Keeps(c, w, Appended(w, pid, w.procs[pid].path, w.procs[pid].job))
  {
    var w' := Appended(w, pid, w.procs[pid].path, w.procs[pid].job);
    assert OwnerOk(c, w, pid);
    forall other | other in w'.procs && IsOwner(w'.procs[other])
      ensures OwnerOk(c, w', other)
    {
      assert OwnerOk(c, w, other);
    }
  }

  /** Deleting a doomed blob takes no row's file and none a writer can still commit. */
  lemma UnlinkEffect(c: Config, w: World, path: Path, pid: Pid, pc: Pc)
    requires Inv(c, w) && Doomed(c, w, path) && !IsOwner(pc)
    ensures Keeps(c, w, Unlinked(w, path, pid, pc))
  {
    var w' := Unlinked(w, path, pid, pc);
    forall other | other in w'.procs && IsOwner(w'.procs[other])
      ensures OwnerOk(c, w', other)
    {
      assert OwnerOk(c, w, other);
      if w.procs[other].path == path {
        assert Owns(w.procs[other], path);
      }
    }
  }

  lemma TickEffect(c: Config, w: World, time: nat)
    requires Inv(c, w)
    ensures Keeps(c, w, w.(now := w.now + time))
  {
    var w' := w.(now := w.now + time);
    forall other | other in w'.procs && IsOwner(w'.procs[other])
      ensures OwnerOk(c, w', other)
    {
      assert OwnerOk(c, w, other);
    }
  }

  lemma CrashEffect(c: Config, w: World, pid: Pid)
    requires Inv(c, w)
    ensures Keeps(c, w, w.(procs := w.procs - {pid}))
  {
    var w' := w.(procs := w.procs - {pid});
    forall other | other in w'.procs && IsOwner(w'.procs[other])
      ensures OwnerOk(c, w', other)
    {
      assert OwnerOk(c, w, other);
    }
  }

  // ---- What a request knows after its own step ----

  lemma OwnerFacts(c: Config, w: World, pid: Pid)
    requires Inv(c, w) && pid in w.procs && IsOwner(w.procs[pid])
    ensures OwnerOk(c, w, pid)
  {}

  /** A claimed blob is nobody's fresh one. */
  lemma ClaimedStale(c: Config, w: World, path: Path)
    requires Inv(c, w) && Claimed(w.t, path)
    ensures Stale(c, w, path)
  {
    if pid :| pid in w.procs && Owns(w.procs[pid], path) && Timely(c, w, w.procs[pid].touched) {
      OwnerFacts(c, w, pid);
    }
  }

  /** What a transaction released is doomed afterwards. */
  lemma ReleasedDoomed(c: Config, w: World, w': World, path: Path)
    requires Inv(c, w) && Evolves(c, w, w')
    requires Stale(c, w, path) || Claimed(w.t, path)
    requires !Claimed(w'.t, path)
    ensures Doomed(c, w', path)
  {
    hide Inv, Evolves;
    if Claimed(w.t, path) {
      ClaimedStale(c, w, path);
    }
    StaleStays(c, w, w', path);
  }

  lemma StoredUpload(c: Config, w: World, upload: UploadId)
    requires Inv(c, w)
    ensures AllUpload(c, w, StoredPaths(w.t, upload), upload)
  {
    forall path | path in StoredPaths(w.t, upload)
      ensures Stale(c, w, path) && OnlyUpload(w.t, path, upload)
    {
      PartPathsIn(Filter(w.t.parts, InUpload(upload)), path);
      var p :| p in w.t.parts && p.upload == upload && p.path == path;
      assert PartClaims(w.t, path);
      ClaimedStale(c, w, path);
    }
  }

  lemma CommitKnows(c: Config, w: World, slot: Slot, v: NewVersion, pid: Pid, pc: Pc)
    requires Inv(c, w) && !IsOwner(pc)
    requires v.path.Some? ==> pid in w.procs && Owns(w.procs[pid], v.path.value) && Timely(c, w, w.procs[pid].touched)
    ensures Keeps(c, w, Committed(w, CommitVersion(w.t, slot, v), pid, pc))
    ensures AllDoomed(c, Committed(w, CommitVersion(w.t, slot, v), pid, pc), Replaced(w.t, slot, v))
  {
    hide CommitVersion, Replaced, Keeps, Doomed, Evolves, Filter;
    if v.path.Some? {
      assert OwnerOk(c, w, pid);
    }
    CommitUnique(w.t, slot, v);
    var t := CommitVersion(w.t, slot, v);
    forall u | u in t.versions
      ensures u in w.t.versions || u.path.None? || u.path == v.path
    {
      CommitRows(w.t, slot, v, u);
    }
    CommitParts(w.t, slot, v);
    CommitEffect(c, w, t, pid, pc, v.path);
    var w' := Committed(w, t, pid, pc);
    forall path | path in Replaced(w.t, slot, v)
      ensures Doomed(c, w', path)
    {
      CommitClaims(w.t, slot, v, path);
      KeepsEvolves(c, w, w');
      ReleasedDoomed(c, w, w', path);
    }
  }

  lemma KeepsEvolves(c: Config, w: World, w': World)
    requires Keeps(c, w, w')
    ensures Evolves(c, w, w')
  {}

  lemma DropPartsKnows(c: Config, w: World, upload: UploadId, stored: seq<Path>, pid: Pid, pc: Pc)
    requires Inv(c, w) && AllUpload(c, w, stored, upload) && !IsOwner(pc)
    ensures Keeps(c, w, Committed(w, DeleteParts(w.t, upload), pid, pc))
    ensures AllDoomed(c, Committed(w, DeleteParts(w.t, upload), pid, pc), stored)
  {
    hide Keeps, Doomed, Evolves;
    var t := DeleteParts(w.t, upload);
    DeletePartsClaims(w.t, upload);
    CommitEffect(c, w, t, pid, pc, None);
    var w' := Committed(w, t, pid, pc);
    KeepsEvolves(c, w, w');
    forall path | path in stored
      ensures Doomed(c, w', path)
    {
      ReleasedDoomed(c, w, w', path);
    }
  }

  lemma PurgeKnows(c: Config, w: World, id: ObjectId, pid: Pid, pc: Pc)
    requires Inv(c, w) && !IsOwner(pc)
    ensures Keeps(c, w, Committed(w, PurgeObject(w.t, id), pid, pc))
    ensures AllDoomed(c, Committed(w, PurgeObject(w.t, id), pid, pc), Purged(w.t, id))
  {
    hide Keeps, Doomed, Evolves, Purged;
    var t := PurgeObject(w.t, id);
    PurgeClaims(w.t, id);
    CommitEffect(c, w, t, pid, pc, None);
    var w' := Committed(w, t, pid, pc);
    KeepsEvolves(c, w, w');
    forall path | path in Purged(w.t, id)
      ensures Doomed(c, w', path)
    {
      ReleasedDoomed(c, w, w', path);
    }
  }

  lemma DropReadKnows(c: Config, w: World, v: VersionRow, pid: Pid, pc: Pc)
    requires Inv(c, w) && !IsOwner(pc)
    requires v.path.Some? ==> Stale(c, w, v.path.value) && OnlyVersion(w.t, v.path.value, v.guid)
    ensures Keeps(c, w, Committed(w, DropVersion(w.t, v.objectGuid, v.guid), pid, pc))
    ensures v.path.Some? ==> Doomed(c, Committed(w, DropVersion(w.t, v.objectGuid, v.guid), pid, pc), v.path.value)
  {
    hide Keeps, Doomed, Evolves;
    var t := DropVersion(w.t, v.objectGuid, v.guid);
    DropClaims(w.t, v.objectGuid, v.guid);
    CommitEffect(c, w, t, pid, pc, None);
    var w' := Committed(w, t, pid, pc);
    KeepsEvolves(c, w, w');
    if v.path.Some? {
      ReleasedDoomed(c, w, w', v.path.value);
    }
  }

  lemma CommitPartKnows(c: Config, w: World, pid: Pid, part: PartRow, pc: Pc)
    requires Inv(c, w) && !IsOwner(pc)
    requires Enabled(c, w, CommitPart(pid, part))
    ensures Keeps(c, w, Committed(w, UpsertPart(w.t, part), pid, pc))
    ensures w.procs[pid].previous.Some? ==> Doomed(c, Committed(w, UpsertPart(w.t, part), pid, pc), w.procs[pid].previous.value)
  {
    hide Keeps, Doomed, Evolves;
    assert OwnerOk(c, w, pid) && PcOk(c, w, w.procs[pid]);
    var t := UpsertPart(w.t, part);
    UpsertPartClaims(w.t, part);
    CommitEffect(c, w, t, pid, pc, Some(part.path));
    var w' := Committed(w, t, pid, pc);
    KeepsEvolves(c, w, w');
    if w.procs[pid].previous.Some? {
      var previous := w.procs[pid].previous.value;
      assert previous != part.path by {
        assert Owns(w.procs[pid], part.path);
      }
      ReleasedDoomed(c, w, w', previous);
    }
  }

  lemma DiscardKnows(c: Config, w: World, pid: Pid)
    requires Inv(c, w) && pid in w.procs && w.procs[pid].Writing?
    ensures AllDoomed(c, Moved(w, pid, Deleting([w.procs[pid].path])), [w.procs[pid].path])
  {
    assert OwnerOk(c, w, pid);
    var path, w' := w.procs[pid].path, Moved(w, pid, Deleting([w.procs[pid].path]));
    forall other | other in w'.procs
      ensures !Owns(w'.procs[other], path)
    {}
  }

  lemma PreviousKnows(c: Config, w: World, upload: UploadId, number: nat)
    requires Inv(c, w) && PreviousPath(w.t, upload, number).Some?
    ensures Stale(c, w, PreviousPath(w.t, upload, number).value)
    ensures OnlyPart(w.t, PreviousPath(w.t, upload, number).value, upload, number)
  {
    var p := Filter(w.t.parts, IsPart(upload, number))[0];
    assert p in w.t.parts && PartClaims(w.t, p.path);
    ClaimedStale(c, w, p.path);
  }

  lemma VersionKnows(c: Config, w: World, v: VersionRow)
    requires Inv(c, w) && v in w.t.versions && v.path.Some?
    ensures Stale(c, w, v.path.value) && OnlyVersion(w.t, v.path.value, v.guid)
  {
    assert VersionClaims(w.t, v.path.value);
    ClaimedStale(c, w, v.path.value);
  }

  /** What the sweep chooses to delete is doomed: a blob no row claimed when the references were
      read, and too old to have been committed since or to be committed later. */
  lemma OrphanDoomed(c: Config, w: World, path: Path, start: int, referenced: set<Path>, youngerThan: int)
    requires Inv(c, w)
    requires Accounted(c, w, start, referenced, true, true) && youngerThan + c.maxDelay < start
    requires path in w.blobs && path !in referenced && w.blobs[path] <= youngerThan
    ensures Doomed(c, w, path)
  {
    assert !Recent(c, w, path, start);
    if pid :| pid in w.procs && Owns(w.procs[pid], path) && Timely(c, w, w.procs[pid].touched) {
      OwnerFacts(c, w, pid);
    }
  }

  // ---- Every step keeps the invariant ----

  /** A step's effect on the world, and what its request knows afterwards. */
  ghost predicate StepOk(c: Config, w: World, step: Step)
    requires Enabled(c, w, step)
  {
    var w' := Apply(c, w, step);
    && Keeps(c, w, w')
    && (step.Crash? ==> step.pid !in w'.procs)
    && (!step.Tick? && !step.Crash? ==> step.pid in w'.procs && PcOk(c, w', w'.procs[step.pid]))
    && (forall pid :: pid in w'.procs && (step.Tick? || pid != step.pid) ==> pid in w.procs && w'.procs[pid] == w.procs[pid])
  }

  lemma WriteStepKeeps(c: Config, w: World, step: Step)
    requires Configured(c) && Inv(c, w) && Enabled(c, w, step)
    requires step.Tick? || step.Crash? || step.StartPut? || step.OpenUpload? || step.RequireUpload? || step.StartPart? || step.Append? || step.Discard? || step.CommitPut?
    ensures StepOk(c, w, step)
  {
    hide Keeps, Evolves, Disk, Owners, OwnerOk, Inv, Stale, Doomed, LiveOwned, Accounted, AllDoomed, AllUpload;
    var w' := Apply(c, w, step);
    match step {
      case Tick(time) => TickEffect(c, w, time);
      case Crash(pid) => CrashEffect(c, w, pid);
      case StartPut(pid, slot) => OpenEffect(c, w, pid, PutJob(slot));
      case OpenUpload(pid, slot) =>
        OpenUploadEffect(c, w, slot, pid, w'.procs[pid]);
        DoomedPaths(c, w', None);
      case RequireUpload(pid, upload) => MoveEffect(c, w, pid, w'.procs[pid]);
      case StartPart(pid, number) => OpenEffect(c, w, pid, PartJob(w.procs[pid].upload, number));
      case Append(pid) =>
        AppendEffect(c, w, pid);
        OwnPcStays(c, w, w', pid);
      case Discard(pid) =>
        MoveEffect(c, w, pid, w'.procs[pid]);
        DiscardKnows(c, w, pid);
      case CommitPut(pid, v) => CommitKnows(c, w, w.procs[pid].job.slot, v, pid, w'.procs[pid]);
    }
  }

  lemma PartStepKeeps(c: Config, w: World, step: Step)
    requires Configured(c) && Inv(c, w) && Enabled(c, w, step)
    requires step.ReadPrevious? || step.CommitPart? || step.ReadStored? || step.StartConcat? || step.CommitComplete?
    ensures StepOk(c, w, step)
  {
    hide Keeps, Evolves, Disk, Owners, OwnerOk, Inv, Stale, Doomed, LiveOwned, Accounted, AllDoomed, AllUpload;
    var w' := Apply(c, w, step);
    match step {
      case ReadPrevious(pid) =>
        var pc := w'.procs[pid];
        MoveEffect(c, w, pid, pc);
        if pc.previous.Some? {
          PreviousKnows(c, w, pc.upload, pc.number);
        }
        KnownStays(c, w, w', pc);
      case CommitPart(pid, part) =>
        CommitPartKnows(c, w, pid, part, w'.procs[pid]);
        DoomedPaths(c, w', w.procs[pid].previous);
      case ReadStored(pid) =>
        MoveEffect(c, w, pid, w'.procs[pid]);
        StoredUpload(c, w, w.procs[pid].upload);
        KnownStays(c, w, w', w'.procs[pid]);
      case StartConcat(pid) =>
        OpenEffect(c, w, pid, CompleteJob(w.procs[pid].upload, w.procs[pid].stored));
        OwnPcStays(c, w, w', pid);
      case CommitComplete(pid, v) =>
        CommitKnows(c, w, (w.procs[pid].job.upload.bucket, w.procs[pid].job.upload.key), v, pid, w'.procs[pid]);
        OwnPcStays(c, w, w', pid);
    }
  }

  lemma FinishStepKeeps(c: Config, w: World, step: Step)
    requires Configured(c) && Inv(c, w) && Enabled(c, w, step)
    requires step.MarkCompleted? || step.DropCompletedParts? || step.ReadAbort? || step.DropAbortedParts? || step.MarkAborted?
    ensures StepOk(c, w, step)
  {
    hide Keeps, Evolves, Disk, Owners, OwnerOk, Inv, Stale, Doomed, LiveOwned, Accounted, AllDoomed, AllUpload;
    var w' := Apply(c, w, step);
    match step {
      case MarkCompleted(pid) =>
        StatusEffect(c, w, w.procs[pid].upload, Completed, pid, w'.procs[pid]);
        OwnPcStays(c, w, w', pid);
      case DropCompletedParts(pid) =>
        InvPc(c, w, pid);
        DropPartsKnows(c, w, w.procs[pid].upload, w.procs[pid].stored, pid, w'.procs[pid]);
        OwnPcStays(c, w, w', pid);
        DoomedConcat(c, w', w.procs[pid].stored, w.procs[pid].replaced);
      case ReadAbort(pid) =>
        MoveEffect(c, w, pid, w'.procs[pid]);
        StoredUpload(c, w, w.procs[pid].upload);
        KnownStays(c, w, w', w'.procs[pid]);
      case DropAbortedParts(pid) =>
        InvPc(c, w, pid);
        DropPartsKnows(c, w, w.procs[pid].upload, w.procs[pid].stored, pid, w'.procs[pid]);
      case MarkAborted(pid) =>
        StatusEffect(c, w, w.procs[pid].upload, Aborted, pid, w'.procs[pid]);
        OwnPcStays(c, w, w', pid);
    }
  }

  lemma DeleteStepKeeps(c: Config, w: World, step: Step)
    requires Configured(c) && Inv(c, w) && Enabled(c, w, step)
    requires step.CommitMarker? || step.Purge? || step.ReadVersion?
    ensures StepOk(c, w, step)
  {
    hide Keeps, Evolves, Disk, Owners, OwnerOk, Inv, Stale, Doomed, LiveOwned, Accounted, AllDoomed, AllUpload;
    var w' := Apply(c, w, step);
    match step {
      case CommitMarker(pid, slot, versionId) => CommitKnows(c, w, slot, Marker(versionId), pid, w'.procs[pid]);
      case Purge(pid, id) => PurgeKnows(c, w, id, pid, w'.procs[pid]);
      case ReadVersion(pid, v) =>
        MoveEffect(c, w, pid, w'.procs[pid]);
        if v.path.Some? {
          VersionKnows(c, w, v);
        }
        KnownStays(c, w, w', w'.procs[pid]);
    }
  }

  lemma DropStepKeeps(c: Config, w: World, step: Step)
    requires Configured(c) && Inv(c, w) && Enabled(c, w, step)
    requires step.DropRead? || step.DeleteBlob?
    ensures StepOk(c, w, step)
  {
    hide Keeps, Evolves, Disk, Owners, OwnerOk, Inv, Stale, Doomed, LiveOwned, Accounted, AllDoomed, AllUpload;
    var w' := Apply(c, w, step);
    match step {
      case DropRead(pid) =>
        InvPc(c, w, pid);
        DropReadKnows(c, w, w.procs[pid].version, pid, w'.procs[pid]);
        DoomedPaths(c, w', w.procs[pid].version.path);
      case DeleteBlob(pid) =>
        InvPc(c, w, pid);
        DoomedHead(c, w, w.procs[pid].paths);
        UnlinkEffect(c, w, w.procs[pid].paths[0], pid, w'.procs[pid]);
        KnownStays(c, w, w', w'.procs[pid]);
    }
  }

  lemma SweepStepKeeps(c: Config, w: World, step: Step)
    requires Configured(c) && Inv(c, w) && Enabled(c, w, step)
    requires step.BeginSweep? || step.ReadVersionPaths? || step.ReadPartPaths?
    ensures StepOk(c, w, step)
  {
    hide Keeps, Evolves, Disk, Owners, OwnerOk, Inv, Stale, Doomed, LiveOwned, Accounted, AllDoomed, AllUpload;
    var w' := Apply(c, w, step);
    match step {
      case BeginSweep(pid) => MoveEffect(c, w, pid, w'.procs[pid]);
      case ReadVersionPaths(pid) =>
        MoveEffect(c, w, pid, w'.procs[pid]);
        InvPc(c, w, pid);
        ReadAccounted(c, w, w.procs[pid].start);
        KnownStays(c, w, w', w'.procs[pid]);
      case ReadPartPaths(pid) =>
        MoveEffect(c, w, pid, w'.procs[pid]);
        InvPc(c, w, pid);
        ReadAllAccounted(c, w, w.procs[pid].start, w.procs[pid].referenced);
        KnownStays(c, w, w', w'.procs[pid]);
    }
  }

  lemma OrphanStepKeeps(c: Config, w: World, step: Step)
    requires Configured(c) && Inv(c, w) && Enabled(c, w, step)
    requires step.ComputeCutoff? || step.ChooseOrphan? || step.DeleteOrphan?
    ensures StepOk(c, w, step)
  {
    hide Keeps, Evolves, Disk, Owners, OwnerOk, Inv, Stale, Doomed, LiveOwned, Accounted, AllDoomed, AllUpload;
    var w' := Apply(c, w, step);
    match step {
      case ComputeCutoff(pid) =>
        MoveEffect(c, w, pid, w'.procs[pid]);
        InvPc(c, w, pid);
        KnownStays(c, w, w', w'.procs[pid]);
      case ChooseOrphan(pid, path) =>
        var pc := w'.procs[pid];
        MoveEffect(c, w, pid, pc);
        InvPc(c, w, pid);
        OrphanDoomed(c, w, path, pc.start, pc.referenced, pc.youngerThan);
        KnownStays(c, w, w', pc);
      case DeleteOrphan(pid) =>
        InvPc(c, w, pid);
        UnlinkEffect(c, w, w.procs[pid].path, pid, w'.procs[pid]);
        OwnPcStays(c, w, w', pid);
    }
  }

  lemma StepKeeps(c: Config, w: World, step: Step)
    requires Configured(c) && Inv(c, w) && Enabled(c, w, step)
    ensures StepOk(c, w, step)
  {
    hide *;
    match step {
      case Tick(_) | Crash(_) | StartPut(_, _) | OpenUpload(_, _) | RequireUpload(_, _) | StartPart(_, _) | Append(_) | Discard(_) | CommitPut(_, _) =>
        WriteStepKeeps(c, w, step);
      case ReadPrevious(_) | CommitPart(_, _) | ReadStored(_) | StartConcat(_) | CommitComplete(_, _) => PartStepKeeps(c, w, step);
      case MarkCompleted(_) | DropCompletedParts(_) | ReadAbort(_) | DropAbortedParts(_) | MarkAborted(_) => FinishStepKeeps(c, w, step);
      case CommitMarker(_, _, _) | Purge(_, _) | ReadVersion(_, _) => DeleteStepKeeps(c, w, step);
      case DropRead(_) | DeleteBlob(_) => DropStepKeeps(c, w, step);
      case BeginSweep(_) | ReadVersionPaths(_) | ReadPartPaths(_) => SweepStepKeeps(c, w, step);
      case _ => OrphanStepKeeps(c, w, step);
    }
  }

  lemma InvPc(c: Config, w: World, pid: Pid)
    requires Inv(c, w) && pid in w.procs
    ensures PcOk(c, w, w.procs[pid])
  {}

  lemma KnownStays(c: Config, w: World, w': World, pc: Pc)
    requires Inv(c, w) && Keeps(c, w, w') && PcOk(c, w, pc)
    ensures PcOk(c, w', pc)
  {
    PcStays(c, w, w', pc);
  }

  lemma OwnPcStays(c: Config, w: World, w': World, pid: Pid)
    requires Inv(c, w) && Keeps(c, w, w') && pid in w.procs
    ensures PcOk(c, w', w.procs[pid])
  {
    PcStays(c, w, w', w.procs[pid]);
  }

  lemma DoomedPaths(c: Config, w: World, path: Option<Path>)
    requires path.Some? ==> Doomed(c, w, path.value)
    ensures AllDoomed(c, w, if path.Some? then [path.value] else [])
  {}

  lemma DoomedConcat(c: Config, w: World, a: seq<Path>, b: seq<Path>)
    requires AllDoomed(c, w, a) && AllDoomed(c, w, b)
    ensures AllDoomed(c, w, a + b)
  {}

  lemma DoomedHead(c: Config, w: World, paths: seq<Path>)
    requires AllDoomed(c, w, paths) && paths != []
    ensures Doomed(c, w, paths[0]) && AllDoomed(c, w, paths[1..])
  {}

  lemma StatusEffect(c: Config, w: World, upload: UploadId, status: UploadStatus, pid: Pid, pc: Pc)
    requires Inv(c, w) && !IsOwner(pc)
    ensures Keeps(c, w, Committed(w, SetStatus(w.t, upload, status), pid, pc))
  {
    CommitEffect(c, w, SetStatus(w.t, upload, status), pid, pc, None);
  }

  lemma OpenUploadEffect(c: Config, w: World, slot: Slot, pid: Pid, pc: Pc)
    requires Inv(c, w) && !IsOwner(pc)
    ensures Keeps(c, w, Committed(w, CreateUpload(w.t, slot), pid, pc))
  {
    CommitEffect(c, w, CreateUpload(w.t, slot), pid, pc, None);
  }

  lemma ReadAccounted(c: Config, w: World, start: int)
    requires start <= w.now
    ensures Accounted(c, w, start, VersionPathSet(w.t), true, false)
  {}

  lemma ReadAllAccounted(c: Config, w: World, start: int, referenced: set<Path>)
    requires Accounted(c, w, start, referenced, true, false)
    ensures Accounted(c, w, start, referenced + PartPathSet(w.t), true, true)
  {}

  lemma StepInv(c: Config, w: World, step: Step)
    requires Configured(c) && Inv(c, w) && Enabled(c, w, step)
    ensures Inv(c, Apply(c, w, step))
  {
    hide Apply, Enabled, Evolves, PcOk, Disk, Owners;
    StepKeeps(c, w, step);
    var w' := Apply(c, w, step);
    forall pid | pid in w'.procs
      ensures PcOk(c, w', w'.procs[pid])
    {
      if step.Tick? || pid != step.pid {
        OwnPcStays(c, w, w', pid);
      }
    }
  }

  // ---- Runs ----

  /** A run: each step is enabled where it is taken. */
  ghost predicate IsRun(c: Config, w: World, steps: seq<Step>)
    decreases |steps|
  {
    steps == [] || (Enabled(c, w, steps[0]) && IsRun(c, Apply(c, w, steps[0]), steps[1..]))
  }

  function Final(c: Config, w: World, steps: seq<Step>): World
    requires IsRun(c, w, steps)
    decreases |steps|
  {
    if steps == [] then w else Final(c, Apply(c, w, steps[0]), steps[1..])
  }

  /** A system at rest: consistent tables over existing files, and no request in flight. */
  ghost predicate AtRest(w: World) { Disk(w) && w.procs == map[] }

  /** In every interleaving, with crashes anywhere, every committed row's blob exists - and every
      blob some request is about to delete is claimed by no row and never will be again. */
  lemma {:induction false} BlobsSafe(c: Config, w: World, steps: seq<Step>)
    requires Configured(c) && Inv(c, w) && IsRun(c, w, steps)
    ensures Inv(c, Final(c, w, steps))
    decreases |steps|
  {
    hide Inv, Enabled, Apply;
    if steps != [] {
      StepInv(c, w, steps[0]);
      BlobsSafe(c, Apply(c, w, steps[0]), steps[1..]);
    }
  }

  lemma RunsAreSafe(c: Config, w: World, steps: seq<Step>)
    requires Configured(c) && AtRest(w) && IsRun(c, w, steps)
    ensures Safe(Final(c, w, steps))
    ensures forall pid :: pid in Final(c, w, steps).procs && Final(c, w, steps).procs[pid].Deleting? ==>
              AllDoomed(c, Final(c, w, steps), Final(c, w, steps).procs[pid].paths)
  {
    BlobsSafe(c, w, steps);
    var end := Final(c, w, steps);
    forall pid | pid in end.procs && end.procs[pid].Deleting?
      ensures AllDoomed(c, end, end.procs[pid].paths)
    {
      InvPc(c, end, pid);
    }
  }

  // ---- The margin is exact ----

  lemma RunStep(c: Config, w: World, step: Step, w': World, rest: seq<Step>)
    requires Enabled(c, w, step) && Apply(c, w, step) == w' && IsRun(c, w', rest)
    ensures IsRun(c, w, [step] + rest) && Final(c, w, [step] + rest) == Final(c, w', rest)
  {
    assert ([step] + rest)[1..] == rest;
  }

  const EMPTY: Tables := Tables([], map[], map[], [], map[], [], 0)

  const VERSION: NewVersion := NewVersion(Null, false, 0, "", Some(0), None)

  const SLOT: Slot := ("bucket", "key")

  const COMMITTED: Tables := CommitVersion(EMPTY, SLOT, VERSION)

  /** One blob at path 0 written at time 0, one put and one sweep. */
  function Scene(t: Tables, now: int, put: Pc, sweep: Pc): World { World(t, map[0 := 0], now, 1, map[0 := put, 1 := sweep]) }

  const PUT: Pc := Writing(0, 0, PutJob(SLOT))

  /** The end of the lossy run: the blob is committed, and old enough for the sweep's cutoff. */
  lemma LateChoice(c: Config, now: nat, wait: nat, youngerThan: nat) returns (steps: seq<Step>)
    ensures IsRun(c, Scene(COMMITTED, now, Deleting([]), GcListing(wait, {}, youngerThan)), steps)
    ensures !Safe(Final(c, Scene(COMMITTED, now, Deleting([]), GcListing(wait, {}, youngerThan)), steps))
  {
    var idle := Deleting([]);
    var w8 := Scene(COMMITTED, now, idle, GcListing(wait, {}, youngerThan));
    var w9 := Scene(COMMITTED, now, idle, GcChosen(wait, {}, youngerThan, 0));
    var w10 := w8.(blobs := map[]);
    EmptyCommit(SLOT);
    hide IsRun, Final, Claimed;
    assert Apply(c, w9, DeleteOrphan(1)) == w10;
    EndRun(c, w10);
    RunStep(c, w9, DeleteOrphan(1), w10, []);
    steps := [DeleteOrphan(1)] + [];
    RunStep(c, w8, ChooseOrphan(1, 0), w9, steps);
    steps := [ChooseOrphan(1, 0)] + steps;
  }

  lemma LateSweep(c: Config, wait: nat, late: nat) returns (steps: seq<Step>)
    requires late <= c.readDelay && c.blobMinAge <= wait + late
    ensures IsRun(c, Scene(COMMITTED, wait, Deleting([]), GcReferencesRead(wait, {})), steps)
    ensures !Safe(Final(c, Scene(COMMITTED, wait, Deleting([]), GcReferencesRead(wait, {})), steps))
  {
    hide IsRun, Final, Safe, Claimed;
    var now, youngerThan := wait + late, wait + late - c.blobMinAge;
    var w6 := Scene(COMMITTED, wait, Deleting([]), GcReferencesRead(wait, {}));
    var w7 := Scene(COMMITTED, now, Deleting([]), GcReferencesRead(wait, {}));
    var w8 := Scene(COMMITTED, now, Deleting([]), GcListing(wait, {}, youngerThan));
    steps := LateChoice(c, now, wait, youngerThan);
    RunStep(c, w7, ComputeCutoff(1), w8, steps);
    steps := [ComputeCutoff(1)] + steps;
    RunStep(c, w6, Tick(late), w7, steps);
    steps := [Tick(late)] + steps;
  }

  lemma EndRun(c: Config, w: World)
    ensures IsRun(c, w, []) && Final(c, w, []) == w
  {}

  /** Its middle: the sweep reads the references just before the put commits. */
  lemma EarlyRead(c: Config, wait: nat, rest: seq<Step>) returns (steps: seq<Step>)
    requires wait <= c.maxDelay
    requires IsRun(c, Scene(COMMITTED, wait, Deleting([]), GcReferencesRead(wait, {})), rest)
    ensures IsRun(c, Scene(EMPTY, wait, PUT, GcStarted(wait)), steps)
    ensures Final(c, Scene(EMPTY, wait, PUT, GcStarted(wait)), steps)
            == Final(c, Scene(COMMITTED, wait, Deleting([]), GcReferencesRead(wait, {})), rest)
  {
    hide *;
    var w3 := Scene(EMPTY, wait, PUT, GcStarted(wait));
    var w4 := Scene(EMPTY, wait, PUT, GcVersionsRead(wait, {}));
    var w5 := Scene(EMPTY, wait, PUT, GcReferencesRead(wait, {}));
    var w6 := Scene(COMMITTED, wait, Deleting([]), GcReferencesRead(wait, {}));
    EarlyCommit(c, wait);
    EarlyReads(c, wait);
    RunStep(c, w5, CommitPut(0, VERSION), w6, rest);
    steps := [CommitPut(0, VERSION)] + rest;
    RunStep(c, w4, ReadPartPaths(1), w5, steps);
    steps := [ReadPartPaths(1)] + steps;
    RunStep(c, w3, ReadVersionPaths(1), w4, steps);
    steps := [ReadVersionPaths(1)] + steps;
  }

  lemma EarlyReads(c: Config, wait: nat)
    ensures var w3, w4 := Scene(EMPTY, wait, PUT, GcStarted(wait)), Scene(EMPTY, wait, PUT, GcVersionsRead(wait, {}));
            Enabled(c, w3, ReadVersionPaths(1)) && Apply(c, w3, ReadVersionPaths(1)) == w4
    ensures var w4, w5 := Scene(EMPTY, wait, PUT, GcVersionsRead(wait, {})), Scene(EMPTY, wait, PUT, GcReferencesRead(wait, {}));
            Enabled(c, w4, ReadPartPaths(1)) && Apply(c, w4, ReadPartPaths(1)) == w5
  {
    NotClaimedEmpty();
    hide VersionPathSet, PartPathSet;
    var none: set<Path> := {};
    assert none + PartPathSet(EMPTY) == none;
  }

  lemma EarlyCommit(c: Config, wait: nat)
    requires wait <= c.maxDelay
    ensures var w, w' := Scene(EMPTY, wait, PUT, GcReferencesRead(wait, {})), Scene(COMMITTED, wait, Deleting([]), GcReferencesRead(wait, {}));
            Enabled(c, w, CommitPut(0, VERSION)) && Apply(c, w, CommitPut(0, VERSION)) == w'
  {
    EmptyCommit(SLOT);
    hide CommitVersion, Replaced;
  }

  /** Its beginning: a put writes its blob, and some time later a sweep begins. */
  lemma EarlyStart(c: Config, wait: nat, rest: seq<Step>) returns (steps: seq<Step>)
    requires IsRun(c, Scene(EMPTY, wait, PUT, GcStarted(wait)), rest)
    ensures var w := World(EMPTY, map[], 0, 0, map[]);
            && IsRun(c, w, steps)
            && Final(c, w, steps) == Final(c, Scene(EMPTY, wait, PUT, GcStarted(wait)), rest)
  {
    var w := World(EMPTY, map[], 0, 0, map[]);
    var w1 := World(EMPTY, map[0 := 0], 0, 1, map[0 := PUT]);
    var w2 := w1.(now := wait);
    var w3 := Scene(EMPTY, wait, PUT, GcStarted(wait));
    hide IsRun, Final;
    RunStep(c, w2, BeginSweep(1), w3, rest);
    steps := [BeginSweep(1)] + rest;
    RunStep(c, w1, Tick(wait), w2, steps);
    steps := [Tick(wait)] + steps;
    RunStep(c, w, StartPut(0, SLOT), w1, steps);
    steps := [StartPut(0, SLOT)] + steps;
  }

  /** Without the margin a put can lose its blob. */
  lemma MarginNeeded(c: Config) returns (w: World, steps: seq<Step>)
    requires !Configured(c)
    ensures AtRest(w) && IsRun(c, w, steps) && !Safe(Final(c, w, steps))
  {
    hide IsRun, Final;
    var wait := Max(0, c.blobMinAge - c.readDelay);
    var late := Max(0, c.blobMinAge - wait);
    w := World(EMPTY, map[], 0, 0, map[]);
    NotClaimedEmpty();
    var rest := LateSweep(c, wait, late);
    rest := EarlyRead(c, wait, rest);
    steps := EarlyStart(c, wait, rest);
  }

  lemma NotClaimedEmpty()
    ensures forall path: Path :: !Claimed(EMPTY, path)
    ensures VersionPathSet(EMPTY) == {} && PartPathSet(EMPTY) == {}
  {}

  lemma EmptyCommit(slot: Slot)
    ensures Replaced(EMPTY, slot, VERSION) == []
    ensures Claimed(CommitVersion(EMPTY, slot, VERSION), 0)
  {
    assert NewRow(EMPTY, slot, VERSION) in CommitVersion(EMPTY, slot, VERSION).versions;
  }

  /** The delays a deployment may have are exactly those whose sum stays below `blobMinAge`. */
  lemma SafeIffMargin(c: Config)
    ensures Configured(c) <==> forall w, steps :: AtRest(w) && IsRun(c, w, steps) ==> Safe(Final(c, w, steps))
  {
    if Configured(c) {
      forall w, steps | AtRest(w) && IsRun(c, w, steps)
        ensures Safe(Final(c, w, steps))
      {
        RunsAreSafe(c, w, steps);
      }
    } else {
      var w, steps := MarginNeeded(c);
    }
  }
}
