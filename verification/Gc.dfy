/** `GcService`: one sweep over the blob store, run on its own. (Sweeps interleaved with requests
    are the business of `BlobProtocol`.) */
module Gc {
  import opened Common
  import opened Cipher
  import opened Storage
  import opened Tables
  import opened ObjectStore

  datatype BlobInfo = BlobInfo(path: Path, size: nat, modifiedAt: int)

  datatype SweepResult = SweepResult(deletedBlobs: nat, reclaimedBytes: nat, skippedYoungBlobs: nat)

  // ---- What a sweep amounts to ----

  function Deletable(referenced: set<Path>, youngerThan: int, stuck: set<Path>): BlobInfo -> bool
  {
    (b: BlobInfo) => b.path !in referenced && b.modifiedAt <= youngerThan && b.path !in stuck
  }

  function Young(referenced: set<Path>, youngerThan: int): BlobInfo -> bool { (b: BlobInfo) => b.path !in referenced && b.modifiedAt > youngerThan }

  function BlobSizes(blobs: seq<BlobInfo>): nat
  {
    if blobs == [] then 0 else blobs[0].size + BlobSizes(blobs[1..])
  }

  lemma {:induction false} BlobSizesConcat(a: seq<BlobInfo>, b: seq<BlobInfo>)
    ensures BlobSizes(a + b) == BlobSizes(a) + BlobSizes(b)
  {
    if a == [] {
      assert a + b == b;
    } else {
      assert (a + b)[1..] == a[1..] + b;
      BlobSizesConcat(a[1..], b);
    }
  }

  lemma FilterSnoc(blobs: seq<BlobInfo>, b: BlobInfo, keep: BlobInfo -> bool)
    ensures Filter(blobs + [b], keep) == if keep(b) then Filter(blobs, keep) + [b] else Filter(blobs, keep)
  {
    FilterConcat(blobs, [b], keep);
    assert [b][1..] == [];
  }

  function ResultOf(listed: seq<BlobInfo>, referenced: set<Path>, youngerThan: int, stuck: set<Path>): SweepResult
  {
    SweepResult(|Filter(listed, Deletable(referenced, youngerThan, stuck))|, BlobSizes(Filter(listed, Deletable(referenced, youngerThan, stuck))),
                |Filter(listed, Young(referenced, youngerThan))|)
  }

  /** The counters after one more blob. */
  lemma ResultSnoc(listed: seq<BlobInfo>, b: BlobInfo, referenced: set<Path>, youngerThan: int, stuck: set<Path>)
    ensures var before, after := ResultOf(listed, referenced, youngerThan, stuck), ResultOf(listed + [b], referenced, youngerThan, stuck);
            after == if b.path in referenced then before
                     else if b.modifiedAt > youngerThan then before.(skippedYoungBlobs := before.skippedYoungBlobs + 1)
                     else if b.path in stuck then before
                     else before.(deletedBlobs := before.deletedBlobs + 1, reclaimedBytes := before.reclaimedBytes + b.size)
  {
    hide Filter;
    FilterSnoc(listed, b, Deletable(referenced, youngerThan, stuck));
    FilterSnoc(listed, b, Young(referenced, youngerThan));
    BlobSizesConcat(Filter(listed, Deletable(referenced, youngerThan, stuck)), [b]);
    assert [b][1..] == [];
  }

  class GcService {
    const storage: StorageService
    const blobMinAge: nat

    constructor (storage: StorageService, blobMinAge: nat)
      ensures this.storage == storage && this.blobMinAge == blobMinAge
    {
      this.storage, this.blobMinAge := storage, blobMinAge;
    }

    /** Every storage path the tables still claim: versions first, then parts. */
    method ReferencedStoragePaths(t: Tables) returns (referenced: set<Path>)
      ensures referenced == VersionPathSet(t) + PartPathSet(t)
    {
      referenced := {};
      for i := 0 to |t.versions|
        invariant forall path: Path :: path in referenced <==> exists j :: 0 <= j < i && t.versions[j].path == Some(path)
      {
        if t.versions[i].path.Some? {
          referenced := referenced + {t.versions[i].path.value};
        }
      }
      ghost var ofVersions := referenced;
      for i := 0 to |t.parts|
        invariant forall path: Path :: path in referenced <==> path in ofVersions || exists j :: 0 <= j < i && t.parts[j].path == path
      {
        referenced := referenced + {t.parts[i].path};
      }
    }

    /** Walks the disk once. Exactly the listed blobs that no row claims and that are old enough go,
        except those whose deletion fails, which is logged; every row stays readable, and what the
        store stands for does not change. If nothing unclaimed was too young or stuck, not one
        unclaimed blob is left. */
    method CollectOrphanedBlobs(t: Tables, listed: seq<BlobInfo>, now: int, stuck: set<Path>) returns (r: SweepResult)
      requires storage.Valid() && TablesSound(t) && Stored(storage.suite, t, storage.blobs)
      requires forall path: Path :: path in storage.blobs <==> exists i :: 0 <= i < |listed| && listed[i].path == path
      modifies storage`blobs
      ensures forall path: Path ::
                path in storage.blobs <==>
                  path in old(storage.blobs)
                  && (Claimed(t, path) || path in stuck || forall i :: 0 <= i < |listed| && listed[i].path == path ==> listed[i].modifiedAt > now - blobMinAge)
      ensures forall path: Path :: path in storage.blobs ==> storage.blobs[path] == old(storage.blobs[path])
      ensures Stored(storage.suite, t, storage.blobs)
      ensures StacksOf(storage.suite, t, storage.blobs) == old(StacksOf(storage.suite, t, storage.blobs))
      ensures PartsOf(storage.suite, t.parts, storage.blobs) == old(PartsOf(storage.suite, t.parts, storage.blobs))
      ensures r == ResultOf(listed, VersionPathSet(t) + PartPathSet(t), now - blobMinAge, stuck)
      ensures r.skippedYoungBlobs == 0 && (forall path :: path in stuck ==> Claimed(t, path)) ==> Sane(storage.suite, t, storage.blobs, storage.nextPath)
    {
      hide Filter, Stored, TablesSound, StacksOf, PartsOf, Claimed, ResultOf;
      var referenced := ReferencedStoragePaths(t);
      forall path: Path
        ensures path in referenced <==> Claimed(t, path)
        ensures Claimed(t, path) ==> path in storage.blobs
      {
        ReferencedClaimed(storage.suite, t, storage.blobs, path);
      }
      var youngerThan := now - blobMinAge;
      r := SweepResult(0, 0, 0);
      assert listed[..0] == [];
      NothingListed(referenced, youngerThan, stuck);
      for k := 0 to |listed|
        invariant storage.Valid()
        invariant r == ResultOf(listed[..k], referenced, youngerThan, stuck)
        invariant forall path: Path ::
                    path in storage.blobs <==> path in old(storage.blobs)
                                               && !(path !in referenced && path !in stuck && exists i :: 0 <= i < k && listed[i].path == path && listed[i].modifiedAt <= youngerThan)
        invariant forall path: Path :: path in storage.blobs ==> storage.blobs[path] == old(storage.blobs[path])
      {
        var blob := listed[k];
        assert listed[..k + 1] == listed[..k] + [blob];
        ResultSnoc(listed[..k], blob, referenced, youngerThan, stuck);
        if blob.path in referenced {
          continue;
        }
        if blob.modifiedAt > youngerThan {
          r := r.(skippedYoungBlobs := r.skippedYoungBlobs + 1);
          continue;
        }
        if blob.path in stuck {
          continue;
        }
        storage.Delete(blob.path);
        r := r.(deletedBlobs := r.deletedBlobs + 1, reclaimedBytes := r.reclaimedBytes + blob.size);
      }
      assert listed[..|listed|] == listed;
      SameStacks(storage.suite, t, old(storage.blobs), storage.blobs);
      if r.skippedYoungBlobs == 0 {
        NoYoung(listed, referenced, youngerThan, stuck);
      }
    }
  }

  lemma ReferencedClaimed(suite: Suite, t: Tables, blobs: Blobs, path: Path)
    requires Stored(suite, t, blobs)
    ensures path in VersionPathSet(t) + PartPathSet(t) <==> Claimed(t, path)
    ensures Claimed(t, path) ==> path in blobs
  {
    hide Load;
  }

  lemma NothingListed(referenced: set<Path>, youngerThan: int, stuck: set<Path>)
    ensures ResultOf([], referenced, youngerThan, stuck) == SweepResult(0, 0, 0)
  {}

  lemma NoYoung(listed: seq<BlobInfo>, referenced: set<Path>, youngerThan: int, stuck: set<Path>)
    requires ResultOf(listed, referenced, youngerThan, stuck).skippedYoungBlobs == 0
    ensures forall i :: 0 <= i < |listed| && listed[i].path !in referenced ==> listed[i].modifiedAt <= youngerThan
  {
    var none := Filter(listed, Young(referenced, youngerThan));
    forall i | 0 <= i < |listed| && listed[i].path !in referenced
      ensures listed[i].modifiedAt <= youngerThan
    {
      assert listed[i] in listed && listed[i] !in none;
    }
  }
}
