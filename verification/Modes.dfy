/** The versioning modes of all buckets, read off the bucket table, and requests on version stacks
    under them. */
module Modes {
  import opened Common
  import opened Tables
  import opened Usage
  import VS = VersionStacks

  // ---- Stack operations under a bucket's versioning mode ----

  function Does(bucket: BucketRow, stacks: VS.Stacks, op: VS.Op): VS.Stacks
  {
    VS.Apply(VS.State(map[bucket.guid := bucket.versioning], stacks), op).stacks
  }

  // ---- The modes of all buckets ----

  function SetVersioningIn(buckets: seq<BucketRow>, guid: Bucket, versioning: Versioning): (r: seq<BucketRow>)
    ensures |r| == |buckets|
    ensures forall i :: 0 <= i < |buckets| ==> r[i] == if buckets[i].guid == guid then buckets[i].(versioning := versioning) else buckets[i]
  {
    if buckets == [] then []
    else [if buckets[0].guid == guid then buckets[0].(versioning := versioning) else buckets[0]] + SetVersioningIn(buckets[1..], guid, versioning)
  }

  function Guids(buckets: seq<BucketRow>): set<Bucket> { set b | b in buckets :: b.guid }

  ghost function RowOf(buckets: seq<BucketRow>, guid: Bucket): (b: BucketRow)
    requires guid in Guids(buckets)
    ensures b in buckets && b.guid == guid
  {
    var b :| b in buckets && b.guid == guid;
    b
  }

  ghost function ModesOf(t: Tables): map<Bucket, Versioning>
  {
    map guid | guid in Guids(t.buckets) :: RowOf(t.buckets, guid).versioning
  }

  lemma ModeOfRow(t: Tables, bucket: BucketRow)
    requires bucket in t.buckets && DistinctBuckets(t.buckets)
    ensures bucket.guid in ModesOf(t) && ModesOf(t)[bucket.guid] == bucket.versioning
  {
    SameBucketRow(t.buckets, bucket, RowOf(t.buckets, bucket.guid));
  }

  /** A request on a row of the table is that request under the modes of all buckets. */
  lemma DoesIsApply(t: Tables, bucket: BucketRow, stacks: VS.Stacks, op: VS.Op)
    requires bucket in t.buckets && DistinctBuckets(t.buckets) && !op.SetVersioning? && op.slot.0 == bucket.guid
    ensures VS.Apply(VS.State(ModesOf(t), stacks), op) == VS.State(ModesOf(t), Does(bucket, stacks, op))
  {
    hide VS.Push, VS.Remove, ModesOf;
    ModeOfRow(t, bucket);
  }

  lemma SetDistinct(buckets: seq<BucketRow>, guid: Bucket, versioning: Versioning)
    ensures DistinctBuckets(buckets) ==> DistinctBuckets(SetVersioningIn(buckets, guid, versioning))
  {
    var after := SetVersioningIn(buckets, guid, versioning);
    forall i | 0 <= i < |buckets|
      ensures after[i].guid == buckets[i].guid
    {}
    hide SetVersioningIn;
  }

  lemma {:induction false} SetGuids(buckets: seq<BucketRow>, guid: Bucket, versioning: Versioning)
    ensures Guids(SetVersioningIn(buckets, guid, versioning)) == Guids(buckets)
  {
    if buckets != [] {
      var after := SetVersioningIn(buckets, guid, versioning);
      SetGuids(buckets[1..], guid, versioning);
      GuidsFirst(buckets);
      GuidsFirst(after);
      assert after[1..] == SetVersioningIn(buckets[1..], guid, versioning);
    }
  }

  lemma GuidsFirst(buckets: seq<BucketRow>)
    requires buckets != []
    ensures Guids(buckets) == {buckets[0].guid} + Guids(buckets[1..])
  {
    assert buckets == [buckets[0]] + buckets[1..];
  }

  lemma SetMode(t: Tables, t': Tables, guid: Bucket, versioning: Versioning, b: BucketRow)
    requires DistinctBuckets(t.buckets) && DistinctBuckets(t'.buckets)
    requires t'.buckets == SetVersioningIn(t.buckets, guid, versioning) && b in t.buckets
    ensures b.guid in ModesOf(t') && ModesOf(t')[b.guid] == if b.guid == guid then versioning else b.versioning
  {
    hide DistinctBuckets, ModesOf;
    var i :| 0 <= i < |t.buckets| && t.buckets[i] == b;
    assert t'.buckets[i] in t'.buckets;
    ModeOfRow(t', t'.buckets[i]);
  }

  lemma SetModes(t: Tables, guid: Bucket, versioning: Versioning)
    requires DistinctBuckets(t.buckets) && guid in Guids(t.buckets)
    ensures var t' := t.(buckets := SetVersioningIn(t.buckets, guid, versioning));
            DistinctBuckets(t'.buckets) && ModesOf(t') == ModesOf(t)[guid := versioning]
  {
    hide DistinctBuckets, SetVersioningIn;
    var t' := t.(buckets := SetVersioningIn(t.buckets, guid, versioning));
    SetDistinct(t.buckets, guid, versioning);
    SetGuids(t.buckets, guid, versioning);
    forall g | g in Guids(t.buckets)
      ensures ModesOf(t')[g] == ModesOf(t)[guid := versioning][g]
    {
      var b := RowOf(t.buckets, g);
      SetMode(t, t', guid, versioning, b);
      ModeOfRow(t, b);
    }
  }

  // ---- What every run keeps ----

  /** The stacks are sound under the buckets' modes. */
  ghost predicate SoundStacks(t: Tables, stacks: VS.Stacks) { VS.Sound(VS.State(ModesOf(t), stacks)) }

  lemma SameModes(t: Tables, t': Tables)
    requires t'.buckets == t.buckets
    ensures ModesOf(t') == ModesOf(t)
  {}

  /** Nothing else of the tables matters to that. */
  lemma SoundUnder(t: Tables, t': Tables, stacks: VS.Stacks)
    requires SoundStacks(t, stacks) && t'.buckets == t.buckets
    ensures SoundStacks(t', stacks)
  {
    hide VS.Sound, ModesOf;
    SameModes(t, t');
  }

  /** Removing a version, or a whole key, needs no mode. */
  lemma RemovalSound(t: Tables, t': Tables, stacks: VS.Stacks, slot: Slot, id: VersionId)
    requires SoundStacks(t, stacks) && t'.buckets == t.buckets
    ensures SoundStacks(t', VS.Remove(stacks, slot, id)) && SoundStacks(t', stacks - {slot})
  {
    hide VS.Sound, VS.Remove, ModesOf;
    SameModes(t, t');
    VS.StepSound(VS.State(ModesOf(t), stacks), VS.DeleteVersion(slot, id));
    SoundWithout(VS.State(ModesOf(t), stacks), slot);
  }

  lemma SoundWithout(s: VS.State, slot: Slot)
    requires VS.Sound(s)
    ensures VS.Sound(s.(stacks := s.stacks - {slot}))
  {}

  lemma SetSound(t: Tables, stacks: VS.Stacks, guid: Bucket, versioning: Versioning)
    requires SoundStacks(t, stacks) && DistinctBuckets(t.buckets) && guid in Guids(t.buckets) && versioning != Disabled
    ensures SoundStacks(t.(buckets := SetVersioningIn(t.buckets, guid, versioning)), stacks)
  {
    hide VS.Sound, ModesOf, SetVersioningIn, DistinctBuckets;
    SetModes(t, guid, versioning);
    VS.StepSound(VS.State(ModesOf(t), stacks), VS.SetVersioning(guid, versioning));
  }

  // ---- Quotas do not notice modes ----

  lemma {:induction false} SetTotal(t: Tables, t': Tables, buckets: seq<BucketRow>, guid: Bucket, versioning: Versioning, user: string)
    requires t' == t.(buckets := t'.buckets)
    ensures TotalBytes(t', Filter(SetVersioningIn(buckets, guid, versioning), OwnedBy(user))) == TotalBytes(t, Filter(buckets, OwnedBy(user)))
  {
    if buckets != [] {
      hide Bytes;
      SetTotal(t, t', buckets[1..], guid, versioning, user);
      SameBytes(t, t', buckets[0].guid);
      var after := SetVersioningIn(buckets, guid, versioning);
      assert after[1..] == SetVersioningIn(buckets[1..], guid, versioning);
      if buckets[0].owner == user {
        assert Filter(buckets, OwnedBy(user))[1..] == Filter(buckets[1..], OwnedBy(user));
        assert Filter(after, OwnedBy(user))[1..] == Filter(after[1..], OwnedBy(user));
      }
    }
  }

  lemma SameBytes(t: Tables, t': Tables, bucket: Bucket)
    requires t' == t.(buckets := t'.buckets)
    ensures Bytes(t', bucket) == Bytes(t, bucket)
  {}

  lemma SetWithinQuota(t: Tables, guid: Bucket, versioning: Versioning)
    requires WithinQuota(t)
    ensures WithinQuota(t.(buckets := SetVersioningIn(t.buckets, guid, versioning)))
  {
    hide SetVersioningIn, Bytes, Filter, Reduce, TotalBytes;
    var t' := t.(buckets := SetVersioningIn(t.buckets, guid, versioning));
    forall b | b in t'.buckets
      ensures BucketWithin(t', b)
    {
      var i :| 0 <= i < |t'.buckets| && t'.buckets[i] == b;
      assert BucketWithin(t, t.buckets[i]);
      SameBytes(t, t', b.guid);
    }
    forall user
      ensures UserWithin(t', user)
    {
      assert UserWithin(t, user);
      SetTotal(t, t', t.buckets, guid, versioning, user);
      ReduceTotal(t, Filter(t.buckets, OwnedBy(user)), EMPTY_USAGE);
      ReduceTotal(t', Filter(t'.buckets, OwnedBy(user)), EMPTY_USAGE);
    }
  }
}
