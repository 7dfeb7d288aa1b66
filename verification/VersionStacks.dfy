/** What the version tables stand for. Every key has a stack of versions, oldest first; reads see
    the top of it, and a delete marker on top hides the key. Requests are given by their effect on
    the stacks, in all three versioning modes, and a whole run of them is compared with the same
    run on a plain map from key to bytes. */
module VersionStacks {
  import opened Common
  import opened Tables

  /** A version's id and bytes; a delete marker has none. */
  datatype Entry = Entry(versionId: VersionId, content: Option<seq<byte>>)

  type Stacks = map<Slot, seq<Entry>>

  function NotNullEntry(): Entry -> bool { (e: Entry) => e.versionId != Null }
  function Without(id: VersionId): Entry -> bool { (e: Entry) => e.versionId != id }

  function At(s: Stacks, slot: Slot): seq<Entry> { if slot in s then s[slot] else [] }

  /** A new version goes on top; a `null` one takes the place of the previous `null`. */
  function Push(s: Stacks, slot: Slot, e: Entry): Stacks
  {
    s[slot := (if e.versionId == Null then Filter(At(s, slot), NotNullEntry()) else At(s, slot)) + [e]]
  }

  /** A key disappears with its last version. */
  function Remove(s: Stacks, slot: Slot, id: VersionId): Stacks
  {
    var rest := Filter(At(s, slot), Without(id));
    if rest == [] then s - {slot} else s[slot := rest]
  }

  /** The plain map a client sees. */
  function Live(s: Stacks): map<Slot, seq<byte>>
  {
    map slot | slot in s && s[slot] != [] && s[slot][|s[slot]| - 1].content.Some? :: s[slot][|s[slot]| - 1].content.value
  }

  // ---- Requests ----

  /** `draw` is the random number a version id is made from when the bucket is versioned. */
  datatype Op =
    | SetVersioning(bucket: Bucket, versioning: Versioning)
    | Put(slot: Slot, draw: nat, content: seq<byte>)
    | Delete(slot: Slot, draw: nat)
    | DeleteVersion(slot: Slot, versionId: VersionId)

  datatype State = State(modes: map<Bucket, Versioning>, stacks: Stacks)

  function Mode(s: State, bucket: Bucket): Versioning { if bucket in s.modes then s.modes[bucket] else Disabled }

  function NextVersionId(versioning: Versioning, draw: nat): VersionId { if versioning == Enabled then Random(draw) else Null }

  /** The handlers refuse to set a bucket to `disabled`. */
  function Apply(s: State, op: Op): State
  {
    match op
    case SetVersioning(bucket, versioning) => if versioning == Disabled then s else s.(modes := s.modes[bucket := versioning])
    case Put(slot, draw, content) => s.(stacks := Push(s.stacks, slot, Entry(NextVersionId(Mode(s, slot.0), draw), Some(content))))
    case Delete(slot, draw) =>
      if slot !in s.stacks then s
      else if Mode(s, slot.0) == Disabled then s.(stacks := s.stacks - {slot})
      else s.(stacks := Push(s.stacks, slot, Entry(NextVersionId(Mode(s, slot.0), draw), None)))
    case DeleteVersion(slot, id) => s.(stacks := Remove(s.stacks, slot, id))
  }

  function Run(s: State, ops: seq<Op>): State
    decreases |ops|
  {
    if ops == [] then s else Run(Apply(s, ops[0]), ops[1..])
  }

  /** The same requests on a plain map. */
  function ApplyMap(m: map<Slot, seq<byte>>, op: Op): map<Slot, seq<byte>>
  {
    match op
    case Put(slot, _, content) => m[slot := content]
    case Delete(slot, _) => m - {slot}
    case _ => m
  }

  function RunMap(m: map<Slot, seq<byte>>, ops: seq<Op>): map<Slot, seq<byte>>
    decreases |ops|
  {
    if ops == [] then m else RunMap(ApplyMap(m, ops[0]), ops[1..])
  }

  /** A drawn id is not one of the key's own already. */
  predicate Fresh(s: State, op: Op)
  {
    (op.Put? || op.Delete?) && Mode(s, op.slot.0) == Enabled ==> forall e :: e in At(s.stacks, op.slot) ==> e.versionId != Random(op.draw)
  }

  predicate FreshRun(s: State, ops: seq<Op>)
    decreases |ops|
  {
    ops == [] || (Fresh(s, ops[0]) && FreshRun(Apply(s, ops[0]), ops[1..]))
  }

  /** A run may be continued. */
  lemma {:induction false} RunSnoc(s: State, ops: seq<Op>, op: Op)
    ensures Run(s, ops + [op]) == Apply(Run(s, ops), op)
    ensures FreshRun(s, ops + [op]) <==> FreshRun(s, ops) && Fresh(Run(s, ops), op)
    decreases |ops|
  {
    hide Apply, Fresh;
    var all := ops + [op];
    if ops == [] {
      assert all[1..] == [];
    } else {
      assert all[1..] == ops[1..] + [op];
      RunSnoc(Apply(s, ops[0]), ops[1..], op);
    }
  }

  // ---- The plain map ----

  lemma PushLive(s: Stacks, slot: Slot, e: Entry)
    ensures Live(Push(s, slot, e)) == if e.content.Some? then Live(s)[slot := e.content.value] else Live(s) - {slot}
  {
    hide Filter;
    var p := Push(s, slot, e);
    assert p[slot] != [] && p[slot][|p[slot]| - 1] == e;
  }

  /** A put is a map update and a delete a map removal, in every versioning mode. */
  lemma StepLive(s: State, op: Op)
    requires !op.DeleteVersion?
    ensures Live(Apply(s, op).stacks) == ApplyMap(Live(s.stacks), op)
  {
    hide Filter, Push;
    match op {
      case SetVersioning(_, _) =>
      case Put(slot, draw, content) => PushLive(s.stacks, slot, Entry(NextVersionId(Mode(s, slot.0), draw), Some(content)));
      case Delete(slot, draw) => PushLive(s.stacks, slot, Entry(NextVersionId(Mode(s, slot.0), draw), None));
    }
  }

  /** Every run of puts, deletes and mode changes shows a client what the plain map shows. */
  lemma {:induction false} RunRefinesMap(s: State, ops: seq<Op>)
    requires forall op :: op in ops ==> !op.DeleteVersion?
    ensures Live(Run(s, ops).stacks) == RunMap(Live(s.stacks), ops)
    decreases |ops|
  {
    if ops != [] {
      hide Live, Apply, ApplyMap;
      StepLive(s, ops[0]);
      RunRefinesMap(Apply(s, ops[0]), ops[1..]);
    }
  }

  lemma FilterLast(xs: seq<Entry>, id: VersionId)
    requires xs != [] && xs[|xs| - 1].versionId != id
    ensures var rest := Filter(xs, Without(id)); rest != [] && rest[|rest| - 1] == xs[|xs| - 1]
  {
    hide Filter;
    var n := |xs| - 1;
    assert xs == xs[..n] + [xs[n]];
    FilterConcat(xs[..n], [xs[n]], Without(id));
    FilterAll([xs[n]], Without(id));
  }

  /** Removing a version below the top is invisible; removing the top shows the version under it. */
  lemma RemoveLive(s: Stacks, slot: Slot, id: VersionId)
    requires slot in s && Distinct(s[slot]) && s[slot] != []
    ensures var top := s[slot][|s[slot]| - 1];
            Live(Remove(s, slot, id)) == if top.versionId != id then Live(s) else Live(s[slot := s[slot][..|s[slot]| - 1]])
  {
    var xs, n := s[slot], |s[slot]| - 1;
    if xs[n].versionId != id {
      FilterLast(xs, id);
      hide Filter, Distinct;
      LiveTop(s, s[slot := Filter(xs, Without(id))], slot);
    } else {
      TopDropped(xs);
      hide Filter, Distinct;
    }
  }

  /** Only the top of a stack shows. */
  lemma LiveTop(s: Stacks, s': Stacks, slot: Slot)
    requires slot in s && slot in s' && s' == s[slot := s'[slot]] && s[slot] != [] && s'[slot] != []
    requires s'[slot][|s'[slot]| - 1] == s[slot][|s[slot]| - 1]
    ensures Live(s') == Live(s)
  {}

  /** Version ids are unique within a stack, so at most one of them is `null`. */
  predicate Distinct(xs: seq<Entry>)
  {
    forall i, j :: 0 <= i < j < |xs| ==> xs[i].versionId != xs[j].versionId
  }

  lemma TopDropped(xs: seq<Entry>)
    requires xs != [] && Distinct(xs)
    ensures Filter(xs, Without(xs[|xs| - 1].versionId)) == xs[..|xs| - 1]
  {
    hide Filter;
    var n := |xs| - 1;
    var keep := Without(xs[n].versionId);
    assert xs == xs[..n] + [xs[n]];
    FilterConcat(xs[..n], [xs[n]], keep);
    FilterAll(xs[..n], keep);
    FilterNone([xs[n]], keep);
  }

  // ---- Histories ----

  /** Between requests: no empty stacks, unique ids, and no id but `null` where versioning was
      never switched on. */
  ghost predicate Sound(s: State)
  {
    forall slot :: slot in s.stacks ==>
      && s.stacks[slot] != [] && Distinct(s.stacks[slot])
      && (Mode(s, slot.0) == Disabled ==> forall e :: e in s.stacks[slot] ==> e.versionId == Null)
  }

  lemma {:induction false} FilterDistinct(xs: seq<Entry>, keep: Entry -> bool)
    requires Distinct(xs)
    ensures Distinct(Filter(xs, keep))
  {
    if xs != [] {
      FilterDistinct(xs[1..], keep);
      var rest := Filter(xs[1..], keep);
      forall j | 0 <= j < |rest|
        ensures xs[0].versionId != rest[j].versionId
      {
        assert rest[j] in xs[1..];
      }
    }
  }

  lemma PushDistinct(xs: seq<Entry>, e: Entry)
    requires Distinct(xs) && (e.versionId != Null ==> forall x :: x in xs ==> x.versionId != e.versionId)
    ensures Distinct((if e.versionId == Null then Filter(xs, NotNullEntry()) else xs) + [e])
  {
    hide Filter;
    FilterDistinct(xs, NotNullEntry());
    assert forall x :: x in Filter(xs, NotNullEntry()) ==> x.versionId != Null;
  }

  lemma StepSound(s: State, op: Op)
    requires Sound(s) && Fresh(s, op)
    ensures Sound(Apply(s, op))
  {
    hide Filter, Distinct;
    match op {
      case SetVersioning(_, _) =>
      case Put(slot, draw, content) => PushSound(s, slot, Entry(NextVersionId(Mode(s, slot.0), draw), Some(content)));
      case Delete(slot, draw) => PushSound(s, slot, Entry(NextVersionId(Mode(s, slot.0), draw), None));
      case DeleteVersion(slot, id) => FilterDistinct(At(s.stacks, slot), Without(id)) by { EmptyDistinct(); }
    }
  }

  lemma EmptyDistinct()
    ensures Distinct([])
  {}

  lemma PushSound(s: State, slot: Slot, e: Entry)
    requires Sound(s)
    requires e.versionId.Random? ==> Mode(s, slot.0) == Enabled && forall x :: x in At(s.stacks, slot) ==> x.versionId != e.versionId
    ensures Sound(s.(stacks := Push(s.stacks, slot, e)))
  {
    hide Filter, Distinct;
    EmptyDistinct();
    PushDistinct(At(s.stacks, slot), e);
  }

  /** One request removes or changes a non-null version exactly when it is a delete naming it. */
  lemma StepKeeps(s: State, op: Op, slot: Slot, e: Entry)
    requires Sound(s) && Fresh(s, op) && e in At(s.stacks, slot) && e.versionId != Null
    ensures e in At(Apply(s, op).stacks, slot) <==> op != DeleteVersion(slot, e.versionId)
  {
    hide Distinct;
  }

  /** Over any run, a non-null version stays, byte for byte, until a delete names it. */
  lemma {:induction false} OnlyNamedDeletesRemove(s: State, ops: seq<Op>, slot: Slot, e: Entry)
    requires Sound(s) && FreshRun(s, ops) && e in At(s.stacks, slot) && e.versionId != Null
    requires DeleteVersion(slot, e.versionId) !in ops
    ensures Sound(Run(s, ops)) && e in At(Run(s, ops).stacks, slot)
    decreases |ops|
  {
    if ops != [] {
      hide Sound, Apply, Fresh;
      StepSound(s, ops[0]);
      StepKeeps(s, ops[0], slot, e);
      OnlyNamedDeletesRemove(Apply(s, ops[0]), ops[1..], slot, e);
    }
  }

  lemma {:induction false} RunSound(s: State, ops: seq<Op>)
    requires Sound(s) && FreshRun(s, ops)
    ensures Sound(Run(s, ops))
    decreases |ops|
  {
    if ops != [] {
      hide Sound, Apply, Fresh;
      StepSound(s, ops[0]);
      RunSound(Apply(s, ops[0]), ops[1..]);
    }
  }

  function Versions(s: State, slot: Slot): seq<Entry> { Filter(At(s.stacks, slot), NotNullEntry()) }

  lemma StepGrows(s: State, op: Op, slot: Slot)
    requires Sound(s) && !(op.DeleteVersion? && op.slot == slot && op.versionId != Null)
    ensures Versions(s, slot) <= Versions(Apply(s, op), slot)
  {
    hide Filter, Distinct;
    var xs := At(s.stacks, slot);
    match op {
      case SetVersioning(_, _) =>
      case Put(target, draw, content) => PushGrows(s.stacks, target, Entry(NextVersionId(Mode(s, target.0), draw), Some(content)), slot);
      case Delete(target, draw) =>
        PushGrows(s.stacks, target, Entry(NextVersionId(Mode(s, target.0), draw), None), slot);
        if Mode(s, target.0) == Disabled && target in s.stacks && slot == target {
          FilterNone(xs, NotNullEntry());
        }
      case DeleteVersion(target, id) =>
        if target == slot {
          FilterNarrow(xs, Without(Null), NotNullEntry());
          FilterEmpty(NotNullEntry());
        }
    }
  }

  lemma FilterEmpty(keep: Entry -> bool)
    ensures Filter([], keep) == []
  {}

  lemma PushGrows(s: Stacks, target: Slot, e: Entry, slot: Slot)
    ensures Filter(At(s, slot), NotNullEntry()) <= Filter(At(Push(s, target, e), slot), NotNullEntry())
  {
    hide Filter;
    if target == slot {
      var xs := At(s, slot);
      FilterNarrow(xs, NotNullEntry(), NotNullEntry());
      FilterConcat(if e.versionId == Null then Filter(xs, NotNullEntry()) else xs, [e], NotNullEntry());
    }
  }

  /** A key's non-null history is append-only until a delete names one of its versions. */
  lemma {:induction false} HistoryGrows(s: State, ops: seq<Op>, slot: Slot)
    requires Sound(s) && FreshRun(s, ops)
    requires forall op :: op in ops ==> !(op.DeleteVersion? && op.slot == slot && op.versionId != Null)
    ensures Versions(s, slot) <= Versions(Run(s, ops), slot)
    decreases |ops|
  {
    if ops != [] {
      hide Sound, Apply, Fresh, Versions;
      StepSound(s, ops[0]);
      StepGrows(s, ops[0], slot);
      HistoryGrows(Apply(s, ops[0]), ops[1..], slot);
    }
  }

  /** Deleting the delete marker just written brings back everything as it was - exactly when the
      marker's id was not in the stack before, so always in a versioned bucket, and in a suspended
      one only while the key has no `null` version. */
  lemma UndoDelete(s: State, slot: Slot, draw: nat)
    requires Sound(s) && slot in s.stacks && Mode(s, slot.0) != Disabled && Fresh(s, Delete(slot, draw))
    ensures var id := NextVersionId(Mode(s, slot.0), draw);
            Apply(Apply(s, Delete(slot, draw)), DeleteVersion(slot, id)) == s
            <==> Mode(s, slot.0) == Enabled || forall e :: e in s.stacks[slot] ==> e.versionId != Null
  {
    hide Filter, Distinct, Push, Remove;
    var id := NextVersionId(Mode(s, slot.0), draw);
    PushRemove(s.stacks, slot, Entry(id, None));
  }

  lemma PushRemove(s: Stacks, slot: Slot, e: Entry)
    requires slot in s && s[slot] != []
    ensures Remove(Push(s, slot, e), slot, e.versionId) == s <==> forall x :: x in s[slot] ==> x.versionId != e.versionId
  {
    hide Filter;
    var xs, keep := s[slot], Without(e.versionId);
    var below := if e.versionId == Null then Filter(xs, NotNullEntry()) else xs;
    FilterConcat(below, [e], keep);
    FilterNone([e], keep);
    assert Filter(below, keep) + [] == Filter(below, keep);
    if forall x :: x in xs ==> x.versionId != e.versionId {
      if e.versionId == Null {
        FilterAll(xs, NotNullEntry());
      }
      FilterAll(xs, keep);
    } else {
      var x :| x in xs && x.versionId == e.versionId;
      assert x !in Filter(below, keep);
    }
  }
}
