/** Copying and moving keys, on the map a client sees: what re-keying a list of keys one after the
    other comes to, and when moving a folder really is replacing its prefix. */
module FolderMove {
  import opened Common
  import opened Tables
  import opened Text

  type View = map<Slot, seq<byte>>

  predicate EndsWithSlash(key: Key) { key != "" && key[|key| - 1] == '/' }

  /** Where a key under the source goes; a lone key goes to the target itself. */
  function Destination(isFolder: bool, sourceKey: Key, targetPrefix: Key, key: Key): Key
    requires isFolder ==> sourceKey <= key
  {
    if isFolder then targetPrefix + key[|sourceKey|..] else targetPrefix
  }

  function TargetPrefix(isFolder: bool, targetKey: Key): Key
  {
    if isFolder && !EndsWithSlash(targetKey) then targetKey + "/" else targetKey
  }

  ghost predicate Slashed(key: Key) { exists stem: Key :: key == stem + "/" }

  /** The folder a target key names: itself if it is written with its slash, else with one added. */
  ghost predicate NamesFolder(targetKey: Key, to: Key)
  {
    to == if Slashed(targetKey) then targetKey else targetKey + "/"
  }

  lemma SlashedExact(key: Key)
    ensures EndsWithSlash(key) <==> Slashed(key)
  {
    if EndsWithSlash(key) {
      assert key == key[..|key| - 1] + "/";
    }
  }

  /** A folder goes to the folder the target names - which ends with a slash and is at most that slash
      longer - and a lone key to the target itself. */
  lemma TargetPrefixExact(targetKey: Key, to: Key)
    ensures TargetPrefix(true, targetKey) == to <==> NamesFolder(targetKey, to)
    ensures Slashed(TargetPrefix(true, targetKey)) && targetKey <= TargetPrefix(true, targetKey) && |TargetPrefix(true, targetKey)| <= |targetKey| + 1
    ensures TargetPrefix(false, targetKey) == targetKey
  {
    SlashedExact(targetKey);
    SlashedExact(TargetPrefix(true, targetKey));
  }

  predicate Starts(sourceKey: Key, keys: seq<Key>) { forall k :: k in keys ==> sourceKey <= k }

  /** One copy after the other; a key that reads as absent is passed over. */
  function Copied(view: View, source: Bucket, target: Bucket, isFolder: bool, sourceKey: Key, targetPrefix: Key, keys: seq<Key>): View
    requires isFolder ==> Starts(sourceKey, keys)
  {
    if keys == [] then view
    else
      var n := |keys| - 1;
      assert forall k :: k in keys[..n] ==> k in keys;
      assert keys[n] in keys;
      var before := Copied(view, source, target, isFolder, sourceKey, targetPrefix, keys[..n]);
      if (source, keys[n]) in before then
        before[(target, Destination(isFolder, sourceKey, targetPrefix, keys[n])) := before[(source, keys[n])]]
      else before
  }

  function Removed(view: View, bucket: Bucket, keys: seq<Key>): View
  {
    view - set k | k in keys :: (bucket, k)
  }

  /** `copyKeys` on the view. */
  function CopiedKeys(view: View, source: Bucket, target: Bucket, isFolder: bool, sourceKey: Key, targetPrefix: Key, keys: seq<Key>, move: bool): View
    requires isFolder ==> Starts(sourceKey, keys)
  {
    var copied := Copied(view, source, target, isFolder, sourceKey, targetPrefix, keys);
    if move then Removed(copied, source, keys) else copied
  }

  // ---- A folder ----

  /** The key under `from` that a key under `to` takes the place of. */
  function Origin(source: Bucket, from: Key, to: Key, slot: Slot): Slot
    requires to <= slot.1
  {
    (source, from + slot.1[|to|..])
  }

  /** The view with a prefix replaced: what was under `from` is under `to` with the same bytes, a move
      leaves nothing under `from`, and nothing else is touched. */
  ghost predicate PrefixReplaced(before: View, after: View, source: Bucket, target: Bucket, from: Key, to: Key, move: bool)
  {
    forall slot: Slot {:trigger slot in after} ::
      if slot.0 == target && to <= slot.1 && Origin(source, from, to, slot) in before then
        slot in after && after[slot] == before[Origin(source, from, to, slot)]
      else if move && slot.0 == source && from <= slot.1 then slot !in after
      else (slot in after <==> slot in before) && (slot in after ==> after[slot] == before[slot])
  }

  /** Neither prefix reaches into the other. */
  predicate Apart(source: Bucket, target: Bucket, from: Key, to: Key) { source != target || (!(from <= to) && !(to <= from)) }

  /** The list names every visible key under the folder, and only keys under it. */
  ghost predicate KeysUnder(view: View, bucket: Bucket, from: Key, keys: seq<Key>)
  {
    Starts(from, keys) && forall key :: (bucket, key) in view && from <= key ==> key in keys
  }

  /** No key lies under two prefixes unless one of them is a prefix of the other. */
  lemma NoCommonKey(a: Key, b: Key, key: Key)
    requires a <= key && b <= key
    ensures a <= b || b <= a
  {
    if |a| <= |b| {
      assert a == key[..|a|] == b[..|a|];
    } else {
      assert b == key[..|b|] == a[..|b|];
    }
  }

  lemma StartsEarlier(from: Key, keys: seq<Key>)
    requires Starts(from, keys) && keys != []
    ensures Starts(from, keys[..|keys| - 1]) && from <= keys[|keys| - 1]
    ensures keys == keys[..|keys| - 1] + [keys[|keys| - 1]]
  {
    var earlier := keys[..|keys| - 1];
    forall k | k in earlier
      ensures from <= k
    {
      assert k in keys;
    }
    assert keys[|keys| - 1] in keys;
  }

  /** What a slot shows after copying: the bytes of its origin if that was visible and listed, else
      what it showed before. */
  lemma {:induction false} CopiedApart(view: View, source: Bucket, target: Bucket, from: Key, to: Key, keys: seq<Key>, slot: Slot)
    requires Apart(source, target, from, to) && Starts(from, keys)
    ensures var after := Copied(view, source, target, true, from, to, keys);
            if slot.0 == target && to <= slot.1 && Origin(source, from, to, slot) in view && Origin(source, from, to, slot).1 in keys then
              slot in after && after[slot] == view[Origin(source, from, to, slot)]
            else (slot in after <==> slot in view) && (slot in after ==> after[slot] == view[slot])
    decreases |keys|
  {
    if keys != [] {
      var n := |keys| - 1;
      var last, earlier := keys[n], keys[..n];
      StartsEarlier(from, keys);
      CopiedApart(view, source, target, from, to, earlier, slot);
      CopiedApart(view, source, target, from, to, earlier, (source, last));
      UnderTo(source, target, from, to, last);
      var before := Copied(view, source, target, true, from, to, earlier);
      assert (source, last) in before <==> (source, last) in view;
      var destination := to + last[|from|..];
      if to <= slot.1 {
        assert slot.1 == to + slot.1[|to|..];
        assert Origin(source, from, to, slot).1[|from|..] == slot.1[|to|..];
        assert last == from + last[|from|..];
        assert Origin(source, from, to, slot) == (source, last) <==> slot.1 == destination;
      }
    }
  }

  lemma UnderTo(source: Bucket, target: Bucket, from: Key, to: Key, key: Key)
    requires Apart(source, target, from, to) && from <= key
    ensures source != target || !(to <= key)
  {
    if to <= key {
      NoCommonKey(from, to, key);
    }
  }

  /** Copying or moving a folder to a place apart from it replaces its prefix. */
  lemma ApartReplaces(view: View, source: Bucket, target: Bucket, from: Key, to: Key, keys: seq<Key>, move: bool)
    requires Apart(source, target, from, to) && KeysUnder(view, source, from, keys)
    ensures PrefixReplaced(view, CopiedKeys(view, source, target, true, from, to, keys, move), source, target, from, to, move)
  {
    hide Copied;
    var copied := Copied(view, source, target, true, from, to, keys);
    var after := CopiedKeys(view, source, target, true, from, to, keys, move);
    forall slot: Slot {:trigger slot in after}
      ensures if slot.0 == target && to <= slot.1 && Origin(source, from, to, slot) in view then
                slot in after && after[slot] == view[Origin(source, from, to, slot)]
              else if move && slot.0 == source && from <= slot.1 then slot !in after
              else (slot in after <==> slot in view) && (slot in after ==> after[slot] == view[slot])
    {
      CopiedApart(view, source, target, from, to, keys, slot);
      if slot.0 == source && from <= slot.1 {
        UnderTo(source, target, from, to, slot.1);
      }
      assert slot in after <==> slot in copied && !(move && slot.0 == source && slot.1 in keys);
    }
  }

  lemma RemovedGone(view: View, source: Bucket, target: Bucket, from: Key, to: Key, keys: seq<Key>, slot: Slot)
    requires Starts(from, keys) && slot.0 == source && slot.1 in keys
    ensures slot !in CopiedKeys(view, source, target, true, from, to, keys, true)
  {
    hide Copied;
  }

  /** The list as the store gives it: in byte order, each key once. */
  ghost predicate Listed(view: View, bucket: Bucket, from: Key, keys: seq<Key>)
  {
    Ascending(keys) && KeysUnder(view, bucket, from, keys)
  }

  /** What the guards of a move within a bucket let pass. */
  predicate Guarded(sourceKey: Key, targetKey: Key) { EndsWithSlash(sourceKey) && targetKey != "" && !(sourceKey <= targetKey) }

  /** Of the overlapping prefixes the guards let pass only targets above the source, or the source itself
      spelled without its slash. */
  lemma GuardedOverlap(bucket: Bucket, sourceKey: Key, targetKey: Key)
    requires Guarded(sourceKey, targetKey) && !Apart(bucket, bucket, sourceKey, TargetPrefix(true, targetKey))
    ensures TargetPrefix(true, targetKey) <= sourceKey
  {
    var to := TargetPrefix(true, targetKey);
    if sourceKey <= to {
      assert |sourceKey| == |to|;
    }
  }

  /** Within one bucket, a move of a folder that passes the guards replaces its prefix, whatever is stored,
      exactly when the two prefixes are apart. */
  lemma MoveReplacesIffApart(bucket: Bucket, sourceKey: Key, targetKey: Key)
    requires Guarded(sourceKey, targetKey)
    ensures var to := TargetPrefix(true, targetKey);
            Apart(bucket, bucket, sourceKey, to)
            <==> forall view, keys :: Listed(view, bucket, sourceKey, keys) ==>
                   PrefixReplaced(view, CopiedKeys(view, bucket, bucket, true, sourceKey, to, keys, true), bucket, bucket, sourceKey, to, true)
  {
    var to := TargetPrefix(true, targetKey);
    if Apart(bucket, bucket, sourceKey, to) {
      forall view, keys | Listed(view, bucket, sourceKey, keys)
        ensures PrefixReplaced(view, CopiedKeys(view, bucket, bucket, true, sourceKey, to, keys, true), bucket, bucket, sourceKey, to, true)
      {
        ApartReplaces(view, bucket, bucket, sourceKey, to, keys, true);
      }
    } else {
      var view, keys := MoveLoses(bucket, sourceKey, targetKey);
    }
  }

  /** What goes wrong otherwise: the folder's own key is overwritten by another key of the folder, or by
      itself, and then deleted with the folder. The list holds exactly the visible keys under it. */
  lemma MoveLoses(bucket: Bucket, sourceKey: Key, targetKey: Key) returns (view: View, keys: seq<Key>)
    requires Guarded(sourceKey, targetKey) && !Apart(bucket, bucket, sourceKey, TargetPrefix(true, targetKey))
    ensures Listed(view, bucket, sourceKey, keys) && forall key :: key in keys <==> (bucket, key) in view && sourceKey <= key
    ensures var to := TargetPrefix(true, targetKey);
            !PrefixReplaced(view, CopiedKeys(view, bucket, bucket, true, sourceKey, to, keys, true), bucket, bucket, sourceKey, to, true)
  {
    hide Copied, Less;
    var to := TargetPrefix(true, targetKey);
    GuardedOverlap(bucket, sourceKey, targetKey);
    var step := sourceKey[|to|..];
    var folder, other := (bucket, sourceKey), (bucket, sourceKey + step);
    view := map[other := [2], folder := [1]];
    keys := if step == "" then [sourceKey] else [sourceKey, sourceKey + step];
    assert step == "" ==> sourceKey + step == sourceKey;
    if step != "" {
      PrefixFirst(sourceKey, sourceKey + step);
    }
    assert keys[0] in keys;
    RemovedGone(view, bucket, bucket, sourceKey, to, keys, folder);
    assert Origin(bucket, sourceKey, to, folder) == other;
    var after := CopiedKeys(view, bucket, bucket, true, sourceKey, to, keys, true);
    assert folder !in after;
  }

  /** So every key under the source folder is found under the target, by the same rest of its name. */
  lemma Reappears(before: View, after: View, source: Bucket, target: Bucket, from: Key, to: Key, move: bool, rest: Key)
    requires PrefixReplaced(before, after, source, target, from, to, move) && Apart(source, target, from, to) && (source, from + rest) in before
    ensures (target, to + rest) in after && after[(target, to + rest)] == before[(source, from + rest)]
    ensures move ==> (source, from + rest) !in after
  {
    assert Origin(source, from, to, (target, to + rest)) == (source, from + rest) by { assert (to + rest)[|to|..] == rest; }
    assert (target, to + rest) in after;
    if source == target && to <= from + rest {
      NoCommonKey(from, to, from + rest);
    }
  }

  // ---- A single key ----

  /** Copying one visible key to another sets it, and one under a delete marker changes nothing; a move
      then removes the source. */
  lemma LoneKey(view: View, source: Bucket, target: Bucket, sourceKey: Key, targetKey: Key, move: bool)
    ensures var from := (source, sourceKey);
            var copied := if from in view then view[(target, targetKey) := view[from]] else view;
            CopiedKeys(view, source, target, false, sourceKey, targetKey, [sourceKey], move) == if move then copied - {from} else copied
  {
    assert [sourceKey][..0] == [];
    assert Copied(view, source, target, false, sourceKey, targetKey, []) == view;
  }
}
