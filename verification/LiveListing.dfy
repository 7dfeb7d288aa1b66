/** Listing against the view: the pages of a listing show exactly the keys a client can read. */
module LiveListing {
  import opened Common
  import opened Listing
  import opened Tables
  import Text

  /** The rows behind a listing are the visible keys of the bucket, in byte order. */
  ghost predicate Shows(rows: seq<Row>, live: map<Slot, seq<byte>>, bucket: Bucket)
  {
    && Sorted(rows)
    && (forall i :: 0 <= i < |rows| ==> (bucket, rows[i].key) in live && rows[i].size == |live[(bucket, rows[i].key)]|)
    && (forall key :: (bucket, key) in live ==> exists i :: 0 <= i < |rows| && rows[i].key == key)
  }

  /** A key is asked for by a query's prefix and start. */
  predicate Asked(q: Query, key: string) { q.prefix <= key && (q.startAfter != "" ==> Text.Less(q.startAfter, key)) }

  /** Following the tokens of a fresh listing, whatever the page sizes: a key is shown as itself exactly
      when it is visible, asked for and has no delimiter behind the prefix, and a folder exactly when
      such a visible key is in it. */
  lemma ListShowsLive(rows: seq<Row>, live: map<Slot, seq<byte>>, bucket: Bucket, q: Query, maxKeys: nat -> Option<int>, key: string, name: string)
    requires Shows(rows, live, bucket) && (bucket, "") !in live && q.token == ""
    ensures var shown := EntriesOf(Follow(rows, q, maxKeys, 0));
            && ((exists row :: Leaf(row) in shown && row.key == key)
                <==> (bucket, key) in live && Asked(q, key) && (q.delimiter == "" || !Occurs(key[|q.prefix|..], q.delimiter)))
            && (forall row :: Leaf(row) in shown ==> (bucket, row.key) in live && row.size == |live[(bucket, row.key)]|)
            && (Folder(name) in shown
                <==> q.delimiter != "" && exists k :: (bucket, k) in live && Asked(q, k) && InFolder(k, q.prefix, q.delimiter, name))
            && Ascending(shown)
  {
    hide Collapse, Filter, Text.Less, Follow, EntriesOf, Matching, Occurs, InFolder;
    var shown, matching := EntriesOf(Follow(rows, q, maxKeys, 0)), Matching(rows, q.prefix, q.startAfter, "");
    FollowDeliversAll(rows, q, maxKeys, 0);
    MatchingTable(rows, q.prefix, q.startAfter, "");
    assert shown == Collapse(matching, q.prefix, q.delimiter);
    CollapseAscending(matching, q.prefix, q.delimiter);
    MatchingAsked(rows, q);
    forall row
      ensures Leaf(row) in shown <==> row in matching && (q.delimiter == "" || !Occurs(row.key[|q.prefix|..], q.delimiter))
    {
      CollapseShows(matching, q.prefix, q.delimiter, row, name);
    }
    CollapseShows(matching, q.prefix, q.delimiter, Row("", 0, ""), name);
    MatchingLive(rows, live, bucket, q);
  }

  lemma MatchingAsked(rows: seq<Row>, q: Query)
    ensures forall row :: row in Matching(rows, q.prefix, q.startAfter, "") <==> row in rows && Asked(q, row.key)
  {
    hide Filter, Text.Less;
    forall row: Row
      ensures row in Matching(rows, q.prefix, q.startAfter, "") <==> row in rows && Asked(q, row.key)
    {
      Text.LikePrefixExact(row.key, q.prefix);
    }
  }

  /** The selected rows are those of the visible keys asked for. */
  lemma MatchingLive(rows: seq<Row>, live: map<Slot, seq<byte>>, bucket: Bucket, q: Query)
    requires Shows(rows, live, bucket)
    ensures var matching := Matching(rows, q.prefix, q.startAfter, "");
            && (forall row :: row in matching ==> (bucket, row.key) in live && Asked(q, row.key) && row.size == |live[(bucket, row.key)]|)
            && (forall key :: (bucket, key) in live && Asked(q, key) ==> exists i :: 0 <= i < |matching| && matching[i].key == key)
  {
    hide Filter, Text.Less, Matching;
    var matching := Matching(rows, q.prefix, q.startAfter, "");
    MatchingAsked(rows, q);
    forall row | row in matching
      ensures (bucket, row.key) in live && row.size == |live[(bucket, row.key)]|
    {
      var i :| 0 <= i < |rows| && rows[i] == row;
    }
    forall key | (bucket, key) in live && Asked(q, key)
      ensures exists i :: 0 <= i < |matching| && matching[i].key == key
    {
      var i :| 0 <= i < |rows| && rows[i].key == key;
      assert rows[i] in matching;
      var j :| 0 <= j < |matching| && matching[j] == rows[i];
    }
  }
}
