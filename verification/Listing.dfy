/** `ObjectsService.list`: delimited, paginated listing with continuation tokens. The batched
    cursor loop is proved equal to slicing one simple pass over the ordered live keys. */
module Listing {
  import opened Common
  import opened Text

  /** A live key: an object joined with its latest version, which is no delete marker. */
  datatype Row = Row(key: string, size: nat, etag: string)

  datatype Cursor = Cursor(value: string, isPrefix: bool)

  /** Absent and empty parameters mean the same to the source, so both are "". */
  datatype Query = Query(prefix: string, delimiter: string, maxKeys: Option<int>, token: string, startAfter: string)

  datatype ListResult = ListResult(objects: seq<Row>, commonPrefixes: seq<string>, isTruncated: bool, nextToken: string)

  const DEFAULT_MAX_KEYS := 1000
  const MAX_KEYS_LIMIT := 1000

  function ResolveLimit(requested: Option<int>): (limit: nat)
    ensures 1 <= limit <= 1000
    ensures requested.Some? && 1 <= requested.value <= 1000 ==> limit == requested.value
    ensures requested.None? || requested.value < 1 || requested.value > 1000 ==> limit == 1000
  {
    if requested.None? || requested.value < 1 then DEFAULT_MAX_KEYS else Min(requested.value, MAX_KEYS_LIMIT)
  }

  // ---- Continuation tokens ----

  function EncodeToken(cursor: Cursor): string
  {
    (if cursor.isPrefix then "p" else "k") + ":" + cursor.value
  }

  function DecodeToken(token: string): Option<Cursor>
  {
    var separator := IndexOf(token, ":");
    if separator != Some(1) then None else Some(Cursor(token[2..], token[0] == 'p'))
  }

  lemma TokenRoundTrip(cursor: Cursor)
    ensures DecodeToken(EncodeToken(cursor)) == Some(cursor)
  {
    var token := EncodeToken(cursor);
    assert token[1] == ':' && token[..1] == (if cursor.isPrefix then "p" else "k");
    assert ":" <= token[1..] && !(":" <= token);
    assert IndexOf(token[1..], ":") == Some(0);
  }

  /** A token is read exactly when it is one character, a colon and the value; `p` marks a folder. */
  lemma DecodeTokenExact(token: string, cursor: Cursor)
    ensures DecodeToken(token) == Some(cursor)
            <==> exists mark: char :: mark != ':' && token == [mark] + ":" + cursor.value && (cursor.isPrefix <==> mark == 'p')
  {
    hide IndexOf;
    IndexOfExact(token, ":");
    assert OccursAt(token, ":", 1) <==> |token| > 1 && token[1] == ':';
    assert OccursAt(token, ":", 0) <==> |token| > 0 && token[0] == ':';
    if |token| > 1 && token[1] == ':' {
      MarkedCut(token);
    }
    if mark: char :| mark != ':' && token == [mark] + ":" + cursor.value {
      MarkedParts(mark, cursor.value);
    }
  }

  lemma MarkedCut(token: string)
    requires |token| > 1 && token[1] == ':'
    ensures token == [token[0]] + ":" + token[2..]
  {}

  lemma MarkedParts(mark: char, value: string)
    ensures var token := [mark] + ":" + value; token[0] == mark && token[1] == ':' && token[2..] == value
  {}

  // ---- Common prefixes ----

  /** `String.indexOf` for a non-empty needle. */
  function IndexOf(text: string, needle: string): (index: Option<nat>)
    ensures index.Some? ==> index.value + |needle| <= |text| && needle <= text[index.value..]
  {
    if needle <= text then Some(0)
    else if text == [] then None
    else match IndexOf(text[1..], needle)
      case Some(i) => Some(i + 1)
      case None => None
  }

  function CommonPrefixOf(key: string, prefix: string, delimiter: string): Option<string>
    requires |prefix| <= |key|
  {
    var rest := key[|prefix|..];
    match IndexOf(rest, delimiter)
    case None => None
    case Some(index) => Some(prefix + rest[..index + |delimiter|])
  }

  predicate OccursAt(text: string, needle: string, i: nat) { i + |needle| <= |text| && text[i..i + |needle|] == needle }

  ghost predicate Occurs(text: string, needle: string) { exists i: nat :: OccursAt(text, needle, i) }

  /** The name is made of the prefix, this stem and the delimiter, and the delimiter does not start
      earlier behind the prefix. */
  ghost predicate HasStem(key: string, prefix: string, delimiter: string, name: string, stem: string)
    requires prefix <= key
  {
    && name == prefix + stem + delimiter && name <= key
    && forall i: nat :: i < |stem| ==> !OccursAt(key[|prefix|..], delimiter, i)
  }

  /** The folder a key is shown under: the prefix, what stands between it and the first delimiter
      behind it, and that delimiter. */
  ghost predicate InFolder(key: string, prefix: string, delimiter: string, name: string)
    requires prefix <= key
  {
    exists stem: string :: HasStem(key, prefix, delimiter, name, stem)
  }

  lemma {:induction false} IndexOfExact(text: string, needle: string)
    ensures IndexOf(text, needle).None? <==> !Occurs(text, needle)
    ensures IndexOf(text, needle).Some? ==> OccursAt(text, needle, IndexOf(text, needle).value)
    ensures IndexOf(text, needle).Some? ==> forall j: nat :: j < IndexOf(text, needle).value ==> !OccursAt(text, needle, j)
  {
    assert needle <= text <==> OccursAt(text, needle, 0);
    if !(needle <= text) && text != [] {
      IndexOfExact(text[1..], needle);
      forall i: nat
        ensures OccursAt(text, needle, i + 1) <==> OccursAt(text[1..], needle, i)
      {
        if i + |needle| <= |text[1..]| {
          assert text[i + 1..i + 1 + |needle|] == text[1..][i..i + |needle|];
        }
      }
      forall j: nat | j > 0
        ensures OccursAt(text, needle, j) <==> OccursAt(text[1..], needle, j - 1)
      {
        assert j == (j - 1) + 1;
      }
    }
  }

  /** A key has no folder if and only if the delimiter is nowhere behind the prefix; otherwise it has
      exactly one, up to the first delimiter. */
  lemma CommonPrefixExact(key: string, prefix: string, delimiter: string, name: string)
    requires prefix <= key && delimiter != ""
    ensures CommonPrefixOf(key, prefix, delimiter) == None <==> !Occurs(key[|prefix|..], delimiter)
    ensures CommonPrefixOf(key, prefix, delimiter) == Some(name) <==> InFolder(key, prefix, delimiter, name)
  {
    hide IndexOf, OccursAt, HasStem;
    var rest := key[|prefix|..];
    IndexOfExact(rest, delimiter);
    match IndexOf(rest, delimiter) {
      case Some(index) =>
        FirstFolder(key, prefix, delimiter, index);
        if stem: string :| HasStem(key, prefix, delimiter, name, stem) {
          OneFolder(key, prefix, delimiter, name, stem, index);
        }
      case None =>
        if stem: string :| HasStem(key, prefix, delimiter, name, stem) {
          FolderOccurs(key, prefix, delimiter, name, stem);
        }
    }
  }

  lemma FolderOccurs(key: string, prefix: string, delimiter: string, name: string, stem: string)
    requires prefix <= key && HasStem(key, prefix, delimiter, name, stem)
    ensures OccursAt(key[|prefix|..], delimiter, |stem|)
    ensures prefix + key[|prefix|..][..|stem| + |delimiter|] == name
  {
    var n, m := |prefix| + |stem|, |name|;
    assert key[..m] == name;
    assert key[n..m] == name[n..] == delimiter;
    assert key[|prefix|..][|stem|..|stem| + |delimiter|] == key[n..m];
    assert key[|prefix|..][..|stem| + |delimiter|] == key[|prefix|..m] == name[|prefix|..];
  }

  lemma OneFolder(key: string, prefix: string, delimiter: string, name: string, stem: string, index: nat)
    requires prefix <= key && HasStem(key, prefix, delimiter, name, stem)
    requires OccursAt(key[|prefix|..], delimiter, index) && forall j: nat :: j < index ==> !OccursAt(key[|prefix|..], delimiter, j)
    ensures prefix + key[|prefix|..][..index + |delimiter|] == name
  {
    FolderOccurs(key, prefix, delimiter, name, stem);
    assert !(index < |stem|) && !(|stem| < index);
  }

  lemma FirstFolder(key: string, prefix: string, delimiter: string, index: nat)
    requires prefix <= key && OccursAt(key[|prefix|..], delimiter, index)
    requires forall j: nat :: j < index ==> !OccursAt(key[|prefix|..], delimiter, j)
    ensures InFolder(key, prefix, delimiter, prefix + key[|prefix|..][..index + |delimiter|])
  {
    var rest := key[|prefix|..];
    var stem, cut := rest[..index], index + |delimiter|;
    assert rest[..cut] == stem + rest[index..cut];
    var name := prefix + rest[..cut];
    assert name == prefix + stem + delimiter;
    assert key[..|prefix| + cut] == name;
    assert HasStem(key, prefix, delimiter, name, stem);
  }

  /** The first occurrence only depends on the text up to its own end. */
  lemma {:induction false} IndexOfStable(text: string, other: string, needle: string)
    requires IndexOf(text, needle).Some?
    requires text[..IndexOf(text, needle).value + |needle|] <= other
    ensures IndexOf(other, needle) == IndexOf(text, needle)
  {
    var cut := IndexOf(text, needle).value + |needle|;
    if needle <= text {
      assert needle == text[..cut];
    } else {
      assert text[1..][..cut - 1] == text[..cut][1..];
      assert other[..cut] == text[..cut];
      assert other[1..][..cut - 1] == other[..cut][1..];
      IndexOfStable(text[1..], other[1..], needle);
      if needle <= other {
        assert false;
      }
    }
  }

  /** A folder swallows exactly the keys below it: every key that extends a common prefix
      collapses to that same common prefix. */
  lemma FolderSwallows(key: string, other: string, prefix: string, delimiter: string)
    requires prefix <= key && CommonPrefixOf(key, prefix, delimiter).Some?
    requires CommonPrefixOf(key, prefix, delimiter).value <= other
    ensures prefix <= other && CommonPrefixOf(key, prefix, delimiter).value <= key
    ensures CommonPrefixOf(other, prefix, delimiter) == CommonPrefixOf(key, prefix, delimiter)
  {
    hide IndexOf;
    var rest := key[|prefix|..];
    var folder := rest[..IndexOf(rest, delimiter).value + |delimiter|];
    Extends(prefix, folder, other);
    Extended(prefix, rest, folder);
    IndexOfStable(rest, other[|prefix|..], delimiter);
    assert other[|prefix|..][..|folder|] == folder;
  }

  lemma Extends(prefix: string, middle: string, text: string)
    requires prefix + middle <= text
    ensures prefix <= text && middle <= text[|prefix|..]
  {
    assert text[..|prefix| + |middle|] == prefix + middle;
    assert text[..|prefix|] == (prefix + middle)[..|prefix|] == prefix;
    assert text[|prefix|..][..|middle|] == (prefix + middle)[|prefix|..] == middle;
  }

  lemma Extended(prefix: string, rest: string, start: string)
    requires start <= rest
    ensures prefix + start <= prefix + rest
  {
    assert (prefix + rest)[..|prefix| + |start|] == prefix + rest[..|start|];
  }

  // ---- Reference: one pass over the ordered keys ----

  datatype Entry = Leaf(row: Row) | Folder(name: string)

  function EntryText(e: Entry): string
  {
    match e case Leaf(row) => row.key case Folder(name) => name
  }

  ghost predicate Sorted(rows: seq<Row>)
  {
    forall i, j :: 0 <= i < j < |rows| ==> Less(rows[i].key, rows[j].key)
  }

  ghost predicate Under(rows: seq<Row>, prefix: string)
  {
    forall i :: 0 <= i < |rows| ==> prefix <= rows[i].key
  }

  function EntryOf(row: Row, prefix: string, delimiter: string): Entry
    requires prefix <= row.key
  {
    if delimiter == "" then Leaf(row)
    else match CommonPrefixOf(row.key, prefix, delimiter)
      case None => Leaf(row)
      case Some(name) => Folder(name)
  }

  /** What a client should see: each key turned into its entry, repeated folders written once. */
  function Collapse(rows: seq<Row>, prefix: string, delimiter: string): seq<Entry>
    requires Under(rows, prefix)
  {
    if rows == [] then []
    else
      var e := EntryOf(rows[0], prefix, delimiter);
      var rest := Collapse(rows[1..], prefix, delimiter);
      if rest != [] && rest[0] == e then rest else [e] + rest
  }

  function Leaves(es: seq<Entry>): seq<Row>
  {
    if es == [] then []
    else (if es[0].Leaf? then [es[0].row] else []) + Leaves(es[1..])
  }

  function Folders(es: seq<Entry>): seq<string>
  {
    if es == [] then []
    else (if es[0].Folder? then [es[0].name] else []) + Folders(es[1..])
  }

  lemma {:induction false} LeavesConcat(es: seq<Entry>, fs: seq<Entry>)
    ensures Leaves(es + fs) == Leaves(es) + Leaves(fs)
  {
    if es == [] {
      assert es + fs == fs;
    } else {
      assert (es + fs)[1..] == es[1..] + fs && (es + fs)[0] == es[0];
      LeavesConcat(es[1..], fs);
    }
  }

  lemma {:induction false} FoldersConcat(es: seq<Entry>, fs: seq<Entry>)
    ensures Folders(es + fs) == Folders(es) + Folders(fs)
  {
    if es == [] {
      assert es + fs == fs;
    } else {
      assert (es + fs)[1..] == es[1..] + fs && (es + fs)[0] == es[0];
      FoldersConcat(es[1..], fs);
    }
  }

  lemma LeavesFoldersConcat(es: seq<Entry>, fs: seq<Entry>)
    ensures Leaves(es + fs) == Leaves(es) + Leaves(fs)
    ensures Folders(es + fs) == Folders(es) + Folders(fs)
  {
    LeavesConcat(es, fs);
    FoldersConcat(es, fs);
  }

  /** Every entry is listed in one of the two lists. */
  lemma {:induction false} LeavesFoldersExact(es: seq<Entry>)
    ensures forall row :: row in Leaves(es) <==> Leaf(row) in es
    ensures forall name :: name in Folders(es) <==> Folder(name) in es
    ensures |Leaves(es)| + |Folders(es)| == |es|
  {
    if es != [] {
      LeavesFoldersExact(es[1..]);
      assert es == [es[0]] + es[1..];
    }
  }

  lemma LeavesFoldersSnoc(es: seq<Entry>, e: Entry)
    ensures Leaves(es + [e]) == if e.Leaf? then Leaves(es) + [e.row] else Leaves(es)
    ensures Folders(es + [e]) == if e.Folder? then Folders(es) + [e.name] else Folders(es)
  {
    LeavesFoldersConcat(es, [e]);
    assert Leaves([e]) == if e.Leaf? then [e.row] else [];
    assert Folders([e]) == if e.Folder? then [e.name] else [];
  }

  // ---- The query behind each batch ----

  predicate Selected(key: string, prefix: string, cursor: string, exclude: string)
  {
    && (prefix != "" ==> LikePrefix(key, prefix))
    && (cursor != "" ==> Less(cursor, key))
    && (exclude != "" ==> !LikePrefix(key, exclude))
  }

  function Selector(prefix: string, cursor: string, exclude: string): Row -> bool
  {
    (row: Row) => Selected(row.key, prefix, cursor, exclude)
  }

  function Matching(rows: seq<Row>, prefix: string, cursor: string, exclude: string): seq<Row>
  {
    Filter(rows, Selector(prefix, cursor, exclude))
  }

  function FetchLatestVersions(rows: seq<Row>, prefix: string, cursor: string, exclude: string, limit: nat): seq<Row>
  {
    var matching := Matching(rows, prefix, cursor, exclude);
    matching[..Min(limit, |matching|)]
  }

  /** The live keys of one bucket, in byte order; `put` refuses the empty key. */
  ghost predicate Table(rows: seq<Row>)
  {
    Sorted(rows) && forall row :: row in rows ==> row.key != ""
  }

  /** Where the loop and its tokens stand: an excluded folder never lies ahead of the cursor. */
  ghost predicate Position(cursor: string, exclude: string)
  {
    exclude == "" || exclude == cursor || Less(exclude, cursor)
  }

  lemma {:induction false} FilterSorted(rows: seq<Row>, keep: Row -> bool)
    requires Sorted(rows)
    ensures Sorted(Filter(rows, keep))
  {
    if rows != [] {
      FilterSorted(rows[1..], keep);
      var rest := Filter(rows[1..], keep);
      forall j | 0 <= j < |rest|
        ensures Less(rows[0].key, rest[j].key)
      {
        assert rest[j] in rows[1..];
      }
    }
  }

  lemma MatchingTable(rows: seq<Row>, prefix: string, cursor: string, exclude: string)
    requires Table(rows)
    ensures Table(Matching(rows, prefix, cursor, exclude))
    ensures Under(Matching(rows, prefix, cursor, exclude), prefix)
  {
    var matching := Matching(rows, prefix, cursor, exclude);
    FilterSorted(rows, Selector(prefix, cursor, exclude));
    forall i | 0 <= i < |matching|
      ensures prefix <= matching[i].key
    {
      assert matching[i] in matching;
      LikePrefixExact(matching[i].key, prefix);
    }
  }

  function Above(key: string): Row -> bool { (row: Row) => Less(key, row.key) }

  function Outside(folder: string): Row -> bool { (row: Row) => !(folder <= row.key) }

  lemma AboveFirst(rows: seq<Row>)
    requires Sorted(rows) && rows != []
    ensures Filter(rows, Above(rows[0].key)) == rows[1..]
  {
    LessIrreflexive(rows[0].key);
    FilterAll(rows[1..], Above(rows[0].key));
  }

  /** Collapsing a run that opens with a folder writes the folder once and goes on behind it. */
  lemma {:induction false} CollapseFolder(rows: seq<Row>, prefix: string, delimiter: string, folder: string)
    requires Sorted(rows) && Under(rows, prefix) && rows != []
    requires EntryOf(rows[0], prefix, delimiter) == Folder(folder)
    ensures folder <= rows[0].key
    ensures Under(Filter(rows, Outside(folder)), prefix)
    ensures Collapse(rows, prefix, delimiter) == [Folder(folder)] + Collapse(Filter(rows, Outside(folder)), prefix, delimiter)
  {
    var tail := rows[1..];
    FolderAbove(rows[0].key, prefix, delimiter);
    forall i | 0 <= i < |Filter(rows, Outside(folder))|
      ensures prefix <= Filter(rows, Outside(folder))[i].key
    {
      assert Filter(rows, Outside(folder))[i] in rows;
    }
    if tail != [] {
      if folder <= tail[0].key {
        FolderSwallows(rows[0].key, tail[0].key, prefix, delimiter);
        CollapseFolder(tail, prefix, delimiter, folder);
      } else {
        forall row | row in tail
          ensures !(folder <= row.key)
        {
          FolderBehind(rows, folder, row);
        }
        FilterAll(tail, Outside(folder));
        if EntryOf(tail[0], prefix, delimiter) == Folder(folder) {
          FolderAbove(tail[0].key, prefix, delimiter);
        }
      }
    }
  }

  lemma FolderAbove(key: string, prefix: string, delimiter: string)
    requires prefix <= key && CommonPrefixOf(key, prefix, delimiter).Some?
    ensures CommonPrefixOf(key, prefix, delimiter).value <= key
  {
    var cut := IndexOf(key[|prefix|..], delimiter).value + |delimiter|;
    assert key[..|prefix| + cut] == prefix + key[|prefix|..][..cut];
  }

  /** Once the order has left a folder it never returns to it. */
  lemma FolderBehind(rows: seq<Row>, folder: string, row: Row)
    requires Sorted(rows) && |rows| > 1 && folder <= rows[0].key && !(folder <= rows[1].key)
    requires row in rows[1..]
    ensures !(folder <= row.key)
  {
    FolderPrecedes(folder, rows[0].key, rows[1].key);
    if folder <= row.key {
      PrefixBelow(folder, row.key, rows[1].key);
      LessAsymmetric(row.key, rows[1].key);
      LessIrreflexive(row.key);
    }
  }

  lemma FolderPrecedes(folder: string, inside: string, later: string)
    requires folder <= inside && Less(inside, later)
    ensures Less(folder, later)
  {
    if folder != inside {
      PrefixFirst(folder, inside);
      LessTransitive(folder, inside, later);
    }
  }

  /** A selected key stays selected for every later position of the cursor. */
  lemma LaterSelected(cursor: string, exclude: string, key: string, later: string, prefix: string)
    requires Position(cursor, exclude) && Selected(key, prefix, cursor, exclude)
    requires Less(key, later) && (prefix != "" ==> LikePrefix(later, prefix))
    ensures Selected(later, prefix, cursor, exclude)
  {
    if cursor != "" {
      LessTransitive(cursor, key, later);
    }
    if exclude != "" {
      LikePrefixExact(key, exclude);
      LikePrefixExact(later, exclude);
      if exclude <= later {
        if exclude != cursor {
          LessTransitive(exclude, cursor, key);
        }
        PrefixBelow(exclude, later, key);
        LessAsymmetric(key, later);
      }
    }
  }

  lemma CollapseLeaf(rows: seq<Row>, prefix: string, delimiter: string)
    requires Sorted(rows) && Under(rows, prefix) && rows != []
    requires EntryOf(rows[0], prefix, delimiter).Leaf?
    ensures Collapse(rows, prefix, delimiter) == [Leaf(rows[0])] + Collapse(rows[1..], prefix, delimiter)
  {
    LessIrreflexive(rows[0].key);
  }

  /** The part of the one-pass result still to come when the cursor stands at a position. */
  function Upcoming(rows: seq<Row>, prefix: string, delimiter: string, cursor: string, exclude: string): seq<Entry>
    requires Under(Matching(rows, prefix, cursor, exclude), prefix)
  {
    Collapse(Matching(rows, prefix, cursor, exclude), prefix, delimiter)
  }

  /** The step everything rests on: the next entry of the one-pass result is the entry of the next
      selected row, and repositioning behind that entry selects exactly the rows of the rest. */
  lemma Advance(rows: seq<Row>, prefix: string, delimiter: string, cursor: string, exclude: string)
    requires Table(rows) && Position(cursor, exclude)
    requires Matching(rows, prefix, cursor, exclude) != []
    ensures Under(Matching(rows, prefix, cursor, exclude), prefix)
    ensures var e := EntryOf(Matching(rows, prefix, cursor, exclude)[0], prefix, delimiter);
            var exclude' := if e.Folder? then e.name else "";
            && EntryText(e) != ""
            && Under(Matching(rows, prefix, EntryText(e), exclude'), prefix)
            && Upcoming(rows, prefix, delimiter, cursor, exclude)
               == [e] + Upcoming(rows, prefix, delimiter, EntryText(e), exclude')
  {
    MatchingTable(rows, prefix, cursor, exclude);
    var matching := Matching(rows, prefix, cursor, exclude);
    var first := matching[0];
    assert first in matching && first in rows;
    match EntryOf(first, prefix, delimiter) {
      case Folder(name) =>
        FolderEntry(rows, prefix, delimiter, cursor, exclude, name);
      case Leaf(_) =>
        LeafEntry(rows, prefix, cursor, exclude, "");
        CollapseLeaf(matching, prefix, delimiter);
    }
  }

  lemma LeafEntry(rows: seq<Row>, prefix: string, cursor: string, exclude: string, exclude': string)
    requires Table(rows) && Position(cursor, exclude)
    requires Matching(rows, prefix, cursor, exclude) != []
    requires exclude' == exclude || exclude' == ""
    ensures Matching(rows, prefix, Matching(rows, prefix, cursor, exclude)[0].key, exclude') == Matching(rows, prefix, cursor, exclude)[1..]
  {
    MatchingTable(rows, prefix, cursor, exclude);
    var matching := Matching(rows, prefix, cursor, exclude);
    var first := matching[0];
    assert first in matching && first in rows;
    var here, next := Selector(prefix, cursor, exclude), Selector(prefix, first.key, exclude');
    forall row | row in rows && next(row)
      ensures here(row)
    {
      LaterSelected(cursor, exclude, first.key, row.key, prefix);
    }
    FilterNarrow(rows, here, next);
    FilterAgree(matching, next, Above(first.key));
    AboveFirst(matching);
  }

  lemma FolderEntry(rows: seq<Row>, prefix: string, delimiter: string, cursor: string, exclude: string, name: string)
    requires Table(rows) && Position(cursor, exclude)
    requires Matching(rows, prefix, cursor, exclude) != []
    requires Under(Matching(rows, prefix, cursor, exclude), prefix)
    requires EntryOf(Matching(rows, prefix, cursor, exclude)[0], prefix, delimiter) == Folder(name)
    ensures name != ""
    ensures Under(Matching(rows, prefix, name, name), prefix)
    ensures Collapse(Matching(rows, prefix, cursor, exclude), prefix, delimiter)
            == [Folder(name)] + Collapse(Matching(rows, prefix, name, name), prefix, delimiter)
  {
    MatchingTable(rows, prefix, cursor, exclude);
    var matching := Matching(rows, prefix, cursor, exclude);
    var first := matching[0];
    assert first in matching && first in rows;
    FolderAbove(first.key, prefix, delimiter);
    var here, next := Selector(prefix, cursor, exclude), Selector(prefix, name, name);
    forall row | row in rows && next(row)
      ensures here(row)
    {
      LikePrefixExact(row.key, name);
      PrefixBelow(name, first.key, row.key);
      LaterSelected(cursor, exclude, first.key, row.key, prefix);
    }
    FilterNarrow(rows, here, next);
    forall row | row in matching
      ensures next(row) == Outside(name)(row)
    {
      LikePrefixExact(row.key, name);
      if !(name <= row.key) {
        var i :| 0 <= i < |matching| && matching[i] == row;
        assert i != 0;
        FolderPrecedes(name, first.key, row.key);
      }
    }
    FilterAgree(matching, next, Outside(name));
    CollapseFolder(matching, prefix, delimiter, name);
  }

  // ---- Pages ----

  datatype Page = Page(entries: seq<Entry>, isTruncated: bool, nextToken: string)

  function CursorOf(e: Entry): Cursor { Cursor(EntryText(e), e.Folder?) }

  /** Where a request starts: a readable token wins over `startAfter`. */
  function StartCursor(q: Query): string
  {
    match (if q.token != "" then DecodeToken(q.token) else None)
    case Some(resumed) => resumed.value
    case None => q.startAfter
  }

  function StartExclude(q: Query): string
  {
    match (if q.token != "" then DecodeToken(q.token) else None)
    case Some(resumed) => if resumed.isPrefix then resumed.value else ""
    case None => ""
  }

  /** Everything a request and its successors have to deliver: the one-pass result behind its start. */
  function Wanted(rows: seq<Row>, q: Query): seq<Entry>
    requires Table(rows)
  {
    MatchingTable(rows, q.prefix, StartCursor(q), StartExclude(q));
    Upcoming(rows, q.prefix, q.delimiter, StartCursor(q), StartExclude(q))
  }

  /** A page is the first `limit` entries wanted, truncated exactly when more are left. */
  function PageOf(rows: seq<Row>, q: Query): Page
    requires Table(rows)
  {
    var limit := ResolveLimit(q.maxKeys);
    var wanted := Wanted(rows, q);
    if |wanted| <= limit then Page(wanted, false, "")
    else Page(wanted[..limit], true, EncodeToken(CursorOf(wanted[limit - 1])))
  }

  function Resumed(q: Query, nextToken: string): Query { q.(token := nextToken) }

  /** After any number of entries, the token of the last one resumes with exactly the rest. */
  lemma {:induction false} ResumeExact(rows: seq<Row>, prefix: string, delimiter: string, cursor: string, exclude: string, n: nat)
    requires Table(rows) && Position(cursor, exclude)
    requires Under(Matching(rows, prefix, cursor, exclude), prefix)
    requires n < |Upcoming(rows, prefix, delimiter, cursor, exclude)|
    ensures var e := Upcoming(rows, prefix, delimiter, cursor, exclude)[n];
            var exclude' := if e.Folder? then e.name else "";
            && EntryText(e) != ""
            && Under(Matching(rows, prefix, EntryText(e), exclude'), prefix)
            && Upcoming(rows, prefix, delimiter, EntryText(e), exclude')
               == Upcoming(rows, prefix, delimiter, cursor, exclude)[n + 1..]
    decreases n
  {
    Advance(rows, prefix, delimiter, cursor, exclude);
    var wanted := Upcoming(rows, prefix, delimiter, cursor, exclude);
    if n > 0 {
      var e := wanted[0];
      var exclude' := if e.Folder? then e.name else "";
      ResumeExact(rows, prefix, delimiter, EntryText(e), exclude', n - 1);
      assert wanted[1..][n - 1] == wanted[n] && wanted[1..][n..] == wanted[n + 1..];
    }
  }

  lemma TokenStart(q: Query, e: Entry)
    ensures var next := Resumed(q, EncodeToken(CursorOf(e)));
            && StartCursor(next) == EntryText(e)
            && StartExclude(next) == (if e.Folder? then e.name else "")
  {
    TokenRoundTrip(CursorOf(e));
  }

  lemma NextWanted(rows: seq<Row>, q: Query)
    requires Table(rows) && PageOf(rows, q).isTruncated
    ensures Wanted(rows, q) == PageOf(rows, q).entries + Wanted(rows, Resumed(q, PageOf(rows, q).nextToken))
    ensures |PageOf(rows, q).entries| == ResolveLimit(q.maxKeys)
  {
    var n := ResolveLimit(q.maxKeys) - 1;
    MatchingTable(rows, q.prefix, StartCursor(q), StartExclude(q));
    var wanted := Wanted(rows, q);
    var e := wanted[n];
    ResumeExact(rows, q.prefix, q.delimiter, StartCursor(q), StartExclude(q), n);
    TokenStart(q, e);
    NextWantedHelper(rows, q, e, wanted, n);
  }

  lemma NextWantedHelper(rows: seq<Row>, q: Query, e: Entry, wanted: seq<Entry>, n: nat)
    requires Table(rows) && n < |wanted|
    requires Under(Matching(rows, q.prefix, EntryText(e), if e.Folder? then e.name else ""), q.prefix)
    requires Upcoming(rows, q.prefix, q.delimiter, EntryText(e), if e.Folder? then e.name else "") == wanted[n + 1..]
    requires StartCursor(Resumed(q, EncodeToken(CursorOf(e)))) == EntryText(e)
    requires StartExclude(Resumed(q, EncodeToken(CursorOf(e)))) == (if e.Folder? then e.name else "")
    ensures wanted == wanted[..n + 1] + Wanted(rows, Resumed(q, EncodeToken(CursorOf(e))))
  {}

  /** The pages a client collects by following tokens, asking `maxKeys(i)` of the i-th page. */
  function Follow(rows: seq<Row>, q: Query, maxKeys: nat -> Option<int>, i: nat): (pages: seq<Page>)
    requires Table(rows)
    decreases |Wanted(rows, q)|
  {
    var asked := q.(maxKeys := maxKeys(i));
    var page := PageOf(rows, asked);
    if !page.isTruncated then [page]
    else
      NextWanted(rows, asked);
      [page] + Follow(rows, Resumed(asked, page.nextToken), maxKeys, i + 1)
  }

  function EntriesOf(pages: seq<Page>): seq<Entry>
  {
    if pages == [] then [] else pages[0].entries + EntriesOf(pages[1..])
  }

  /** Every page keeps its own limit, and only the last one says that nothing is left. */
  ghost predicate Orderly(pages: seq<Page>, maxKeys: nat -> Option<int>, i: nat)
  {
    && pages != []
    && |pages[0].entries| <= ResolveLimit(maxKeys(i))
    && (pages[0].isTruncated <==> |pages| > 1)
    && (|pages| > 1 ==> Orderly(pages[1..], maxKeys, i + 1))
  }

  /** Following tokens delivers the one-pass result: nothing lost, repeated or reordered, whatever
      the page sizes. (That it ends at all is the termination of `Follow`.) */
  lemma {:induction false} FollowDeliversAll(rows: seq<Row>, q: Query, maxKeys: nat -> Option<int>, i: nat)
    requires Table(rows)
    ensures EntriesOf(Follow(rows, q, maxKeys, i)) == Wanted(rows, q)
    ensures Orderly(Follow(rows, q, maxKeys, i), maxKeys, i)
    decreases |Wanted(rows, q)|
  {
    var asked := q.(maxKeys := maxKeys(i));
    var page := PageOf(rows, asked);
    var pages := Follow(rows, q, maxKeys, i);
    assert Wanted(rows, asked) == Wanted(rows, q);
    if page.isTruncated {
      NextWanted(rows, asked);
      var next := Resumed(asked, page.nextToken);
      FollowDeliversAll(rows, next, maxKeys, i + 1);
      assert pages == [page] + Follow(rows, next, maxKeys, i + 1);
      assert pages[1..] == Follow(rows, next, maxKeys, i + 1);
    } else {
      assert pages == [page];
      assert EntriesOf(pages[1..]) == [];
    }
  }

  ghost predicate Ascending(es: seq<Entry>)
  {
    forall i, j :: 0 <= i < j < |es| ==> Less(EntryText(es[i]), EntryText(es[j]))
  }

  /** The one-pass result is strictly ascending - so every leaf key and every common prefix stands
      in it once, in byte order. */
  lemma {:induction false} CollapseAscending(rows: seq<Row>, prefix: string, delimiter: string)
    requires Sorted(rows) && Under(rows, prefix)
    ensures Ascending(Collapse(rows, prefix, delimiter))
    ensures rows != [] ==> Collapse(rows, prefix, delimiter) != []
    ensures rows != [] ==> Collapse(rows, prefix, delimiter)[0] == EntryOf(rows[0], prefix, delimiter)
  {
    if rows != [] {
      var tail := rows[1..];
      var e := EntryOf(rows[0], prefix, delimiter);
      var rest := Collapse(tail, prefix, delimiter);
      CollapseAscending(tail, prefix, delimiter);
      if tail == [] {
        assert rest == [];
      } else if rest[0] != e {
        EntryOrder(rows[0], tail[0], prefix, delimiter);
        AscendingCons(e, rest);
      }
    }
  }

  lemma AscendingCons(e: Entry, rest: seq<Entry>)
    requires Ascending(rest) && rest != [] && Less(EntryText(e), EntryText(rest[0]))
    ensures Ascending([e] + rest)
  {
    forall j | 0 <= j < |rest|
      ensures Less(EntryText(e), EntryText(rest[j]))
    {
      if j > 0 {
        LessTransitive(EntryText(e), EntryText(rest[0]), EntryText(rest[j]));
      }
    }
  }

  /** ... and it consists of exactly the entries of the keys. */
  lemma {:induction false} CollapseExact(rows: seq<Row>, prefix: string, delimiter: string, e: Entry)
    requires Under(rows, prefix)
    ensures e in Collapse(rows, prefix, delimiter) <==>
            exists i :: 0 <= i < |rows| && EntryOf(rows[i], prefix, delimiter) == e
  {
    if rows != [] {
      var tail := rows[1..];
      CollapseExact(tail, prefix, delimiter, e);
      assert forall i :: 0 <= i < |tail| ==> tail[i] == rows[i + 1];
      if i :| 0 <= i < |rows| && EntryOf(rows[i], prefix, delimiter) == e {
        if i > 0 {
          assert EntryOf(tail[i - 1], prefix, delimiter) == e;
        }
      }
    }
  }

  /** In particular: a row is listed as itself exactly when the delimiter is absent or nowhere behind
      the prefix of its key, and a folder is listed exactly when some key is in it. */
  lemma CollapseShows(rows: seq<Row>, prefix: string, delimiter: string, row: Row, name: string)
    requires Under(rows, prefix)
    ensures Leaf(row) in Collapse(rows, prefix, delimiter)
            <==> row in rows && (delimiter == "" || !Occurs(row.key[|prefix|..], delimiter))
    ensures Folder(name) in Collapse(rows, prefix, delimiter)
            <==> delimiter != "" && exists i :: 0 <= i < |rows| && InFolder(rows[i].key, prefix, delimiter, name)
  {
    hide Collapse, CommonPrefixOf, Occurs, InFolder;
    CollapseExact(rows, prefix, delimiter, Leaf(row));
    CollapseExact(rows, prefix, delimiter, Folder(name));
    forall i | 0 <= i < |rows|
      ensures EntryOf(rows[i], prefix, delimiter) == Leaf(row) <==> rows[i] == row && (delimiter == "" || !Occurs(row.key[|prefix|..], delimiter))
      ensures EntryOf(rows[i], prefix, delimiter) == Folder(name) <==> delimiter != "" && InFolder(rows[i].key, prefix, delimiter, name)
    {
      if delimiter != "" {
        CommonPrefixExact(rows[i].key, prefix, delimiter, name);
      }
    }
  }

  lemma EntryOrder(first: Row, second: Row, prefix: string, delimiter: string)
    requires prefix <= first.key && prefix <= second.key && Less(first.key, second.key)
    requires EntryOf(first, prefix, delimiter) != EntryOf(second, prefix, delimiter)
    ensures Less(EntryText(EntryOf(first, prefix, delimiter)), EntryText(EntryOf(second, prefix, delimiter)))
  {
    var e, f := EntryOf(first, prefix, delimiter), EntryOf(second, prefix, delimiter);
    if e.Folder? {
      FolderAbove(first.key, prefix, delimiter);
      FolderPrecedes(e.name, first.key, second.key);
    }
    assert Less(EntryText(e), second.key);
    if f.Folder? {
      FolderAbove(second.key, prefix, delimiter);
      LessTotal(EntryText(e), f.name);
      LessIrreflexive(first.key);
      // Otherwise e's text would lie between the folder and one of its keys, hence below it.
      if f.name <= EntryText(e) {
        if e.Folder? {
          FolderSwallows(second.key, first.key, prefix, delimiter) by { PrefixTrans(f.name, e.name, first.key); }
        } else {
          FolderSwallows(second.key, first.key, prefix, delimiter);
        }
      } else if Less(f.name, EntryText(e)) {
        PrefixBelow(f.name, second.key, EntryText(e));
        LessAsymmetric(second.key, EntryText(e));
      }
    }
  }

  lemma PrefixTrans(a: string, b: string, c: string)
    requires a <= b && b <= c
    ensures a <= c
  {}

  // ---- The listing loop ----

  /** The loop's invariant: what was emitted, followed by what the cursor still selects, is what
      is wanted; the result lists and the last position are those of the emitted entries. */
  ghost predicate Delivered(rows: seq<Row>, q: Query, wanted: seq<Entry>, emitted: seq<Entry>, selected: seq<Row>, cursor: string,
                            exclude: string, objects: seq<Row>, commonPrefixes: seq<string>, last: Option<Cursor>)
  {
    && Table(rows) && Position(cursor, exclude)
    && selected == Matching(rows, q.prefix, cursor, exclude)
    && Under(selected, q.prefix)
    && wanted == emitted + Collapse(selected, q.prefix, q.delimiter)
    && objects == Leaves(emitted) && commonPrefixes == Folders(emitted)
    && last == (if emitted == [] then None else Some(CursorOf(emitted[|emitted| - 1])))
  }

  /** The batch loop returns the page of the one-pass result: its leaves and its folders, each in
      order, whether there is more, and where to go on. */
  method List(rows: seq<Row>, q: Query) returns (r: ListResult)
    requires Table(rows)
    ensures forall row :: row in r.objects <==> Leaf(row) in PageOf(rows, q).entries
    ensures forall name :: name in r.commonPrefixes <==> Folder(name) in PageOf(rows, q).entries
    ensures |r.objects| + |r.commonPrefixes| == |PageOf(rows, q).entries| <= ResolveLimit(q.maxKeys)
    ensures r.objects == Leaves(PageOf(rows, q).entries)
    ensures r.commonPrefixes == Folders(PageOf(rows, q).entries)
    ensures r.isTruncated == PageOf(rows, q).isTruncated
    ensures r.nextToken == PageOf(rows, q).nextToken
  {
    hide *;
    var limit := ResolveLimit(q.maxKeys);
    var resumed := if q.token != "" then DecodeToken(q.token) else None;
    var cursor := if resumed.Some? then resumed.value.value else q.startAfter;
    var exclude := if resumed.Some? && resumed.value.isPrefix then resumed.value.value else "";
    var objects: seq<Row> := [];
    var commonPrefixes: seq<string> := [];
    var last: Option<Cursor> := None;
    var exhausted := false;

    ghost var wanted := Wanted(rows, q);
    ghost var emitted: seq<Entry> := [];
    ghost var selected := Matching(rows, q.prefix, cursor, exclude);
    DeliveredNothing(rows, q, resumed, cursor, exclude);
    while |objects| + |commonPrefixes| < limit && !exhausted
      invariant Delivered(rows, q, wanted, emitted, selected, cursor, exclude, objects, commonPrefixes, last)
      invariant |objects| + |commonPrefixes| == |emitted| <= limit
      invariant exhausted ==> selected == []
      decreases !exhausted, limit - |emitted|
    {
      var remaining := limit - (|objects| + |commonPrefixes|);
      var batch := FetchLatestVersions(rows, q.prefix, cursor, exclude, remaining);
      DeliveredBatch(rows, q, wanted, emitted, selected, cursor, exclude, objects, commonPrefixes, last, remaining);
      if |batch| == 0 {
        exhausted := true;
        break;
      }
      ghost var before, matching := |emitted|, selected;
      var jumped := false;
      var i := 0;
      while i < |batch|
        invariant 0 <= i <= |batch| && !jumped
        invariant selected == matching[i..]
        invariant Delivered(rows, q, wanted, emitted, selected, cursor, exclude, objects, commonPrefixes, last)
        invariant |objects| + |commonPrefixes| == |emitted| == before + i
      {
        var row := batch[i];
        DeliveredRow(rows, q, wanted, emitted, selected, cursor, exclude, objects, commonPrefixes, last);
        var commonPrefix := if q.delimiter != "" then CommonPrefixOf(row.key, q.prefix, q.delimiter) else None;
        if commonPrefix.Some? {
          commonPrefixes := commonPrefixes + [commonPrefix.value];
          last := Some(Cursor(commonPrefix.value, true));
          cursor := commonPrefix.value;
          exclude := commonPrefix.value;
          emitted := emitted + [Folder(commonPrefix.value)];
          selected := Matching(rows, q.prefix, cursor, exclude);
          jumped := true;
          break;
        }
        objects := objects + [row];
        last := Some(Cursor(row.key, false));
        cursor := row.key;
        emitted := emitted + [Leaf(row)];
        selected := selected[1..];
        i := i + 1;
      }
      if !jumped && |batch| < remaining {
        exhausted := true;
      }
    }

    var isTruncated := !exhausted && |objects| + |commonPrefixes| >= limit
      && |FetchLatestVersions(rows, q.prefix, cursor, exclude, 1)| > 0;
    DeliveredBatch(rows, q, wanted, emitted, selected, cursor, exclude, objects, commonPrefixes, last, 1);
    DeliveredPage(rows, q, wanted, emitted, selected, cursor, exclude, objects, commonPrefixes, last, limit);
    LeavesFoldersExact(PageOf(rows, q).entries);
    PageSize(rows, q);
    r := ListResult(objects, commonPrefixes, isTruncated,
                    if isTruncated && last.Some? then EncodeToken(last.value) else "");
  }

  lemma PageSize(rows: seq<Row>, q: Query)
    requires Table(rows)
    ensures |PageOf(rows, q).entries| <= ResolveLimit(q.maxKeys)
  {
    hide Wanted;
  }

  lemma DeliveredNothing(rows: seq<Row>, q: Query, resumed: Option<Cursor>, cursor: string, exclude: string)
    requires Table(rows)
    requires resumed == if q.token != "" then DecodeToken(q.token) else None
    requires cursor == if resumed.Some? then resumed.value.value else q.startAfter
    requires exclude == if resumed.Some? && resumed.value.isPrefix then resumed.value.value else ""
    ensures Delivered(rows, q, Wanted(rows, q), [], Matching(rows, q.prefix, cursor, exclude), cursor, exclude, [], [], None)
  {
    hide Collapse, Filter, Less, IndexOf;
    MatchingTable(rows, q.prefix, cursor, exclude);
    assert Position(cursor, exclude);
    assert Wanted(rows, q) == Upcoming(rows, q.prefix, q.delimiter, cursor, exclude);
  }

  lemma DeliveredBatch(rows: seq<Row>, q: Query, wanted: seq<Entry>, emitted: seq<Entry>, selected: seq<Row>, cursor: string,
                       exclude: string, objects: seq<Row>, commonPrefixes: seq<string>, last: Option<Cursor>, limit: nat)
    requires Delivered(rows, q, wanted, emitted, selected, cursor, exclude, objects, commonPrefixes, last)
    ensures FetchLatestVersions(rows, q.prefix, cursor, exclude, limit)
            == selected[..if limit <= |selected| then limit else |selected|]
  {}

  /** Emitting the entry of the next selected row, the way the loop does, keeps the invariant. */
  lemma DeliveredRow(rows: seq<Row>, q: Query, wanted: seq<Entry>, emitted: seq<Entry>, selected: seq<Row>, cursor: string,
                     exclude: string, objects: seq<Row>, commonPrefixes: seq<string>, last: Option<Cursor>)
    requires Delivered(rows, q, wanted, emitted, selected, cursor, exclude, objects, commonPrefixes, last)
    requires selected != []
    ensures |q.prefix| <= |selected[0].key|
    ensures var row := selected[0];
            match (if q.delimiter != "" then CommonPrefixOf(row.key, q.prefix, q.delimiter) else None)
            case Some(name) =>
              Delivered(rows, q, wanted, emitted + [Folder(name)], Matching(rows, q.prefix, name, name), name, name,
                        objects, commonPrefixes + [name], Some(Cursor(name, true)))
            case None =>
              Delivered(rows, q, wanted, emitted + [Leaf(row)], selected[1..], row.key, exclude,
                        objects + [row], commonPrefixes, Some(Cursor(row.key, false)))
  {
    hide Collapse, Filter, Less, IndexOf, Delivered, Leaves, Folders;
    assert q.prefix <= selected[0].key by { DeliveredUnder(rows, q, wanted, emitted, selected, cursor, exclude, objects, commonPrefixes, last); }
    match EntryOf(selected[0], q.prefix, q.delimiter) {
      case Folder(name) =>
        DeliveredFolder(rows, q, wanted, emitted, selected, cursor, exclude, objects, commonPrefixes, last, name);
      case Leaf(row) =>
        DeliveredLeaf(rows, q, wanted, emitted, selected, cursor, exclude, objects, commonPrefixes, last, row);
    }
  }

  lemma DeliveredUnder(rows: seq<Row>, q: Query, wanted: seq<Entry>, emitted: seq<Entry>, selected: seq<Row>, cursor: string,
                     exclude: string, objects: seq<Row>, commonPrefixes: seq<string>, last: Option<Cursor>)
    requires Delivered(rows, q, wanted, emitted, selected, cursor, exclude, objects, commonPrefixes, last)
    requires selected != []
    ensures q.prefix <= selected[0].key
  {}

  lemma DeliveredFolder(rows: seq<Row>, q: Query, wanted: seq<Entry>, emitted: seq<Entry>, selected: seq<Row>, cursor: string,
                     exclude: string, objects: seq<Row>, commonPrefixes: seq<string>, last: Option<Cursor>, name: string)
    requires Delivered(rows, q, wanted, emitted, selected, cursor, exclude, objects, commonPrefixes, last)
    requires selected != []
    requires q.prefix <= selected[0].key && EntryOf(selected[0], q.prefix, q.delimiter) == Folder(name)
    ensures Delivered(rows, q, wanted, emitted + [Folder(name)], Matching(rows, q.prefix, name, name), name, name,
                        objects, commonPrefixes + [name], Some(Cursor(name, true)))
  {
    hide Filter, Less, IndexOf, Collapse, Leaves, Folders, Matching, CommonPrefixOf;
    FolderEntry(rows, q.prefix, q.delimiter, cursor, exclude, name);
    LeavesFoldersSnoc(emitted, Folder(name));
    assert EntryText(Folder(name)) == name;
    assert emitted + Collapse(selected, q.prefix, q.delimiter)
           == emitted + [Folder(name)] + Collapse(Matching(rows, q.prefix, name, name), q.prefix, q.delimiter);
  }

  lemma DeliveredLeaf(rows: seq<Row>, q: Query, wanted: seq<Entry>, emitted: seq<Entry>, selected: seq<Row>, cursor: string,
                     exclude: string, objects: seq<Row>, commonPrefixes: seq<string>, last: Option<Cursor>, row: Row)
    requires Delivered(rows, q, wanted, emitted, selected, cursor, exclude, objects, commonPrefixes, last)
    requires selected != []
    requires q.prefix <= selected[0].key && EntryOf(selected[0], q.prefix, q.delimiter) == Leaf(row)
    ensures Delivered(rows, q, wanted, emitted + [Leaf(row)], selected[1..], row.key, exclude,
                        objects + [row], commonPrefixes, Some(Cursor(row.key, false)))
  {
    hide Filter, Less, IndexOf, Collapse, Leaves, Folders, Matching, Position, CommonPrefixOf;
    MatchingTable(rows, q.prefix, cursor, exclude);
    assert row == selected[0] && row in selected;
    LeafEntry(rows, q.prefix, cursor, exclude, exclude);
    CollapseLeaf(selected, q.prefix, q.delimiter);
    LeavesFoldersSnoc(emitted, Leaf(row));
    LaterPosition(rows, q.prefix, cursor, exclude, row);
    assert emitted + Collapse(selected, q.prefix, q.delimiter) == emitted + [Leaf(row)] + Collapse(selected[1..], q.prefix, q.delimiter);
  }

  lemma LaterPosition(rows: seq<Row>, prefix: string, cursor: string, exclude: string, row: Row)
    requires Position(cursor, exclude) && row in Matching(rows, prefix, cursor, exclude)
    ensures Position(row.key, exclude)
  {
    if exclude != "" && exclude != cursor {
      LessTransitive(exclude, cursor, row.key);
    }
  }

  lemma DeliveredPage(rows: seq<Row>, q: Query, wanted: seq<Entry>, emitted: seq<Entry>, selected: seq<Row>, cursor: string,
                      exclude: string, objects: seq<Row>, commonPrefixes: seq<string>, last: Option<Cursor>, limit: nat)
    requires Delivered(rows, q, wanted, emitted, selected, cursor, exclude, objects, commonPrefixes, last)
    requires wanted == Wanted(rows, q) && limit == ResolveLimit(q.maxKeys)
    requires |emitted| <= limit && (|emitted| < limit ==> selected == [])
    ensures objects == Leaves(PageOf(rows, q).entries) && commonPrefixes == Folders(PageOf(rows, q).entries)
    ensures PageOf(rows, q).isTruncated <==> selected != []
    ensures PageOf(rows, q).nextToken == if selected != [] && last.Some? then EncodeToken(last.value) else ""
  {
    var page := PageOf(rows, q);
    assert emitted == wanted[..|emitted|];
    assert page.entries == emitted;
  }
}
