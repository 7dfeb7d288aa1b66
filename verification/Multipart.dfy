/** Completing a multipart upload: pairing the client's part list with the stored parts, and what
    the parts' bytes come to when they are concatenated. */
module Multipart {
  import opened Common
  import opened Cipher
  import opened Storage
  import opened Tables
  import opened Usage
  import opened ObjectStore

  /** S3 requires every part but the last to be at least 5 MiB. */
  const MIN_PART_SIZE := 5 * 1024 * 1024

  datatype CompletePart = CompletePart(number: int, etag: string)

  datatype PartError = InvalidPart | InvalidPartOrder | PartTooSmall

  /** The etag as the client sent it, without its quotes. */
  function Unquoted(etag: string): string { Filter(etag, (c: char) => c != '\"') }

  // ---- Quotes ----

  /** Taking all quotes out of what was sent leaves the plain text. */
  predicate Strips(sent: string, plain: string)
  {
    if sent == "" then plain == ""
    else if sent[0] == '\"' then Strips(sent[1..], plain)
    else plain != "" && plain[0] == sent[0] && Strips(sent[1..], plain[1..])
  }

  lemma {:induction false} UnquotedStrips(sent: string, plain: string)
    ensures Strips(sent, plain) <==> plain == Unquoted(sent)
  {
    if sent != "" {
      if sent[0] == '\"' {
        UnquotedStrips(sent[1..], plain);
      } else if plain != "" {
        UnquotedStrips(sent[1..], plain[1..]);
        assert plain == [plain[0]] + plain[1..];
      }
    }
  }

  /** One quote more or less makes no difference. */
  lemma {:induction false} QuoteStrips(a: string, b: string, plain: string)
    ensures Strips(a + ['\"'] + b, plain) <==> Strips(a + b, plain)
  {
    var quoted := a + ['\"'] + b;
    if a == "" {
      assert quoted[1..] == b && a + b == b;
    } else {
      assert quoted[1..] == a[1..] + ['\"'] + b && (a + b)[1..] == a[1..] + b;
      if a[0] == '\"' {
        QuoteStrips(a[1..], b, plain);
      } else if plain != "" {
        QuoteStrips(a[1..], b, plain[1..]);
      }
    }
  }

  /** A text without quotes is plain already. */
  lemma {:induction false} PlainStrips(sent: string, plain: string)
    requires '\"' !in sent
    ensures Strips(sent, plain) <==> sent == plain
  {
    if sent != "" && plain != "" {
      PlainStrips(sent[1..], plain[1..]);
      assert sent == [sent[0]] + sent[1..] && plain == [plain[0]] + plain[1..];
    }
  }

  /** An etag in quotes, as clients send it, stands for the plain one. */
  lemma QuotedEtag(etag: string, plain: string)
    requires '\"' !in etag
    ensures Strips("\"" + etag + "\"", plain) <==> etag == plain
  {
    hide Strips;
    QuoteStrips("\"" + etag, "", plain);
    QuoteStrips("", etag, plain);
    PlainStrips(etag, plain);
    assert "\"" + etag + "\"" == "\"" + etag + ['\"'] + "" && "" + ['\"'] + etag == "\"" + etag + "" && "" + etag == etag;
  }

  // ---- What is asked of a part list ----

  /** The stored part an entry of the list asks for. */
  predicate Matches(part: CompletePart, p: PartRow) { p.number == part.number && Strips(part.etag, p.etag) }

  /** The lists ask for the same parts, but for quotes around or within their etags. */
  ghost predicate SameButQuotes(requested: seq<CompletePart>, other: seq<CompletePart>)
  {
    && |requested| == |other|
    && forall i :: 0 <= i < |requested| ==>
         requested[i].number == other[i].number && exists plain :: Strips(requested[i].etag, plain) && Strips(other[i].etag, plain)
  }

  /** The list selects these stored parts, and they may be put together. */
  ghost predicate Selection(requested: seq<CompletePart>, stored: seq<PartRow>, ordered: seq<PartRow>)
  {
    && |ordered| == |requested| && Ascending(ordered)
    && forall i :: 0 <= i < |requested| ==>
         ordered[i] in stored && Matches(requested[i], ordered[i]) && (i < |requested| - 1 ==> ordered[i].size >= MIN_PART_SIZE)
  }

  ghost predicate InOrder(requested: seq<CompletePart>, i: nat)
    requires i < |requested|
  {
    i > 0 ==> requested[i - 1].number < requested[i].number
  }

  ghost predicate Offered(part: CompletePart, stored: seq<PartRow>) { exists p :: p in stored && Matches(part, p) }

  ghost predicate Small(requested: seq<CompletePart>, stored: seq<PartRow>, i: nat)
    requires i < |requested|
  {
    i < |requested| - 1 && exists p :: p in stored && Matches(requested[i], p) && p.size < MIN_PART_SIZE
  }

  /** What is wrong with one entry: its position first, then its part, then the part's size. */
  ghost predicate Fault(requested: seq<CompletePart>, stored: seq<PartRow>, i: nat, e: PartError)
    requires i < |requested|
  {
    match e
    case InvalidPartOrder => !InOrder(requested, i)
    case InvalidPart => InOrder(requested, i) && !Offered(requested[i], stored)
    case PartTooSmall => InOrder(requested, i) && Small(requested, stored, i)
  }

  ghost predicate Faultless(requested: seq<CompletePart>, stored: seq<PartRow>, i: nat)
    requires i < |requested|
  {
    forall e :: !Fault(requested, stored, i, e)
  }

  /** The first entry that has a fault has this one. */
  ghost predicate FirstFault(requested: seq<CompletePart>, stored: seq<PartRow>, e: PartError)
  {
    exists i: nat :: i < |requested| && Fault(requested, stored, i, e) && forall j: nat :: j < i ==> Faultless(requested, stored, j)
  }

  ghost predicate UniqueNumbers(stored: seq<PartRow>)
  {
    forall p, q :: p in stored && q in stored && p.number == q.number ==> p == q
  }

  /** A list that selects stored parts has no fault anywhere. */
  lemma SelectionFaultless(requested: seq<CompletePart>, stored: seq<PartRow>, i: nat, ordered: seq<PartRow>)
    requires i < |requested| && Selection(requested, stored, ordered) && UniqueNumbers(stored)
    ensures Faultless(requested, stored, i)
  {
    hide Strips;
    assert i > 0 ==> ordered[i - 1].number < ordered[i].number;
    forall p | p in stored && Matches(requested[i], p)
      ensures p == ordered[i]
    {}
  }

  // ---- The loop ----

  ghost predicate Indexed(stored: seq<PartRow>, byNumber: map<int, PartRow>)
  {
    && (forall n :: n in byNumber ==> byNumber[n] in stored && byNumber[n].number == n)
    && (forall p :: p in stored ==> p.number in byNumber && byNumber[p.number] == p)
  }

  method IndexByNumber(stored: seq<PartRow>) returns (byNumber: map<int, PartRow>)
    requires UniqueNumbers(stored)
    ensures Indexed(stored, byNumber)
  {
    byNumber := map[];
    for k := 0 to |stored|
      invariant forall n :: n in byNumber ==> byNumber[n] in stored && byNumber[n].number == n
      invariant forall p :: p in stored[..k] ==> p.number in byNumber && byNumber[p.number] == p
    {
      assert forall p :: p in stored[..k + 1] ==> p in stored[..k] || p == stored[k];
      byNumber := byNumber[stored[k].number := stored[k]];
    }
    assert stored[..|stored|] == stored;
  }

  /** The first entries of the list are paired and free of faults. */
  ghost predicate Paired(requested: seq<CompletePart>, stored: seq<PartRow>, ordered: seq<PartRow>)
  {
    && |ordered| <= |requested| && Ascending(ordered)
    && (forall j :: 0 <= j < |ordered| ==>
          ordered[j] in stored && Matches(requested[j], ordered[j]) && (j < |requested| - 1 ==> ordered[j].size >= MIN_PART_SIZE))
    && (forall j: nat :: j < |ordered| ==> Faultless(requested, stored, j))
  }

  lemma PairNext(requested: seq<CompletePart>, stored: seq<PartRow>, ordered: seq<PartRow>, found: PartRow)
    requires Paired(requested, stored, ordered) && |ordered| < |requested| && UniqueNumbers(stored)
    requires InOrder(requested, |ordered|) && found in stored && Matches(requested[|ordered|], found)
    requires |ordered| < |requested| - 1 ==> found.size >= MIN_PART_SIZE
    ensures Paired(requested, stored, ordered + [found])
  {
    hide Strips;
    assert Faultless(requested, stored, |ordered|);
    if ordered != [] {
      assert Matches(requested[|ordered| - 1], ordered[|ordered| - 1]);
    }
  }

  lemma NotOffered(part: CompletePart, stored: seq<PartRow>, byNumber: map<int, PartRow>)
    requires Indexed(stored, byNumber)
    requires part.number !in byNumber || byNumber[part.number].etag != Unquoted(part.etag)
    ensures !Offered(part, stored)
  {
    hide Strips, Unquoted;
    forall plain
      ensures Strips(part.etag, plain) <==> plain == Unquoted(part.etag)
    {
      UnquotedStrips(part.etag, plain);
    }
  }

  /** Accepts exactly the lists that select stored parts in strictly ascending order, every part but
      the last at least 5 MiB; otherwise reports the fault of the first entry that has one. */
  method MatchRequestedParts(requested: seq<CompletePart>, stored: seq<PartRow>) returns (r: Result<seq<PartRow>, PartError>)
    requires UniqueNumbers(stored)
    ensures r.Ok? ==> Selection(requested, stored, r.value)
    ensures r.Err? ==> forall ordered :: !Selection(requested, stored, ordered)
    ensures r.Err? ==> FirstFault(requested, stored, r.error)
    ensures r.Ok? ==> forall i :: 0 <= i < |r.value| - 1 ==> r.value[i].size >= 5242880
    ensures forall other :: SameButQuotes(requested, other) ==>
              (r.Ok? ==> Selection(other, stored, r.value)) && (r.Err? ==> FirstFault(other, stored, r.error))
  {
    hide Unquoted, Strips, UniqueNumbers, FirstFault, Selection, Faultless, Offered, Paired, SameButQuotes;
    QuotesIrrelevant(requested, stored);
    var byNumber := IndexByNumber(stored);
    var ordered: seq<PartRow> := [];
    assert Paired(requested, stored, []) by { NothingPaired(requested, stored); }
    for i := 0 to |requested|
      invariant |ordered| == i && Paired(requested, stored, ordered)
    {
      var part := requested[i];
      if i > 0 && part.number <= requested[i - 1].number {
        Refused(requested, stored, ordered, InvalidPartOrder);
        return Err(InvalidPartOrder);
      }
      if part.number !in byNumber || byNumber[part.number].etag != Unquoted(part.etag) {
        NotOffered(part, stored, byNumber);
        Refused(requested, stored, ordered, InvalidPart);
        return Err(InvalidPart);
      }
      var found := byNumber[part.number];
      UnquotedStrips(part.etag, found.etag);
      if i < |requested| - 1 && found.size < MIN_PART_SIZE {
        Refused(requested, stored, ordered, PartTooSmall);
        return Err(PartTooSmall);
      }
      PairNext(requested, stored, ordered, found);
      ordered := ordered + [found];
    }
    assert Selection(requested, stored, ordered) by { AllPaired(requested, stored, ordered); }
    LargeParts(requested, stored, ordered);
    r := Ok(ordered);
  }

  /** Neither what a list selects nor its first fault depends on quotes. */
  lemma QuotesIrrelevant(requested: seq<CompletePart>, stored: seq<PartRow>)
    ensures forall other, ordered :: SameButQuotes(requested, other) ==> (Selection(other, stored, ordered) <==> Selection(requested, stored, ordered))
    ensures forall other, e :: SameButQuotes(requested, other) ==> (FirstFault(other, stored, e) <==> FirstFault(requested, stored, e))
  {
    forall other | SameButQuotes(requested, other)
      ensures forall ordered :: Selection(other, stored, ordered) <==> Selection(requested, stored, ordered)
      ensures forall e :: FirstFault(other, stored, e) <==> FirstFault(requested, stored, e)
    {
      SameAnswers(requested, other, stored);
    }
  }

  lemma SameAnswers(requested: seq<CompletePart>, other: seq<CompletePart>, stored: seq<PartRow>)
    requires SameButQuotes(requested, other)
    ensures forall ordered :: Selection(other, stored, ordered) <==> Selection(requested, stored, ordered)
    ensures forall e :: FirstFault(other, stored, e) <==> FirstFault(requested, stored, e)
  {
    forall i, p: PartRow | 0 <= i < |requested|
      ensures Matches(other[i], p) <==> Matches(requested[i], p)
    {
      var plain :| Strips(requested[i].etag, plain) && Strips(other[i].etag, plain);
      OnePlain(requested[i].etag, plain, p.etag);
      OnePlain(other[i].etag, plain, p.etag);
    }
    hide Matches, SameButQuotes;
    forall i: nat, e | i < |requested|
      ensures Fault(other, stored, i, e) <==> Fault(requested, stored, i, e)
    {}
    forall e
      ensures FirstFault(other, stored, e) <==> FirstFault(requested, stored, e)
    {
      SameFaults(requested, other, stored, e);
      SameFaults(other, requested, stored, e);
    }
  }

  lemma SameFaults(requested: seq<CompletePart>, other: seq<CompletePart>, stored: seq<PartRow>, e: PartError)
    requires |requested| == |other| && forall i: nat, e :: i < |requested| ==> (Fault(other, stored, i, e) <==> Fault(requested, stored, i, e))
    ensures FirstFault(requested, stored, e) ==> FirstFault(other, stored, e)
  {
    hide Fault;
    if FirstFault(requested, stored, e) {
      var i: nat :| i < |requested| && Fault(requested, stored, i, e) && forall j: nat :: j < i ==> Faultless(requested, stored, j);
      forall j: nat | j < i
        ensures Faultless(other, stored, j)
      {
        assert Faultless(requested, stored, j);
      }
    }
  }

  lemma OnePlain(sent: string, plain: string, other: string)
    requires Strips(sent, plain)
    ensures Strips(sent, other) <==> other == plain
  {
    hide Strips, Unquoted;
    UnquotedStrips(sent, plain);
    UnquotedStrips(sent, other);
  }

  lemma LargeParts(requested: seq<CompletePart>, stored: seq<PartRow>, ordered: seq<PartRow>)
    requires Selection(requested, stored, ordered)
    ensures forall i :: 0 <= i < |ordered| - 1 ==> ordered[i].size >= 5242880
  {
    hide Strips;
  }

  lemma NothingPaired(requested: seq<CompletePart>, stored: seq<PartRow>)
    ensures Paired(requested, stored, [])
  {}

  lemma AllPaired(requested: seq<CompletePart>, stored: seq<PartRow>, ordered: seq<PartRow>)
    requires Paired(requested, stored, ordered) && |ordered| == |requested|
    ensures Selection(requested, stored, ordered)
  {}

  /** The first fault met refuses the list, whatever one might select. */
  lemma Refused(requested: seq<CompletePart>, stored: seq<PartRow>, ordered: seq<PartRow>, e: PartError)
    requires Paired(requested, stored, ordered) && |ordered| < |requested| && UniqueNumbers(stored)
    requires Fault(requested, stored, |ordered|, e)
    ensures FirstFault(requested, stored, e)
    ensures forall other :: !Selection(requested, stored, other)
  {
    hide Matches, Selection, Fault, UniqueNumbers;
    forall other
      ensures !Selection(requested, stored, other)
    {
      if Selection(requested, stored, other) {
        SelectionFaultless(requested, stored, |ordered|, other);
      }
    }
  }

  // ---- The concatenation ----

  function Sources(ordered: seq<PartRow>): seq<ConcatSource>
  {
    if ordered == [] then [] else [ConcatSource(ordered[0].path, ordered[0].encryption)] + Sources(ordered[1..])
  }

  function Contents(suite: Suite, blobs: Blobs, ordered: seq<PartRow>): (pieces: seq<seq<byte>>)
    ensures |pieces| == |ordered|
    ensures forall i :: 0 <= i < |ordered| ==> pieces[i] == Content(suite, blobs, ordered[i].path, ordered[i].encryption)
  {
    if ordered == [] then [] else [Content(suite, blobs, ordered[0].path, ordered[0].encryption)] + Contents(suite, blobs, ordered[1..])
  }

  /** Readable parts - each under its own key or in the clear - concatenate to their contents, and
      weigh together what their rows say. */
  lemma {:induction false} PartsConcatenate(suite: Suite, blobs: Blobs, ordered: seq<PartRow>)
    requires forall p :: p in ordered ==> PartStored(suite, blobs, p)
    ensures LoadAll(suite, blobs, Sources(ordered)) == Ok(Flatten(Contents(suite, blobs, ordered)))
    ensures |Flatten(Contents(suite, blobs, ordered))| == PartSizes(ordered)
  {
    if ordered != [] {
      hide Load;
      assert PartStored(suite, blobs, ordered[0]);
      PartsConcatenate(suite, blobs, ordered[1..]);
      assert Sources(ordered)[1..] == Sources(ordered[1..]);
      assert Contents(suite, blobs, ordered)[1..] == Contents(suite, blobs, ordered[1..]);
    }
  }

  lemma {:induction false} SourcesIn(ordered: seq<PartRow>, bound: Path)
    requires forall p :: p in ordered ==> p.path < bound
    ensures forall source :: source in Sources(ordered) ==> source.path < bound
  {
    if ordered != [] {
      SourcesIn(ordered[1..], bound);
    }
  }

  /** The bytes last uploaded as the parts a list asks for, one after the other. */
  function Assembled(parts: map<PartKey, seq<byte>>, upload: UploadId, requested: seq<CompletePart>): seq<byte>
    decreases |requested|
  {
    if requested == [] then []
    else (if requested[0].number >= 0 && (upload, requested[0].number) in parts then parts[(upload, requested[0].number)] else [])
         + Assembled(parts, upload, requested[1..])
  }

  /** What the selected rows hold is what was last uploaded under the requested numbers. */
  lemma {:induction false} AssembledContents(suite: Suite, t: Tables, blobs: Blobs, upload: UploadId, requested: seq<CompletePart>, ordered: seq<PartRow>)
    requires UniqueParts(t) && |ordered| == |requested|
    requires forall i :: 0 <= i < |requested| ==> ordered[i] in t.parts && ordered[i].upload == upload && ordered[i].number == requested[i].number
    ensures Flatten(Contents(suite, blobs, ordered)) == Assembled(PartsOf(suite, t.parts, blobs), upload, requested)
    decreases |requested|
  {
    if requested != [] {
      hide UniqueParts, Content, PartAt;
      PartAtUnique(t, ordered[0]);
      AssembledContents(suite, t, blobs, upload, requested[1..], ordered[1..]);
      assert Contents(suite, blobs, ordered)[1..] == Contents(suite, blobs, ordered[1..]);
    }
  }
}
