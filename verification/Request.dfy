/** `S3RequestService`: what a request's path and range headers mean. */
module Request {
  import opened Common
  import opened Numerals
  import opened Storage
  import opened UriCodec

  // ---- Paths ----

  /** Malformed escapes are left as they are. */
  function DecodeSegment(segment: string): string
  {
    match DecodeURIComponent(segment) case Some(text) => text case None => segment
  }

  /** The segments of the path; the empty one before the leading slash is dropped. */
  function Segments(url: string): seq<string>
  {
    var parts := Split(Split(url, '?')[0], '/');
    if parts[0] == "" then parts[1..] else parts
  }

  function BucketAndKey(url: string): (string, string)
  {
    var segments := Segments(url);
    if segments == [] then ("", "")
    else (DecodeSegment(segments[0]), Join(Map(DecodeSegment, segments[1..]), "/"))
  }

  /** A path as `presign` and clients write it: every segment encoded on its own. */
  function EncodePath(path: string): string { Join(Map(UriEncode, Split(path, '/')), "/") }

  lemma {:induction false} DecodeSegments(segments: seq<string>)
    ensures Map(DecodeSegment, Map(UriEncode, segments)) == segments
  {
    hide UriEncode, DecodeURIComponent;
    var decoded := Map(DecodeSegment, Map(UriEncode, segments));
    forall i | 0 <= i < |segments|
      ensures decoded[i] == segments[i]
    {
      DecodeEncode(segments[i]);
    }
  }

  /** Encoded segments contain no separator. */
  lemma EncodedSegments(segments: seq<string>, separator: char)
    requires !Unreserved(separator) && separator != '%'
    ensures forall i :: 0 <= i < |segments| ==> separator !in Map(UriEncode, segments)[i]
  {
    hide UriEncode, Unreserved;
    forall i | 0 <= i < |segments|
      ensures separator !in Map(UriEncode, segments)[i]
    {
      UriEncodeEncoded(segments[i]);
      EncodedLacks(UriEncode(segments[i]), separator);
    }
  }

  lemma {:induction false} JoinLacks(parts: seq<string>, joiner: char, separator: char)
    requires joiner != separator && forall i :: 0 <= i < |parts| ==> separator !in parts[i]
    ensures separator !in Join(parts, [joiner])
  {
    if |parts| > 1 {
      var rest := parts[1..];
      assert forall i :: 0 <= i < |rest| ==> rest[i] == parts[i + 1];
      JoinLacks(rest, joiner, separator);
    }
  }

  /** An encoded path splits into its encoded segments again, and has no question mark. */
  lemma EncodePathSplits(path: string)
    ensures Split(EncodePath(path), '/') == Map(UriEncode, Split(path, '/'))
    ensures '?' !in EncodePath(path)
  {
    hide UriEncode, Split, Join;
    EncodedSegments(Split(path, '/'), '/');
    EncodedSegments(Split(path, '/'), '?');
    SplitJoin(Map(UriEncode, Split(path, '/')), '/');
    JoinLacks(Map(UriEncode, Split(path, '/')), '/', '?');
  }

  lemma SplitSlash(rest: string)
    ensures Split("/" + rest, '/') == [""] + Split(rest, '/')
  {
    SplitFirst("", '/', rest);
    assert "" + ['/'] + rest == "/" + rest;
  }

  lemma SplitBucket(bucket: string, key: string)
    requires '/' !in bucket
    ensures Split("/" + bucket + "/" + key, '/') == ["", bucket] + Split(key, '/')
  {
    assert "/" + bucket + "/" + key == "/" + (bucket + ['/'] + key);
    SplitSlash(bucket + ['/'] + key);
    SplitFirst(bucket, '/', key);
  }

  /** The bucket and the key of an encoded path come back exactly, empty segments and trailing
      slashes included, whatever the query. */
  lemma BucketAndKeyRecovers(bucket: string, key: string, query: string)
    requires '/' !in bucket
    ensures BucketAndKey(EncodePath("/" + bucket + "/" + key) + "?" + query) == (bucket, key)
  {
    hide UriEncode, DecodeURIComponent, Split, Join, DecodeSegment;
    var path := "/" + bucket + "/" + key;
    EncodePathSplits(path);
    SplitFirst(EncodePath(path), '?', query);
    SplitBucket(bucket, key);
    var rest := Split(key, '/');
    var segments := Segments(EncodePath(path) + "?" + query);
    EmptySegment();
    assert Map(UriEncode, Split(path, '/')) == [UriEncode("")] + [UriEncode(bucket)] + Map(UriEncode, rest) by {
      MapSplit(bucket, rest);
    }
    assert segments == [UriEncode(bucket)] + Map(UriEncode, rest);
    assert segments[1..] == Map(UriEncode, rest);
    SegmentDecodes(bucket);
    DecodeSegments(rest);
    JoinSplit(key, '/');
  }

  lemma MapSplit(bucket: string, rest: seq<string>)
    ensures Map(UriEncode, ["", bucket] + rest) == [UriEncode("")] + [UriEncode(bucket)] + Map(UriEncode, rest)
  {
    hide UriEncode;
  }

  lemma EmptySegment()
    ensures UriEncode("") == ""
  {}

  lemma SegmentDecodes(text: string)
    ensures DecodeSegment(UriEncode(text)) == text
  {
    hide UriEncode, DecodeURIComponent;
    DecodeEncode(text);
  }

  /** A key whose escapes are malformed is taken as it stands. */
  lemma MalformedKept(bucket: string, key: string)
    requires '/' !in bucket && '?' !in bucket && '/' !in key && '?' !in key && DecodeURIComponent(key).None?
    ensures BucketAndKey("/" + bucket + "/" + key).1 == key
  {
    hide DecodeURIComponent, Split;
    SplitNone("/" + bucket + "/" + key, '?');
    SplitBucket(bucket, key);
    SplitNone(key, '/');
    assert Segments("/" + bucket + "/" + key) == [bucket, key];
    assert Map(DecodeSegment, [key]) == [key];
  }

  // ---- Ranges ----

  datatype RangeError = InvalidRange | InvalidArgument

  /** Inclusive bounds; an empty range is possible in one case, see `RangeInBounds`. */
  datatype ResolvedRange = ResolvedRange(start: int, end: int)

  /** `bytes=<digits>-<digits>`, either side possibly empty. */
  function MatchRange(text: string): (r: Option<(string, string)>)
    ensures r.Some? ==> Digits(r.value.0) && Digits(r.value.1)
  {
    if !("bytes=" <= text) then None
    else
      var parts := Split(text[6..], '-');
      if |parts| == 2 && Digits(parts[0]) && Digits(parts[1]) then Some((parts[0], parts[1])) else None
  }

  /** `parseRange`; a missing or odd header is no range at all. */
  function ParseRange(header: Option<string>, size: nat): Result<Option<ResolvedRange>, RangeError>
  {
    if header.None? || header.value == "" then Ok(None)
    else match MatchRange(Trim(header.value))
      case None => Ok(None)
      case Some((startPart, endPart)) =>
        if startPart == "" && endPart == "" then Ok(None)
        else if startPart == "" then
          var suffix := Number(endPart);
          if suffix <= 0 then Err(InvalidRange) else Ok(Some(ResolvedRange(Max(size - suffix, 0), size - 1)))
        else
          var start := Number(startPart);
          var end := if endPart == "" then size - 1 else Min(Number(endPart), size - 1);
          if start >= size || start > end then Err(InvalidRange) else Ok(Some(ResolvedRange(start, end)))
  }

  /** `copySourceRange`; both bounds are required and an odd header is an error. */
  function CopySourceRange(header: Option<string>, size: nat): Result<Option<ResolvedRange>, RangeError>
  {
    if header.None? || header.value == "" then Ok(None)
    else match MatchRange(Trim(header.value))
      case None => Err(InvalidArgument)
      case Some((startPart, endPart)) =>
        if startPart == "" || endPart == "" then Err(InvalidArgument)
        else
          var start, end := Number(startPart), Min(Number(endPart), size - 1);
          if start >= size || start > end then Err(InvalidRange) else Ok(Some(ResolvedRange(start, end)))
  }

  /** The header asks for a range, and for this byte of the object (RFC 9110 section 14.1.2). */
  predicate Selects(header: string, size: nat, position: nat)
  {
    match MatchRange(Trim(header))
    case None => false
    case Some((startPart, endPart)) =>
      && !(startPart == "" && endPart == "") && position < size
      && (if startPart == "" then position >= size - Number(endPart)
          else Number(startPart) <= position && (endPart == "" || position <= Number(endPart)))
  }

  /** The header is `bytes=`, a number or nothing, a dash, and a number or nothing. */
  lemma MatchRangeExact(text: string, first: string, last: string)
    ensures MatchRange(text) == Some((first, last)) <==> Digits(first) && Digits(last) && text == "bytes=" + first + "-" + last
  {
    if MatchRange(text) == Some((first, last)) {
      JoinSplit(text[6..], '-');
      assert [first, last][1..] == [last];
    }
    if Digits(first) && Digits(last) && text == "bytes=" + first + "-" + last {
      assert text[6..] == first + ['-'] + last;
      SplitFirst(first, '-', last);
      SplitNone(last, '-');
    }
  }

  /** A resolved range consists of exactly the bytes asked for; it is refused exactly when no byte
      is, except that a suffix of an empty object resolves to an empty range. */
  lemma RangeMeans(header: string, size: nat)
    requires header != "" && MatchRange(Trim(header)).Some? && MatchRange(Trim(header)).value != ("", "")
    ensures var parts, r := MatchRange(Trim(header)).value, ParseRange(Some(header), size);
            && (r.Ok? ==> r.value.Some? && forall p: nat :: r.value.value.start <= p <= r.value.value.end <==> Selects(header, size, p))
            && (r.Err? <==> (forall p: nat :: !Selects(header, size, p)) && !(size == 0 && parts.0 == "" && Number(parts.1) > 0))
  {
    hide MatchRange, Trim, Number;
    var parts := MatchRange(Trim(header)).value;
    if size > 0 {
      if parts.0 == "" {
        assert Number(parts.1) > 0 ==> Selects(header, size, size - 1);
      } else if Number(parts.0) < size {
        assert parts.1 == "" || Number(parts.0) <= Number(parts.1) ==> Selects(header, size, Number(parts.0));
      }
    }
  }

  /** A resolved range lies inside the object exactly when the object is not empty. */
  lemma RangeInBounds(header: Option<string>, size: nat)
    requires ParseRange(header, size).Ok? && ParseRange(header, size).value.Some?
    ensures var range := ParseRange(header, size).value.value;
            && (0 <= range.start <= range.end < size <==> size > 0)
            && (size == 0 ==> range == ResolvedRange(0, -1))
  {}

  /** So reading it delivers exactly as many bytes as announced. */
  lemma RangeReads(header: Option<string>, payload: seq<byte>)
    requires payload != [] && ParseRange(header, |payload|).Ok? && ParseRange(header, |payload|).value.Some?
    ensures var range := ParseRange(header, |payload|).value.value;
            && 0 <= range.start <= range.end < |payload|
            && Slice(payload, range.start, range.end) == payload[range.start..range.end + 1]
            && |Slice(payload, range.start, range.end)| == range.end - range.start + 1
  {
    RangeInBounds(header, |payload|);
  }

  /** The one header that resolves to no bytes: a suffix of an empty object. */
  lemma EmptySuffix()
    ensures ParseRange(Some("bytes=-5"), 0) == Ok(Some(ResolvedRange(0, -1)))
  {
    var text := "bytes=-5";
    assert Trim(text) == text;
    SplitSingle();
    assert text[6..] == "-5";
    assert Number("5") == 5 by { assert "5"[..0] == ""; }
  }

  lemma SplitSingle()
    ensures Split("-5", '-') == ["", "5"]
  {
    SplitFirst("", '-', "5");
    SplitNone("5", '-');
    assert "" + ['-'] + "5" == "-5";
  }

  /** A copy source range must name both bounds, and is refused exactly when no byte of the object lies
      within them. */
  lemma CopySourceRangeExact(header: string, size: nat)
    requires header != ""
    ensures CopySourceRange(Some(header), size) == Err(InvalidArgument)
            <==> MatchRange(Trim(header)).None? || MatchRange(Trim(header)).value.0 == "" || MatchRange(Trim(header)).value.1 == ""
    ensures CopySourceRange(Some(header), size) != Err(InvalidArgument) ==>
              (CopySourceRange(Some(header), size) == Err(InvalidRange) <==> forall p: nat :: !Selects(header, size, p))
  {
    hide MatchRange, Trim, Number;
    if CopySourceRange(Some(header), size) != Err(InvalidArgument) {
      var parts := MatchRange(Trim(header)).value;
      if Number(parts.0) < size && Number(parts.0) <= Number(parts.1) {
        assert Selects(header, size, Number(parts.0));
      }
    }
  }

  /** A copy source range is accepted only within the object, and then means what a `Range` header of
      the same text means. */
  lemma CopySourceRangeInBounds(header: Option<string>, size: nat)
    requires CopySourceRange(header, size).Ok? && CopySourceRange(header, size).value.Some?
    ensures CopySourceRange(header, size) == ParseRange(header, size) && size > 0
  {}
}
