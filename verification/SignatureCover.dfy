/** What a query signature covers. Two requests accepted under one signature are the same request as far
    as the server reads it: verb, path, parameters and signed headers. Digests are finite, so this
    holds as long as no two of the texts actually signed or hashed collide. */
module SignatureCover {
  import opened Common
  import opened Numerals
  import opened QueryOrder
  import opened Request
  import opened Signature
  import opened UriCodec
  import P = Presigned

  // ---- Cutting text ----

  /** What stands before the first separator, and what behind it. */
  lemma CutFirst(a: string, rest: string, b: string, rest': string, separator: char)
    requires separator !in a && separator !in b && a + [separator] + rest == b + [separator] + rest'
    ensures a == b && rest == rest'
  {
    hide Split;
    SplitFirst(a, separator, rest);
    SplitFirst(b, separator, rest');
    assert ([a] + Split(rest, separator))[0] == ([b] + Split(rest', separator))[0];
    SameBack(a + [separator], rest, rest');
  }

  lemma SameFront(a: string, b: string, back: string)
    requires a + back == b + back
    ensures a == b
  {
    assert |a| == |b|;
    assert (a + back)[..|a|] == a && (b + back)[..|b|] == b;
  }

  lemma SameBack(front: string, a: string, b: string)
    requires front + a == front + b
    ensures a == b
  {
    assert (front + a)[|front|..] == a && (front + b)[|front|..] == b;
  }

  // ---- Signatures ----

  lemma HexPair(b: byte, c: byte)
    requires HEX_DIGITS[b / 16] == HEX_DIGITS[c / 16] && HEX_DIGITS[b % 16] == HEX_DIGITS[c % 16]
    ensures b == c
  {
    HexDigitValue(b / 16);
    HexDigitValue(b % 16);
    HexDigitValue(c / 16);
    HexDigitValue(c % 16);
    assert b == b / 16 * 16 + b % 16 && c == c / 16 * 16 + c % 16;
  }

  lemma HexDigitValue(d: nat)
    requires d < 16
    ensures HexValue(HEX_DIGITS[d]) == Some(d)
  {}

  lemma {:induction false} HexTextInjective(a: seq<byte>, b: seq<byte>)
    requires HexText(a) == HexText(b)
    ensures a == b
  {
    if a != [] && b != [] {
      var s, s' := HexText(a), HexText(b);
      assert s[..2] == [HEX_DIGITS[a[0] / 16], HEX_DIGITS[a[0] % 16]] && s'[..2] == [HEX_DIGITS[b[0] / 16], HEX_DIGITS[b[0] % 16]];
      assert s[0] == HEX_DIGITS[a[0] / 16] && s[1] == HEX_DIGITS[a[0] % 16] && s'[0] == HEX_DIGITS[b[0] / 16] && s'[1] == HEX_DIGITS[b[0] % 16];
      HexPair(a[0], b[0]);
      assert s[2..] == HexText(a[1..]) && s'[2..] == HexText(b[1..]);
      HexTextInjective(a[1..], b[1..]);
      assert a == [a[0]] + a[1..] && b == [b[0]] + b[1..];
    }
  }

  /** The string to sign has four lines: the algorithm, the date, the scope and the hash of the canonical
      request. */
  lemma StringLines(env: Env, amzDate: string, scope: string, canonicalRequest: string)
    requires '\n' !in amzDate && '\n' !in scope && '\n' !in env.sha256(canonicalRequest)
    ensures Split(StringToSign(env, amzDate, scope, canonicalRequest), '\n') == ["AWS4-HMAC-SHA256", amzDate, scope, env.sha256(canonicalRequest)]
  {
    hide Split, Join;
    SplitJoin([ALGORITHM, amzDate, scope, env.sha256(canonicalRequest)], '\n');
  }

  /** The key is the secret's, taken through the scope part by part. */
  lemma KeyFollowsScope(env: Env, secretAccessKey: string, date: string, region: string, service: string)
    requires '/' !in date && '/' !in region && '/' !in service
    ensures DeriveSigningKey(env, secretAccessKey, date, region, service)
            == Through(env, Utf8Text("AWS4" + secretAccessKey), Split(CredentialScope(date, region, service), '/'))
  {
    hide Split, Utf8Text, Through, CredentialScope;
    ScopeParts(date, region, service);
    ThroughFour(env, Utf8Text("AWS4" + secretAccessKey), date, region, service, "aws4_request");
  }

  lemma ScopeParts(date: string, region: string, service: string)
    requires '/' !in date && '/' !in region && '/' !in service
    ensures Split(CredentialScope(date, region, service), '/') == [date, region, service, "aws4_request"]
  {
    hide Split;
    var rest1 := service + ['/'] + "aws4_request";
    var rest2 := region + ['/'] + rest1;
    assert CredentialScope(date, region, service) == date + ['/'] + rest2;
    SplitFirst(date, '/', rest2);
    SplitFirst(region, '/', rest1);
    SplitFirst(service, '/', "aws4_request");
    SplitNone("aws4_request", '/');
  }

  lemma ThroughFour(env: Env, key: seq<byte>, a: string, b: string, c: string, d: string)
    ensures Through(env, key, [a, b, c, d]) == env.hmac(env.hmac(env.hmac(env.hmac(key, a), b), c), d)
  {
    var k1 := env.hmac(key, a);
    var k2 := env.hmac(k1, b);
    var k3 := env.hmac(k2, c);
    assert Through(env, k3, [d]) == env.hmac(k3, d) by { assert [d][1..] == []; }
    assert Through(env, k2, [c, d]) == Through(env, k3, [d]) by { assert [c, d][1..] == [d]; }
    assert Through(env, k1, [b, c, d]) == Through(env, k2, [c, d]) by { assert [b, c, d][1..] == [c, d]; }
    assert [a, b, c, d][1..] == [b, c, d];
  }

  function Through(env: Env, key: seq<byte>, parts: seq<string>): seq<byte>
    decreases |parts|
  {
    if parts == [] then key else Through(env, env.hmac(key, parts[0]), parts[1..])
  }

  /** Neither the hash nor the authentication code collides on what these two requests make of them. */
  ghost predicate NoCollision(env: Env, key: seq<byte>, amzDate: string, scope: string, c: string, c': string)
  {
    var text, text' := StringToSign(env, amzDate, scope, c), StringToSign(env, amzDate, scope, c');
    && (env.sha256(c) == env.sha256(c') ==> c == c')
    && (env.hmac(key, text) == env.hmac(key, text') ==> text == text')
  }

  lemma TextTail(env: Env, amzDate: string, scope: string, c: string)
    ensures StringToSign(env, amzDate, scope, c) == ALGORITHM + "\n" + (amzDate + "\n" + (scope + "\n")) + env.sha256(c)
  {
    var lines := [ALGORITHM, amzDate, scope, env.sha256(c)];
    assert lines[1..] == [amzDate, scope, env.sha256(c)] && lines[1..][1..] == [scope, env.sha256(c)] && lines[1..][1..][1..] == [env.sha256(c)];
    assert Join(lines[1..][1..], "\n") == scope + "\n" + env.sha256(c);
    assert Join(lines[1..], "\n") == amzDate + "\n" + (scope + "\n" + env.sha256(c));
    assert Join(lines, "\n") == ALGORITHM + "\n" + (amzDate + "\n" + (scope + "\n" + env.sha256(c)));
  }

  /** A signature covers the canonical request. */
  lemma SignCovers(env: Env, secretAccessKey: string, date: string, region: string, service: string, amzDate: string, c: string, c': string)
    requires Sign(env, secretAccessKey, date, region, service, amzDate, c) == Sign(env, secretAccessKey, date, region, service, amzDate, c')
    requires NoCollision(env, DeriveSigningKey(env, secretAccessKey, date, region, service), amzDate, CredentialScope(date, region, service), c, c')
    ensures c == c'
  {
    hide HexText, StringToSign, DeriveSigningKey, CredentialScope;
    var key, scope := DeriveSigningKey(env, secretAccessKey, date, region, service), CredentialScope(date, region, service);
    HexTextInjective(env.hmac(key, StringToSign(env, amzDate, scope, c)), env.hmac(key, StringToSign(env, amzDate, scope, c')));
    TextTail(env, amzDate, scope, c);
    TextTail(env, amzDate, scope, c');
    SameBack(ALGORITHM + "\n" + (amzDate + "\n" + (scope + "\n")), env.sha256(c), env.sha256(c'));
  }

  // ---- The path ----

  function Decoded(text: string): string { match DecodeURIComponent(text) case Some(t) => t case None => "" }

  /** The decoded segments of a path; the empty path means the root. */
  function PathMeaning(path: string): seq<string>
  {
    var segments := Map(Decoded, Split(path, '/'));
    if segments == [""] then ["", ""] else segments
  }

  lemma UriMeaning(path: string)
    requires CanonicalUri(path).Some?
    ensures CanonicalUri(path) == Some(Join(Map(UriEncode, PathMeaning(path)), "/"))
  {
    hide UriEncode, DecodeURIComponent, Split, Join;
    var parts := Split(path, '/');
    var segments := Map(Decoded, parts);
    var encoded := Map(UriEncode, segments);
    assert encoded == Map((segment: string) => var d := DecodeURIComponent(segment); UriEncode(if d.Some? then d.value else ""), parts);
    EmptySegment();
    OneEmpty();
    assert segments == [""] ==> encoded == [""];
    assert Map(UriEncode, ["", ""]) == ["", ""];
    EmptyUri(segments);
  }

  lemma EmptyUri(segments: seq<string>)
    requires segments != []
    ensures Join(Map(UriEncode, segments), "/") == "" ==> segments == [""]
  {
    hide UriEncode, Split, Join;
    var encoded := Map(UriEncode, segments);
    EncodedSegments(segments, '/');
    SplitJoin(encoded, '/');
    SplitNone("", '/');
    EmptySegment();
    if Join(encoded, "/") == "" {
      assert encoded == [""];
      assert UriEncode(segments[0]) == encoded[0];
      UriEncodeInjective(segments[0], "");
    }
  }

  lemma OneEmpty()
    ensures Join([""], "/") == "" && Join(["", ""], "/") == "/"
  {
    assert ["", ""][1..] == [""];
  }

  /** Paths with one canonical form have the same decoded segments. */
  lemma UriCovers(path: string, path': string)
    requires CanonicalUri(path).Some? && CanonicalUri(path) == CanonicalUri(path')
    ensures PathMeaning(path) == PathMeaning(path')
  {
    hide UriEncode, Split, Join, CanonicalUri, PathMeaning;
    UriMeaning(path);
    UriMeaning(path');
    MeaningNotEmpty(path);
    MeaningNotEmpty(path');
    SegmentsCover(PathMeaning(path), PathMeaning(path'));
  }

  lemma SegmentsCover(a: seq<string>, b: seq<string>)
    requires a != [] && b != [] && Join(Map(UriEncode, a), "/") == Join(Map(UriEncode, b), "/")
    ensures a == b
  {
    hide UriEncode, Split, Join;
    EncodedSegments(a, '/');
    EncodedSegments(b, '/');
    SplitJoin(Map(UriEncode, a), '/');
    SplitJoin(Map(UriEncode, b), '/');
    EncodedListInjective(a, b);
  }

  lemma MeaningNotEmpty(path: string)
    ensures PathMeaning(path) != []
  {}

  lemma EncodedListInjective(a: seq<string>, b: seq<string>)
    requires Map(UriEncode, a) == Map(UriEncode, b)
    ensures a == b
  {
    hide UriEncode;
    var ea, eb := Map(UriEncode, a), Map(UriEncode, b);
    forall i | 0 <= i < |a|
      ensures a[i] == b[i]
    {
      assert ea[i] == eb[i];
      UriEncodeInjective(a[i], b[i]);
    }
  }

  lemma UriOneLine(path: string)
    requires CanonicalUri(path).Some?
    ensures '\n' !in CanonicalUri(path).value
  {
    hide UriEncode, Split, Join, CanonicalUri, PathMeaning;
    UriMeaning(path);
    EncodedSegments(PathMeaning(path), '\n');
    JoinLacks(Map(UriEncode, PathMeaning(path)), '/', '\n');
  }

  // ---- The query ----

  function DecodedPair(pair: string): Pair { (Decoded(ParsePair(pair).0), Decoded(ParsePair(pair).1)) }

  /** The parameters a query carries apart from the signature itself. */
  function SignedParameters(query: string): seq<Pair>
  {
    Filter(Map(DecodedPair, Filter(Split(query, '&'), NonEmpty())), (p: Pair) => p.0 != SIGNATURE_KEY)
  }

  /** Parameters as they stand in a canonical query: encoded and in order. */
  function Shown(parameters: seq<Pair>): seq<string> { Map(Show, Sort(Map(EncodeBoth, parameters))) }

  lemma {:induction false} LeaveOut(pairs: seq<string>)
    requires forall i :: 0 <= i < |pairs| ==> Decodable(pairs[i])
    ensures Filter(Map(Canonical, pairs), Kept([SIGNATURE_KEY]))
            == Map(EncodeBoth, Filter(Map(DecodedPair, pairs), (p: Pair) => p.0 != SIGNATURE_KEY))
  {
    if pairs != [] {
      hide EncodeBoth, Decodable, Canonical, DecodedPair;
      LeaveOut(pairs[1..]);
      CanonicalPair(pairs[0]);
      SignatureName(DecodedPair(pairs[0]));
    }
  }

  lemma CanonicalPair(pair: string)
    requires Decodable(pair)
    ensures Canonical(pair) == EncodeBoth(DecodedPair(pair))
  {
    hide ParsePair, DecodeURIComponent;
  }

  lemma SignatureName(p: Pair)
    ensures EncodeBoth(p).0 == SIGNATURE_KEY <==> p.0 == SIGNATURE_KEY
    ensures Kept([SIGNATURE_KEY])(EncodeBoth(p)) <==> EncodeBoth(p).0 != SIGNATURE_KEY
  {
    hide UriEncode;
    UriEncodeUnreserved(SIGNATURE_KEY);
    if UriEncode(p.0) == SIGNATURE_KEY {
      UriEncodeInjective(p.0, SIGNATURE_KEY);
    }
  }

  /** The canonical query is the sorted list of the encoded parameters. */
  lemma QueryMeaning(query: string)
    requires CanonicalQuery(query, [SIGNATURE_KEY]).Some?
    ensures CanonicalQuery(query, [SIGNATURE_KEY]) == Some(Join(Shown(SignedParameters(query)), "&"))
  {
    hide EncodeBoth, Decodable, Canonical, DecodedPair, Split, Join, Sort, Show, Kept;
    LeaveOut(Filter(Split(query, '&'), NonEmpty()));
  }

  lemma ShownLack(parameters: seq<Pair>, separator: char)
    requires !Unreserved(separator) && separator != '%' && separator != '='
    ensures forall i :: 0 <= i < |Shown(parameters)| ==> separator !in Shown(parameters)[i] && Shown(parameters)[i] != ""
  {
    hide EncodeBoth, Sort, Show, Unreserved;
    var sorted := Sort(Map(EncodeBoth, parameters));
    P.SortedEncodings(parameters);
    forall i | 0 <= i < |sorted|
      ensures separator !in Show(sorted[i]) && Show(sorted[i]) != ""
    {
      assert sorted[i] in sorted;
      var r :| r in parameters && sorted[i] == EncodeBoth(r);
      P.EncodedPairLacks(r, separator);
      P.ShowNotEmpty(sorted[i]);
    }
  }

  lemma QueryOneLine(query: string)
    requires CanonicalQuery(query, [SIGNATURE_KEY]).Some?
    ensures '\n' !in CanonicalQuery(query, [SIGNATURE_KEY]).value
  {
    hide CanonicalQuery, SignedParameters, Sort, Join;
    QueryMeaning(query);
    ShownOneLine(SignedParameters(query));
  }

  lemma ShownOneLine(parameters: seq<Pair>)
    ensures '\n' !in Join(Shown(parameters), "&")
  {
    hide Join, Shown;
    ShownLack(parameters, '\n');
    JoinLacks(Shown(parameters), '&', '\n');
  }

  /** A list of pieces without separators, none of them empty, is recovered from its joined text. */
  lemma PiecesCover(a: seq<string>, b: seq<string>)
    requires forall i :: 0 <= i < |a| ==> '&' !in a[i] && a[i] != ""
    requires forall i :: 0 <= i < |b| ==> '&' !in b[i] && b[i] != ""
    requires Join(a, "&") == Join(b, "&")
    ensures a == b
  {
    hide Split;
    assert a == [] <==> Join(a, "&") == "";
    assert b == [] <==> Join(b, "&") == "";
    if a != [] && b != [] {
      SplitJoin(a, '&');
      SplitJoin(b, '&');
    }
  }

  lemma ShownCover(parameters: seq<Pair>, parameters': seq<Pair>)
    requires Shown(parameters) == Shown(parameters')
    ensures Sort(Map(EncodeBoth, parameters)) == Sort(Map(EncodeBoth, parameters'))
  {
    hide EncodeBoth, Sort, Show, ParsePair;
    var a, b := Sort(Map(EncodeBoth, parameters)), Sort(Map(EncodeBoth, parameters'));
    P.SortedEncodings(parameters);
    P.SortedEncodings(parameters');
    assert |a| == |Map(Show, a)| == |b|;
    forall i | 0 <= i < |a|
      ensures a[i] == b[i]
    {
      assert a[i] in a && b[i] in b && Show(a[i]) == Map(Show, a)[i] == Show(b[i]);
      var r :| r in parameters && a[i] == EncodeBoth(r);
      var r' :| r' in parameters' && b[i] == EncodeBoth(r');
      P.ParseShown(r);
      P.ParseShown(r');
    }
  }

  function DecodeBoth(p: Pair): Pair { (Decoded(p.0), Decoded(p.1)) }

  lemma BothWays(parameters: seq<Pair>)
    ensures Map(DecodeBoth, Map(EncodeBoth, parameters)) == parameters
  {
    hide UriEncode, DecodeURIComponent;
    var again := Map(DecodeBoth, Map(EncodeBoth, parameters));
    forall i | 0 <= i < |parameters|
      ensures again[i] == parameters[i]
    {
      DecodeEncode(parameters[i].0);
      DecodeEncode(parameters[i].1);
    }
  }

  /** Queries with one canonical form carry the same parameters, each as often. */
  lemma QueryCovers(query: string, query': string)
    requires CanonicalQuery(query, [SIGNATURE_KEY]).Some? && CanonicalQuery(query, [SIGNATURE_KEY]) == CanonicalQuery(query', [SIGNATURE_KEY])
    ensures multiset(SignedParameters(query)) == multiset(SignedParameters(query'))
  {
    hide CanonicalQuery, SignedParameters, Sort, Join, EncodeBoth, Show;
    QueryMeaning(query);
    QueryMeaning(query');
    ParametersCover(SignedParameters(query), SignedParameters(query'));
  }

  lemma ParametersCover(a: seq<Pair>, b: seq<Pair>)
    requires Join(Shown(a), "&") == Join(Shown(b), "&")
    ensures multiset(a) == multiset(b)
  {
    hide Sort, Join, EncodeBoth, DecodeBoth, Show, Count, Shown;
    ShownLack(a, '&');
    ShownLack(b, '&');
    PiecesCover(Shown(a), Shown(b));
    ShownCover(a, b);
    SortPermutes(Map(EncodeBoth, a));
    SortPermutes(Map(EncodeBoth, b));
    MapPermuted(DecodeBoth, Map(EncodeBoth, a), Map(EncodeBoth, b));
    BothWays(a);
    BothWays(b);
    PermutedMultiset(a, b);
  }

  lemma {:induction false} CountMultiset(ps: seq<Pair>, p: Pair)
    ensures Count(ps, p) == multiset(ps)[p]
  {
    if ps != [] {
      CountMultiset(ps[1..], p);
      assert ps == [ps[0]] + ps[1..];
    }
  }

  lemma PermutedMultiset(a: seq<Pair>, b: seq<Pair>)
    requires Permuted(a, b)
    ensures multiset(a) == multiset(b)
  {
    hide Count;
    forall p: Pair
      ensures multiset(a)[p] == multiset(b)[p]
    {
      CountMultiset(a, p);
      CountMultiset(b, p);
    }
  }

  // ---- The headers ----

  /** A header's value as it is signed: trimmed, its white space collapsed. */
  function HeaderText(req: HttpRequest, name: string): string
  {
    CollapseSpaces(Trim(if Lower(name) in req.headers then req.headers[Lower(name)] else ""))
  }

  lemma {:induction false} CollapsedOneLine(s: string)
    ensures '\n' !in CollapseSpaces(s)
  {
    if s != "" {
      CollapsedOneLine(s[1..]);
    }
  }

  lemma LineText(req: HttpRequest, name: string, rest: string)
    ensures HeaderLine(req, name) + rest == (name + ":") + (HeaderText(req, name) + ['\n'] + rest)
  {
    hide CollapseSpaces, Trim, Lower;
    var value := HeaderText(req, name);
    assert HeaderLine(req, name) == name + ":" + value + "\n";
  }

  lemma {:induction false} HeadersCover(req: HttpRequest, req': HttpRequest, names: seq<string>, name: string)
    requires HeaderLines(req, names) == HeaderLines(req', names) && name in names
    ensures HeaderText(req, name) == HeaderText(req', name)
  {
    hide HeaderLine, HeaderText;
    var rest, rest' := HeaderLines(req, names[1..]), HeaderLines(req', names[1..]);
    LineText(req, names[0], rest);
    LineText(req', names[0], rest');
    SameBack(names[0] + ":", HeaderText(req, names[0]) + ['\n'] + rest, HeaderText(req', names[0]) + ['\n'] + rest');
    HeaderOneLine(req, names[0]);
    HeaderOneLine(req', names[0]);
    CutFirst(HeaderText(req, names[0]), rest, HeaderText(req', names[0]), rest', '\n');
    if name != names[0] {
      HeadersCover(req, req', names[1..], name);
    }
  }

  lemma HeaderOneLine(req: HttpRequest, name: string)
    ensures '\n' !in HeaderText(req, name)
  {
    hide CollapseSpaces;
    CollapsedOneLine(Trim(if Lower(name) in req.headers then req.headers[Lower(name)] else ""));
  }

  // ---- Canonical requests ----

  lemma Assembled(verb: string, uri: string, query: string, headers: string, signedHeaders: string, payloadHash: string)
    ensures Assemble(verb, uri, query, headers, signedHeaders, payloadHash)
            == verb + ['\n'] + (uri + ['\n'] + (query + ['\n'] + (headers + ("\n" + signedHeaders + "\n" + payloadHash))))
  {
    var lines := [verb, uri, query, headers, signedHeaders, payloadHash];
    var tail := lines[1..][1..][1..];
    assert tail == [headers, signedHeaders, payloadHash] && tail[1..] == [signedHeaders, payloadHash] && tail[1..][1..] == [payloadHash];
    assert Join(tail[1..], "\n") == signedHeaders + "\n" + payloadHash;
    assert Join(tail, "\n") == headers + "\n" + (signedHeaders + "\n" + payloadHash) == headers + ("\n" + signedHeaders + "\n" + payloadHash);
    assert Join(lines[1..][1..], "\n") == query + ['\n'] + Join(tail, "\n");
    assert Join(lines[1..], "\n") == uri + ['\n'] + Join(lines[1..][1..], "\n");
    assert Join(lines, "\n") == verb + ['\n'] + Join(lines[1..], "\n");
  }

  lemma PartsCover(verb: string, uri: string, query: string, headers: string, verb': string, uri': string, query': string, headers': string,
                   signedHeaders: string, payloadHash: string)
    requires '\n' !in verb && '\n' !in verb' && '\n' !in uri && '\n' !in uri' && '\n' !in query && '\n' !in query'
    requires Assemble(verb, uri, query, headers, signedHeaders, payloadHash) == Assemble(verb', uri', query', headers', signedHeaders, payloadHash)
    ensures verb == verb' && uri == uri' && query == query' && headers == headers'
  {
    hide Assemble;
    var back := "\n" + signedHeaders + "\n" + payloadHash;
    Assembled(verb, uri, query, headers, signedHeaders, payloadHash);
    Assembled(verb', uri', query', headers', signedHeaders, payloadHash);
    CutFirst(verb, uri + ['\n'] + (query + ['\n'] + (headers + back)), verb', uri' + ['\n'] + (query' + ['\n'] + (headers' + back)), '\n');
    CutFirst(uri, query + ['\n'] + (headers + back), uri', query' + ['\n'] + (headers' + back), '\n');
    CutFirst(query, headers + back, query', headers' + back, '\n');
    SameFront(headers, headers', back);
  }

  /** The requests agree in all a server reads of them: verb, path, parameters and signed headers. */
  ghost predicate SameRequest(req: HttpRequest, req': HttpRequest, signedHeaders: seq<string>)
  {
    && req.verb == req'.verb
    && PathMeaning(PathOf(req.originalUrl)) == PathMeaning(PathOf(req'.originalUrl))
    && multiset(SignedParameters(QueryOf(req.originalUrl))) == multiset(SignedParameters(QueryOf(req'.originalUrl)))
    && forall name :: name in signedHeaders ==> HeaderText(req, name) == HeaderText(req', name)
  }

  /** Requests with one canonical request are the same. */
  lemma CanonicalCovers(req: HttpRequest, req': HttpRequest, signedHeaders: seq<string>, payloadHash: string)
    requires '\n' !in req.verb && '\n' !in req'.verb
    requires BuildCanonicalRequest(req, signedHeaders, payloadHash, [SIGNATURE_KEY]).Some?
    requires BuildCanonicalRequest(req, signedHeaders, payloadHash, [SIGNATURE_KEY]) == BuildCanonicalRequest(req', signedHeaders, payloadHash, [SIGNATURE_KEY])
    ensures SameRequest(req, req', signedHeaders)
  {
    hide CanonicalUri, CanonicalQuery, HeaderLines, Assemble, Join, PathOf, QueryOf, PathMeaning, SignedParameters, HeaderText;
    var path, path', query, query' := PathOf(req.originalUrl), PathOf(req'.originalUrl), QueryOf(req.originalUrl), QueryOf(req'.originalUrl);
    UriOneLine(path);
    UriOneLine(path');
    QueryOneLine(query);
    QueryOneLine(query');
    PartsCover(req.verb, CanonicalUri(path).value, CanonicalQuery(query, [SIGNATURE_KEY]).value, HeaderLines(req, signedHeaders),
               req'.verb, CanonicalUri(path').value, CanonicalQuery(query', [SIGNATURE_KEY]).value, HeaderLines(req', signedHeaders),
               Join(signedHeaders, ";"), payloadHash);
    UriCovers(path, path');
    QueryCovers(query, query');
    forall name | name in signedHeaders
      ensures HeaderText(req, name) == HeaderText(req', name)
    {
      HeadersCover(req, req', signedHeaders, name);
    }
  }

  // ---- Requests ----

  function CanonicalOf(req: HttpRequest, parsed: QuerySignature): string
  {
    match BuildCanonicalRequest(req, parsed.signedHeaders, UNSIGNED_PAYLOAD, [SIGNATURE_KEY]) case Some(c) => c case None => ""
  }

  ghost predicate Apart(env: Env, secretAccessKey: string, parsed: QuerySignature, c: string, c': string)
  {
    NoCollision(env, DeriveSigningKey(env, secretAccessKey, parsed.date, parsed.region, parsed.service), parsed.amzDate,
                CredentialScope(parsed.date, parsed.region, parsed.service), c, c')
  }

  /** A signature is accepted exactly when its date can be read, its lifetime - if it is a number - is one
      of 1 to 604800 seconds and not over, and it is that of the request's canonical form. */
  lemma AcceptedSigns(env: Env, req: HttpRequest, parsed: QuerySignature, secretAccessKey: string, now: int)
    ensures VerifyPresigned(env, req, parsed, secretAccessKey, now) == Ok(())
            <==> && env.parseAmzDate(parsed.amzDate).Some?
                 && (parsed.expires.Some? ==>
                       1 <= parsed.expires.value <= 604800 && now <= env.parseAmzDate(parsed.amzDate).value + parsed.expires.value * 1000)
                 && BuildCanonicalRequest(req, parsed.signedHeaders, UNSIGNED_PAYLOAD, [SIGNATURE_KEY]) == Some(CanonicalOf(req, parsed))
                 && Sign(env, secretAccessKey, parsed.date, parsed.region, parsed.service, parsed.amzDate, CanonicalOf(req, parsed)) == parsed.signature
  {
    hide BuildCanonicalRequest, Sign;
  }

  /** Two requests accepted under one query signature and secret, whenever, are the same request. */
  lemma AcceptedCovers(env: Env, parsed: QuerySignature, secretAccessKey: string, req: HttpRequest, now: int, req': HttpRequest, now': int)
    requires VerifyPresigned(env, req, parsed, secretAccessKey, now) == Ok(()) && VerifyPresigned(env, req', parsed, secretAccessKey, now') == Ok(())
    requires '\n' !in req.verb && '\n' !in req'.verb
    requires Apart(env, secretAccessKey, parsed, CanonicalOf(req, parsed), CanonicalOf(req', parsed))
    ensures SameRequest(req, req', parsed.signedHeaders)
  {
    hide VerifyPresigned, BuildCanonicalRequest, Sign, NoCollision, SameRequest, CanonicalOf;
    AcceptedSigns(env, req, parsed, secretAccessKey, now);
    AcceptedSigns(env, req', parsed, secretAccessKey, now');
    SignCovers(env, secretAccessKey, parsed.date, parsed.region, parsed.service, parsed.amzDate, CanonicalOf(req, parsed), CanonicalOf(req', parsed));
    CanonicalCovers(req, req', parsed.signedHeaders, UNSIGNED_PAYLOAD);
  }

  // ---- Presigned URLs ----

  lemma {:induction false} NothingDecoded(text: string)
    ensures DecodeURIComponent(text) == Some("") <==> text == ""
  {
    hide EscapedChar;
  }

  /** The decoded path of a request names its bucket and key. */
  lemma MeaningNames(url: string, bucket: string, key: string)
    requires CanonicalUri(PathOf(url)).Some? && '/' !in bucket && PathMeaning(PathOf(url)) == Split("/" + bucket + "/" + key, '/')
    ensures BucketAndKey(url) == (bucket, key)
  {
    hide DecodeURIComponent, Split, Join;
    var parts, names := Split(PathOf(url), '/'), Split(key, '/');
    SplitBucket(bucket, key);
    assert Map(Decoded, parts) == ["", bucket] + names;
    assert |parts| == |names| + 2;
    AllDecodable(PathOf(url));
    forall i | 0 <= i < |parts|
      ensures DecodeSegment(parts[i]) == (["", bucket] + names)[i] && DecodeURIComponent(parts[i]) == Some((["", bucket] + names)[i])
    {
      assert Map(Decoded, parts)[i] == Decoded(parts[i]);
    }
    NothingDecoded(parts[0]);
    var segments := Segments(url);
    assert segments == parts[1..];
    assert Map(DecodeSegment, segments[1..]) == names;
    JoinSplit(key, '/');
  }

  lemma AllDecodable(path: string)
    requires CanonicalUri(path).Some?
    ensures forall i :: 0 <= i < |Split(path, '/')| ==> DecodeURIComponent(Split(path, '/')[i]).Some?
  {
    hide DecodeURIComponent, Split, Join;
  }

  lemma {:induction false} UpperOneLine(verb: string)
    requires '\n' !in verb
    ensures '\n' !in Upper(verb)
  {
    if verb != "" {
      UpperOneLine(verb[1..]);
    }
  }

  lemma PresignedOneLine(args: PresignArgs, parameters: seq<Pair>)
    ensures '\n' !in PresignedPath(args) && '\n' !in PresignedQuery(parameters)
  {
    hide UriEncode, Split, Join, Sort;
    EncodedSegments(Split("/" + args.bucket + "/" + args.key, '/'), '\n');
    JoinLacks(Map(UriEncode, Split("/" + args.bucket + "/" + args.key, '/')), '/', '\n');
    ShownOneLine(parameters);
  }

  /** What a canonical request that equals the presigned one says of its request. */
  lemma PresignedCovers(args: PresignArgs, parameters: seq<Pair>, req: HttpRequest)
    requires '\n' !in args.verb && '\n' !in req.verb
    requires BuildCanonicalRequest(req, ["host"], UNSIGNED_PAYLOAD, [SIGNATURE_KEY]) == Some(PresignedRequest(args, parameters))
    ensures req.verb == Upper(args.verb) && HeaderText(req, "host") == args.host
    ensures CanonicalUri(PathOf(req.originalUrl)).Some? && PathMeaning(PathOf(req.originalUrl)) == Split("/" + args.bucket + "/" + args.key, '/')
    ensures multiset(SignedParameters(QueryOf(req.originalUrl))) == multiset(parameters)
  {
    hide CanonicalUri, CanonicalQuery, HeaderLines, Assemble, Join, PathOf, QueryOf, PathMeaning, SignedParameters, HeaderText, Upper, Split, Sort, Show,
         EncodeBoth, UriEncode;
    var path, query, keyPath := PathOf(req.originalUrl), QueryOf(req.originalUrl), "/" + args.bucket + "/" + args.key;
    UpperOneLine(args.verb);
    PresignedOneLine(args, parameters);
    UriOneLine(path);
    QueryOneLine(query);
    OneName();
    PartsCover(req.verb, CanonicalUri(path).value, CanonicalQuery(query, [SIGNATURE_KEY]).value, HeaderLines(req, ["host"]),
               Upper(args.verb), PresignedPath(args), PresignedQuery(parameters), "host:" + args.host + "\n", "host", UNSIGNED_PAYLOAD);
    UriMeaning(path);
    MeaningNotEmpty(path);
    SegmentsCover(PathMeaning(path), Split(keyPath, '/'));
    QueryMeaning(query);
    ParametersCover(SignedParameters(query), parameters);
    HostText(req, args.host);
  }

  lemma OneName()
    ensures Join(["host"], ";") == "host"
  {}

  lemma HostText(req: HttpRequest, host: string)
    requires HeaderLines(req, ["host"]) == "host:" + host + "\n"
    ensures HeaderText(req, "host") == host
  {
    hide HeaderLine, HeaderText;
    assert ["host"][1..] == [] && HeaderLines(req, []) == "";
    assert HeaderLines(req, ["host"]) == HeaderLine(req, "host") + "";
    LineText(req, "host", "");
    assert "host" + ":" == "host:";
    var line := HeaderText(req, "host") + ['\n'] + "";
    assert "host:" + line == "host:" + (host + "\n");
    SameBack("host:", line, host + "\n");
    assert line == HeaderText(req, "host") + "\n";
    SameFront(HeaderText(req, "host"), host, "\n");
  }

  /** The signature a presigned URL carries; `PresignedReads` says that it is what the server reads. */
  function Carried(env: Env, args: PresignArgs, now: int): QuerySignature
    requires |env.toAmzDate(now)| >= 8
  {
    var amzDate := env.toAmzDate(now);
    QuerySignature(args.accessKeyId, amzDate[..8], args.region, SERVICE, ["host"], SignatureOf(env, args, now), amzDate, Some(args.expiresIn))
  }

  lemma CarriedRead(env: Env, args: PresignArgs, now: int)
    requires P.Behaves(env, now) && P.Presignable(args)
    ensures |env.toAmzDate(now)| >= 8 && ParseQuerySignature(env, Target(env, args, now)) == Ok(Some(Carried(env, args, now)))
  {
    hide ParseQuerySignature, Target, SignatureOf;
    P.PresignedReads(env, args, now);
  }

  /** The signature of a presigned URL is accepted for no other verb, host, bucket or key and with no
      other parameters, and not beyond its expiry. */
  lemma PresignedOnlyFor(env: Env, args: PresignArgs, now: int, req: HttpRequest, later: int)
    requires |env.toAmzDate(now)| >= 8 && '\n' !in args.verb && '\n' !in req.verb
    requires VerifyPresigned(env, req, Carried(env, args, now), args.secretAccessKey, later) == Ok(())
    requires Apart(env, args.secretAccessKey, Carried(env, args, now), CanonicalOf(req, Carried(env, args, now)), PresignedRequest(args, ParametersOf(env, args, now)))
    ensures req.verb == Upper(args.verb) && HeaderText(req, "host") == args.host
    ensures '/' !in args.bucket ==> BucketAndKey(req.originalUrl) == (args.bucket, args.key)
    ensures multiset(SignedParameters(QueryOf(req.originalUrl))) == multiset(ParametersOf(env, args, now))
    ensures 1 <= args.expiresIn <= 604800
    ensures env.parseAmzDate(env.toAmzDate(now)).Some? && later <= env.parseAmzDate(env.toAmzDate(now)).value + args.expiresIn * 1000
  {
    var parsed := Carried(env, args, now);
    CarriedFields(env, args, now);
    hide *;
    AcceptedSigns(env, req, parsed, args.secretAccessKey, later);
    SamePresigned(env, args, now, CanonicalOf(req, parsed), parsed);
    PresignedCovers(args, ParametersOf(env, args, now), req);
    if '/' !in args.bucket {
      MeaningNames(req.originalUrl, args.bucket, args.key);
    }
  }

  lemma CarriedFields(env: Env, args: PresignArgs, now: int)
    requires |env.toAmzDate(now)| >= 8
    ensures var parsed := Carried(env, args, now);
            && parsed.date == env.toAmzDate(now)[..8] && parsed.region == args.region && parsed.service == SERVICE && parsed.amzDate == env.toAmzDate(now)
            && parsed.signedHeaders == ["host"] && parsed.signature == SignatureOf(env, args, now) && parsed.expires == Some(args.expiresIn)
  {}

  lemma SamePresigned(env: Env, args: PresignArgs, now: int, c: string, parsed: QuerySignature)
    requires |env.toAmzDate(now)| >= 8
    requires parsed.date == env.toAmzDate(now)[..8] && parsed.region == args.region && parsed.service == SERVICE && parsed.amzDate == env.toAmzDate(now)
    requires Sign(env, args.secretAccessKey, parsed.date, parsed.region, parsed.service, parsed.amzDate, c) == SignatureOf(env, args, now)
    requires Apart(env, args.secretAccessKey, parsed, c, PresignedRequest(args, ParametersOf(env, args, now)))
    ensures c == PresignedRequest(args, ParametersOf(env, args, now))
  {
    hide Sign, NoCollision, ParametersOf, PresignedRequest, DeriveSigningKey, CredentialScope;
    SignCovers(env, args.secretAccessKey, parsed.date, parsed.region, parsed.service, parsed.amzDate, c, PresignedRequest(args, ParametersOf(env, args, now)));
  }

  // ---- The lines of a canonical request ----

  /** Verb, path, query, one line per signed header, an empty line, the names and the payload's hash. */
  lemma CanonicalLines(req: HttpRequest, name: string, payloadHash: string)
    requires '\n' !in req.verb && '\n' !in name && '\n' !in payloadHash
    requires BuildCanonicalRequest(req, [name], payloadHash, [SIGNATURE_KEY]).Some?
    ensures var path, query := PathOf(req.originalUrl), QueryOf(req.originalUrl);
            Split(BuildCanonicalRequest(req, [name], payloadHash, [SIGNATURE_KEY]).value, '\n')
            == [req.verb, Join(Map(UriEncode, PathMeaning(path)), "/"), Join(Shown(SignedParameters(query)), "&"),
                name + ":" + HeaderText(req, name), "", name, payloadHash]
  {
    hide CanonicalUri, CanonicalQuery, Assemble, PathOf, QueryOf, PathMeaning, SignedParameters, HeaderText, Split, Join, Sort, Show, EncodeBoth, UriEncode,
         HeaderLines;
    var path, query := PathOf(req.originalUrl), QueryOf(req.originalUrl);
    var uri, canonicalQuery, header := CanonicalUri(path).value, CanonicalQuery(query, [SIGNATURE_KEY]).value, name + ":" + HeaderText(req, name);
    UriMeaning(path);
    QueryMeaning(query);
    UriOneLine(path);
    QueryOneLine(query);
    HeaderOneLine(req, name);
    OneHeader(req, name);
    Assembled(req.verb, uri, canonicalQuery, HeaderLines(req, [name]), name, payloadHash);
    assert header + "\n" + ("\n" + name + "\n" + payloadHash) == header + ['\n'] + ("" + ['\n'] + (name + ['\n'] + payloadHash));
    SplitFirst(req.verb, '\n', uri + ['\n'] + (canonicalQuery + ['\n'] + (header + ['\n'] + ("" + ['\n'] + (name + ['\n'] + payloadHash)))));
    SplitFirst(uri, '\n', canonicalQuery + ['\n'] + (header + ['\n'] + ("" + ['\n'] + (name + ['\n'] + payloadHash))));
    SplitFirst(canonicalQuery, '\n', header + ['\n'] + ("" + ['\n'] + (name + ['\n'] + payloadHash)));
    SplitFirst(header, '\n', "" + ['\n'] + (name + ['\n'] + payloadHash));
    SplitFirst("", '\n', name + ['\n'] + payloadHash);
    SplitFirst(name, '\n', payloadHash);
    SplitNone(payloadHash, '\n');
  }

  lemma OneHeader(req: HttpRequest, name: string)
    ensures HeaderLines(req, [name]) == name + ":" + HeaderText(req, name) + "\n" && Join([name], ";") == name
  {
    hide HeaderLine, HeaderText;
    LineText(req, name, "");
    assert [name][1..] == [] && HeaderLines(req, []) == "";
    assert HeaderLines(req, [name]) == HeaderLine(req, name) + "";
  }
}
