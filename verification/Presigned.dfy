/** Presigning and verifying are inverse: what the server reads from a presigned URL is what was
    signed. */
module Presigned {
  import opened Common
  import opened Numerals
  import opened QueryOrder
  import opened Request
  import opened Signature
  import opened UriCodec

  // ---- One parameter ----

  lemma EncodedPairLacks(r: Pair, separator: char)
    requires !Unreserved(separator) && separator != '%'
    ensures separator !in EncodeBoth(r).0 && separator !in EncodeBoth(r).1
    ensures separator != '=' ==> separator !in Show(EncodeBoth(r))
  {
    hide UriEncode, Unreserved;
    UriEncodeEncoded(r.0);
    UriEncodeEncoded(r.1);
    EncodedLacks(UriEncode(r.0), separator);
    EncodedLacks(UriEncode(r.1), separator);
  }

  lemma ParseShown(r: Pair)
    ensures ParsePair(Show(EncodeBoth(r))) == EncodeBoth(r)
  {
    hide UriEncode, Split;
    var e := EncodeBoth(r);
    EncodedPairLacks(r, '=');
    SplitFirst(e.0, '=', e.1);
    SplitNone(e.1, '=');
    assert Show(e) == e.0 + ['='] + e.1;
  }

  /** A shown parameter is its own canonical form. */
  lemma CanonicalShown(r: Pair)
    ensures Decodable(Show(EncodeBoth(r))) && Canonical(Show(EncodeBoth(r))) == EncodeBoth(r)
  {
    hide UriEncode, DecodeURIComponent, Show, ParsePair;
    ParseShown(r);
    DecodeEncode(r.0);
    DecodeEncode(r.1);
  }

  lemma {:induction false} NoPlus(s: string)
    requires '+' !in s
    ensures PlusToSpace(s) == s
  {
    if s != "" {
      NoPlus(s[1..]);
      assert [s[0]] + s[1..] == s;
    }
  }

  lemma FormDecodeEncoded(env: Env, text: string)
    ensures FormDecode(env, UriEncode(text)) == text
  {
    hide UriEncode, DecodeURIComponent, PlusToSpace;
    UriEncodeEncoded(text);
    EncodedLacks(UriEncode(text), '+');
    NoPlus(UriEncode(text));
    DecodeEncode(text);
  }

  /** Form decoding reads a shown parameter back. */
  lemma FormShown(env: Env, r: Pair)
    ensures FormPair(env)(Show(EncodeBoth(r))) == r
  {
    hide UriEncode, FormDecode, Show, ParsePair;
    ParseShown(r);
    FormDecodeEncoded(env, r.0);
    FormDecodeEncoded(env, r.1);
  }

  // ---- The whole query ----

  /** The parameters as they stand in the query string, the signature last. */
  function Pieces(encoded: seq<Pair>, signature: string): seq<string> { Map(Show, encoded) + [Show((SIGNATURE_KEY, signature))] }

  /** The encoded pair is some pair's encoding. */
  ghost predicate Encoding(e: Pair) { exists r :: e == EncodeBoth(r) }

  lemma SortedEncodings(parameters: seq<Pair>)
    ensures forall e :: e in Sort(Map(EncodeBoth, parameters)) <==> exists r :: r in parameters && e == EncodeBoth(r)
  {
    hide EncodeBoth, Sort;
    var es := Map(EncodeBoth, parameters);
    forall e
      ensures e in Sort(es) <==> exists r :: r in parameters && e == EncodeBoth(r)
    {
      SortIn(es, e);
      if e in es {
        var i :| 0 <= i < |es| && es[i] == e;
        assert parameters[i] in parameters;
      }
      if r :| r in parameters && e == EncodeBoth(r) {
        var i :| 0 <= i < |parameters| && parameters[i] == r;
        assert es[i] == e;
      }
    }
  }

  lemma SignaturePair(signature: string)
    requires forall i :: 0 <= i < |signature| ==> Unreserved(signature[i])
    ensures EncodeBoth((SIGNATURE_KEY, signature)) == (SIGNATURE_KEY, signature)
  {
    hide UriEncode;
    UriEncodeUnreserved(signature);
    UriEncodeUnreserved(SIGNATURE_KEY);
  }

  lemma {:induction false} JoinSnoc(parts: seq<string>, last: string)
    requires parts != []
    ensures Join(parts + [last], "&") == Join(parts, "&") + "&" + last
  {
    var all := parts + [last];
    assert all[1..] == parts[1..] + [last];
    if |parts| == 1 {
      assert all[1..] == [last];
    } else {
      JoinSnoc(parts[1..], last);
    }
  }

  /** The query string splits into its pieces again. */
  lemma PiecesSplit(encoded: seq<Pair>, signature: string)
    requires encoded != [] && (forall e :: e in encoded ==> Encoding(e))
    requires EncodeBoth((SIGNATURE_KEY, signature)) == (SIGNATURE_KEY, signature)
    ensures var query := Join(Map(Show, encoded), "&") + "&" + SIGNATURE_KEY + "=" + signature;
            && Split(query, '&') == Pieces(encoded, signature) && '?' !in query
            && Filter(Split(query, '&'), NonEmpty()) == Pieces(encoded, signature)
  {
    hide Split, Join, EncodeBoth, Filter, Show;
    var pieces := Pieces(encoded, signature);
    var query := Join(Map(Show, encoded), "&") + "&" + SIGNATURE_KEY + "=" + signature;
    forall i | 0 <= i < |pieces|
      ensures '&' !in pieces[i] && '?' !in pieces[i] && pieces[i] != ""
    {
      var e := if i < |encoded| then encoded[i] else (SIGNATURE_KEY, signature);
      assert Encoding(e) by {
        if i < |encoded| {
          assert encoded[i] in encoded;
        }
      }
      var r :| e == EncodeBoth(r);
      EncodedPairLacks(r, '&');
      EncodedPairLacks(r, '?');
      ShowNotEmpty(e);
    }
    JoinSnoc(Map(Show, encoded), Show((SIGNATURE_KEY, signature)));
    ShowSignature(signature);
    assert query == Join(pieces, "&");
    SplitJoin(pieces, '&');
    JoinLacks(pieces, '&', '?');
    FilterAll(pieces, NonEmpty());
  }

  lemma ShowNotEmpty(e: Pair)
    ensures Show(e) != ""
  {}

  lemma ShowSignature(signature: string)
    ensures Show((SIGNATURE_KEY, signature)) == SIGNATURE_KEY + "=" + signature
    ensures forall q: string :: q + "&" + Show((SIGNATURE_KEY, signature)) == q + "&" + SIGNATURE_KEY + "=" + signature
  {
    forall q: string
      ensures q + "&" + (SIGNATURE_KEY + "=" + signature) == q + "&" + SIGNATURE_KEY + "=" + signature
    {}
  }

  /** The canonical query the server builds, leaving the signature out, is the one that was signed. */
  lemma QueryRebuilds(encoded: seq<Pair>, signature: string)
    requires encoded != [] && Sorted(encoded) && (forall e :: e in encoded ==> Encoding(e) && e.0 != SIGNATURE_KEY)
    requires EncodeBoth((SIGNATURE_KEY, signature)) == (SIGNATURE_KEY, signature)
    ensures CanonicalQuery(Join(Map(Show, encoded), "&") + "&" + SIGNATURE_KEY + "=" + signature, [SIGNATURE_KEY])
            == Some(Join(Map(Show, encoded), "&"))
  {
    hide Split, Join, EncodeBoth, Filter, Show, Decodable, Canonical, Sort, Sorted;
    PiecesSplit(encoded, signature);
    var pieces := Pieces(encoded, signature);
    var all := encoded + [(SIGNATURE_KEY, signature)];
    forall i | 0 <= i < |pieces|
      ensures Decodable(pieces[i]) && Canonical(pieces[i]) == all[i]
    {
      assert Encoding(all[i]) by {
        if i < |encoded| {
          assert encoded[i] in encoded;
        }
      }
      var r :| all[i] == EncodeBoth(r);
      CanonicalShown(r);
    }
    assert Map(Canonical, pieces) == all;
    SignatureLeftOut(encoded, signature);
    SortOfSorted(encoded);
  }

  lemma SignatureLeftOut(encoded: seq<Pair>, signature: string)
    requires forall e :: e in encoded ==> e.0 != SIGNATURE_KEY
    ensures Filter(encoded + [(SIGNATURE_KEY, signature)], Kept([SIGNATURE_KEY])) == encoded
  {
    hide Filter;
    FilterConcat(encoded, [(SIGNATURE_KEY, signature)], Kept([SIGNATURE_KEY]));
    FilterAll(encoded, Kept([SIGNATURE_KEY]));
    FilterNone([(SIGNATURE_KEY, signature)], Kept([SIGNATURE_KEY]));
  }

  // ---- Path and headers ----

  lemma UriRebuilds(path: string)
    requires |Split(path, '/')| > 1
    ensures CanonicalUri(EncodePath(path)) == Some(EncodePath(path))
  {
    hide UriEncode, DecodeURIComponent, Split, Join;
    EncodePathSplits(path);
    var parts := Split(path, '/');
    var segments := Map(UriEncode, parts);
    forall i | 0 <= i < |segments|
      ensures DecodeURIComponent(segments[i]) == Some(parts[i])
    {
      DecodeEncode(parts[i]);
    }
    var again := Map((segment: string) => var d := DecodeURIComponent(segment); UriEncode(if d.Some? then d.value else ""), segments);
    assert again == segments;
    JoinNotEmpty(segments);
  }

  lemma JoinNotEmpty(parts: seq<string>)
    requires |parts| > 1
    ensures Join(parts, "/") != ""
  {}

  lemma HostLine(req: HttpRequest, host: string)
    requires "host" in req.headers && req.headers["host"] == host && NoSpace(host)
    ensures HeaderLines(req, ["host"]) == "host:" + host + "\n"
    ensures Join(["host"], ";") == "host"
  {
    CollapseNothing(host);
    assert Lower("host") == "host" by { LowerHost(); }
    assert Trim(host) == host;
    assert ["host"][1..] == [];
    assert HeaderLines(req, []) == "";
  }

  lemma LowerHost()
    ensures Lower("host") == "host"
  {
    assert Lower("") == "" && Lower("t") == "t" && Lower("st") == "st" && Lower("ost") == "ost";
  }

  // ---- The parameter record ----

  /** A name is there, with this value and no other. */
  ghost predicate Has(ps: seq<Pair>, name: string, value: string)
  {
    (name, value) in ps && forall p :: p in ps && p.0 == name ==> p.1 == value
  }

  ghost predicate Lacks(ps: seq<Pair>, name: string) { forall p :: p in ps ==> p.0 != name }

  lemma {:induction false} SetOther(ps: seq<Pair>, name: string, value: string, p: Pair)
    requires p.0 != name
    ensures p in SetParameter(ps, name, value) <==> p in ps
  {
    if ps != [] {
      assert ps == [ps[0]] + ps[1..];
      if ps[0].0 != name {
        SetOther(ps[1..], name, value, p);
      }
    }
  }

  /** Extra parameters leave a name they do not use alone. */
  lemma {:induction false} FilledOther(base: seq<Pair>, query: seq<(string, Option<string>)>, p: Pair)
    requires forall q :: q in query ==> q.0 != p.0
    ensures p in Filled(base, query) <==> p in base
  {
    if query != [] {
      var n := |query| - 1;
      assert query[n] in query;
      assert forall q :: q in query[..n] ==> q in query;
      FilledOther(base, query[..n], p);
      if query[n].1.Some? {
        SetOther(Filled(base, query[..n]), query[n].0, query[n].1.value, p);
      }
    }
  }

  lemma FilledKeeps(base: seq<Pair>, query: seq<(string, Option<string>)>, name: string, value: string)
    requires forall q :: q in query ==> q.0 != name
    ensures Has(base, name, value) ==> Has(Filled(base, query), name, value)
    ensures Lacks(base, name) ==> Lacks(Filled(base, query), name)
  {
    hide Filled;
    forall p: Pair | p.0 == name
      ensures p in Filled(base, query) <==> p in base
    {
      FilledOther(base, query, p);
    }
  }

  lemma {:induction false} SetHas(ps: seq<Pair>, name: string, value: string)
    requires forall i, j :: 0 <= i < j < |ps| ==> ps[i].0 != ps[j].0
    ensures var after := SetParameter(ps, name, value);
            && Has(after, name, value) && (forall i, j :: 0 <= i < j < |after| ==> after[i].0 != after[j].0)
  {
    var after := SetParameter(ps, name, value);
    if ps != [] && ps[0].0 != name {
      SetHas(ps[1..], name, value);
      assert after == [ps[0]] + SetParameter(ps[1..], name, value);
      forall j | 1 <= j < |after|
        ensures after[j].0 != ps[0].0
      {
        var p := after[1..][j - 1];
        assert p in SetParameter(ps[1..], name, value);
        if p.0 != name {
          SetOther(ps[1..], name, value, p);
          assert p in ps[1..];
          var i :| 0 <= i < |ps[1..]| && ps[1..][i] == p;
          assert ps[i + 1] == p;
        }
      }
    } else if ps != [] {
      assert after == [(name, value)] + ps[1..];
    }
  }

  /** An extra parameter with a value is in the record, with the last value given for its name. */
  lemma {:induction false} FilledHas(base: seq<Pair>, query: seq<(string, Option<string>)>, k: nat)
    requires forall i, j :: 0 <= i < j < |base| ==> base[i].0 != base[j].0
    requires k < |query| && query[k].1.Some? && forall i :: k < i < |query| ==> query[i].0 != query[k].0 || query[i].1.None?
    ensures Has(Filled(base, query), query[k].0, query[k].1.value)
    decreases |query|
  {
    hide SetParameter, Has;
    var n := |query| - 1;
    FilledDistinct(base, query[..n]);
    if query[n].1.Some? {
      SetHas(Filled(base, query[..n]), query[n].0, query[n].1.value);
    }
    if k < n {
      FilledHas(base, query[..n], k);
      if query[n].1.Some? {
        HasOther(Filled(base, query[..n]), query[n].0, query[n].1.value, query[k].0, query[k].1.value);
      }
    }
  }

  lemma HasOther(ps: seq<Pair>, name: string, value: string, other: string, kept: string)
    requires Has(ps, other, kept) && other != name
    ensures Has(SetParameter(ps, name, value), other, kept)
  {
    hide SetParameter;
    forall p: Pair | p.0 == other
      ensures p in SetParameter(ps, name, value) <==> p in ps
    {
      SetOther(ps, name, value, p);
    }
  }

  lemma {:induction false} FilledDistinct(base: seq<Pair>, query: seq<(string, Option<string>)>)
    requires forall i, j :: 0 <= i < j < |base| ==> base[i].0 != base[j].0
    ensures forall i, j :: 0 <= i < j < |Filled(base, query)| ==> Filled(base, query)[i].0 != Filled(base, query)[j].0
    decreases |query|
  {
    if query != [] {
      hide SetParameter;
      var n := |query| - 1;
      FilledDistinct(base, query[..n]);
      if query[n].1.Some? {
        SetHas(Filled(base, query[..n]), query[n].0, query[n].1.value);
      }
    }
  }

  lemma {:induction false} GetHas(ps: seq<Pair>, name: string, value: string)
    requires Has(ps, name, value)
    ensures Get(ps, name) == Some(value) && GetOr(ps, name) == value
  {
    assert ps == [ps[0]] + ps[1..];
    if ps[0].0 != name {
      GetHas(ps[1..], name, value);
    }
  }

  /** What form decoding makes of the query: the parameters in some order, and the signature. */
  lemma ParamsRead(env: Env, parameters: seq<Pair>, signature: string, name: string, value: string)
    requires parameters != [] && EncodeBoth((SIGNATURE_KEY, signature)) == (SIGNATURE_KEY, signature)
    ensures var ps := FormParams(env, PresignedQuery(parameters) + "&" + SIGNATURE_KEY + "=" + signature);
            && (Has(parameters, name, value) && name != SIGNATURE_KEY ==> Has(ps, name, value))
            && (Lacks(parameters, SIGNATURE_KEY) ==> Has(ps, SIGNATURE_KEY, signature))
  {
    hide EncodeBoth, Sort, Has, Lacks, FormParams, FormPair, Pieces, PresignedQuery, Map;
    var encoded := Sort(Map(EncodeBoth, parameters));
    SortedEncodings(parameters);
    SortNotEmpty(parameters);
    ParamsPieces(env, parameters, encoded, signature);
    var ps := Map(FormPair(env), Pieces(encoded, signature));
    forall p
      ensures p in ps <==> p in parameters || p == (SIGNATURE_KEY, signature)
    {
      ReadPair(env, parameters, signature, encoded, ps, p);
    }
    HasByMembers(parameters, ps, signature, name, value);
  }

  lemma ParamsPieces(env: Env, parameters: seq<Pair>, encoded: seq<Pair>, signature: string)
    requires encoded == Sort(Map(EncodeBoth, parameters)) && encoded != []
    requires forall e :: e in encoded <==> exists r :: r in parameters && e == EncodeBoth(r)
    requires EncodeBoth((SIGNATURE_KEY, signature)) == (SIGNATURE_KEY, signature)
    ensures FormParams(env, PresignedQuery(parameters) + "&" + SIGNATURE_KEY + "=" + signature) == Map(FormPair(env), Pieces(encoded, signature))
  {
    hide EncodeBoth, Sort, FormPair, Pieces, Map, Split, Join, Filter;
    forall e | e in encoded
      ensures Encoding(e)
    {}
    PiecesSplit(encoded, signature);
  }

  lemma SortNotEmpty(parameters: seq<Pair>)
    requires parameters != []
    ensures Sort(Map(EncodeBoth, parameters)) != []
  {
    hide EncodeBoth, Sort;
    SortedEncodings(parameters);
    assert parameters[0] in parameters;
    assert EncodeBoth(parameters[0]) in Sort(Map(EncodeBoth, parameters));
  }

  lemma ReadPair(env: Env, parameters: seq<Pair>, signature: string, encoded: seq<Pair>, ps: seq<Pair>, p: Pair)
    requires EncodeBoth((SIGNATURE_KEY, signature)) == (SIGNATURE_KEY, signature)
    requires forall e :: e in encoded <==> exists r :: r in parameters && e == EncodeBoth(r)
    requires ps == Map(FormPair(env), Pieces(encoded, signature))
    ensures p in ps <==> p in parameters || p == (SIGNATURE_KEY, signature)
  {
    hide EncodeBoth, Show, FormDecode, FormPair;
    var n := |encoded|;
    FormShown(env, (SIGNATURE_KEY, signature));
    assert ps[n] == (SIGNATURE_KEY, signature);
    if p in ps {
      var i :| 0 <= i < |ps| && ps[i] == p;
      if i < n {
        assert encoded[i] in encoded;
        var r :| r in parameters && encoded[i] == EncodeBoth(r);
        FormShown(env, r);
      }
    }
    if p in parameters {
      assert EncodeBoth(p) in encoded;
      var i :| 0 <= i < |encoded| && encoded[i] == EncodeBoth(p);
      FormShown(env, p);
      assert ps[i] == p;
    }
  }

  lemma HasByMembers(parameters: seq<Pair>, ps: seq<Pair>, signature: string, name: string, value: string)
    requires forall p :: p in ps <==> p in parameters || p == (SIGNATURE_KEY, signature)
    ensures Has(parameters, name, value) && name != SIGNATURE_KEY ==> Has(ps, name, value)
    ensures Lacks(parameters, SIGNATURE_KEY) ==> Has(ps, SIGNATURE_KEY, signature)
  {}

  // ---- What presigning needs ----

  /** The parameters `presign` writes itself. */
  predicate OwnName(name: string)
  {
    || name == "X-Amz-Algorithm" || name == "X-Amz-Credential" || name == "X-Amz-Date"
    || name == "X-Amz-Expires" || name == "X-Amz-SignedHeaders" || name == SIGNATURE_KEY
  }

  /** Digests are not empty, and the clock's text is read back to the second. */
  ghost predicate Behaves(env: Env, now: int)
  {
    && (forall key, message :: env.hmac(key, message) != [])
    && |env.toAmzDate(now)| >= 8 && '/' !in env.toAmzDate(now)[..8]
    && env.parseAmzDate(env.toAmzDate(now)) == Some(now - now % 1000)
  }

  /** The credentials fit into a scope, the host is a host, and no extra parameter takes the name of
      one of the signature's own. */
  ghost predicate Presignable(args: PresignArgs)
  {
    && args.accessKeyId != "" && '/' !in args.accessKeyId && args.region != "" && '/' !in args.region
    && NoSpace(args.host)
    && forall q :: q in args.query ==> !OwnName(q.0)
  }

  /** The request a client makes with the URL, on the host it was made for. */
  ghost predicate Follows(env: Env, args: PresignArgs, now: int, req: HttpRequest)
    requires |env.toAmzDate(now)| >= 8
  {
    && req.verb == Upper(args.verb) && req.originalUrl == Target(env, args, now)
    && "host" in req.headers && req.headers["host"] == args.host
  }

  lemma SignatureEncodes(env: Env, args: PresignArgs, now: int)
    requires |env.toAmzDate(now)| >= 8
    ensures var signature := SignatureOf(env, args, now); EncodeBoth((SIGNATURE_KEY, signature)) == (SIGNATURE_KEY, signature)
    ensures Behaves(env, now) ==> SignatureOf(env, args, now) != ""
  {
    hide EncodeBoth, PresignedRequest, DeriveSigningKey, StringToSign;
    var amzDate := env.toAmzDate(now);
    var digest := env.hmac(DeriveSigningKey(env, args.secretAccessKey, amzDate[..8], args.region, SERVICE),
                           StringToSign(env, amzDate, CredentialScope(amzDate[..8], args.region, SERVICE), PresignedRequest(args, ParametersOf(env, args, now))));
    HexUnreserved(digest);
    SignaturePair(HexText(digest));
  }

  /** The five parameters of the signature are in the record, whatever the extra ones. */
  lemma OwnParameters(env: Env, args: PresignArgs, now: int)
    requires |env.toAmzDate(now)| >= 8 && Presignable(args)
    ensures var ps, amzDate := ParametersOf(env, args, now), env.toAmzDate(now);
            && Has(ps, "X-Amz-Algorithm", ALGORITHM)
            && Has(ps, "X-Amz-Credential", args.accessKeyId + "/" + CredentialScope(amzDate[..8], args.region, SERVICE))
            && Has(ps, "X-Amz-Date", amzDate)
            && Has(ps, "X-Amz-Expires", DecimalText(args.expiresIn))
            && Has(ps, "X-Amz-SignedHeaders", "host")
            && Lacks(ps, SIGNATURE_KEY) && ps != []
  {
    hide Filled, CredentialScope;
    var amzDate := env.toAmzDate(now);
    var scope := CredentialScope(amzDate[..8], args.region, SERVICE);
    var base := BaseParameters(args, amzDate, scope);
    BaseHas(args, amzDate, scope);
    FilledKeeps(base, args.query, "X-Amz-Algorithm", ALGORITHM);
    FilledKeeps(base, args.query, "X-Amz-Credential", args.accessKeyId + "/" + scope);
    FilledKeeps(base, args.query, "X-Amz-Date", amzDate);
    FilledKeeps(base, args.query, "X-Amz-Expires", DecimalText(args.expiresIn));
    FilledKeeps(base, args.query, "X-Amz-SignedHeaders", "host");
    FilledKeeps(base, args.query, SIGNATURE_KEY, "");
  }

  lemma BaseHas(args: PresignArgs, amzDate: string, scope: string)
    ensures var base := BaseParameters(args, amzDate, scope);
            && Has(base, "X-Amz-Algorithm", ALGORITHM) && Has(base, "X-Amz-Credential", args.accessKeyId + "/" + scope)
            && Has(base, "X-Amz-Date", amzDate) && Has(base, "X-Amz-Expires", DecimalText(args.expiresIn))
            && Has(base, "X-Amz-SignedHeaders", "host") && Lacks(base, SIGNATURE_KEY)
  {
    var base := BaseParameters(args, amzDate, scope);
    assert base[0] in base && base[1] in base && base[2] in base && base[3] in base && base[4] in base;
  }

  lemma TargetSplits(env: Env, args: PresignArgs, now: int)
    requires |env.toAmzDate(now)| >= 8 && Presignable(args)
    ensures var query := PresignedQuery(ParametersOf(env, args, now)) + "&" + SIGNATURE_KEY + "=" + SignatureOf(env, args, now);
            && Target(env, args, now) == PresignedPath(args) + "?" + query
            && PathOf(Target(env, args, now)) == PresignedPath(args) && QueryOf(Target(env, args, now)) == query
  {
    hide EncodeBoth, Sort, Split, Join, Filter, Pieces, SignatureOf, ParametersOf, EncodePath, Has, Lacks;
    var parameters, signature := ParametersOf(env, args, now), SignatureOf(env, args, now);
    var encoded := Sort(Map(EncodeBoth, parameters));
    var query := PresignedQuery(parameters) + "&" + SIGNATURE_KEY + "=" + signature;
    OwnParameters(env, args, now);
    SortedEncodings(parameters);
    SortNotEmpty(parameters);
    SignatureEncodes(env, args, now);
    PiecesSplit(encoded, signature);
    EncodePathSplits("/" + args.bucket + "/" + args.key);
    TargetText(PresignedPath(args), PresignedQuery(parameters), signature);
    SplitFirst(PresignedPath(args), '?', query);
    SplitNone(query, '?');
  }

  lemma TargetText(path: string, query: string, signature: string)
    ensures path + "?" + query + "&" + SIGNATURE_KEY + "=" + signature == path + "?" + (query + "&" + SIGNATURE_KEY + "=" + signature)
    ensures path + "?" + (query + "&" + SIGNATURE_KEY + "=" + signature) == path + ['?'] + (query + "&" + SIGNATURE_KEY + "=" + signature)
  {}

  /** The server builds the very canonical request that was signed. */
  lemma PresignedRebuilds(env: Env, args: PresignArgs, now: int, req: HttpRequest)
    requires |env.toAmzDate(now)| >= 8 && Presignable(args) && Follows(env, args, now, req)
    ensures BuildCanonicalRequest(req, ["host"], UNSIGNED_PAYLOAD, [SIGNATURE_KEY]) == Some(PresignedRequest(args, ParametersOf(env, args, now)))
  {
    hide EncodeBoth, Sort, Split, Filter, SignatureOf, ParametersOf, EncodePath, CanonicalUri, CanonicalQuery, HeaderLines, Target, Assemble, Join, Has, Lacks;
    var parameters, signature := ParametersOf(env, args, now), SignatureOf(env, args, now);
    var encoded := Sort(Map(EncodeBoth, parameters));
    TargetSplits(env, args, now);
    PathSegments(args.bucket, args.key);
    UriRebuilds("/" + args.bucket + "/" + args.key);
    OwnParameters(env, args, now);
    SortedEncodings(parameters);
    SortNotEmpty(parameters);
    SignatureEncodes(env, args, now);
    SortSorts(Map(EncodeBoth, parameters));
    forall e | e in encoded
      ensures Encoding(e) && e.0 != SIGNATURE_KEY
    {
      var r :| r in parameters && e == EncodeBoth(r);
      OtherName(parameters, r);
    }
    QueryRebuilds(encoded, signature);
    HostLine(req, args.host);
  }

  lemma PathSegments(bucket: string, key: string)
    ensures |Split("/" + bucket + "/" + key, '/')| > 1
  {
    hide Split;
    assert "/" + bucket + "/" + key == "/" + (bucket + "/" + key);
    SplitSlash(bucket + "/" + key);
  }

  lemma OtherName(parameters: seq<Pair>, r: Pair)
    requires Lacks(parameters, SIGNATURE_KEY) && r in parameters
    ensures EncodeBoth(r).0 != SIGNATURE_KEY
  {
    hide UriEncode;
    UriEncodeUnreserved(SIGNATURE_KEY);
    if UriEncode(r.0) == SIGNATURE_KEY {
      UriEncodeInjective(r.0, SIGNATURE_KEY);
    }
  }

  lemma CredentialSplits(accessKeyId: string, date: string, region: string)
    requires '/' !in accessKeyId && '/' !in date && '/' !in region
    ensures Split(accessKeyId + "/" + CredentialScope(date, region, SERVICE), '/') == [accessKeyId, date, region, SERVICE, "aws4_request"]
  {
    hide Split;
    var rest1 := SERVICE + ['/'] + "aws4_request";
    var rest2 := region + ['/'] + rest1;
    var rest3 := date + ['/'] + rest2;
    assert accessKeyId + "/" + CredentialScope(date, region, SERVICE) == accessKeyId + ['/'] + rest3;
    SplitFirst(accessKeyId, '/', rest3);
    SplitFirst(date, '/', rest2);
    SplitFirst(region, '/', rest1);
    SplitFirst(SERVICE, '/', "aws4_request");
    SplitNone("aws4_request", '/');
  }

  lemma SignedHost()
    ensures Filter(Split("host", ';'), NonEmpty()) == ["host"]
  {
    SplitNone("host", ';');
    FilterAll(["host"], NonEmpty());
  }

  /** What was put into the URL is read from it. */
  lemma PresignedReads(env: Env, args: PresignArgs, now: int)
    requires Behaves(env, now) && Presignable(args)
    ensures ParseQuerySignature(env, Target(env, args, now))
            == Ok(Some(QuerySignature(args.accessKeyId, env.toAmzDate(now)[..8], args.region, SERVICE, ["host"], SignatureOf(env, args, now),
                                      env.toAmzDate(now), Some(args.expiresIn))))
  {
    hide EncodeBoth, Split, Filter, SignatureOf, ParametersOf, Target, FormParams, PresignedQuery, Has, Lacks, Get, CredentialScope, Number, Digits;
    var parameters, signature, amzDate := ParametersOf(env, args, now), SignatureOf(env, args, now), env.toAmzDate(now);
    var date := amzDate[..8];
    var ps := FormParams(env, PresignedQuery(parameters) + "&" + SIGNATURE_KEY + "=" + signature);
    TargetSplits(env, args, now);
    OwnParameters(env, args, now);
    SignatureEncodes(env, args, now);
    ReadOne(env, parameters, signature, ps, "X-Amz-Algorithm", ALGORITHM);
    ReadOne(env, parameters, signature, ps, "X-Amz-Credential", args.accessKeyId + "/" + CredentialScope(date, args.region, SERVICE));
    ReadOne(env, parameters, signature, ps, "X-Amz-Date", amzDate);
    ReadOne(env, parameters, signature, ps, "X-Amz-Expires", DecimalText(args.expiresIn));
    ReadOne(env, parameters, signature, ps, "X-Amz-SignedHeaders", "host");
    ParamsRead(env, parameters, signature, SIGNATURE_KEY, signature);
    GetHas(ps, SIGNATURE_KEY, signature);
    CredentialSplits(args.accessKeyId, date, args.region);
    SignedHost();
    NumberOfText(args.expiresIn);
    ReadWhole(env, ps, args.accessKeyId, date, args.region, signature, amzDate, args.expiresIn);
  }

  lemma ReadOne(env: Env, parameters: seq<Pair>, signature: string, ps: seq<Pair>, name: string, value: string)
    requires parameters != [] && EncodeBoth((SIGNATURE_KEY, signature)) == (SIGNATURE_KEY, signature)
    requires ps == FormParams(env, PresignedQuery(parameters) + "&" + SIGNATURE_KEY + "=" + signature)
    requires Has(parameters, name, value) && name != SIGNATURE_KEY
    ensures Get(ps, name) == Some(value) && GetOr(ps, name) == value
  {
    hide EncodeBoth, FormParams, PresignedQuery, Has, Get;
    ParamsRead(env, parameters, signature, name, value);
    GetHas(ps, name, value);
  }

  lemma ReadWhole(env: Env, ps: seq<Pair>, accessKeyId: string, date: string, region: string, signature: string, amzDate: string, expiresIn: nat)
    requires Get(ps, "X-Amz-Algorithm") == Some(ALGORITHM)
    requires Split(GetOr(ps, "X-Amz-Credential"), '/') == [accessKeyId, date, region, SERVICE, "aws4_request"]
    requires GetOr(ps, "X-Amz-Date") == amzDate && GetOr(ps, SIGNATURE_KEY) == signature
    requires Get(ps, "X-Amz-Expires") == Some(DecimalText(expiresIn)) && Digits(DecimalText(expiresIn)) && Number(DecimalText(expiresIn)) == expiresIn
    requires Filter(Split(GetOr(ps, "X-Amz-SignedHeaders"), ';'), NonEmpty()) == ["host"]
    requires accessKeyId != "" && date != "" && region != "" && signature != "" && amzDate != ""
    ensures ParseParams(env, ps)
            == Ok(Some(QuerySignature(accessKeyId, date, region, SERVICE, ["host"], signature, amzDate, Some(expiresIn))))
  {
    hide Get, GetOr, Split, Filter, Number, Digits;
  }

  /** A presigned URL names the bucket and key it was made for, carries its own signature, and is
      accepted on its host exactly from its making to its expiry instant, for lifetimes of 1 to
      604800 seconds; any other lifetime is refused. */
  lemma PresignedAccepted(env: Env, args: PresignArgs, now: int, req: HttpRequest, later: int)
    requires Behaves(env, now) && Presignable(args) && Follows(env, args, now, req)
    ensures ParseQuerySignature(env, req.originalUrl).Ok? && ParseQuerySignature(env, req.originalUrl).value.Some?
    ensures var parsed := ParseQuerySignature(env, req.originalUrl).value.value;
            VerifyPresigned(env, req, parsed, args.secretAccessKey, later)
            == if !(1 <= args.expiresIn <= MAX_EXPIRES) then Err(MalformedAuthorization)
               else if later > now - now % 1000 + args.expiresIn * 1000 then Err(ExpiredSignature)
               else Ok(())
    ensures '/' !in args.bucket ==> BucketAndKey(req.originalUrl) == (args.bucket, args.key)
  {
    hide ParseQuerySignature, BuildCanonicalRequest, Target, ParametersOf, PresignedRequest, BucketAndKey, PresignedQuery, EncodePath, Sign;
    PresignedReads(env, args, now);
    PresignedRebuilds(env, args, now, req);
    TargetSplits(env, args, now);
    if '/' !in args.bucket {
      BucketAndKeyRecovers(args.bucket, args.key, PresignedQuery(ParametersOf(env, args, now)) + "&" + SIGNATURE_KEY + "=" + SignatureOf(env, args, now));
    }
  }
}
