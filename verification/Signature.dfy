/** `S3SignatureService`: canonical requests, presigned URLs and their verification (AWS Signature
    Version 4, "Create a canonical request"). SHA-256, HMAC and the clock's text format are
    parameters. */
module Signature {
  import opened Common
  import opened Numerals
  import opened QueryOrder
  import opened Request
  import opened UriCodec

  const ALGORITHM := "AWS4-HMAC-SHA256"
  const SERVICE := "s3"
  const UNSIGNED_PAYLOAD := "UNSIGNED-PAYLOAD"
  const SIGNATURE_KEY := "X-Amz-Signature"
  const MAX_EXPIRES := 604800

  /** `sha256` gives the hexadecimal digest, `hmac` the raw one. `lossy` stands for decoding form text
      that is not well-formed, and `number` for `Number` of text that is not all digits. */
  datatype Env = Env(sha256: string -> string, hmac: (seq<byte>, string) -> seq<byte>,
                     toAmzDate: int -> string, parseAmzDate: string -> Option<int>,
                     lossy: string -> string, number: string -> Option<int>)

  /** A request as the server sees it; header names are in lower case. */
  datatype HttpRequest = HttpRequest(verb: string, originalUrl: string, headers: map<string, string>)

  datatype Error = MalformedAuthorization | ExpiredSignature | SignatureMismatch | MalformedUri

  // ---- Small text functions ----

  function Upper(s: string): (upper: string)
    ensures |upper| == |s|
    ensures forall i :: 0 <= i < |s| ==> upper[i] as int == if 97 <= s[i] as int <= 122 then s[i] as int - 32 else s[i] as int
  {
    if s == "" then "" else [if 'a' <= s[0] <= 'z' then s[0] - 32 as char else s[0]] + Upper(s[1..])
  }

  function Lower(s: string): (lower: string)
    ensures |lower| == |s|
    ensures forall i :: 0 <= i < |s| ==> lower[i] as int == if 65 <= s[i] as int <= 90 then s[i] as int + 32 else s[i] as int
  {
    if s == "" then "" else [if 'A' <= s[0] <= 'Z' then s[0] + 32 as char else s[0]] + Lower(s[1..])
  }

  const HEX_DIGITS := "0123456789abcdef"

  function HexText(bytes: seq<byte>): string
  {
    if bytes == [] then "" else [HEX_DIGITS[bytes[0] / 16], HEX_DIGITS[bytes[0] % 16]] + HexText(bytes[1..])
  }

  lemma {:induction false} HexUnreserved(bytes: seq<byte>)
    ensures forall i :: 0 <= i < |HexText(bytes)| ==> Unreserved(HexText(bytes)[i])
  {
    if bytes != [] {
      HexUnreserved(bytes[1..]);
      HexDigitUnreserved(bytes[0] / 16);
      HexDigitUnreserved(bytes[0] % 16);
    }
  }

  lemma HexDigitUnreserved(d: nat)
    requires d < 16
    ensures Unreserved(HEX_DIGITS[d])
  {}

  // ---- Keys and signatures ----

  function DeriveSigningKey(env: Env, secretAccessKey: string, date: string, region: string, service: string): seq<byte>
  {
    env.hmac(env.hmac(env.hmac(env.hmac(Utf8Text("AWS4" + secretAccessKey), date), region), service), "aws4_request")
  }

  function CredentialScope(date: string, region: string, service: string): string { date + "/" + region + "/" + service + "/aws4_request" }

  function StringToSign(env: Env, amzDate: string, scope: string, canonicalRequest: string): string
  {
    Join([ALGORITHM, amzDate, scope, env.sha256(canonicalRequest)], "\n")
  }

  function Sign(env: Env, secretAccessKey: string, date: string, region: string, service: string, amzDate: string, canonicalRequest: string): string
  {
    HexText(env.hmac(DeriveSigningKey(env, secretAccessKey, date, region, service),
                     StringToSign(env, amzDate, CredentialScope(date, region, service), canonicalRequest)))
  }

  // ---- Query strings ----

  function Show(p: Pair): string { p.0 + "=" + p.1 }

  function NonEmpty(): string -> bool { (s: string) => s != "" }

  /** Name and value; everything after the first `=` is the value. */
  function ParsePair(pair: string): Pair
  {
    var parts := Split(pair, '=');
    (parts[0], Join(parts[1..], "="))
  }

  /** The first `=` ends the name. */
  lemma ParsePairExact(name: string, value: string)
    requires '=' !in name
    ensures ParsePair(name + "=" + value) == (name, value) && ParsePair(name) == (name, "")
  {
    hide Split, Join;
    assert [name][1..] == [];
    assert name + "=" + value == name + ['='] + value;
    SplitFirst(name, '=', value);
    SplitNone(name, '=');
    JoinSplit(value, '=');
    assert ([name] + Split(value, '='))[1..] == Split(value, '=');
    NothingJoined();
  }

  lemma NothingJoined()
    ensures Join<char>([], "=") == ""
  {}

  function EncodeBoth(p: Pair): Pair { (UriEncode(p.0), UriEncode(p.1)) }

  predicate Decodable(pair: string)
  {
    DecodeURIComponent(ParsePair(pair).0).Some? && DecodeURIComponent(ParsePair(pair).1).Some?
  }

  /** One parameter of the query in its canonical encoding. */
  function Canonical(pair: string): Pair
  {
    if Decodable(pair) then EncodeBoth((DecodeURIComponent(ParsePair(pair).0).value, DecodeURIComponent(ParsePair(pair).1).value)) else ("", "")
  }

  function Kept(exclude: seq<string>): Pair -> bool { (p: Pair) => p.0 !in exclude }

  /** None where decoding throws. */
  function CanonicalQuery(query: string, exclude: seq<string>): Option<string>
  {
    var pairs := Filter(Split(query, '&'), NonEmpty());
    if exists i :: 0 <= i < |pairs| && !Decodable(pairs[i]) then None
    else Some(Join(Map(Show, Sort(Filter(Map(Canonical, pairs), Kept(exclude)))), "&"))
  }

  function CanonicalUri(uriPath: string): Option<string>
  {
    var segments := Split(uriPath, '/');
    if exists i :: 0 <= i < |segments| && DecodeURIComponent(segments[i]).None? then None
    else
      var uri := Join(Map((segment: string) => var d := DecodeURIComponent(segment); UriEncode(if d.Some? then d.value else ""), segments), "/");
      Some(if uri == "" then "/" else uri)
  }

  function HeaderLine(req: HttpRequest, name: string): string
  {
    var value := if Lower(name) in req.headers then req.headers[Lower(name)] else "";
    name + ":" + CollapseSpaces(Trim(value)) + "\n"
  }

  function HeaderLines(req: HttpRequest, names: seq<string>): string
  {
    if names == [] then "" else HeaderLine(req, names[0]) + HeaderLines(req, names[1..])
  }

  function Assemble(verb: string, uri: string, query: string, headers: string, signedHeaders: string, payloadHash: string): string
  {
    Join([verb, uri, query, headers, signedHeaders, payloadHash], "\n")
  }

  /** The path and the query of a URL: what stands before the first question mark, and between it and
      the next. */
  function PathOf(url: string): string { Split(url, '?')[0] }

  function QueryOf(url: string): string
  {
    var parts := Split(url, '?');
    if |parts| > 1 then parts[1] else ""
  }

  function BuildCanonicalRequest(req: HttpRequest, signedHeaders: seq<string>, payloadHash: string, exclude: seq<string>): Option<string>
  {
    match CanonicalUri(PathOf(req.originalUrl))
    case None => None
    case Some(uri) =>
      match CanonicalQuery(QueryOf(req.originalUrl), exclude)
      case None => None
      case Some(query) => Some(Assemble(req.verb, uri, query, HeaderLines(req, signedHeaders), Join(signedHeaders, ";"), payloadHash))
  }

  /** The canonical query does not depend on the order of the parameters. */
  lemma QueryOrderIrrelevant(q: string, q': string, exclude: seq<string>)
    requires Permuted(Filter(Split(q, '&'), NonEmpty()), Filter(Split(q', '&'), NonEmpty()))
    ensures CanonicalQuery(q, exclude) == CanonicalQuery(q', exclude)
  {
    hide Filter, Split, Join, Canonical, Decodable, Sort, Count;
    var a, b := Filter(Split(q, '&'), NonEmpty()), Filter(Split(q', '&'), NonEmpty());
    PermutedIn(a, b);
    MapPermuted(Canonical, a, b);
    FilterPermuted(Kept(exclude), Map(Canonical, a), Map(Canonical, b));
    SortPermuted(Filter(Map(Canonical, a), Kept(exclude)), Filter(Map(Canonical, b), Kept(exclude)));
    SameBad(a, b);
    SameBad(b, a);
  }

  lemma PermutedIn<T(!new)>(a: seq<T>, b: seq<T>)
    requires Permuted(a, b)
    ensures forall x :: x in a <==> x in b
  {
    hide Count;
    forall x
      ensures x in a <==> x in b
    {
      CountIn(a, x);
      CountIn(b, x);
    }
  }

  lemma SameBad(a: seq<string>, b: seq<string>)
    requires forall x :: x in a ==> x in b
    ensures (exists i :: 0 <= i < |a| && !Decodable(a[i])) ==> exists i :: 0 <= i < |b| && !Decodable(b[i])
  {
    hide Decodable;
    if i :| 0 <= i < |a| && !Decodable(a[i]) {
      assert a[i] in b;
      var j :| 0 <= j < |b| && b[j] == a[i];
    }
  }

  // ---- Presigning ----

  /** `url` of the endpoint is given by its origin and host. */
  datatype PresignArgs = PresignArgs(verb: string, origin: string, host: string, bucket: string, key: string, expiresIn: nat,
                                     accessKeyId: string, secretAccessKey: string, region: string, query: seq<(string, Option<string>)>)

  function BaseParameters(args: PresignArgs, amzDate: string, scope: string): seq<Pair>
  {
    [("X-Amz-Algorithm", ALGORITHM),
     ("X-Amz-Credential", args.accessKeyId + "/" + scope),
     ("X-Amz-Date", amzDate),
     ("X-Amz-Expires", DecimalText(args.expiresIn)),
     ("X-Amz-SignedHeaders", "host")]
  }

  /** Assigning a property of the parameter record: in place if it is there, at the end if not. */
  function SetParameter(ps: seq<Pair>, name: string, value: string): seq<Pair>
  {
    if ps == [] then [(name, value)]
    else if ps[0].0 == name then [(name, value)] + ps[1..]
    else [ps[0]] + SetParameter(ps[1..], name, value)
  }

  function Filled(base: seq<Pair>, query: seq<(string, Option<string>)>): seq<Pair>
  {
    if query == [] then base
    else
      var n := |query| - 1;
      var ps := Filled(base, query[..n]);
      if query[n].1.Some? then SetParameter(ps, query[n].0, query[n].1.value) else ps
  }

  function PresignedQuery(parameters: seq<Pair>): string { Join(Map(Show, Sort(Map(EncodeBoth, parameters))), "&") }

  function PresignedPath(args: PresignArgs): string { EncodePath("/" + args.bucket + "/" + args.key) }

  function PresignedRequest(args: PresignArgs, parameters: seq<Pair>): string
  {
    Assemble(Upper(args.verb), PresignedPath(args), PresignedQuery(parameters), "host:" + args.host + "\n", "host", UNSIGNED_PAYLOAD)
  }

  function ParametersOf(env: Env, args: PresignArgs, now: int): seq<Pair>
    requires |env.toAmzDate(now)| >= 8
  {
    var amzDate := env.toAmzDate(now);
    Filled(BaseParameters(args, amzDate, CredentialScope(amzDate[..8], args.region, SERVICE)), args.query)
  }

  function SignatureOf(env: Env, args: PresignArgs, now: int): string
    requires |env.toAmzDate(now)| >= 8
  {
    var amzDate := env.toAmzDate(now);
    Sign(env, args.secretAccessKey, amzDate[..8], args.region, SERVICE, amzDate, PresignedRequest(args, ParametersOf(env, args, now)))
  }

  /** The request target of the presigned URL. */
  function Target(env: Env, args: PresignArgs, now: int): string
    requires |env.toAmzDate(now)| >= 8
  {
    PresignedPath(args) + "?" + PresignedQuery(ParametersOf(env, args, now)) + "&" + SIGNATURE_KEY + "=" + SignatureOf(env, args, now)
  }

  method Presign(env: Env, args: PresignArgs, now: int) returns (url: string)
    requires |env.toAmzDate(now)| >= 8
    ensures url == args.origin + Target(env, args, now)
    ensures url == args.origin + PresignedPath(args) + "?" + PresignedQuery(ParametersOf(env, args, now)) + "&X-Amz-Signature=" + SignatureOf(env, args, now)
  {
    hide UriEncode, Sort, Join, EncodePath, Upper, HexText;
    var amzDate := env.toAmzDate(now);
    var date := amzDate[..8];
    var scope := CredentialScope(date, args.region, SERVICE);
    var canonicalUri := EncodePath("/" + args.bucket + "/" + args.key);
    var parameters := BaseParameters(args, amzDate, scope);
    assert args.query[..0] == [];
    for i := 0 to |args.query|
      invariant parameters == Filled(BaseParameters(args, amzDate, scope), args.query[..i])
    {
      assert args.query[..i + 1][..i] == args.query[..i];
      if args.query[i].1.Some? {
        parameters := SetParameter(parameters, args.query[i].0, args.query[i].1.value);
      }
    }
    assert args.query[..|args.query|] == args.query;
    var canonicalQuery := Join(Map(Show, Sort(Map(EncodeBoth, parameters))), "&");
    var canonicalRequest := Assemble(Upper(args.verb), canonicalUri, canonicalQuery, "host:" + args.host + "\n", "host", UNSIGNED_PAYLOAD);
    var signature := Sign(env, args.secretAccessKey, date, args.region, SERVICE, amzDate, canonicalRequest);
    url := args.origin + canonicalUri + "?" + canonicalQuery + "&" + SIGNATURE_KEY + "=" + signature;
    assert url == args.origin + (canonicalUri + "?" + canonicalQuery + "&" + SIGNATURE_KEY + "=" + signature);
    assert args.origin + canonicalUri + "?" + canonicalQuery + ("&" + SIGNATURE_KEY + "=") + signature == url;
  }

  // ---- Reading a query signature ----

  datatype QuerySignature = QuerySignature(accessKeyId: string, date: string, region: string, service: string, signedHeaders: seq<string>,
                                           signature: string, amzDate: string, expires: Option<int>)

  function PlusToSpace(s: string): (r: string)
    ensures |r| == |s| && forall i :: 0 <= i < |s| ==> r[i] == if s[i] == '+' then ' ' else s[i]
  {
    if s == "" then "" else [if s[0] == '+' then ' ' else s[0]] + PlusToSpace(s[1..])
  }

  /** Form decoding, as `URLSearchParams` does it. */
  function FormDecode(env: Env, s: string): string
  {
    match DecodeURIComponent(PlusToSpace(s)) case Some(text) => text case None => env.lossy(s)
  }

  function FormPair(env: Env): string -> Pair
  {
    (s: string) => (FormDecode(env, ParsePair(s).0), FormDecode(env, ParsePair(s).1))
  }

  function FormParams(env: Env, query: string): seq<Pair> { Map(FormPair(env), Filter(Split(query, '&'), NonEmpty())) }

  /** The first parameter of a name. */
  function Get(ps: seq<Pair>, name: string): Option<string>
  {
    if ps == [] then None else if ps[0].0 == name then Some(ps[0].1) else Get(ps[1..], name)
  }

  lemma {:induction false} GetFirst(ps: seq<Pair>, name: string, value: string)
    ensures Get(ps, name) == Some(value) <==> exists i :: 0 <= i < |ps| && ps[i] == (name, value) && forall j :: 0 <= j < i ==> ps[j].0 != name
  {
    if ps != [] && ps[0].0 != name {
      GetFirst(ps[1..], name, value);
      if i :| 0 <= i < |ps| && ps[i] == (name, value) && forall j :: 0 <= j < i ==> ps[j].0 != name {
        assert ps[1..][i - 1] == (name, value) && forall j :: 0 <= j < i - 1 ==> ps[1..][j].0 != name;
      }
      if i :| 0 <= i < |ps[1..]| && ps[1..][i] == (name, value) && forall j :: 0 <= j < i ==> ps[1..][j].0 != name {
        assert ps[i + 1] == (name, value) && forall j :: 0 <= j < i + 1 ==> ps[j].0 != name;
      }
    } else if ps != [] && Get(ps, name) == Some(value) {
      assert ps[0] == (name, value);
    }
  }

  function GetOr(ps: seq<Pair>, name: string): string
  {
    match Get(ps, name) case Some(value) => value case None => ""
  }

  /** `Number` of query text; None for not-a-number. */
  function ParseNumber(env: Env, s: string): Option<int>
  {
    if s != "" && Digits(s) then Some(Number(s)) else env.number(s)
  }

  function Element(parts: seq<string>, i: nat): string { if i < |parts| then parts[i] else "" }

  function ReadExpires(env: Env, query: seq<Pair>): Option<int>
  {
    match Get(query, "X-Amz-Expires") case Some(text) => ParseNumber(env, text) case None => Some(0)
  }

  function ReadSignature(env: Env, query: seq<Pair>, credential: seq<string>): QuerySignature
  {
    QuerySignature(Element(credential, 0), Element(credential, 1), Element(credential, 2), Element(credential, 3),
                   Filter(Split(GetOr(query, "X-Amz-SignedHeaders"), ';'), NonEmpty()), GetOr(query, SIGNATURE_KEY),
                   GetOr(query, "X-Amz-Date"), ReadExpires(env, query))
  }

  predicate Whole(q: QuerySignature)
  {
    q.accessKeyId != "" && q.date != "" && q.region != "" && q.service != "" && q.signature != "" && q.amzDate != "" && q.signedHeaders != []
  }

  /** None when the request carries no query signature. */
  function ParseParams(env: Env, query: seq<Pair>): Result<Option<QuerySignature>, Error>
  {
    if Get(query, "X-Amz-Algorithm") != Some(ALGORITHM) then Ok(None)
    else
      var parsed := ReadSignature(env, query, Split(GetOr(query, "X-Amz-Credential"), '/'));
      if Whole(parsed) then Ok(Some(parsed)) else Err(MalformedAuthorization)
  }

  /** A request without the algorithm parameter carries no signature; one that carries it must have every
      field of a signature. */
  lemma ParseParamsExact(env: Env, query: seq<Pair>)
    ensures ParseParams(env, query) == Ok(None) <==> Get(query, "X-Amz-Algorithm") != Some("AWS4-HMAC-SHA256")
    ensures ParseParams(env, query).Ok? && ParseParams(env, query).value.Some? ==>
              var q := ParseParams(env, query).value.value;
              && q.accessKeyId != "" && q.date != "" && q.region != "" && q.service != "" && q.signature != "" && q.amzDate != "" && q.signedHeaders != []
              && q.signature == GetOr(query, "X-Amz-Signature") && q.amzDate == GetOr(query, "X-Amz-Date")
    ensures ParseParams(env, query).Err? ==>
              || GetOr(query, "X-Amz-Signature") == "" || GetOr(query, "X-Amz-Date") == ""
              || |Split(GetOr(query, "X-Amz-Credential"), '/')| < 4 || "" in Split(GetOr(query, "X-Amz-Credential"), '/')[..4]
              || Filter(Split(GetOr(query, "X-Amz-SignedHeaders"), ';'), NonEmpty()) == []
  {
    hide Get, GetOr, Split, Filter, ReadExpires;
    var credential := Split(GetOr(query, "X-Amz-Credential"), '/');
    if |credential| >= 4 {
      assert forall i :: 0 <= i < 4 ==> credential[i] in credential[..4];
    }
  }

  function ParseQuerySignature(env: Env, url: string): Result<Option<QuerySignature>, Error>
  {
    ParseParams(env, FormParams(env, QueryOf(url)))
  }

  /** `verifyPresigned` at time `now`, in milliseconds. */
  function VerifyPresigned(env: Env, req: HttpRequest, parsed: QuerySignature, secretAccessKey: string, now: int): Result<(), Error>
  {
    match env.parseAmzDate(parsed.amzDate)
    case None => Err(MalformedAuthorization)
    case Some(issuedAt) =>
      if parsed.expires.Some? && (parsed.expires.value <= 0 || parsed.expires.value > MAX_EXPIRES) then Err(MalformedAuthorization)
      else if parsed.expires.Some? && now > issuedAt + parsed.expires.value * 1000 then Err(ExpiredSignature)
      else match BuildCanonicalRequest(req, parsed.signedHeaders, UNSIGNED_PAYLOAD, [SIGNATURE_KEY])
        case None => Err(MalformedUri)
        case Some(canonicalRequest) =>
          if Sign(env, secretAccessKey, parsed.date, parsed.region, parsed.service, parsed.amzDate, canonicalRequest) == parsed.signature then Ok(())
          else Err(SignatureMismatch)
  }
}
