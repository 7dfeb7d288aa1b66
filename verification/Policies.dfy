/** `PoliciesService`: evaluating a bucket policy. Text is a sequence of UTF-16 code units. */
module Policies {
  import opened Common
  import opened Cidr
  import opened Wildcard

  datatype Effect = Allow | Deny

  datatype Decision = Allowed | Denied | NotApplicable

  /** `Everyone` is the principal `"*"`; absent and empty lists of `NotAction` and `NotResource` mean the
      same. */
  datatype Principal = Everyone | Named(aws: seq<string>)

  datatype Clause = Clause(operator: string, key: string, expected: seq<string>)

  datatype Statement = Statement(effect: Effect, principal: Option<Principal>, action: seq<string>, notAction: seq<string>,
                                 resource: seq<string>, notResource: seq<string>, condition: seq<Clause>)

  /** A condition key's value in the request. */
  datatype Value = Missing | One(text: string) | Many(texts: seq<string>)

  datatype Request = Request(action: string, resource: string, principalUserGuid: string, accessKeyId: string, context: map<string, Value>)

  /** What the platform decides: lower-casing, `Number` of text (None for not-a-number and infinities),
      `Number` of a prefix length that is not all digits, and timestamps. */
  datatype Env = Env(lower: string -> string, number: string -> Option<real>, integer: string -> Option<int>, timestamp: string -> Option<real>)

  // ---- Lists of patterns ----

  predicate StandsAt(text: string, part: string, i: nat) { i + |part| <= |text| && text[i..i + |part|] == part }

  predicate Includes(text: string, part: string) { exists i :: 0 <= i <= |text| && StandsAt(text, part, i) }

  predicate AnyMatches(patterns: seq<string>, value: string) { exists i :: 0 <= i < |patterns| && WildcardMatch(patterns[i], value) }

  predicate MatchesPrincipal(s: Statement, r: Request)
  {
    match s.principal
    case None => true
    case Some(Everyone) => true
    case Some(Named(aws)) =>
      || "*" in aws
      || exists i :: 0 <= i < |aws| && ((r.principalUserGuid != "" && Includes(aws[i], r.principalUserGuid))
                                        || (r.accessKeyId != "" && Includes(aws[i], r.accessKeyId)))
  }

  predicate MatchesAction(s: Statement, action: string) { !AnyMatches(s.notAction, action) && AnyMatches(s.action, action) }

  predicate MatchesResource(s: Statement, resource: string) { !AnyMatches(s.notResource, resource) && AnyMatches(s.resource, resource) }

  // ---- Conditions ----

  const IF_EXISTS := "IfExists"

  predicate EndsWith(text: string, suffix: string) { |suffix| <= |text| && text[|text| - |suffix|..] == suffix }

  function Base(operator: string): string
  {
    if EndsWith(operator, IF_EXISTS) then operator[..|operator| - |IF_EXISTS|] else operator
  }

  predicate Negated(base: string)
  {
    || base == "StringNotEquals" || base == "StringNotEqualsIgnoreCase" || base == "StringNotLike"
    || base == "NotIpAddress" || base == "ArnNotLike" || base == "ArnNotEquals"
  }

  function Texts(value: Value): seq<string>
  {
    match value case Missing => [] case One(text) => [text] case Many(texts) => texts
  }

  function NotEmpty(): string -> bool { (s: string) => s != "" }

  /** The values a condition is tested against. */
  function Values(value: Value): seq<string> { Filter(Texts(value), NotEmpty()) }

  predicate SameIgnoringCase(env: Env, expected: seq<string>, candidate: string)
  {
    exists i :: 0 <= i < |expected| && env.lower(expected[i]) == env.lower(candidate)
  }

  predicate InBlock(env: Env, expected: seq<string>, candidate: string)
  {
    exists i :: 0 <= i < |expected| && IpMatches(env.integer, expected[i], candidate)
  }

  /** The operator a negated one negates. */
  function Positive(base: string): string
  {
    if base == "StringNotEquals" then "StringEquals"
    else if base == "ArnNotEquals" then "ArnEquals"
    else if base == "StringNotEqualsIgnoreCase" then "StringEqualsIgnoreCase"
    else if base == "StringNotLike" then "StringLike"
    else if base == "ArnNotLike" then "ArnLike"
    else if base == "NotIpAddress" then "IpAddress"
    else base
  }

  predicate Simple(base: string)
  {
    || base == "StringEquals" || base == "ArnEquals" || base == "StringEqualsIgnoreCase" || base == "StringLike"
    || base == "ArnLike" || base == "Bool" || base == "IpAddress"
  }

  datatype Relation = Equal | NotEqual | Less | LessOrEqual | Greater | GreaterOrEqual

  function NumericRelation(base: string): Option<Relation>
  {
    if base == "NumericEquals" then Some(Equal)
    else if base == "NumericNotEquals" then Some(NotEqual)
    else if base == "NumericLessThan" then Some(Less)
    else if base == "NumericLessThanEquals" then Some(LessOrEqual)
    else if base == "NumericGreaterThan" then Some(Greater)
    else if base == "NumericGreaterThanEquals" then Some(GreaterOrEqual)
    else None
  }

  function DateRelation(base: string): Option<Relation>
  {
    if base == "DateEquals" then Some(Equal)
    else if base == "DateNotEquals" then Some(NotEqual)
    else if base == "DateLessThan" then Some(Less)
    else if base == "DateLessThanEquals" then Some(LessOrEqual)
    else if base == "DateGreaterThan" then Some(Greater)
    else if base == "DateGreaterThanEquals" then Some(GreaterOrEqual)
    else None
  }

  predicate Related(relation: Relation, actual: real, bound: real)
  {
    match relation
    case Equal => actual == bound
    case NotEqual => actual != bound
    case Less => actual < bound
    case LessOrEqual => actual <= bound
    case Greater => actual > bound
    case GreaterOrEqual => actual >= bound
  }

  /** `numericMatches` and `dateMatches`, given how text is read: an unreadable value never matches, and
      unreadable bounds are left out. */
  predicate Ordered(read: string -> Option<real>, relation: Relation, expected: seq<string>, candidate: string)
  {
    && read(candidate).Some?
    && (exists i :: 0 <= i < |expected| && read(expected[i]).Some?)
    && (if relation.NotEqual? then forall i :: 0 <= i < |expected| && read(expected[i]).Some? ==> Related(relation, read(candidate).value, read(expected[i]).value)
        else exists i :: 0 <= i < |expected| && read(expected[i]).Some? && Related(relation, read(candidate).value, read(expected[i]).value))
  }

  /** The test of the present values by the operator. */
  predicate TestsValues(env: Env, base: string, expected: seq<string>, values: seq<string>)
  {
    if base == "StringEquals" || base == "ArnEquals" then exists i :: 0 <= i < |values| && values[i] in expected
    else if base == "StringNotEquals" || base == "ArnNotEquals" then forall i :: 0 <= i < |values| ==> values[i] !in expected
    else if base == "StringEqualsIgnoreCase" then exists i :: 0 <= i < |values| && SameIgnoringCase(env, expected, values[i])
    else if base == "StringNotEqualsIgnoreCase" then forall i :: 0 <= i < |values| ==> !SameIgnoringCase(env, expected, values[i])
    else if base == "StringLike" || base == "ArnLike" then exists i :: 0 <= i < |values| && AnyMatches(expected, values[i])
    else if base == "StringNotLike" || base == "ArnNotLike" then forall i :: 0 <= i < |values| ==> !AnyMatches(expected, values[i])
    else if base == "Bool" then exists i :: 0 <= i < |values| && values[i] in expected
    else if base == "IpAddress" then exists i :: 0 <= i < |values| && InBlock(env, expected, values[i])
    else if base == "NotIpAddress" then forall i :: 0 <= i < |values| ==> !InBlock(env, expected, values[i])
    else if NumericRelation(base).Some? then exists i :: 0 <= i < |values| && Ordered(env.number, NumericRelation(base).value, expected, values[i])
    else if DateRelation(base).Some? then exists i :: 0 <= i < |values| && Ordered(env.timestamp, DateRelation(base).value, expected, values[i])
    else false
  }

  /** `matchesCondition` */
  predicate MatchesCondition(env: Env, operator: string, expected: seq<string>, value: Value)
  {
    var base := Base(operator);
    if base == "Null" then exists i :: 0 <= i < |expected| && ((expected[i] == "true") == (value == Missing || value == One("")))
    else if Values(value) == [] then EndsWith(operator, IF_EXISTS) || Negated(base)
    else TestsValues(env, base, expected, Values(value))
  }

  predicate MatchesConditions(env: Env, s: Statement, r: Request)
  {
    forall i :: 0 <= i < |s.condition| ==>
      var k := s.condition[i];
      MatchesCondition(env, k.operator, k.expected, if k.key in r.context then r.context[k.key] else Missing)
  }

  predicate Matches(env: Env, s: Statement, r: Request)
  {
    MatchesPrincipal(s, r) && MatchesAction(s, r.action) && MatchesResource(s, r.resource) && MatchesConditions(env, s, r)
  }

  // ---- What a statement says ----

  /** The pattern can be cut into pieces that make up the value. */
  ghost predicate Covers(pattern: string, value: string) { exists pieces :: Cut(pattern, pieces, value) }

  /** Some pattern of the list covers the value and none of the excluded ones does. */
  ghost predicate CoversOnly(patterns: seq<string>, excluded: seq<string>, value: string)
  {
    (exists p :: p in patterns && Covers(p, value)) && forall p :: p in excluded ==> !Covers(p, value)
  }

  ghost predicate Contains(text: string, part: string) { exists before, after :: text == before + part + after }

  /** Everyone, unless principals are named: then a star, or a name that contains the user's guid or the
      access key, if the request has one. */
  ghost predicate AdmitsPrincipal(principal: Option<Principal>, userGuid: string, accessKeyId: string)
  {
    principal.Some? && principal.value.Named? ==>
      || "*" in principal.value.aws
      || exists name :: name in principal.value.aws
                        && ((userGuid != "" && Contains(name, userGuid)) || (accessKeyId != "" && Contains(name, accessKeyId)))
  }

  /** The request gives the key this value; empty values do not count. */
  ghost predicate Given(value: Value, v: string) { v != "" && (value == One(v) || (value.Many? && v in value.texts)) }

  ghost predicate Present(value: Value) { exists v :: Given(value, v) }

  ghost predicate Below(read: string -> Option<real>, low: string, high: string, orEqual: bool)
  {
    read(low).Some? && read(high).Some? && (read(low).value < read(high).value || (orEqual && read(low).value == read(high).value))
  }

  /** Some bound stands above or below the value, as the four ordering operators ask. */
  ghost predicate SomeAbove(read: string -> Option<real>, expected: seq<string>, v: string, orEqual: bool)
  {
    exists e :: e in expected && Below(read, v, e, orEqual)
  }

  ghost predicate SomeBelow(read: string -> Option<real>, expected: seq<string>, v: string, orEqual: bool)
  {
    exists e :: e in expected && Below(read, e, v, orEqual)
  }

  ghost predicate SomeEqual(read: string -> Option<real>, expected: seq<string>, v: string)
  {
    read(v).Some? && exists e :: e in expected && read(e) == read(v)
  }

  /** Unreadable bounds are left out, but not all of them may be. */
  ghost predicate NoneEqual(read: string -> Option<real>, expected: seq<string>, v: string)
  {
    read(v).Some? && (exists e :: e in expected && read(e).Some?) && forall e :: e in expected ==> read(e) != read(v)
  }

  /** What an operator asks of a key that has a value. */
  ghost predicate Asks(env: Env, base: string, expected: seq<string>, value: Value)
  {
    if base in ["StringEquals", "ArnEquals", "Bool"] then exists v :: Given(value, v) && v in expected
    else if base in ["StringNotEquals", "ArnNotEquals"] then forall v :: Given(value, v) ==> v !in expected
    else if base == "StringEqualsIgnoreCase" then exists v, e :: Given(value, v) && e in expected && env.lower(e) == env.lower(v)
    else if base == "StringNotEqualsIgnoreCase" then forall v, e :: Given(value, v) && e in expected ==> env.lower(e) != env.lower(v)
    else if base in ["StringLike", "ArnLike"] then exists v, e :: Given(value, v) && e in expected && Covers(e, v)
    else if base in ["StringNotLike", "ArnNotLike"] then forall v, e :: Given(value, v) && e in expected ==> !Covers(e, v)
    else if base == "IpAddress" then exists v, e :: Given(value, v) && e in expected && IpMatches(env.integer, e, v)
    else if base == "NotIpAddress" then forall v, e :: Given(value, v) && e in expected ==> !IpMatches(env.integer, e, v)
    else AsksOrder(env, base, expected, value)
  }

  /** What a numeric or date operator asks; any other asks for nothing that could hold. */
  ghost predicate AsksOrder(env: Env, base: string, expected: seq<string>, value: Value)
  {
    if base == "NumericEquals" then exists v :: Given(value, v) && SomeEqual(env.number, expected, v)
    else if base == "NumericNotEquals" then exists v :: Given(value, v) && NoneEqual(env.number, expected, v)
    else if base == "NumericLessThan" then exists v :: Given(value, v) && SomeAbove(env.number, expected, v, false)
    else if base == "NumericLessThanEquals" then exists v :: Given(value, v) && SomeAbove(env.number, expected, v, true)
    else if base == "NumericGreaterThan" then exists v :: Given(value, v) && SomeBelow(env.number, expected, v, false)
    else if base == "NumericGreaterThanEquals" then exists v :: Given(value, v) && SomeBelow(env.number, expected, v, true)
    else if base == "DateEquals" then exists v :: Given(value, v) && SomeEqual(env.timestamp, expected, v)
    else if base == "DateNotEquals" then exists v :: Given(value, v) && NoneEqual(env.timestamp, expected, v)
    else if base == "DateLessThan" then exists v :: Given(value, v) && SomeAbove(env.timestamp, expected, v, false)
    else if base == "DateLessThanEquals" then exists v :: Given(value, v) && SomeAbove(env.timestamp, expected, v, true)
    else if base == "DateGreaterThan" then exists v :: Given(value, v) && SomeBelow(env.timestamp, expected, v, false)
    else base == "DateGreaterThanEquals" && exists v :: Given(value, v) && SomeBelow(env.timestamp, expected, v, true)
  }

  /** A clause on a key without a value holds with `IfExists` and for the negated operators; `Null` asks
      whether the key is missing. */
  ghost predicate HoldsFor(env: Env, base: string, ifExists: bool, expected: seq<string>, value: Value)
  {
    if base == "Null" then exists flag :: flag in expected && (flag == "true" <==> value == Missing || value == One(""))
    else if !Present(value) then
      ifExists || base in ["StringNotEquals", "StringNotEqualsIgnoreCase", "StringNotLike", "NotIpAddress", "ArnNotLike", "ArnNotEquals"]
    else Asks(env, base, expected, value)
  }

  ghost predicate Holds(env: Env, operator: string, expected: seq<string>, value: Value)
  {
    if |operator| >= 8 && operator[|operator| - 8..] == "IfExists" then HoldsFor(env, operator[..|operator| - 8], true, expected, value)
    else HoldsFor(env, operator, false, expected, value)
  }

  /** Principal, action, resource and every clause of the condition admit the request. */
  ghost predicate Admits(env: Env, s: Statement, r: Request)
  {
    && AdmitsPrincipal(s.principal, r.principalUserGuid, r.accessKeyId)
    && CoversOnly(s.action, s.notAction, r.action) && CoversOnly(s.resource, s.notResource, r.resource)
    && forall k :: k in s.condition ==> Holds(env, k.operator, k.expected, if k.key in r.context then r.context[k.key] else Missing)
  }

  lemma CoversMatches(patterns: seq<string>, value: string)
    ensures AnyMatches(patterns, value) <==> exists p :: p in patterns && Covers(p, value)
  {
    hide WildcardMatch, Cut;
    forall p
      ensures WildcardMatch(p, value) <==> Covers(p, value)
    {
      WildcardMatchExact(p, value);
    }
    hide Covers;
    if i :| 0 <= i < |patterns| && WildcardMatch(patterns[i], value) {
      assert patterns[i] in patterns;
    }
  }

  lemma IncludesContains(text: string, part: string)
    ensures Includes(text, part) <==> Contains(text, part)
  {
    if i :| 0 <= i <= |text| && StandsAt(text, part, i) {
      assert text == text[..i] + part + text[i + |part|..];
    }
    if before, after :| text == before + part + after {
      assert text[|before|..|before| + |part|] == part;
      assert StandsAt(text, part, |before|);
    }
  }

  lemma PrincipalExact(s: Statement, r: Request)
    ensures MatchesPrincipal(s, r) <==> AdmitsPrincipal(s.principal, r.principalUserGuid, r.accessKeyId)
  {
    hide Includes, Contains;
    if s.principal.Some? && s.principal.value.Named? {
      var aws := s.principal.value.aws;
      forall name
        ensures Includes(name, r.principalUserGuid) <==> Contains(name, r.principalUserGuid)
        ensures Includes(name, r.accessKeyId) <==> Contains(name, r.accessKeyId)
      {
        IncludesContains(name, r.principalUserGuid);
        IncludesContains(name, r.accessKeyId);
      }
      assert forall i :: 0 <= i < |aws| ==> aws[i] in aws;
    }
  }

  lemma ValuesGiven(value: Value)
    ensures forall v :: v in Values(value) <==> Given(value, v)
    ensures Values(value) == [] <==> !Present(value)
  {
    forall v
      ensures v in Values(value) <==> Given(value, v)
    {}
    if Values(value) != [] {
      assert Values(value)[0] in Values(value);
    }
  }

  lemma InBySome<T>(xs: seq<T>)
    ensures forall x :: x in xs <==> exists i :: 0 <= i < |xs| && xs[i] == x
  {}

  lemma OrderedExact(read: string -> Option<real>, expected: seq<string>, v: string)
    ensures Ordered(read, Equal, expected, v) <==> SomeEqual(read, expected, v)
    ensures Ordered(read, NotEqual, expected, v) <==> NoneEqual(read, expected, v)
    ensures Ordered(read, Less, expected, v) <==> SomeAbove(read, expected, v, false)
    ensures Ordered(read, LessOrEqual, expected, v) <==> SomeAbove(read, expected, v, true)
    ensures Ordered(read, Greater, expected, v) <==> SomeBelow(read, expected, v, false)
    ensures Ordered(read, GreaterOrEqual, expected, v) <==> SomeBelow(read, expected, v, true)
  {
    assert forall i :: 0 <= i < |expected| ==> expected[i] in expected;
    RelationExact(read, Equal, expected, v);
    RelationExact(read, NotEqual, expected, v);
    RelationExact(read, Less, expected, v);
    RelationExact(read, LessOrEqual, expected, v);
    RelationExact(read, Greater, expected, v);
    RelationExact(read, GreaterOrEqual, expected, v);
    hide Ordered;
  }

  /** The same over the bounds as a set. */
  lemma RelationExact(read: string -> Option<real>, relation: Relation, expected: seq<string>, v: string)
    ensures Ordered(read, relation, expected, v)
            <==> && read(v).Some? && (exists e :: e in expected && read(e).Some?)
                 && (if relation.NotEqual? then forall e :: e in expected && read(e).Some? ==> Related(relation, read(v).value, read(e).value)
                     else exists e :: e in expected && read(e).Some? && Related(relation, read(v).value, read(e).value))
  {
    InBySome(expected);
    hide Related;
  }

  predicate IsText(base: string)
  {
    || base == "StringEquals" || base == "ArnEquals" || base == "Bool" || base == "StringNotEquals" || base == "ArnNotEquals"
    || base == "StringEqualsIgnoreCase" || base == "StringNotEqualsIgnoreCase" || base == "StringLike" || base == "ArnLike"
    || base == "StringNotLike" || base == "ArnNotLike" || base == "IpAddress" || base == "NotIpAddress"
  }

  lemma TextTest(env: Env, base: string, expected: seq<string>, value: Value)
    requires IsText(base)
    ensures TestsValues(env, base, expected, Values(value)) <==> Asks(env, base, expected, value)
  {
    hide WildcardMatch, Cut, AnyMatches, SameIgnoringCase, InBlock, IpMatches, Covers, Filter, Given, Values, NumericRelation, DateRelation, AsksOrder;
    ValuesGiven(value);
    InBySome(Values(value));
    forall v
      ensures AnyMatches(expected, v) <==> exists e :: e in expected && Covers(e, v)
      ensures SameIgnoringCase(env, expected, v) <==> exists e :: e in expected && env.lower(e) == env.lower(v)
      ensures InBlock(env, expected, v) <==> exists e :: e in expected && IpMatches(env.integer, e, v)
    {
      CoversMatches(expected, v);
      IgnoringCaseExact(env, expected, v);
      InBlockExact(env, expected, v);
    }
  }

  /** A test that is not on text is the one its relation names. */
  lemma OrderTest(env: Env, base: string, expected: seq<string>, value: Value)
    requires !IsText(base)
    ensures TestsValues(env, base, expected, Values(value))
            <==> if NumericRelation(base).Some? then SomePasses(env.number, NumericRelation(base).value, expected, value)
                 else DateRelation(base).Some? && SomePasses(env.timestamp, DateRelation(base).value, expected, value)
    ensures Asks(env, base, expected, value) <==> AsksOrder(env, base, expected, value)
  {
    hide NumericRelation, DateRelation, AsksOrder, Ordered, Values, Given, SameIgnoringCase, InBlock, AnyMatches, IpMatches, Covers;
  }

  lemma OrderAsked(env: Env, base: string, expected: seq<string>, value: Value)
    ensures AsksOrder(env, base, expected, value)
            <==> if NumericRelation(base).Some? then SomePasses(env.number, NumericRelation(base).value, expected, value)
                 else DateRelation(base).Some? && SomePasses(env.timestamp, DateRelation(base).value, expected, value)
  {
    hide SomePasses, Given, SomeEqual, NoneEqual, SomeAbove, SomeBelow;
    if NumericRelation(base).Some? {
      NumericAsked(env, base, expected, value);
    } else if DateRelation(base).Some? {
      DateAsked(env, base, expected, value);
    }
  }

  lemma NumericAsked(env: Env, base: string, expected: seq<string>, value: Value)
    requires NumericRelation(base).Some?
    ensures AsksOrder(env, base, expected, value) <==> SomePasses(env.number, NumericRelation(base).value, expected, value)
  {
    hide SomePasses, Given, SomeEqual, NoneEqual, SomeAbove, SomeBelow, DateRelation;
    OrderedValues(env.number, expected, value);
  }

  lemma DateAsked(env: Env, base: string, expected: seq<string>, value: Value)
    requires DateRelation(base).Some?
    ensures AsksOrder(env, base, expected, value) <==> SomePasses(env.timestamp, DateRelation(base).value, expected, value)
  {
    hide SomePasses, Given, SomeEqual, NoneEqual, SomeAbove, SomeBelow, NumericRelation;
    OrderedValues(env.timestamp, expected, value);
  }

  lemma EachTest(env: Env, base: string, expected: seq<string>, value: Value)
    ensures TestsValues(env, base, expected, Values(value)) <==> Asks(env, base, expected, value)
  {
    hide TestsValues, Asks, AsksOrder, NumericRelation, DateRelation, SomePasses;
    if IsText(base) {
      TextTest(env, base, expected, value);
    } else {
      OrderTest(env, base, expected, value);
      OrderAsked(env, base, expected, value);
    }
  }

  ghost predicate SomePasses(read: string -> Option<real>, relation: Relation, expected: seq<string>, value: Value)
  {
    exists i :: 0 <= i < |Values(value)| && Ordered(read, relation, expected, Values(value)[i])
  }

  lemma OrderedValues(read: string -> Option<real>, expected: seq<string>, value: Value)
    ensures SomePasses(read, Equal, expected, value) <==> exists v :: Given(value, v) && SomeEqual(read, expected, v)
    ensures SomePasses(read, NotEqual, expected, value) <==> exists v :: Given(value, v) && NoneEqual(read, expected, v)
    ensures SomePasses(read, Less, expected, value) <==> exists v :: Given(value, v) && SomeAbove(read, expected, v, false)
    ensures SomePasses(read, LessOrEqual, expected, value) <==> exists v :: Given(value, v) && SomeAbove(read, expected, v, true)
    ensures SomePasses(read, Greater, expected, value) <==> exists v :: Given(value, v) && SomeBelow(read, expected, v, false)
    ensures SomePasses(read, GreaterOrEqual, expected, value) <==> exists v :: Given(value, v) && SomeBelow(read, expected, v, true)
  {
    hide Ordered, Below, SomeAbove, SomeBelow, SomeEqual, NoneEqual, Given, Values;
    ValuesGiven(value);
    InBySome(Values(value));
    forall v
      ensures Ordered(read, Equal, expected, v) <==> SomeEqual(read, expected, v)
      ensures Ordered(read, NotEqual, expected, v) <==> NoneEqual(read, expected, v)
      ensures Ordered(read, Less, expected, v) <==> SomeAbove(read, expected, v, false)
      ensures Ordered(read, LessOrEqual, expected, v) <==> SomeAbove(read, expected, v, true)
      ensures Ordered(read, Greater, expected, v) <==> SomeBelow(read, expected, v, false)
      ensures Ordered(read, GreaterOrEqual, expected, v) <==> SomeBelow(read, expected, v, true)
    {
      OrderedExact(read, expected, v);
    }
  }

  /** A condition is matched if and only if it holds as documented, unknown operators aside. */
  lemma ConditionExact(env: Env, operator: string, expected: seq<string>, value: Value)
    ensures MatchesCondition(env, operator, expected, value) <==> Holds(env, operator, expected, value)
  {
    hide TestsValues, Asks, Values, Present;
    EachTest(env, Base(operator), expected, value);
    ValuesGiven(value);
    NullExact(expected, value);
    NegatedExact(Base(operator));
  }

  lemma NullExact(expected: seq<string>, value: Value)
    ensures (exists i :: 0 <= i < |expected| && ((expected[i] == "true") == (value == Missing || value == One(""))))
            <==> exists flag :: flag in expected && (flag == "true" <==> value == Missing || value == One(""))
  {
    if i :| 0 <= i < |expected| && ((expected[i] == "true") == (value == Missing || value == One(""))) {
      assert expected[i] in expected;
    }
    if flag :| flag in expected && (flag == "true" <==> value == Missing || value == One("")) {
      var i :| 0 <= i < |expected| && expected[i] == flag;
    }
  }

  lemma NegatedExact(base: string)
    ensures Negated(base) <==> base in ["StringNotEquals", "StringNotEqualsIgnoreCase", "StringNotLike", "NotIpAddress", "ArnNotLike", "ArnNotEquals"]
  {}

  lemma StatementExact(env: Env, s: Statement, r: Request)
    ensures Matches(env, s, r) <==> Admits(env, s, r)
  {
    hide MatchesCondition, Holds, AnyMatches, Covers, MatchesPrincipal, AdmitsPrincipal;
    PrincipalExact(s, r);
    CoversMatches(s.action, r.action);
    CoversMatches(s.notAction, r.action);
    CoversMatches(s.resource, r.resource);
    CoversMatches(s.notResource, r.resource);
    forall k: Clause, value
      ensures MatchesCondition(env, k.operator, k.expected, value) <==> Holds(env, k.operator, k.expected, value)
    {
      ConditionExact(env, k.operator, k.expected, value);
    }
    InBySome(s.condition);
  }

  lemma IgnoringCaseExact(env: Env, expected: seq<string>, v: string)
    ensures SameIgnoringCase(env, expected, v) <==> exists e :: e in expected && env.lower(e) == env.lower(v)
  {
    InBySome(expected);
  }

  lemma InBlockExact(env: Env, expected: seq<string>, v: string)
    ensures InBlock(env, expected, v) <==> exists e :: e in expected && IpMatches(env.integer, e, v)
  {
    hide IpMatches;
    InBySome(expected);
  }

  // ---- Evaluation ----

  ghost predicate SomeMatches(env: Env, statements: seq<Statement>, r: Request, effect: Effect)
  {
    exists s :: s in statements && s.effect == effect && Admits(env, s, r)
  }

  /** The meaning of a policy: a matching Deny wins, then a matching Allow decides. */
  ghost function Meaning(env: Env, statements: seq<Statement>, r: Request): Decision
  {
    if SomeMatches(env, statements, r, Deny) then Denied
    else if SomeMatches(env, statements, r, Allow) then Allowed
    else NotApplicable
  }

  /** `evaluate`; a missing document is an empty list of statements. */
  method Evaluate(env: Env, statements: seq<Statement>, r: Request) returns (d: Decision)
    ensures d == Meaning(env, statements, r)
  {
    hide Matches, MatchesPrincipal, MatchesAction, MatchesResource, MatchesConditions, Admits;
    forall s
      ensures Matches(env, s, r) <==> Admits(env, s, r)
    {
      StatementExact(env, s, r);
    }
    if |statements| == 0 {
      return NotApplicable;
    }
    var allowed := false;
    for i := 0 to |statements|
      invariant forall j :: 0 <= j < i && Matches(env, statements[j], r) ==> statements[j].effect != Deny
      invariant allowed <==> exists j :: 0 <= j < i && Matches(env, statements[j], r)
    {
      var s := statements[i];
      assert Matches(env, s, r) <==> MatchesPrincipal(s, r) && MatchesAction(s, r.action) && MatchesResource(s, r.resource) && MatchesConditions(env, s, r) by {
        MatchesParts(env, s, r);
      }
      if !MatchesPrincipal(s, r) { continue; }
      if !MatchesAction(s, r.action) { continue; }
      if !MatchesResource(s, r.resource) { continue; }
      if !MatchesConditions(env, s, r) { continue; }
      if s.effect == Deny {
        return Denied;
      }
      allowed := true;
    }
    assert !SomeMatches(env, statements, r, Deny);
    d := if allowed then Allowed else NotApplicable;
  }

  lemma MatchesParts(env: Env, s: Statement, r: Request)
    ensures Matches(env, s, r) <==> MatchesPrincipal(s, r) && MatchesAction(s, r.action) && MatchesResource(s, r.resource) && MatchesConditions(env, s, r)
  {}

  /** The order of the statements does not matter - nor how often one is repeated. */
  lemma OrderIrrelevant(env: Env, a: seq<Statement>, b: seq<Statement>, r: Request)
    requires forall s :: s in a <==> s in b
    ensures Meaning(env, a, r) == Meaning(env, b, r)
  {
    hide Admits;
  }

  lemma PermutationIrrelevant(env: Env, a: seq<Statement>, b: seq<Statement>, r: Request)
    requires multiset(a) == multiset(b)
    ensures Meaning(env, a, r) == Meaning(env, b, r)
  {
    hide Admits;
    forall s
      ensures s in a <==> s in b
    {
      assert s in a <==> s in multiset(a);
      assert s in b <==> s in multiset(b);
    }
    OrderIrrelevant(env, a, b, r);
  }

  /** Joining two policies: the stricter of their decisions wins. */
  lemma Joined(env: Env, a: seq<Statement>, b: seq<Statement>, r: Request)
    ensures Meaning(env, a + b, r) == if Meaning(env, a, r) == Denied || Meaning(env, b, r) == Denied then Denied
                                      else if Meaning(env, a, r) == Allowed || Meaning(env, b, r) == Allowed then Allowed
                                      else NotApplicable
  {
    hide Admits;
    assert SomeMatches(env, a + b, r, Deny) <==> SomeMatches(env, a, r, Deny) || SomeMatches(env, b, r, Deny);
    assert SomeMatches(env, a + b, r, Allow) <==> SomeMatches(env, a, r, Allow) || SomeMatches(env, b, r, Allow);
  }

  // ---- Negated operators ----

  lemma BaseOfPlain(operator: string)
    requires Negated(operator) || Simple(operator)
    ensures Base(operator) == operator && !EndsWith(operator, IF_EXISTS) && operator != "Null"
    ensures Base(operator + IF_EXISTS) == operator && EndsWith(operator + IF_EXISTS, IF_EXISTS)
  {
    assert (operator + IF_EXISTS)[..|operator|] == operator && (operator + IF_EXISTS)[|operator|..] == IF_EXISTS;
    LastLetter(operator);
  }

  lemma LastLetter(operator: string)
    requires Negated(operator) || Simple(operator)
    ensures !EndsWith(operator, IF_EXISTS)
  {
    SuffixLetter(operator);
  }

  lemma SuffixLetter(operator: string)
    ensures EndsWith(operator, IF_EXISTS) ==> |operator| >= 8 && operator[|operator| - 2] == 't'
  {
    if EndsWith(operator, IF_EXISTS) {
      assert operator[|operator| - 8..][6] == IF_EXISTS[6];
    }
  }

  lemma NegatedPositive(base: string)
    requires Negated(base)
    ensures Simple(Positive(base)) && !Negated(Positive(base)) && !Simple(base)
  {}

  lemma TestsComplement(env: Env, base: string, expected: seq<string>, values: seq<string>)
    requires Negated(base)
    ensures TestsValues(env, base, expected, values) <==> !TestsValues(env, Positive(base), expected, values)
  {
    hide AnyMatches, SameIgnoringCase, InBlock, NumericRelation, DateRelation, Ordered;
  }

  /** A negated string, ARN or IP operator is the exact complement of its positive one, for every
      value: missing, empty, single or multi-valued. */
  lemma NegatedIsComplement(env: Env, base: string, expected: seq<string>, value: Value)
    requires Negated(base)
    ensures MatchesCondition(env, base, expected, value) <==> !MatchesCondition(env, Positive(base), expected, value)
  {
    hide AnyMatches, SameIgnoringCase, InBlock, Filter;
    NegatedPositive(base);
    BaseOfPlain(base);
    BaseOfPlain(Positive(base));
    TestsComplement(env, base, expected, Values(value));
    hide Negated, Simple, Base, EndsWith, Positive, TestsValues;
  }

  /** With `IfExists` it is the complement exactly when the key has a value. */
  lemma IfExistsComplement(env: Env, base: string, expected: seq<string>, value: Value)
    requires Negated(base)
    ensures (MatchesCondition(env, base + IF_EXISTS, expected, value) <==> !MatchesCondition(env, Positive(base) + IF_EXISTS, expected, value))
            <==> Values(value) != []
  {
    hide AnyMatches, SameIgnoringCase, InBlock, Filter;
    NegatedPositive(base);
    BaseOfPlain(base);
    BaseOfPlain(Positive(base));
    TestsComplement(env, base, expected, Values(value));
    hide Negated, Simple, Base, EndsWith, Positive, TestsValues;
  }

  // ---- Numbers and dates ----

  function EqualsOperator(dates: bool): string { if dates then "DateEquals" else "NumericEquals" }

  function NotEqualsOperator(dates: bool): string { if dates then "DateNotEquals" else "NumericNotEquals" }

  predicate Listed(read: string -> Option<real>, expected: seq<string>, candidate: string)
  {
    exists i :: 0 <= i < |expected| && read(expected[i]) == read(candidate)
  }

  predicate Readable(read: string -> Option<real>, texts: seq<string>) { exists i :: 0 <= i < |texts| && read(texts[i]).Some? }

  /** Either all readable values are among the bounds or none is. */
  predicate Agree(read: string -> Option<real>, expected: seq<string>, values: seq<string>)
  {
    forall i, j :: 0 <= i < |values| && 0 <= j < |values| && read(values[i]).Some? && read(values[j]).Some? ==>
      (Listed(read, expected, values[i]) <==> Listed(read, expected, values[j]))
  }

  lemma OrderedParts(dates: bool, suffix: string)
    requires suffix == "" || suffix == IF_EXISTS
    ensures Base(EqualsOperator(dates) + suffix) == EqualsOperator(dates) && Base(NotEqualsOperator(dates) + suffix) == NotEqualsOperator(dates)
    ensures EndsWith(EqualsOperator(dates) + suffix, IF_EXISTS) <==> suffix == IF_EXISTS
    ensures EndsWith(NotEqualsOperator(dates) + suffix, IF_EXISTS) <==> suffix == IF_EXISTS
  {
    PlainSuffix(EqualsOperator(dates), suffix);
    PlainSuffix(NotEqualsOperator(dates), suffix);
  }

  lemma PlainSuffix(operator: string, suffix: string)
    requires |operator| >= 8 && operator[|operator| - 2] != 't' && (suffix == "" || suffix == IF_EXISTS)
    ensures Base(operator + suffix) == operator && (EndsWith(operator + suffix, IF_EXISTS) <==> suffix == IF_EXISTS)
  {
    SuffixLetter(operator);
    assert operator + "" == operator;
    assert (operator + IF_EXISTS)[..|operator|] == operator && (operator + IF_EXISTS)[|operator|..] == IF_EXISTS;
  }

  lemma OrderedMeans(read: string -> Option<real>, expected: seq<string>, candidate: string)
    ensures Ordered(read, Equal, expected, candidate) <==> read(candidate).Some? && Listed(read, expected, candidate)
    ensures Ordered(read, NotEqual, expected, candidate) <==> read(candidate).Some? && Readable(read, expected) && !Listed(read, expected, candidate)
    ensures read(candidate).Some? && Listed(read, expected, candidate) ==> Readable(read, expected)
  {
    if read(candidate).Some? && Listed(read, expected, candidate) {
      var i :| 0 <= i < |expected| && read(expected[i]) == read(candidate);
      assert Related(Equal, read(candidate).value, read(expected[i]).value);
      assert !Related(NotEqual, read(candidate).value, read(expected[i]).value);
    }
  }

  /** Some value passes a test of the kind. */
  predicate Passes(read: string -> Option<real>, relation: Relation, expected: seq<string>, values: seq<string>)
  {
    exists i :: 0 <= i < |values| && Ordered(read, relation, expected, values[i])
  }

  lemma OrderedTests(env: Env, dates: bool, expected: seq<string>, values: seq<string>)
    ensures var read := if dates then env.timestamp else env.number;
            && (TestsValues(env, EqualsOperator(dates), expected, values) <==> Passes(read, Equal, expected, values))
            && (TestsValues(env, NotEqualsOperator(dates), expected, values) <==> Passes(read, NotEqual, expected, values))
  {
    hide SameIgnoringCase, AnyMatches, InBlock, Ordered;
  }

  lemma OneOfBoth(read: string -> Option<real>, expected: seq<string>, values: seq<string>)
    ensures (Passes(read, NotEqual, expected, values) <==> !Passes(read, Equal, expected, values))
            <==> Readable(read, expected) && Readable(read, values) && Agree(read, expected, values)
  {
    hide Ordered, Listed;
    forall i | 0 <= i < |values|
      ensures Ordered(read, Equal, expected, values[i]) <==> read(values[i]).Some? && Listed(read, expected, values[i])
      ensures Ordered(read, NotEqual, expected, values[i]) <==> read(values[i]).Some? && Readable(read, expected) && !Listed(read, expected, values[i])
      ensures read(values[i]).Some? && Listed(read, expected, values[i]) ==> Readable(read, expected)
    {
      OrderedMeans(read, expected, values[i]);
    }
  }

  lemma OrderedCondition(env: Env, operator: string, suffix: string, expected: seq<string>, value: Value)
    requires Base(operator + suffix) == operator && (EndsWith(operator + suffix, IF_EXISTS) <==> suffix == IF_EXISTS)
    requires operator != "Null" && !Negated(operator)
    ensures MatchesCondition(env, operator + suffix, expected, value)
            <==> if Values(value) == [] then suffix == IF_EXISTS else TestsValues(env, operator, expected, Values(value))
  {
    hide Base, EndsWith, Negated, TestsValues, Values;
  }

  /** Numeric and date operators, with or without `IfExists`, on any value: `NotEquals` is the
      complement of `Equals` if and only if some bound and some value can be read and the readable
      values are all among the bounds or all outside. */
  lemma OrderedComplement(env: Env, dates: bool, suffix: string, expected: seq<string>, value: Value)
    requires suffix == "" || suffix == IF_EXISTS
    ensures var read := if dates then env.timestamp else env.number;
            (MatchesCondition(env, NotEqualsOperator(dates) + suffix, expected, value) <==> !MatchesCondition(env, EqualsOperator(dates) + suffix, expected, value))
            <==> Readable(read, expected) && Readable(read, Values(value)) && Agree(read, expected, Values(value))
  {
    hide MatchesCondition, Values, TestsValues, Base, EndsWith, Listed;
    var read := if dates then env.timestamp else env.number;
    OrderedParts(dates, suffix);
    OrderedTests(env, dates, expected, Values(value));
    OrderedCondition(env, EqualsOperator(dates), suffix, expected, value);
    OrderedCondition(env, NotEqualsOperator(dates), suffix, expected, value);
    OneOfBoth(read, expected, Values(value));
    hide Negated, EqualsOperator, NotEqualsOperator, Passes;
  }

  predicate Known(base: string)
  {
    base == "Null" || Simple(base) || Negated(base) || NumericRelation(base).Some? || DateRelation(base).Some?
  }

  /** A statement against an operator the service does not know stays inert, except that `IfExists` lets
      it pass on a missing key. */
  lemma UnknownOperator(env: Env, operator: string, expected: seq<string>, value: Value)
    requires !Known(Base(operator))
    ensures MatchesCondition(env, operator, expected, value) <==> EndsWith(operator, IF_EXISTS) && Values(value) == []
  {
    hide NumericRelation, DateRelation, EndsWith, Base, Filter, AnyMatches, SameIgnoringCase, InBlock;
  }
}
