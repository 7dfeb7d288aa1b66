/** Text as the database sees it: sequences of code points compared in code-point order, which is
    what `COLLATE "C"` gives for UTF-8, together with prefixes and SQL `LIKE`. */
module Text {
  /** `a COLLATE "C" < b`. */
  predicate Less(a: string, b: string)
  {
    b != [] && (a == [] || a[0] < b[0] || (a[0] == b[0] && Less(a[1..], b[1..])))
  }

  lemma {:induction false} LessIrreflexive(a: string)
    ensures !Less(a, a)
  {
    if a != [] {
      LessIrreflexive(a[1..]);
    }
  }

  lemma {:induction false} LessTransitive(a: string, b: string, c: string)
    requires Less(a, b) && Less(b, c)
    ensures Less(a, c)
  {
    if a != [] && a[0] == b[0] == c[0] {
      LessTransitive(a[1..], b[1..], c[1..]);
    }
  }

  lemma {:induction false} LessTotal(a: string, b: string)
    ensures a == b || Less(a, b) || Less(b, a)
  {
    if a != [] && b != [] && a[0] == b[0] {
      LessTotal(a[1..], b[1..]);
      assert a == [a[0]] + a[1..] && b == [b[0]] + b[1..];
    }
  }

  lemma LessAsymmetric(a: string, b: string)
    requires Less(a, b)
    ensures !Less(b, a)
  {
    if Less(b, a) {
      LessTransitive(a, b, a);
      LessIrreflexive(a);
    }
  }

  /** A text precedes its proper extensions. */
  lemma {:induction false} PrefixFirst(p: string, k: string)
    requires p <= k && p != k
    ensures Less(p, k)
  {
    if p != [] {
      PrefixFirst(p[1..], k[1..]);
    }
  }

  /** The texts starting with `p` are contiguous: whatever follows `p` without extending it
      follows all of them. */
  lemma {:induction false} PrefixBelow(p: string, c: string, k: string)
    requires p <= c && Less(p, k) && !(p <= k)
    ensures Less(c, k)
  {
    if p != [] && p[0] == k[0] {
      assert p == [p[0]] + p[1..] && k == [k[0]] + k[1..];
      PrefixBelow(p[1..], c[1..], k[1..]);
    }
  }

  /** The two texts agree on this many characters. */
  predicate AgreeUpTo(a: string, b: string, n: nat) { n <= |a| && n <= |b| && forall i :: 0 <= i < n ==> a[i] == b[i] }

  /** One text precedes another if and only if it is a proper prefix of it or has the smaller
      character where they first differ. */
  lemma {:induction false} LessExact(a: string, b: string)
    ensures Less(a, b)
            <==> (|a| < |b| && AgreeUpTo(a, b, |a|))
                 || exists n: nat :: n < |a| && n < |b| && AgreeUpTo(a, b, n) && a[n] as int < b[n] as int
  {
    if a != [] && b != [] && a[0] == b[0] {
      LessExact(a[1..], b[1..]);
      if n: nat :| n < |a| && n < |b| && AgreeUpTo(a, b, n) && a[n] as int < b[n] as int {
        assert AgreeUpTo(a[1..], b[1..], n - 1);
      }
      if n: nat :| n < |a[1..]| && n < |b[1..]| && AgreeUpTo(a[1..], b[1..], n) && a[1..][n] as int < b[1..][n] as int {
        assert AgreeUpTo(a, b, n + 1);
      }
      assert AgreeUpTo(a, b, |a|) <==> AgreeUpTo(a[1..], b[1..], |a| - 1);
    } else {
      assert AgreeUpTo(a, b, 0);
    }
  }

  // ---- LIKE ----

  /** SQL `LIKE` with its default backslash escape: `%` matches any run, `_` any one character. */
  predicate Like(text: string, pattern: string)
    decreases |pattern|, |text|
  {
    if pattern == [] then text == []
    else if pattern[0] == '%' then
      Like(text, pattern[1..]) || (text != [] && Like(text[1..], pattern))
    else if pattern[0] == '_' then
      text != [] && Like(text[1..], pattern[1..])
    else if pattern[0] == '\\' && |pattern| > 1 then
      text != [] && text[0] == pattern[1] && Like(text[1..], pattern[2..])
    else
      text != [] && text[0] == pattern[0] && Like(text[1..], pattern[1..])
  }

  function EscapeLike(value: string): string
  {
    if value == [] then []
    else (if value[0] in "%_\\" then ['\\', value[0]] else [value[0]]) + EscapeLike(value[1..])
  }

  /** The condition `likePrefix` sends to the database. */
  predicate LikePrefix(key: string, prefix: string)
  {
    Like(key, EscapeLike(prefix) + "%")
  }

  lemma {:induction false} PercentMatchesAll(text: string)
    ensures Like(text, "%")
  {
    if text != [] {
      PercentMatchesAll(text[1..]);
    }
  }

  /** The escaped pattern means "starts with", for every prefix and key - wildcard characters and
      backslashes in either of them included. */
  lemma {:induction false} LikePrefixExact(key: string, prefix: string)
    ensures LikePrefix(key, prefix) <==> prefix <= key
  {
    var pattern := EscapeLike(prefix) + "%";
    if prefix == [] {
      assert pattern == "%";
      PercentMatchesAll(key);
    } else {
      var rest := EscapeLike(prefix[1..]) + "%";
      if key != [] {
        LikePrefixExact(key[1..], prefix[1..]);
        assert prefix <= key <==> prefix[0] == key[0] && prefix[1..] <= key[1..];
      }
      if prefix[0] in "%_\\" {
        assert pattern == ['\\', prefix[0]] + rest;
        assert pattern[2..] == rest;
      } else {
        assert pattern == [prefix[0]] + rest;
        assert pattern[1..] == rest;
      }
    }
  }

  // ---- ORDER BY key COLLATE "C" ----

  predicate Least(keys: set<string>, k: string) { k in keys && forall j :: j in keys ==> j == k || Less(k, j) }

  lemma {:induction false} LeastExists(keys: set<string>)
    requires keys != {}
    ensures exists k :: Least(keys, k)
    decreases |keys|
  {
    var some :| some in keys;
    var rest := keys - {some};
    if rest == {} {
      assert keys == {some};
      assert Least(keys, some);
    } else {
      LeastExists(rest);
      var k :| Least(rest, k);
      LessTotal(some, k);
      if Less(some, k) {
        forall j | j in keys
          ensures j == some || Less(some, j)
        {
          if j in rest && j != k {
            LessTransitive(some, k, j);
          }
        }
        assert Least(keys, some);
      } else {
        assert Least(keys, k);
      }
    }
  }

  ghost predicate Ascending(keys: seq<string>)
  {
    forall i, j :: 0 <= i < j < |keys| ==> Less(keys[i], keys[j])
  }

  /** The keys of a table in byte order. */
  method InOrder(keys: set<string>) returns (list: seq<string>)
    ensures Ascending(list) && (forall key :: key in list <==> key in keys)
  {
    hide Less;
    list := [];
    var remaining := keys;
    while remaining != {}
      invariant forall key :: key in keys <==> key in list || key in remaining
      invariant Ascending(list)
      invariant forall i, key :: 0 <= i < |list| && key in remaining ==> Less(list[i], key)
      decreases |remaining|
    {
      LeastExists(remaining);
      var k :| Least(remaining, k);
      list := list + [k];
      remaining := remaining - {k};
    }
  }
}
