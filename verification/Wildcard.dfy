/** Policy wildcards: `*` matches any run of characters, `?` a single one. The regular expression they
    are turned into does not let them match line terminators. */
module Wildcard {
  import opened Common

  predicate LineTerminator(c: char) { c in "\n\r\U{2028}\U{2029}" }

  /** `wildcardMatch`: the backtracking match of the anchored expression. */
  predicate WildcardMatch(pattern: string, value: string)
    decreases |pattern|, |value|
  {
    if pattern == "" then value == ""
    else if pattern[0] == '*' then
      WildcardMatch(pattern[1..], value) || (value != "" && !LineTerminator(value[0]) && WildcardMatch(pattern, value[1..]))
    else value != "" && (if pattern[0] == '?' then !LineTerminator(value[0]) else value[0] == pattern[0]) && WildcardMatch(pattern[1..], value[1..])
  }

  predicate NoLineTerminator(s: string) { forall i :: 0 <= i < |s| ==> !LineTerminator(s[i]) }

  /** What one character of a pattern stands for. */
  predicate Fits(p: char, piece: string)
  {
    if p == '*' then NoLineTerminator(piece) else |piece| == 1 && (if p == '?' then NoLineTerminator(piece) else piece[0] == p)
  }

  /** The value cut into one piece per character of the pattern, each fitting. */
  ghost predicate Cut(pattern: string, pieces: seq<string>, value: string)
  {
    |pieces| == |pattern| && Flatten(pieces) == value && forall i :: 0 <= i < |pattern| ==> Fits(pattern[i], pieces[i])
  }

  lemma {:induction false} CutMatches(pattern: string, pieces: seq<string>, value: string)
    requires Cut(pattern, pieces, value)
    ensures WildcardMatch(pattern, value)
    decreases |pattern|, |value|
  {
    if pattern != "" {
      hide LineTerminator;
      var first, rest := pieces[0], pieces[1..];
      if pattern[0] != '*' {
        assert value[1..] == Flatten(rest);
        CutMatches(pattern[1..], rest, value[1..]);
      } else if first == "" {
        assert value == Flatten(rest);
        CutMatches(pattern[1..], rest, value);
      } else {
        var shorter := [first[1..]] + rest;
        assert shorter[1..] == rest;
        assert value[1..] == Flatten(shorter);
        assert value[0] == first[0];
        CutMatches(pattern, shorter, value[1..]);
      }
    }
  }

  lemma {:induction false} MatchCuts(pattern: string, value: string) returns (pieces: seq<string>)
    requires WildcardMatch(pattern, value)
    ensures Cut(pattern, pieces, value)
    decreases |pattern|, |value|
  {
    hide LineTerminator;
    if pattern == "" {
      pieces := [];
    } else if pattern[0] == '*' {
      if WildcardMatch(pattern[1..], value) {
        var rest := MatchCuts(pattern[1..], value);
        pieces := [""] + rest;
        assert pieces[1..] == rest;
      } else {
        var shorter := MatchCuts(pattern, value[1..]);
        pieces := [[value[0]] + shorter[0]] + shorter[1..];
        assert pieces[1..] == shorter[1..];
        assert Flatten(pieces) == [value[0]] + (shorter[0] + Flatten(shorter[1..]));
      }
    } else {
      var rest := MatchCuts(pattern[1..], value[1..]);
      pieces := [[value[0]]] + rest;
      assert pieces[1..] == rest;
    }
  }

  /** A value matches exactly when it can be cut into pieces that fit the pattern. */
  lemma WildcardMatchExact(pattern: string, value: string)
    ensures WildcardMatch(pattern, value) <==> exists pieces :: Cut(pattern, pieces, value)
  {
    hide Cut;
    if WildcardMatch(pattern, value) {
      var pieces := MatchCuts(pattern, value);
    }
    if pieces :| Cut(pattern, pieces, value) {
      CutMatches(pattern, pieces, value);
    }
  }

  predicate Literal(pattern: string) { forall i :: 0 <= i < |pattern| ==> pattern[i] != '*' && pattern[i] != '?' }

  /** Without wildcards only the pattern itself matches. */
  lemma {:induction false} LiteralMatches(pattern: string, value: string)
    requires Literal(pattern)
    ensures WildcardMatch(pattern, value) <==> value == pattern
  {
    if pattern != "" {
      if value != "" && value[0] == pattern[0] {
        LiteralMatches(pattern[1..], value[1..]);
        assert pattern == [pattern[0]] + pattern[1..] && value == [value[0]] + value[1..];
      }
    }
  }

  /** `?` matches the texts of one character that is no line terminator. */
  lemma QuestionMatches(value: string)
    ensures WildcardMatch("?", value) <==> |value| == 1 && value[0] !in ['\n', '\r', '\U{2028}', '\U{2029}']
  {
    assert WildcardMatch("?"[1..], value[Min(1, |value|)..]) <==> |value| <= 1;
  }

  lemma {:induction false} StarMatches(value: string)
    ensures WildcardMatch("*", value) <==> NoLineTerminator(value)
  {
    assert WildcardMatch("*"[1..], value) <==> value == "";
    if value != "" {
      StarMatches(value[1..]);
    }
  }

  /** A literal followed by a star matches the values that start with it. */
  lemma {:induction false} PrefixStarMatches(prefix: string, value: string)
    requires Literal(prefix)
    ensures WildcardMatch(prefix + "*", value) <==> prefix <= value && NoLineTerminator(value[|prefix|..])
  {
    if prefix == "" {
      assert prefix + "*" == "*";
      StarMatches(value);
    } else {
      assert (prefix + "*")[1..] == prefix[1..] + "*";
      if value != "" && value[0] == prefix[0] {
        PrefixStarMatches(prefix[1..], value[1..]);
        assert prefix <= value <==> prefix[1..] <= value[1..];
      }
    }
  }
}
