/** Numerals and white space in header and query text. */
module Numerals {
  import opened Common

  predicate IsDigit(c: char) { '0' <= c <= '9' }

  predicate Digits(s: string) { forall i :: 0 <= i < |s| ==> IsDigit(s[i]) }

  /** `Number` of a text of digits; the empty text is 0. */
  function Number(s: string): nat
    requires Digits(s)
  {
    if s == "" then 0 else Number(s[..|s| - 1]) * 10 + (s[|s| - 1] as int - '0' as int)
  }

  /** `String` of a natural number. */
  function DecimalText(n: nat): (s: string)
    ensures s != ""
  {
    if n < 10 then ['0' + n as char] else DecimalText(n / 10) + ['0' + (n % 10) as char]
  }

  lemma {:induction false} NumberOfText(n: nat)
    ensures Digits(DecimalText(n)) && Number(DecimalText(n)) == n
  {
    var s := DecimalText(n);
    if n < 10 {
      assert s[..0] == "";
    } else {
      NumberOfText(n / 10);
      assert s[..|s| - 1] == DecimalText(n / 10);
    }
  }

  /** A hexadecimal digit of either case. */
  function HexValue(c: char): Option<nat>
  {
    if '0' <= c <= '9' then Some((c - '0') as nat)
    else if 'a' <= c <= 'f' then Some((c - 'a') as nat + 10)
    else if 'A' <= c <= 'F' then Some((c - 'A') as nat + 10)
    else None
  }

  // ---- White space ----

  /** `\s` */
  predicate IsSpace(c: char)
  {
    || c in "\t\n\r \U{b}\U{c}\U{a0}\U{1680}\U{2028}\U{2029}\U{202f}\U{205f}\U{3000}\U{feff}"
    || '\U{2000}' <= c <= '\U{200a}'
  }

  function TrimStart(s: string): string
  {
    if s != "" && IsSpace(s[0]) then TrimStart(s[1..]) else s
  }

  function TrimEnd(s: string): string
  {
    if s != "" && IsSpace(s[|s| - 1]) then TrimEnd(s[..|s| - 1]) else s
  }

  function Trim(s: string): string { TrimEnd(TrimStart(s)) }

  /** Trimming takes white space off both ends and nothing else. */
  lemma TrimExact(s: string) returns (before: string, after: string)
    ensures s == before + Trim(s) + after
    ensures (forall c :: c in before + after ==> IsSpace(c))
    ensures Trim(s) != "" ==> !IsSpace(Trim(s)[0]) && !IsSpace(Trim(s)[|Trim(s)| - 1])
  {
    hide IsSpace;
    before := TrimStartExact(s);
    after := TrimEndExact(TrimStart(s));
    assert s == before + (Trim(s) + after);
    assert Trim(s) != "" ==> TrimStart(s)[0] == Trim(s)[0];
  }

  lemma {:induction false} TrimStartExact(s: string) returns (before: string)
    ensures s == before + TrimStart(s) && forall c :: c in before ==> IsSpace(c)
    ensures TrimStart(s) != "" ==> !IsSpace(TrimStart(s)[0])
  {
    hide IsSpace;
    before := "";
    if s != "" && IsSpace(s[0]) {
      var rest := TrimStartExact(s[1..]);
      before := [s[0]] + rest;
      assert s == [s[0]] + s[1..];
    }
  }

  lemma {:induction false} TrimEndExact(s: string) returns (after: string)
    ensures s == TrimEnd(s) + after && forall c :: c in after ==> IsSpace(c)
    ensures TrimEnd(s) != "" ==> !IsSpace(TrimEnd(s)[|TrimEnd(s)| - 1])
  {
    hide IsSpace;
    after := "";
    if s != "" && IsSpace(s[|s| - 1]) {
      var rest := TrimEndExact(s[..|s| - 1]);
      after := rest + [s[|s| - 1]];
      assert s == s[..|s| - 1] + [s[|s| - 1]];
    }
  }

  /** Every run of white space becomes one space. */
  function CollapseSpaces(s: string): string
  {
    if s == "" then ""
    else if !IsSpace(s[0]) then [s[0]] + CollapseSpaces(s[1..])
    else if |s| > 1 && IsSpace(s[1]) then CollapseSpaces(s[1..])
    else " " + CollapseSpaces(s[1..])
  }

  /** Behind a character that is none, a run of white space becomes one space and the rest is collapsed
      on its own. */
  lemma {:induction false} CollapseExact(word: string, run: string, rest: string)
    requires NoSpace(word) && run != "" && (forall i :: 0 <= i < |run| ==> IsSpace(run[i])) && (rest == "" || !IsSpace(rest[0]))
    ensures CollapseSpaces(word + run + rest) == word + " " + CollapseSpaces(rest)
    decreases |word| + |run|
  {
    hide IsSpace;
    var s := word + run + rest;
    if word != "" {
      CollapseExact(word[1..], run, rest);
      assert s[1..] == word[1..] + run + rest && s[0] == word[0];
      assert [word[0]] + (word[1..] + " " + CollapseSpaces(rest)) == word + " " + CollapseSpaces(rest);
    } else {
      assert s == run + rest && s[1..] == run[1..] + rest && s[0] == run[0];
      if |run| > 1 {
        assert s[1] == run[1];
        CollapseExact(word, run[1..], rest);
        assert word + run[1..] + rest == s[1..];
      } else {
        assert s[1..] == rest;
      }
    }
  }

  predicate NoSpace(s: string) { forall i :: 0 <= i < |s| ==> !IsSpace(s[i]) }

  lemma {:induction false} CollapseNothing(s: string)
    requires NoSpace(s)
    ensures CollapseSpaces(s) == s
  {
    if s != "" {
      CollapseNothing(s[1..]);
      assert [s[0]] + s[1..] == s;
    }
  }
}
