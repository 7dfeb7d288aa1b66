/** Percent-encoding of text (RFC 3986 sections 2.1 and 2.3): the encoder behind canonical requests
    and presigned URLs, and the decoder that has to undo it. Text is a sequence of code points;
    what is escaped is its UTF-8. */
module UriCodec {
  import opened Common
  import opened Numerals

  // ---- UTF-8 ----

  function Utf8(c: char): (bytes: seq<byte>)
    ensures bytes != []
  {
    var n := c as int;
    if n < 0x80 then [n]
    else if n < 0x800 then [0xC0 + n / 64, 0x80 + n % 64]
    else if n < 0x10000 then [0xE0 + n / 4096, 0x80 + n / 64 % 64, 0x80 + n % 64]
    else [0xF0 + n / 262144, 0x80 + n / 4096 % 64, 0x80 + n / 64 % 64, 0x80 + n % 64]
  }

  predicate Trailing(b: byte) { 0x80 <= b < 0xC0 }

  function Low(b: byte): int { b - 0x80 }

  /** A code point that is neither a surrogate nor written longer than it needs to be. */
  predicate Scalar(n: int, least: int) { least <= n < 0x110000 && !(0xD800 <= n < 0xE000) }

  /** How many bytes the lead byte announces; 0 if it cannot lead. */
  function Length(lead: byte): nat
  {
    if lead < 0x80 then 1 else if 0xC0 <= lead < 0xE0 then 2 else if 0xE0 <= lead < 0xF0 then 3 else if 0xF0 <= lead < 0xF8 then 4 else 0
  }

  /** The code point a sequence of bytes stands for, if it is well-formed UTF-8. */
  function FromUtf8(bytes: seq<byte>): Option<char>
    requires bytes != [] && |bytes| == Length(bytes[0])
  {
    var b: int := bytes[0];
    if |bytes| == 1 then Some(bytes[0] as char)
    else if !(forall i :: 1 <= i < |bytes| ==> Trailing(bytes[i])) then None
    else
      var n := if |bytes| == 2 then (b - 0xC0) * 64 + Low(bytes[1])
               else if |bytes| == 3 then (b - 0xE0) * 4096 + Low(bytes[1]) * 64 + Low(bytes[2])
               else (b - 0xF0) * 262144 + Low(bytes[1]) * 4096 + Low(bytes[2]) * 64 + Low(bytes[3]);
      if Scalar(n, if |bytes| == 2 then 0x80 else if |bytes| == 3 then 0x800 else 0x10000) then Some(n as char) else None
  }

  lemma Utf8RoundTrip(c: char)
    ensures Utf8(c)[0] < 0xF8 && |Utf8(c)| == Length(Utf8(c)[0]) && FromUtf8(Utf8(c)) == Some(c)
  {
    var n := c as int;
    assert n / 64 / 64 == n / 4096 && n / 4096 / 64 == n / 262144;
    assert n == n / 64 * 64 + n % 64;
    assert n / 64 == n / 4096 * 64 + n / 64 % 64;
    assert n / 4096 == n / 262144 * 64 + n / 4096 % 64;
  }

  function Utf8Text(s: string): seq<byte>
  {
    if s == "" then [] else Utf8(s[0]) + Utf8Text(s[1..])
  }

  /** Only a character's own UTF-8 is read as that character. */
  lemma FromUtf8Exact(bytes: seq<byte>)
    requires bytes != [] && |bytes| == Length(bytes[0]) && FromUtf8(bytes).Some?
    ensures bytes == Utf8(FromUtf8(bytes).value)
  {
    var n := FromUtf8(bytes).value as int;
    if |bytes| == 2 {
      Digits64(bytes[0] - 0xC0, Low(bytes[1]));
    } else if |bytes| == 3 {
      Digits64(bytes[0] - 0xE0, Low(bytes[1]));
      Digits64((bytes[0] - 0xE0) * 64 + Low(bytes[1]), Low(bytes[2]));
      assert n / 64 / 64 == n / 4096;
    } else if |bytes| == 4 {
      Digits64(bytes[0] - 0xF0, Low(bytes[1]));
      Digits64((bytes[0] - 0xF0) * 64 + Low(bytes[1]), Low(bytes[2]));
      Digits64(((bytes[0] - 0xF0) * 64 + Low(bytes[1])) * 64 + Low(bytes[2]), Low(bytes[3]));
      assert n / 64 / 64 == n / 4096 && n / 4096 / 64 == n / 262144;
    }
  }

  lemma Digits64(high: int, low: int)
    requires 0 <= high && 0 <= low < 64
    ensures (high * 64 + low) / 64 == high && (high * 64 + low) % 64 == low
  {}

  // ---- Escapes ----

  const HEX := "0123456789ABCDEF"

  function Escape(b: byte): string { ['%', HEX[b / 16], HEX[b % 16]] }

  function Escapes(bytes: seq<byte>): string
  {
    if bytes == [] then "" else Escape(bytes[0]) + Escapes(bytes[1..])
  }

  function EscapeAt(s: string): Option<byte>
  {
    if |s| < 3 || s[0] != '%' || HexValue(s[1]).None? || HexValue(s[2]).None? then None
    else Some(HexValue(s[1]).value * 16 + HexValue(s[2]).value)
  }

  lemma EscapeRoundTrip(b: byte, rest: string)
    ensures EscapeAt(Escape(b) + rest) == Some(b)
  {
    HexDigit(b / 16);
    HexDigit(b % 16);
  }

  /** Escapes are written in capitals (RFC 3986 section 2.1). */
  lemma EscapeCapitals(b: byte)
    ensures Escape(b)[0] == '%' && forall c :: c in Escape(b)[1..] ==> '0' <= c <= '9' || 'A' <= c <= 'F'
  {
    CapitalDigit(b / 16);
    CapitalDigit(b % 16);
  }

  lemma CapitalDigit(d: nat)
    requires d < 16
    ensures '0' <= HEX[d] <= '9' || 'A' <= HEX[d] <= 'F'
  {}

  lemma HexDigit(d: nat)
    requires d < 16
    ensures HexValue(HEX[d]) == Some(d) && Unreserved(HEX[d])
  {}

  // ---- The encoder ----

  predicate Alphanumeric(c: char) { 'A' <= c <= 'Z' || 'a' <= c <= 'z' || '0' <= c <= '9' }

  /** RFC 3986 section 2.3. */
  predicate Unreserved(c: char) { Alphanumeric(c) || c in "-_.~" }

  /** `encodeURIComponent`, which also leaves `!'()*` alone. */
  function EncodeURIComponent(s: string): string
  {
    if s == "" then ""
    else (if Unreserved(s[0]) || s[0] in "!'()*" then [s[0]] else Escapes(Utf8(s[0]))) + EncodeURIComponent(s[1..])
  }

  /** The replacement that escapes them after all. */
  function EscapeMarks(s: string): string
  {
    if s == "" then ""
    else (if s[0] in "!'()*" then Escape(s[0] as int) else [s[0]]) + EscapeMarks(s[1..])
  }

  function UriEncode(s: string): string { EscapeMarks(EncodeURIComponent(s)) }

  lemma {:induction false} EscapeMarksConcat(a: string, b: string)
    ensures EscapeMarks(a + b) == EscapeMarks(a) + EscapeMarks(b)
  {
    if a == "" {
      assert a + b == b;
    } else {
      assert (a + b)[1..] == a[1..] + b;
      EscapeMarksConcat(a[1..], b);
    }
  }

  /** Escapes contain no marks. */
  lemma {:induction false} EscapeMarksKeeps(bytes: seq<byte>)
    ensures EscapeMarks(Escapes(bytes)) == Escapes(bytes)
  {
    if bytes != [] {
      EscapeMarksConcat(Escape(bytes[0]), Escapes(bytes[1..]));
      EscapeMarksKeeps(bytes[1..]);
      EscapeKept(bytes[0]);
    }
  }

  lemma EscapeKept(b: byte)
    ensures EscapeMarks(Escape(b)) == Escape(b)
  {
    HexDigit(b / 16);
    HexDigit(b % 16);
    var s := Escape(b);
    assert EscapeMarks(s[3..]) == "" && EscapeMarks(s[2..]) == s[2..] && EscapeMarks(s[1..]) == s[1..];
  }

  /** Both passes together: unreserved characters stay, everything else is escaped as UTF-8. */
  lemma UriEncodeStep(s: string)
    requires s != ""
    ensures UriEncode(s) == (if Unreserved(s[0]) then [s[0]] else Escapes(Utf8(s[0]))) + UriEncode(s[1..])
  {
    hide EscapeMarks;
    var head := if Unreserved(s[0]) || s[0] in "!'()*" then [s[0]] else Escapes(Utf8(s[0]));
    EscapeMarksConcat(head, EncodeURIComponent(s[1..]));
    if Unreserved(s[0]) || s[0] in "!'()*" {
      SingleMark(s[0]);
    } else {
      EscapeMarksKeeps(Utf8(s[0]));
    }
  }

  lemma SingleMark(c: char)
    ensures EscapeMarks([c]) == if c in "!'()*" then Escape(c as int) else [c]
    ensures c in "!'()*" ==> !Unreserved(c) && Escapes(Utf8(c)) == Escape(c as int)
  {
    assert [c][1..] == "";
    if c in "!'()*" {
      assert Utf8(c) == [c as int];
      assert Escapes([c as int]) == Escape(c as int) + Escapes([]);
    }
  }

  // ---- The decoder ----

  /** The escaped bytes of one character, if `n` escapes stand there. */
  function EscapedBytes(s: string, n: nat): (r: Option<seq<byte>>)
    ensures r.Some? ==> |r.value| == n && 3 * n <= |s|
  {
    if n == 0 then Some([])
    else match EscapeAt(s)
      case None => None
      case Some(b) =>
        match EscapedBytes(s[3..], n - 1)
        case None => None
        case Some(rest) => Some([b] + rest)
  }

  /** The character escaped at the start of the text, and how many characters it takes up. */
  function EscapedChar(s: string): (r: Option<(char, nat)>)
    ensures r.Some? ==> 0 < r.value.1 <= |s|
  {
    match EscapeAt(s)
    case None => None
    case Some(lead) =>
      if Length(lead) == 0 then None
      else match EscapedBytes(s, Length(lead))
        case None => None
        case Some(bytes) =>
          match FromUtf8(bytes)
          case None => None
          case Some(c) => Some((c, 3 * Length(lead)))
  }

  /** `decodeURIComponent`; None where it throws. */
  function DecodeURIComponent(s: string): Option<string>
    decreases |s|
  {
    if s == "" then Some("")
    else
      var head := if s[0] == '%' then EscapedChar(s) else Some((s[0], 1));
      match head
      case None => None
      case Some((c, n)) =>
        match DecodeURIComponent(s[n..])
        case None => None
        case Some(rest) => Some([c] + rest)
  }

  lemma FirstEscape(bytes: seq<byte>, rest: string)
    requires bytes != []
    ensures var s := Escapes(bytes) + rest;
            EscapeAt(s) == Some(bytes[0]) && |s| >= 3 && s[3..] == Escapes(bytes[1..]) + rest
    ensures |Escapes(bytes)| == 3 + |Escapes(bytes[1..])|
  {
    hide EscapeAt, Escape;
    assert Escapes(bytes) == Escape(bytes[0]) + Escapes(bytes[1..]);
    hide Escapes;
    EscapeRoundTrip(bytes[0], Escapes(bytes[1..]) + rest);
    EscapeLength(bytes[0]);
    Regrouped(Escape(bytes[0]), Escapes(bytes[1..]), rest);
  }

  lemma Regrouped(head: string, middle: string, rest: string)
    ensures head + middle + rest == head + (middle + rest) && (head + middle + rest)[|head|..] == middle + rest
  {}

  lemma EscapeLength(b: byte)
    ensures |Escape(b)| == 3
  {}

  lemma {:induction false} EscapedBytesRoundTrip(bytes: seq<byte>, rest: string)
    ensures EscapedBytes(Escapes(bytes) + rest, |bytes|) == Some(bytes)
    ensures |Escapes(bytes)| == 3 * |bytes|
  {
    if bytes != [] {
      FirstEscape(bytes, rest);
      hide Escapes, EscapeAt;
      EscapedBytesRoundTrip(bytes[1..], rest);
      NextEscape(Escapes(bytes) + rest, bytes);
    }
  }

  lemma NextEscape(s: string, bytes: seq<byte>)
    requires bytes != [] && |s| >= 3 && EscapeAt(s) == Some(bytes[0]) && EscapedBytes(s[3..], |bytes| - 1) == Some(bytes[1..])
    ensures EscapedBytes(s, |bytes|) == Some(bytes)
  {
    hide EscapeAt;
    assert [bytes[0]] + bytes[1..] == bytes;
  }

  lemma EscapedCharRoundTrip(c: char, rest: string)
    ensures EscapedChar(Escapes(Utf8(c)) + rest) == Some((c, |Escapes(Utf8(c))|)) && Escapes(Utf8(c))[0] == '%'
  {
    hide Utf8, FromUtf8;
    var bytes := Utf8(c);
    Utf8RoundTrip(c);
    EscapedBytesRoundTrip(bytes, rest);
    assert Escapes(bytes) + rest == Escape(bytes[0]) + (Escapes(bytes[1..]) + rest);
    EscapeRoundTrip(bytes[0], Escapes(bytes[1..]) + rest);
  }

  /** Decoding undoes encoding, for every text. */
  lemma {:induction false} DecodeEncode(s: string)
    ensures DecodeURIComponent(UriEncode(s)) == Some(s)
  {
    if s != "" {
      hide UriEncode, Escapes, Utf8, EscapedChar;
      UriEncodeStep(s);
      DecodeEncode(s[1..]);
      var e, rest := UriEncode(s), UriEncode(s[1..]);
      if Unreserved(s[0]) {
        assert e[1..] == rest && e[0] != '%';
      } else {
        EscapedCharRoundTrip(s[0], rest);
        var head := Escapes(Utf8(s[0]));
        assert e == head + rest && e[|head|..] == rest && e[0] == '%';
        assert e != "";
      }
      assert [s[0]] + s[1..] == s;
    }
  }

  /** These bytes stand escaped at the start of the text, in digits of either case. */
  predicate StandEscaped(s: string, bytes: seq<byte>)
  {
    3 * |bytes| <= |s| && forall i :: 0 <= i < |bytes| ==> EscapeAt(s[3 * i..]) == Some(bytes[i])
  }

  /** The text spells another one: character by character it is itself, or its UTF-8 stands escaped. */
  predicate Spells(s: string, text: string)
    decreases |text|
  {
    if text == "" then s == ""
    else if s == "" then false
    else if s[0] != '%' then text[0] == s[0] && Spells(s[1..], text[1..])
    else StandEscaped(s, Utf8(text[0])) && Spells(s[3 * |Utf8(text[0])|..], text[1..])
  }

  lemma {:induction false} EscapedBytesExact(s: string, n: nat, bytes: seq<byte>)
    ensures EscapedBytes(s, n) == Some(bytes) <==> |bytes| == n && StandEscaped(s, bytes)
    decreases n
  {
    hide EscapeAt;
    if n > 0 && bytes != [] {
      if |s| >= 3 {
        EscapedBytesExact(s[3..], n - 1, bytes[1..]);
        LaterEscaped(s, bytes);
      }
      assert bytes == [bytes[0]] + bytes[1..];
      ShortEscape(s);
      assert s[3 * 0..] == s;
    }
  }

  lemma ShortEscape(s: string)
    ensures EscapeAt(s).Some? ==> |s| >= 3
  {}

  lemma LaterEscaped(s: string, bytes: seq<byte>)
    requires |s| >= 3 && bytes != []
    ensures StandEscaped(s, bytes) <==> EscapeAt(s) == Some(bytes[0]) && StandEscaped(s[3..], bytes[1..])
  {
    hide EscapeAt;
    assert s[3 * 0..] == s;
    if 3 * |bytes| <= |s| {
      forall i | 1 <= i < |bytes|
        ensures s[3 * i..] == s[3..][3 * (i - 1)..]
      {}
      if StandEscaped(s[3..], bytes[1..]) && EscapeAt(s) == Some(bytes[0]) {
        forall i | 0 <= i < |bytes|
          ensures EscapeAt(s[3 * i..]) == Some(bytes[i])
        {
          if i > 0 {
            assert EscapeAt(s[3..][3 * (i - 1)..]) == Some(bytes[1..][i - 1]);
          }
        }
      }
      if StandEscaped(s, bytes) {
        forall i | 0 <= i < |bytes[1..]|
          ensures EscapeAt(s[3..][3 * i..]) == Some(bytes[1..][i])
        {
          assert EscapeAt(s[3 * (i + 1)..]) == Some(bytes[i + 1]);
          assert s[3 * (i + 1)..] == s[3..][3 * i..];
        }
      }
    }
  }

  /** An escaped character is one whose UTF-8 stands there, whole and well-formed. */
  lemma EscapedCharExact(s: string, c: char)
    ensures EscapedChar(s) == Some((c, 3 * |Utf8(c)|)) <==> StandEscaped(s, Utf8(c))
    ensures EscapedChar(s).Some? ==> EscapedChar(s).value.1 == 3 * |Utf8(EscapedChar(s).value.0)|
  {
    hide Utf8, FromUtf8, EscapeAt, EscapedBytes, StandEscaped, Length;
    Utf8RoundTrip(c);
    FirstStands(s, Utf8(c));
    EscapedBytesExact(s, |Utf8(c)|, Utf8(c));
    if EscapedChar(s).Some? {
      var n := Length(EscapeAt(s).value);
      var bytes := EscapedBytes(s, n).value;
      EscapedBytesExact(s, n, bytes);
      FirstStands(s, bytes);
      FromUtf8Exact(bytes);
    }
  }

  lemma FirstStands(s: string, bytes: seq<byte>)
    ensures bytes != [] && StandEscaped(s, bytes) ==> EscapeAt(s) == Some(bytes[0])
  {
    hide EscapeAt;
    assert s[3 * 0..] == s;
  }

  /** Decoding yields a text if and only if the input spells it; nothing else is decoded. */
  lemma {:induction false} DecodeExact(s: string, text: string)
    ensures DecodeURIComponent(s) == Some(text) <==> Spells(s, text)
    decreases |s|
  {
    hide EscapedChar, StandEscaped, Utf8;
    if s != "" {
      if s[0] != '%' {
        DecodeExact(s[1..], if text == "" then "" else text[1..]);
      } else {
        if EscapedChar(s).Some? {
          var (c, n) := EscapedChar(s).value;
          EscapedCharExact(s, c);
          DecodeExact(s[n..], if text == "" then "" else text[1..]);
        }
        if text != "" {
          EscapedCharExact(s, text[0]);
        }
      }
      assert text != "" ==> text == [text[0]] + text[1..];
    }
  }

  // ---- What encoded text is made of ----

  predicate Encoded(s: string) { forall i :: 0 <= i < |s| ==> Unreserved(s[i]) || s[i] == '%' }

  lemma {:induction false} EscapesEncoded(bytes: seq<byte>)
    ensures Encoded(Escapes(bytes))
  {
    if bytes != [] {
      HexDigit(bytes[0] / 16);
      HexDigit(bytes[0] % 16);
      EscapesEncoded(bytes[1..]);
    }
  }

  /** Encoded text consists of unreserved characters and escapes, so it contains no separator. */
  lemma {:induction false} UriEncodeEncoded(s: string)
    ensures Encoded(UriEncode(s))
  {
    if s != "" {
      hide UriEncode, Utf8, Unreserved, Escapes;
      UriEncodeStep(s);
      EscapesEncoded(Utf8(s[0]));
      UriEncodeEncoded(s[1..]);
    }
  }

  lemma EncodedLacks(s: string, separator: char)
    requires Encoded(s) && !Unreserved(separator) && separator != '%'
    ensures separator !in s
  {}

  /** Unreserved text is its own encoding. */
  lemma {:induction false} UriEncodeUnreserved(s: string)
    requires forall i :: 0 <= i < |s| ==> Unreserved(s[i])
    ensures UriEncode(s) == s
  {
    if s != "" {
      hide UriEncode;
      UriEncodeStep(s);
      UriEncodeUnreserved(s[1..]);
      assert [s[0]] + s[1..] == s;
    }
  }

  /** Encoding is injective. */
  lemma UriEncodeInjective(a: string, b: string)
    requires UriEncode(a) == UriEncode(b)
    ensures a == b
  {
    hide UriEncode, DecodeURIComponent;
    DecodeEncode(a);
    DecodeEncode(b);
  }
}
