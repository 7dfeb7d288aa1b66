/** The header of one `aws-chunked` chunk: `<hex-size>;chunk-signature=<signature>`. */
module ChunkHeader {
  import opened Common
  import opened Numerals

  const CR: byte := 13
  const LF: byte := 10
  const CRLF: seq<byte> := [CR, LF]

  datatype Error = MalformedBody | SignatureMismatch

  datatype Header = Header(size: nat, signature: Option<string>)

  // ---- Reading ----

  /** `Buffer.indexOf('\r\n')`. */
  function FindCrlf(bytes: seq<byte>): (index: Option<nat>)
    ensures index.Some? ==> index.value + 2 <= |bytes| && bytes[index.value..][..2] == CRLF
  {
    if |bytes| < 2 then None
    else if bytes[0] == CR && bytes[1] == LF then Some(0)
    else match FindCrlf(bytes[1..])
      case Some(i) => Some(i + 1)
      case None => None
  }

  /** Header bytes as text; whatever is not ASCII reads as the replacement character. */
  function HeaderText(bytes: seq<byte>): (text: string)
    ensures |text| == |bytes|
  {
    if bytes == [] then []
    else [if bytes[0] < 128 then bytes[0] as char else '\U{FFFD}'] + HeaderText(bytes[1..])
  }

  /** The number spelled by the leading hex digits of a text, continuing from `acc`. */
  function HexPrefix(text: string, acc: nat): nat
  {
    if text == [] || HexValue(text[0]).None? then acc
    else HexPrefix(text[1..], acc * 16 + HexValue(text[0]).value)
  }

  /** `Number.parseInt(text, 16)`: leading blanks, a sign and a `0x` are skipped and anything
      behind the digits is ignored; None is NaN. */
  function ParseHex(text: string): Option<int>
  {
    var trimmed := TrimStart(text);
    var negative := trimmed != [] && trimmed[0] == '-';
    var unsigned := if trimmed != [] && (trimmed[0] == '-' || trimmed[0] == '+') then trimmed[1..] else trimmed;
    var digits := if |unsigned| >= 2 && unsigned[0] == '0' && (unsigned[1] == 'x' || unsigned[1] == 'X') then unsigned[2..] else unsigned;
    if digits == [] || HexValue(digits[0]).None? then None
    else Some((if negative then -1 else 1) * HexPrefix(digits, 0))
  }

  const SIGNATURE_PREFIX := "chunk-signature="

  /** `/^chunk-signature=(.+)$/` on a trimmed extension. */
  function ExtensionSignature(extension: string): Option<string>
  {
    var text := Trim(extension);
    if SIGNATURE_PREFIX < text && '\n' !in text && '\r' !in text then Some(text[|SIGNATURE_PREFIX|..]) else None
  }

  function FirstSignature(extensions: seq<string>): Option<string>
  {
    if extensions == [] then None
    else if ExtensionSignature(extensions[0]).Some? then ExtensionSignature(extensions[0])
    else FirstSignature(extensions[1..])
  }

  /** `signed` demands a signature, as a request with a signing context does. */
  function ParseHeader(header: seq<byte>, signed: bool): Result<Header, Error>
  {
    var parts := Split(HeaderText(header), ';');
    match ParseHex(parts[0])
    case None => Err(MalformedBody)
    case Some(size) =>
      var signature := FirstSignature(parts[1..]);
      if size < 0 || (signed && signature.None?) then Err(MalformedBody)
      else Ok(Header(size, signature))
  }

  // ---- Writing ----

  function HexDigit(d: nat): char
    requires d < 16
  {
    "0123456789abcdef"[d]
  }

  function Hex(n: nat): (text: string)
    ensures text != []
    ensures AllHex(text)
  {
    if n < 16 then [HexDigit(n)] else Hex(n / 16) + [HexDigit(n % 16)]
  }

  predicate IsHexDigit(c: char) { '0' <= c <= '9' || 'a' <= c <= 'f' }

  predicate AllHex(text: string) { forall i :: 0 <= i < |text| ==> IsHexDigit(text[i]) }

  /** What `digest('hex')` returns: lower-case hex digits, at most 64 of them. */
  type Digest = s: string | 0 < |s| <= 64 && AllHex(s) witness "0"

  predicate IsAscii(text: string) { forall i :: 0 <= i < |text| ==> text[i] as int < 128 }

  function Ascii(text: string): (bytes: seq<byte>)
    requires IsAscii(text)
    ensures |bytes| == |text|
    ensures forall i :: 0 <= i < |text| ==> bytes[i] == text[i] as int
  {
    if text == [] then [] else [text[0] as int] + Ascii(text[1..])
  }

  function HeaderLine(size: nat, signature: Option<Digest>): (line: string)
    ensures IsAscii(line)
  {
    match signature
    case None => Hex(size)
    case Some(s) => Hex(size) + ";" + SIGNATURE_PREFIX + s
  }

  lemma HeaderLineText(size: nat, signature: Digest)
    ensures HeaderLine(size, Some(signature)) == Hex(size) + ";chunk-signature=" + signature && HeaderLine(size, None) == Hex(size)
  {
    hide Hex;
    assert Hex(size) + ";" + "chunk-signature=" + signature == Hex(size) + ";chunk-signature=" + signature;
  }

  /** Sizes that are exact in the source's own number type. */
  const MAX_SAFE_INTEGER: nat := 0x1F_FFFF_FFFF_FFFF

  // ---- A written header reads back ----

  lemma {:induction false} HeaderTextAscii(text: string)
    requires IsAscii(text)
    ensures HeaderText(Ascii(text)) == text
  {
    if text != [] {
      HeaderTextAscii(text[1..]);
      assert Ascii(text)[1..] == Ascii(text[1..]);
    }
  }

  lemma {:induction false} HexPrefixConcat(a: string, b: string, acc: nat)
    requires AllHex(a)
    ensures HexPrefix(a + b, acc) == HexPrefix(b, HexPrefix(a, acc))
  {
    if a == [] {
      assert a + b == b;
    } else {
      assert (a + b)[1..] == a[1..] + b;
      assert IsHexDigit(a[0]);
      HexPrefixConcat(a[1..], b, acc * 16 + HexValue(a[0]).value);
    }
  }

  lemma HexDigitReads(d: nat, acc: nat)
    requires d < 16
    ensures HexPrefix([HexDigit(d)], acc) == acc * 16 + d
  {
    assert HexValue(HexDigit(d)) == Some(d);
    assert [HexDigit(d)][1..] == [];
  }

  lemma {:induction false} HexReads(n: nat)
    ensures HexPrefix(Hex(n), 0) == n
  {
    if n < 16 {
      HexDigitReads(n, 0);
    } else {
      HexReads(n / 16);
      HexPrefixConcat(Hex(n / 16), [HexDigit(n % 16)], 0);
      HexDigitReads(n % 16, n / 16);
    }
  }

  lemma {:induction false} HexLength(n: nat, bits: nat, bound: nat)
    requires n < bound && bound == Pow16(bits) && bits > 0
    ensures |Hex(n)| <= bits
  {
    if n >= 16 {
      HexLength(n / 16, bits - 1, Pow16(bits - 1));
    }
  }

  function Pow16(n: nat): nat { if n == 0 then 1 else 16 * Pow16(n - 1) }

  lemma ParseHexDigits(text: string)
    requires text != [] && AllHex(text)
    ensures ParseHex(text) == Some(HexPrefix(text, 0))
  {
    assert IsHexDigit(text[0]);
    assert TrimStart(text) == text;
    assert |text| >= 2 ==> IsHexDigit(text[1]);
  }

  lemma HexHasNo(text: string, c: char)
    requires AllHex(text) && !IsHexDigit(c)
    ensures c !in text
  {}

  lemma ReadSignature(s: Digest)
    ensures FirstSignature([SIGNATURE_PREFIX + s]) == Some(s)
  {
    var extension := SIGNATURE_PREFIX + s;
    assert extension[0] == 'c' && extension[|extension| - 1] == s[|s| - 1];
    assert IsHexDigit(s[|s| - 1]);
    assert Trim(extension) == extension;
    HexHasNo(s, '\n');
    HexHasNo(s, '\r');
    assert extension[..|SIGNATURE_PREFIX|] == SIGNATURE_PREFIX && extension[|SIGNATURE_PREFIX|..] == s;
    assert ExtensionSignature(extension) == Some(s);
  }

  lemma SplitTwo(first: string, sep: char, prefix: string, rest: string)
    requires sep !in first && sep !in prefix && sep !in rest
    ensures Split(first + [sep] + prefix + rest, sep) == [first, prefix + rest]
  {
    hide Split;
    assert first + [sep] + prefix + rest == first + [sep] + (prefix + rest);
    SplitFirst(first, sep, prefix + rest);
    SplitNone(prefix + rest, sep);
  }

  lemma SplitHeaderLine(size: nat, signature: Option<Digest>)
    ensures Split(HeaderLine(size, signature), ';')
            == [Hex(size)] + (match signature case None => [] case Some(s) => [SIGNATURE_PREFIX + s])
  {
    HexHasNo(Hex(size), ';');
    hide Split, Hex, HexValue;
    match signature {
      case None =>
        SplitNone(Hex(size), ';');
      case Some(s) =>
        HexHasNo(s, ';');
        SplitTwo(Hex(size), ';', SIGNATURE_PREFIX, s);
    }
  }

  /** Reading back what a client writes: size and signature survive, signed or not. */
  lemma ReadHeaderLine(size: nat, signature: Option<Digest>)
    ensures ParseHeader(Ascii(HeaderLine(size, signature)), signature.Some?) == Ok(Header(size, signature))
  {
    hide Split, ParseHex, Hex, ExtensionSignature, HeaderText, Ascii;
    var line := HeaderLine(size, signature);
    HeaderTextAscii(line);
    ParseHexDigits(Hex(size));
    HexReads(size);
    SplitHeaderLine(size, signature);
    var parts := Split(line, ';');
    assert parts[0] == Hex(size);
    match signature {
      case None => assert parts[1..] == [];
      case Some(s) =>
        assert parts[1..] == [SIGNATURE_PREFIX + s];
        ReadSignature(s);
    }
  }

  /** A size with a minus sign is refused, and so is a header that does not begin with a number. */
  lemma OddSizesRefused(n: nat, text: string, signed: bool)
    ensures n > 0 ==> ParseHeader(Ascii("-" + Hex(n)), signed) == Err(MalformedBody)
    ensures text != "" && IsAscii(text) && HexValue(text[0]).None? && !IsSpace(text[0]) && text[0] != '-' && text[0] != '+' ==>
              ParseHeader(Ascii(text), signed) == Err(MalformedBody)
  {
    hide Split, HeaderText, Ascii, Hex, HexPrefix;
    HexHasNo("" + Hex(n), ';');
    HeaderTextAscii("-" + Hex(n));
    SplitNone("-" + Hex(n), ';');
    NegativeHex(n);
    if text != "" && IsAscii(text) {
      HeaderTextAscii(text);
      FirstPart(text, ';');
    }
  }

  lemma NegativeHex(n: nat)
    ensures ParseHex("-" + Hex(n)) == Some(0 - n as int)
  {
    hide Hex;
    var text := "-" + Hex(n);
    HexReads(n);
    assert IsHexDigit(Hex(n)[0]);
    assert TrimStart(text) == text && text[1..] == Hex(n);
    assert |Hex(n)| >= 2 ==> IsHexDigit(Hex(n)[1]);
  }

  lemma FirstPart(text: string, separator: char)
    requires text != ""
    ensures var part := Split(text, separator)[0]; part == "" || part[0] == text[0]
  {}

  lemma HeaderLineLength(size: nat, signature: Option<Digest>)
    requires size <= MAX_SAFE_INTEGER
    ensures |HeaderLine(size, signature)| <= 1023
  {
    assert Pow16(14) == 0x100_0000_0000_0000;
    HexLength(size, 14, Pow16(14));
  }

  /** A line without a carriage return ends exactly at the CRLF written behind it. */
  lemma {:induction false} FindCrlfAfter(line: seq<byte>, rest: seq<byte>)
    requires CR !in line
    ensures FindCrlf(line + CRLF + rest) == Some(|line|)
  {
    var bytes := line + CRLF + rest;
    if line != [] {
      assert bytes[1..] == line[1..] + CRLF + rest;
      FindCrlfAfter(line[1..], rest);
    }
  }

  lemma HeaderLineNoCr(size: nat, signature: Option<Digest>)
    ensures CR !in Ascii(HeaderLine(size, signature))
  {
    var line := HeaderLine(size, signature);
    HexHasNo(Hex(size), '\r');
    if signature.Some? {
      HexHasNo(signature.value, '\r');
    }
    assert '\r' !in line;
  }

  /** More input never moves a CRLF that was already found. */
  lemma {:induction false} FindCrlfStable(bytes: seq<byte>, more: seq<byte>)
    requires FindCrlf(bytes).Some?
    ensures FindCrlf(bytes + more) == FindCrlf(bytes)
  {
    assert (bytes + more)[1..] == bytes[1..] + more;
    if !(bytes[0] == CR && bytes[1] == LF) {
      FindCrlfStable(bytes[1..], more);
    }
  }

  /** Bytes before the end of a CRLF do not contain it. */
  lemma {:induction false} FindCrlfCut(bytes: seq<byte>, n: nat)
    requires FindCrlf(bytes).Some? && n < FindCrlf(bytes).value + 2
    ensures FindCrlf(bytes[..n]).None?
  {
    if n >= 2 {
      assert bytes[..n][1..] == bytes[1..][..n - 1];
      FindCrlfCut(bytes[1..], n - 1);
    }
  }

  /** A CRLF found only with more input lies beyond what was there. */
  lemma FindCrlfLater(bytes: seq<byte>, more: seq<byte>)
    requires FindCrlf(bytes).None? && FindCrlf(bytes + more).Some?
    ensures FindCrlf(bytes + more).value + 2 > |bytes|
  {
    var all := bytes + more;
    var i := FindCrlf(all).value;
    assert all[i] == all[i..][..2][0] && all[i + 1] == all[i..][..2][1];
    if i + 2 <= |bytes| {
      CrlfPresent(bytes, i);
    }
  }

  lemma {:induction false} CrlfPresent(bytes: seq<byte>, i: nat)
    requires i + 2 <= |bytes| && bytes[i] == CR && bytes[i + 1] == LF
    ensures FindCrlf(bytes).Some?
  {
    if i > 0 {
      CrlfPresent(bytes[1..], i - 1);
    }
  }
}
