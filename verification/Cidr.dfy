/** `aws:SourceIp` matching by 32-bit shifts and masks, against CIDR blocks as RFC 4632 section 3.1
    defines them. Words are read as unsigned; comparing signed readings would give the same. */
module Cidr {
  import opened Common
  import opened Bits
  import opened Numerals

  const WORD := 32

  // ---- Word operators ----

  function ShiftLeft(a: nat, n: nat): nat { a * Pow2(n) % Pow2(WORD) }

  /** Bitwise or of two `width`-bit numbers. */
  function Or(a: nat, b: nat, width: nat): nat
  {
    if width == 0 then 0 else (if a % 2 + b % 2 > 0 then 1 else 0) + 2 * Or(a / 2, b / 2, width - 1)
  }

  lemma {:induction false} Pow2Sum(m: nat, n: nat)
    ensures Pow2(m + n) == Pow2(m) * Pow2(n)
  {
    if m > 0 {
      Pow2Sum(m - 1, n);
      TwiceTimes(Pow2(m - 1), Pow2(n));
    }
  }

  lemma TwiceTimes(a: nat, b: nat)
    ensures 2 * (a * b) == 2 * a * b
  {}

  lemma {:induction false} OrZero(a: nat, width: nat)
    requires a < Pow2(width)
    ensures Or(a, 0, width) == a
  {
    if width > 0 {
      OrZero(a / 2, width - 1);
    }
  }

  /** Filling in low bits that are zero is adding. */
  lemma {:induction false} OrDisjoint(a: nat, b: nat, low: nat, width: nat)
    requires low <= width && a < Pow2(width) && a % Pow2(low) == 0 && b < Pow2(low)
    ensures Or(a, b, width) == a + b
    decreases low
  {
    if low == 0 {
      OrZero(a, width);
    } else {
      var p := Pow2(low - 1);
      var k := a / (2 * p);
      assert a == k * (2 * p);
      MulSwap(k, p);
      assert a == 2 * (k * p) && a / 2 == k * p && a % 2 == 0;
      QuotientUnique(a / 2, p, k, 0);
      OrDisjoint(a / 2, b / 2, low - 1, width - 1);
    }
  }

  // ---- Dotted quads ----

  /** The v4 address an IPv4-mapped IPv6 address carries. */
  function StripMapped(value: string): string
  {
    if |value| >= 7 && value[..2] == "::" && (forall i :: 2 <= i < 6 ==> value[i] == 'f' || value[i] == 'F') && value[6] == ':' then value[7..]
    else value
  }

  /** One to three digits, at most 255. */
  function Octet(text: string): (r: Option<nat>)
    ensures r.Some? ==> r.value < 256
  {
    if 1 <= |text| <= 3 && Digits(text) && Number(text) <= 255 then Some(Number(text)) else None
  }

  /** The number four octets stand for, most significant first. */
  function Quad(a: nat, b: nat, c: nat, d: nat): nat { ((a * 256 + b) * 256 + c) * 256 + d }

  function Address(value: string): Option<nat>
  {
    var octets := Split(StripMapped(value), '.');
    if |octets| == 4 && Octet(octets[0]).Some? && Octet(octets[1]).Some? && Octet(octets[2]).Some? && Octet(octets[3]).Some? then
      Some(Quad(Octet(octets[0]).value, Octet(octets[1]).value, Octet(octets[2]).value, Octet(octets[3]).value))
    else None
  }

  /** The octets read so far, as one number. */
  function Accumulated(octets: seq<string>): nat
    requires forall i :: 0 <= i < |octets| ==> Octet(octets[i]).Some?
  {
    if octets == [] then 0 else Accumulated(octets[..|octets| - 1]) * 256 + Octet(octets[|octets| - 1]).value
  }

  lemma {:induction false} AccumulatedBound(octets: seq<string>)
    requires forall i :: 0 <= i < |octets| ==> Octet(octets[i]).Some?
    ensures Accumulated(octets) < Pow2(8 * |octets|)
  {
    if octets == [] {
      assert Pow2(0) == 1;
    } else {
      AccumulatedBound(octets[..|octets| - 1]);
      Pow2Sum(8, 8 * (|octets| - 1));
      Pow2Eight();
      assert 8 + 8 * (|octets| - 1) == 8 * |octets|;
    }
  }

  lemma Pow2Eight()
    ensures Pow2(8) == 256
  {
    assert Pow2(4) == 16;
  }

  /** One step of the loop: shifting in an octet. */
  lemma ShiftIn(result: nat, part: nat, digits: nat)
    requires digits < 4 && result < Pow2(8 * digits) && part < 256
    ensures Or(ShiftLeft(result, 8), part, WORD) == result * 256 + part
  {
    hide Pow2, Or;
    Pow2Eight();
    Pow2Sum(8 * digits, 8);
    Pow2Grows(8 * digits + 8, WORD);
    assert result * 256 < Pow2(8 * digits) * 256;
    QuotientUnique(result * 256, Pow2(WORD), 0, result * 256);
    QuotientUnique(result * 256, 256, result, 0);
    OrDisjoint(result * 256, part, 8, WORD);
  }

  /** The loop that shifts the octets together; None as soon as one is not an octet. */
  method ToIpv4Number(value: string) returns (r: Option<nat>)
    ensures r == Address(value)
    ensures r.Some? ==> r.value < Pow2(WORD)
  {
    hide Octet, Or, Pow2, ShiftLeft, Split;
    var octets := Split(StripMapped(value), '.');
    if |octets| != 4 {
      return None;
    }
    var result: nat := 0;
    assert octets[..0] == [];
    for i := 0 to 4
      invariant forall j :: 0 <= j < i ==> Octet(octets[..i][j]).Some?
      invariant result == Accumulated(octets[..i])
    {
      var part := Octet(octets[i]);
      if part.None? {
        return None;
      }
      AccumulatedBound(octets[..i]);
      ShiftIn(result, part.value, i);
      assert octets[..i + 1][..i] == octets[..i];
      result := Or(ShiftLeft(result, 8), part.value, WORD);
    }
    AccumulatedBound(octets[..4]);
    FourOctets(octets);
    r := Some(result);
  }

  lemma FourOctets(octets: seq<string>)
    requires |octets| == 4 && forall i :: 0 <= i < 4 ==> Octet(octets[i]).Some?
    ensures forall i :: 0 <= i < 4 ==> Octet(octets[..4][i]).Some?
    ensures Accumulated(octets[..4]) == Quad(Octet(octets[0]).value, Octet(octets[1]).value, Octet(octets[2]).value, Octet(octets[3]).value)
  {
    hide Octet, Accumulated;
    NoOctets();
    assert octets[..0] == [];
    OctetNext(octets, 0);
    OctetNext(octets, 1);
    OctetNext(octets, 2);
    OctetNext(octets, 3);
  }

  lemma NoOctets()
    ensures Accumulated([]) == 0
  {}

  lemma OctetNext(octets: seq<string>, k: nat)
    requires k < |octets| && forall i :: 0 <= i < |octets| ==> Octet(octets[i]).Some?
    ensures Accumulated(octets[..k + 1]) == Accumulated(octets[..k]) * 256 + Octet(octets[k]).value
  {
    hide Octet;
    assert octets[..k + 1][..k] == octets[..k];
  }

  lemma AddressBound(value: string)
    ensures Address(value).Some? ==> Address(value).value < Pow2(WORD)
  {
    hide Octet, Split;
    var octets := Split(StripMapped(value), '.');
    if Address(value).Some? {
      FourOctets(octets);
      AccumulatedBound(octets[..4]);
    }
  }

  // ---- Blocks ----

  /** The prefix length of a block; a bare address is a /32. `number` is `Number` on text that is not
      all digits, None unless it is an integer. */
  function PrefixLength(number: string -> Option<int>, parts: seq<string>): Option<int>
    requires parts != []
  {
    if |parts| == 1 then Some(32)
    else if parts[1] != "" && Digits(parts[1]) then Some(Number(parts[1]))
    else number(parts[1])
  }

  /** `ipMatches` */
  predicate IpMatches(number: string -> Option<int>, pattern: string, value: string)
  {
    var parts := Split(pattern, '/');
    var network, address, bits := Address(parts[0]), Address(value), PrefixLength(number, parts);
    if network.None? || address.None? then false
    else if bits.None? || bits.value < 0 || bits.value > 32 then false
    else if bits.value == 0 then true
    else
      var mask := ShiftLeft(Pow2(WORD) - 1, WORD - bits.value);
      And(network.value, mask, WORD) == And(address.value, mask, WORD)
  }

  lemma MaskBits(low: nat)
    requires low <= WORD
    ensures Pow2(low) <= Pow2(WORD) && ShiftLeft(Pow2(WORD) - 1, low) == Pow2(WORD) - Pow2(low)
  {
    hide Pow2;
    Pow2Grows(low, WORD);
    Wrapped(Pow2(WORD), Pow2(low));
  }

  /** What is left of a word of ones after the shift. */
  lemma Wrapped(w: nat, p: nat)
    requires 0 < p <= w
    ensures (w - 1) * p % w == w - p
  {
    MulLess(w, p);
    QuotientUnique((w - 1) * p, w, p - 1, w - p);
  }

  lemma MulLess(w: nat, p: nat)
    requires w > 0 && p > 0
    ensures (w - 1) * p == (p - 1) * w + (w - p)
  {
    assert (w - 1) * p == w * p - p;
    assert (p - 1) * w == p * w - w;
  }

  lemma EqualBlocks(a: nat, b: nat, p: nat)
    requires p > 0
    ensures a / p * p == b / p * p <==> a / p == b / p
  {
    var x, y := a / p, b / p;
    if x > y {
      MulAtLeast(x - y, p);
      assert (x - y) * p == x * p - y * p;
    } else if x < y {
      MulAtLeast(y - x, p);
      assert (y - x) * p == y * p - x * p;
    }
  }

  /** Both addresses lie in the same block of this length. */
  predicate SameBlock(a: nat, b: nat, bits: nat)
    requires bits <= WORD
  {
    a / Pow2(WORD - bits) == b / Pow2(WORD - bits)
  }

  /** Matching by mask is lying in the same block: for every pattern and value, the two addresses
      agree after division by 2^(32 - bits). */
  lemma IpMatchesExact(number: string -> Option<int>, pattern: string, value: string)
    ensures var parts := Split(pattern, '/');
            var network, address, bits := Address(parts[0]), Address(value), PrefixLength(number, parts);
            IpMatches(number, pattern, value)
            <==> network.Some? && address.Some? && bits.Some? && 0 <= bits.value <= 32 && SameBlock(network.value, address.value, bits.value)
  {
    hide Split, Address, And, ShiftLeft, Pow2, PrefixLength;
    var parts := Split(pattern, '/');
    var network, address, bits := Address(parts[0]), Address(value), PrefixLength(number, parts);
    AddressBound(parts[0]);
    AddressBound(value);
    if network.Some? && address.Some? && bits.Some? && 0 <= bits.value <= 32 {
      MaskBits(WORD - bits.value);
      MaskedEqual(network.value, address.value, WORD - bits.value);
    }
  }

  lemma MaskedEqual(a: nat, b: nat, low: nat)
    requires low <= WORD && a < Pow2(WORD) && b < Pow2(WORD)
    ensures Pow2(low) <= Pow2(WORD)
    ensures var mask := Pow2(WORD) - Pow2(low);
            And(a, mask, WORD) == And(b, mask, WORD) <==> a / Pow2(low) == b / Pow2(low)
    ensures low == WORD ==> a / Pow2(low) == b / Pow2(low)
  {
    hide And, Pow2;
    AndMask(a, low, WORD);
    AndMask(b, low, WORD);
    EqualBlocks(a, b, Pow2(low));
    if low == WORD {
      QuotientUnique(a, Pow2(WORD), 0, a);
      QuotientUnique(b, Pow2(WORD), 0, b);
    }
  }

  lemma {:induction false} ShorterBlock(a: nat, b: nat, bits: nat, shorter: nat)
    requires shorter <= bits <= WORD && SameBlock(a, b, bits)
    ensures SameBlock(a, b, shorter)
    decreases bits - shorter
  {
    if shorter < bits {
      var p := Pow2(WORD - bits);
      assert Pow2(WORD - bits + 1) == 2 * p;
      Halved(a, p);
      Halved(b, p);
      ShorterBlock(a, b, bits - 1, shorter);
    }
  }

  lemma Halved(a: nat, p: nat)
    requires p > 0
    ensures a / (2 * p) == a / p / 2
  {
    var k, r := a / p / 2, a / p % 2;
    assert a / p == 2 * k + r;
    assert a == a / p * p + a % p;
    assert (2 * k + r) * p == k * (2 * p) + r * p;
    assert r * p + a % p < 2 * p;
    QuotientUnique(a, 2 * p, k, r * p + a % p);
  }

  /** A pattern's network at a given prefix length. */
  function Widened(pattern: string, bits: nat): string { Split(pattern, '/')[0] + "/" + DecimalText(bits) }

  lemma WidenedParts(number: string -> Option<int>, pattern: string, bits: nat)
    ensures Split(Widened(pattern, bits), '/')[0] == Split(pattern, '/')[0]
    ensures PrefixLength(number, Split(Widened(pattern, bits), '/')) == Some(bits)
  {
    hide Split, DecimalText;
    var network := Split(pattern, '/')[0];
    NumberOfText(bits);
    assert Widened(pattern, bits) == network + ['/'] + DecimalText(bits);
    SplitFirst(network, '/', DecimalText(bits));
    SplitNone(DecimalText(bits), '/');
  }

  /** What a pattern matches, its network matches at every shorter prefix length; at length 0 it
      matches every address. */
  lemma ShorterMatches(number: string -> Option<int>, pattern: string, value: string, shorter: nat)
    ensures var bits := PrefixLength(number, Split(pattern, '/'));
            bits.Some? && shorter <= bits.value && IpMatches(number, pattern, value) ==> IpMatches(number, Widened(pattern, shorter), value)
    ensures IpMatches(number, Widened(pattern, 0), value) <==> Address(Split(pattern, '/')[0]).Some? && Address(value).Some?
  {
    hide Split, Address, PrefixLength, Pow2, Widened, IpMatches;
    var bits := PrefixLength(number, Split(pattern, '/'));
    IpMatchesExact(number, pattern, value);
    IpMatchesExact(number, Widened(pattern, shorter), value);
    IpMatchesExact(number, Widened(pattern, 0), value);
    WidenedParts(number, pattern, shorter);
    WidenedParts(number, pattern, 0);
    if bits.Some? && shorter <= bits.value && IpMatches(number, pattern, value) {
      ShorterBlock(Address(Split(pattern, '/')[0]).value, Address(value).value, bits.value, shorter);
    }
    if Address(Split(pattern, '/')[0]).Some? && Address(value).Some? {
      OneBlock(pattern, value);
    }
  }

  /** A bare address matches only itself. */
  lemma BareMatches(number: string -> Option<int>, pattern: string, value: string)
    requires '/' !in pattern
    ensures IpMatches(number, pattern, value) <==> Address(pattern).Some? && Address(pattern) == Address(value)
  {
    hide Split, Address, And, ShiftLeft;
    SplitNone(pattern, '/');
    IpMatchesExact(number, pattern, value);
    assert Pow2(0) == 1;
  }

  lemma OneBlock(pattern: string, value: string)
    requires Address(Split(pattern, '/')[0]).Some? && Address(value).Some?
    ensures SameBlock(Address(Split(pattern, '/')[0]).value, Address(value).value, 0)
  {
    hide Split, Address, Pow2;
    AddressBound(Split(pattern, '/')[0]);
    AddressBound(value);
    QuotientUnique(Address(Split(pattern, '/')[0]).value, Pow2(WORD), 0, Address(Split(pattern, '/')[0]).value);
    QuotientUnique(Address(value).value, Pow2(WORD), 0, Address(value).value);
  }

  // ---- Printing ----

  /** The dotted quad of a number. */
  function Dotted(n: nat): string
  {
    DecimalText(n / 16777216) + "." + DecimalText(n / 65536 % 256) + "." + DecimalText(n / 256 % 256) + "." + DecimalText(n % 256)
  }

  lemma OctetText(n: nat)
    requires n < 256
    ensures Octet(DecimalText(n)) == Some(n) && '.' !in DecimalText(n) && DecimalText(n)[0] != ':'
  {
    NumberOfText(n);
    assert |DecimalText(n)| <= 3 by {
      assert n / 10 / 10 < 10;
      assert |DecimalText(n / 10 / 10)| == 1;
      assert |DecimalText(n / 10)| <= 2;
    }
    forall i | 0 <= i < |DecimalText(n)|
      ensures DecimalText(n)[i] != '.' && DecimalText(n)[i] != ':'
    {
      assert IsDigit(DecimalText(n)[i]);
    }
  }

  /** Every 32-bit number is read back from its dotted quad, also when it arrives IPv4-mapped. */
  lemma AddressDotted(n: nat)
    requires n < 4294967296
    ensures Address(Dotted(n)) == Some(n)
    ensures Address("::ffff:" + Dotted(n)) == Some(n) && Address("::FFFF:" + Dotted(n)) == Some(n)
  {
    hide Octet, Split, DecimalText;
    var a, b, c, d := n / 16777216, n / 65536 % 256, n / 256 % 256, n % 256;
    OctetText(a);
    OctetText(b);
    OctetText(c);
    OctetText(d);
    DottedSplit(a, b, c, d);
    assert Quad(a, b, c, d) == n by { QuadOf(n); }
    assert Dotted(n)[0] == DecimalText(a)[0];
    assert Dotted(n)[..2][0] == Dotted(n)[0];
    assert StripMapped(Dotted(n)) == Dotted(n);
    assert ("::ffff:" + Dotted(n))[7..] == Dotted(n) && ("::FFFF:" + Dotted(n))[7..] == Dotted(n);
  }

  lemma QuadOf(n: nat)
    ensures Quad(n / 16777216, n / 65536 % 256, n / 256 % 256, n % 256) == n
  {
    assert n / 256 / 256 == n / 65536 && n / 65536 / 256 == n / 16777216;
  }

  lemma DottedSplit(a: nat, b: nat, c: nat, d: nat)
    requires '.' !in DecimalText(a) && '.' !in DecimalText(b) && '.' !in DecimalText(c) && '.' !in DecimalText(d)
    ensures Split(DecimalText(a) + "." + DecimalText(b) + "." + DecimalText(c) + "." + DecimalText(d), '.') == [DecimalText(a), DecimalText(b), DecimalText(c), DecimalText(d)]
  {
    hide Split, DecimalText;
    var s3 := DecimalText(c) + ['.'] + DecimalText(d);
    var s2 := DecimalText(b) + ['.'] + s3;
    assert DecimalText(a) + "." + DecimalText(b) + "." + DecimalText(c) + "." + DecimalText(d) == DecimalText(a) + ['.'] + s2;
    SplitFirst(DecimalText(a), '.', s2);
    SplitFirst(DecimalText(b), '.', s3);
    SplitFirst(DecimalText(c), '.', DecimalText(d));
    SplitNone(DecimalText(d), '.');
  }
}
