/** `StorageCipher`: AES-256-CTR with a seekable counter (NIST SP 800-38A section 6.5). AES itself
    is an uninterpreted function from key and counter block to a block of keystream. */
module Cipher {
  import opened Common
  import opened Bits

  const BLOCK_BYTES := 16
  const KEY_BYTES := 32
  const IV_BYTES := 16

  // ---- Big-endian numbers ----

  function Pow256(n: nat): (p: nat)
    ensures p > 0
  {
    if n == 0 then 1 else 256 * Pow256(n - 1)
  }

  function BigEndian(s: seq<byte>): nat
  {
    if s == [] then 0 else BigEndian(s[..|s| - 1]) * 256 + s[|s| - 1]
  }

  /** The lowest `n` bytes of a number. */
  function ToBytes(v: nat, n: nat): (s: seq<byte>)
    ensures |s| == n
  {
    if n == 0 then [] else ToBytes(v / 256, n - 1) + [v % 256]
  }

  lemma {:induction false} BigEndianBound(s: seq<byte>)
    ensures BigEndian(s) < Pow256(|s|)
  {
    if s != [] {
      BigEndianBound(s[..|s| - 1]);
    }
  }

  lemma {:induction false} ToBytesOfBigEndian(s: seq<byte>)
    ensures ToBytes(BigEndian(s), |s|) == s
  {
    if s != [] {
      ToBytesOfBigEndian(s[..|s| - 1]);
    }
  }

  lemma {:induction false} BigEndianOfToBytes(v: nat, n: nat)
    ensures BigEndian(ToBytes(v, n)) == v % Pow256(n)
  {
    if n > 0 {
      BigEndianOfToBytes(v / 256, n - 1);
      assert ToBytes(v, n)[..n - 1] == ToBytes(v / 256, n - 1);
      ModTimes(v, Pow256(n - 1));
    }
  }

  lemma ModTimes(v: nat, p: nat)
    requires p > 0
    ensures v % (256 * p) == 256 * (v / 256 % p) + v % 256
  {
    var q, r := v / 256 / p, v / 256 % p;
    assert v / 256 == q * p + r;
    assert v == q * (256 * p) + (r * 256 + v % 256) by { assert q * p * 256 == q * (256 * p); }
    QuotientUnique(v, 256 * p, q, r * 256 + v % 256);
  }

  /** Only the lowest bytes of the number matter. */
  lemma ToBytesMod(v: nat, n: nat)
    ensures ToBytes(v % Pow256(n), n) == ToBytes(v, n)
  {
    BigEndianOfToBytes(v, n);
    ToBytesOfBigEndian(ToBytes(v, n));
  }

  lemma {:induction false} BigEndianUpdate(s: seq<byte>, i: nat, b: byte)
    requires i < |s|
    ensures BigEndian(s[i := b]) == BigEndian(s) + (b - s[i]) * Pow256(|s| - 1 - i)
  {
    var n, t := |s| - 1, s[i := b];
    if i == n {
      assert t[..n] == s[..n];
    } else {
      BigEndianUpdate(s[..n], i, b);
      assert t[..n] == s[..n][i := b];
      var p := Pow256(n - 1 - i);
      assert (b - s[i]) * p * 256 == (b - s[i]) * (256 * p);
    }
  }

  // ---- The counter ----

  type Block = b: seq<byte> | |b| == BLOCK_BYTES witness seq(BLOCK_BYTES, _ => 0)

  /** The counter block `blocks` after `iv`: its big-endian number plus `blocks`, modulo 2^128. */
  function Counter(iv: Block, blocks: nat): Block
  {
    ToBytes(BigEndian(iv) + blocks, BLOCK_BYTES)
  }

  lemma CounterValue(iv: Block, blocks: nat)
    ensures BigEndian(Counter(iv, blocks)) == (BigEndian(iv) + blocks) % Pow256(16)
  {
    BigEndianOfToBytes(BigEndian(iv) + blocks, 16);
  }

  lemma CounterAdds(iv: Block, a: nat, b: nat)
    ensures Counter(Counter(iv, a), b) == Counter(iv, a + b)
  {
    hide BigEndian, ToBytes, Pow256;
    var v, p := BigEndian(iv) + a, Pow256(16);
    CounterValue(iv, a);
    ToBytesMod(v % p + b, 16);
    ToBytesMod(v + b, 16);
    ModAdd(v, b, p);
  }

  lemma ModAdd(v: nat, b: nat, p: nat)
    requires p > 0
    ensures (v % p + b) % p == (v + b) % p
  {
    var q, r := v / p, v % p + b;
    assert v + b == (q + r / p) * p + r % p by {
      assert q * p + r / p * p == (q + r / p) * p;
    }
    QuotientUnique(v + b, p, q + r / p, r % p);
  }

  lemma CarryStep(n: int, p: nat, digit: byte, carry: nat, sum: nat)
    requires p > 0 && sum == digit + carry % 256
    ensures n + (sum % 256 - digit) * p + (carry / 256 + sum / 256) * (256 * p) == n + carry * p
  {
    var k, m := sum % 256 - digit, carry / 256 + sum / 256;
    assert k + m * 256 == carry;
    assert m * (256 * p) == m * 256 * p;
    assert k * p + m * 256 * p == (k + m * 256) * p;
  }

  /** What the carry loop leaves: either no carry, or one that falls off the top byte. */
  lemma CarryEnd(iv: Block, blocks: nat, counter: Block, carry: nat, p: nat)
    requires BigEndian(counter) + carry * p == BigEndian(iv) + blocks
    requires carry == 0 || p == Pow256(16)
    ensures counter == Counter(iv, blocks)
  {
    hide BigEndian, ToBytes, Pow256;
    var v := BigEndian(iv) + blocks;
    BigEndianBound(counter);
    ToBytesOfBigEndian(counter);
    if carry > 0 {
      QuotientUnique(v, Pow256(16), carry, BigEndian(counter));
      ToBytesMod(v, 16);
    }
  }

  /** The byte-wise carry loop of the source: stops at carry zero, drops the carry out of byte 0. */
  method AdvanceIv(iv: Block, blocks: nat) returns (counter: Block)
    ensures counter == Counter(iv, blocks)
  {
    hide BigEndian, ToBytes, Counter;
    var buffer := new byte[BLOCK_BYTES](i requires 0 <= i < BLOCK_BYTES => iv[i]);
    assert buffer[..] == iv;
    var carry: nat := blocks;
    var index := BLOCK_BYTES - 1;
    ghost var p := Pow256(0);
    while index >= 0 && carry > 0
      invariant -1 <= index < BLOCK_BYTES
      invariant p == Pow256(BLOCK_BYTES - 1 - index)
      invariant BigEndian(buffer[..]) + carry * p == BigEndian(iv) + blocks
    {
      ghost var before := buffer[..];
      var sum: nat := buffer[index] + carry % 256;
      CarryStep(BigEndian(before), p, buffer[index], carry, sum);
      var digit: byte := sum % 256;
      BigEndianUpdate(before, index, digit);
      buffer[index] := digit;
      assert buffer[..] == before[index := digit];
      carry := carry / 256 + sum / 256;
      index := index - 1;
      p := 256 * p;
    }
    counter := buffer[..];
    CarryEnd(iv, blocks, counter, carry, p);
  }

  // ---- Counter mode ----

  datatype Suite = Suite(
    aes: (seq<byte>, Block) -> Block,
    unwrap: string -> Option<seq<byte>>,
    md5: seq<byte> -> string)

  datatype BlobKey = BlobKey(key: seq<byte>, iv: Block)

  /** Byte `n` of the keystream: block `n / 16` is the cipher of the counter advanced that far. */
  function Keystream(suite: Suite, k: BlobKey, n: nat): byte
  {
    suite.aes(k.key, Counter(k.iv, n / BLOCK_BYTES))[n % BLOCK_BYTES]
  }

  function XorByte(a: byte, b: byte): (r: byte)
    ensures Xor(r, b, 8) == a
  {
    assert Pow2(8) == 256;
    XorTwice(a, b, 8);
    Xor(a, b, 8)
  }

  /** Encryption and decryption alike, of data standing at byte `position` of the payload. */
  function Ctr(suite: Suite, k: BlobKey, position: nat, data: seq<byte>): (out: seq<byte>)
    ensures |out| == |data|
  {
    seq(|data|, i requires 0 <= i < |data| => XorByte(data[i], Keystream(suite, k, position + i)))
  }

  /** Each byte is combined with the keystream of counter mode: the cipher of the block whose number is
      the IV's plus the byte's block, modulo 2^128. */
  lemma CtrExact(suite: Suite, k: BlobKey, position: nat, data: seq<byte>, i: nat, block: Block)
    requires i < |data| && BigEndian(block) == (BigEndian(k.iv) + (position + i) / 16) % Pow256(16)
    ensures Xor(Ctr(suite, k, position, data)[i], suite.aes(k.key, block)[(position + i) % 16], 8) == data[i]
  {
    hide BigEndian, ToBytes, Pow256, Xor, Counter;
    CounterValue(k.iv, (position + i) / 16);
    ToBytesOfBigEndian(block);
    ToBytesOfBigEndian(Counter(k.iv, (position + i) / 16));
  }

  lemma CtrConcat(suite: Suite, k: BlobKey, position: nat, a: seq<byte>, b: seq<byte>)
    ensures Ctr(suite, k, position, a + b) == Ctr(suite, k, position, a) + Ctr(suite, k, position + |a|, b)
  {}

  /** Decryption undoes encryption. */
  lemma CtrTwice(suite: Suite, k: BlobKey, position: nat, data: seq<byte>)
    ensures Ctr(suite, k, position, Ctr(suite, k, position, data)) == data
  {}

  lemma CtrSlice(suite: Suite, k: BlobKey, data: seq<byte>, start: nat, end: nat)
    requires start <= end <= |data|
    ensures Ctr(suite, k, start, data[start..end]) == Ctr(suite, k, 0, data)[start..end]
  {}

  lemma KeystreamSeek(suite: Suite, k: BlobKey, blocks: nat, n: nat)
    ensures Keystream(suite, k.(iv := Counter(k.iv, blocks)), n) == Keystream(suite, k, blocks * BLOCK_BYTES + n)
  {
    CounterAdds(k.iv, blocks, n / 16);
    QuotientUnique(blocks * 16 + n, 16, blocks + n / 16, n % 16);
  }

  /** Starting from an advanced counter is starting that many blocks further on. */
  lemma CtrSeek(suite: Suite, k: BlobKey, blocks: nat, position: nat, data: seq<byte>)
    ensures Ctr(suite, k.(iv := Counter(k.iv, blocks)), position, data) == Ctr(suite, k, blocks * BLOCK_BYTES + position, data)
  {
    hide Keystream;
    var k' := k.(iv := Counter(k.iv, blocks));
    forall i | 0 <= i < |data|
      ensures Ctr(suite, k', position, data)[i] == Ctr(suite, k, blocks * BLOCK_BYTES + position, data)[i]
    {
      KeystreamSeek(suite, k, blocks, position + i);
    }
  }

  // ---- Stream stages ----

  /** The runtime's cipher stream: chunks in, chunks out, the position advancing with them. */
  class CtrStage {
    const suite: Suite
    const blobKey: BlobKey
    var position: nat

    constructor (suite: Suite, blobKey: BlobKey)
      ensures this.suite == suite && this.blobKey == blobKey && position == 0
    {
      this.suite, this.blobKey, position := suite, blobKey, 0;
    }

    method Transform(chunk: seq<byte>) returns (out: seq<byte>)
      modifies this
      ensures out == Ctr(suite, blobKey, old(position), chunk) && position == old(position) + |chunk|
    {
      out := Ctr(suite, blobKey, position, chunk);
      position := position + |chunk|;
    }
  }

  /** `skip(count)`: drops the first `count` bytes, however they are chunked. */
  class SkipStage {
    var remaining: nat

    constructor (count: nat)
      ensures remaining == count
    {
      remaining := count;
    }

    method Transform(chunk: seq<byte>) returns (out: seq<byte>)
      modifies this
      ensures out == chunk[Min(old(remaining), |chunk|)..]
      ensures remaining == old(remaining) - Min(old(remaining), |chunk|)
    {
      if remaining <= 0 {
        return chunk;
      }
      if |chunk| <= remaining {
        remaining := remaining - |chunk|;
        return [];
      }
      var rest := chunk[remaining..];
      remaining := 0;
      return rest;
    }
  }

  /** `decryptStages`: where to start reading the file, the cipher stream with its counter advanced
      by whole blocks, and the bytes still to be skipped behind it. */
  method DecryptStages(suite: Suite, blobKey: BlobKey, offset: nat) returns (decipher: CtrStage, skip: SkipStage?, alignedOffset: nat)
    ensures fresh(decipher) && (skip != null ==> fresh(skip))
    ensures alignedOffset <= offset
    ensures decipher.suite == suite && decipher.position == 0
    ensures skip == null ==> alignedOffset == offset
    ensures skip != null ==> skip.remaining == offset - alignedOffset
    ensures forall data :: Ctr(suite, decipher.blobKey, 0, data) == Ctr(suite, blobKey, alignedOffset, data)
  {
    alignedOffset := offset - offset % BLOCK_BYTES;
    var counter := AdvanceIv(blobKey.iv, alignedOffset / BLOCK_BYTES);
    decipher := new CtrStage(suite, blobKey.(iv := counter));
    if alignedOffset == offset {
      skip := null;
    } else {
      skip := new SkipStage(offset - alignedOffset);
    }
    forall data
      ensures Ctr(suite, decipher.blobKey, 0, data) == Ctr(suite, blobKey, alignedOffset, data)
    {
      CtrSeek(suite, blobKey, alignedOffset / BLOCK_BYTES, 0, data);
    }
  }
}
