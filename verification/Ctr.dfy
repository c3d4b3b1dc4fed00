/** Hand-written AES-256-CTR (`aes256_ctr_encrypt` in `src/manager/libsignal.rs`), over an abstract block cipher. */
module Ctr {
  import opened Base

  type Block = b: seq<byte> | |b| == 16 witness seq(16, _ => 0)
  type Key256 = k: seq<byte> | |k| == 32 witness seq(32, _ => 0)

  /** AES-256 on one block. */
  type BlockEncrypt = (Key256, Block) -> Block

  /** Exclusive or of the `width` low bits. */
  function XorBits(a: nat, b: nat, width: nat): nat {
    if width == 0 then 0 else 2 * XorBits(a / 2, b / 2, width - 1) + (a % 2 + b % 2) % 2
  }

  function Pow2(width: nat): nat {
    if width == 0 then 1 else 2 * Pow2(width - 1)
  }

  lemma LastBit(high: nat, p: nat, q: nat)
    requires p < 2 && q < 2
    ensures (2 * high + (p + q) % 2) / 2 == high && (2 * high + (p + q) % 2) % 2 == (p + q) % 2
    ensures ((p + q) % 2 + q) % 2 == p
  {
  }

  lemma {:induction false} XorBitsTwice(a: nat, b: nat, width: nat)
    requires a < Pow2(width)
    ensures XorBits(XorBits(a, b, width), b, width) == a
  {
    if width != 0 {
      var high := XorBits(a / 2, b / 2, width - 1);
      XorBitsTwice(a / 2, b / 2, width - 1);
      LastBit(high, a % 2, b % 2);
    }
  }

  lemma {:induction false} XorBitsBound(a: nat, b: nat, width: nat)
    ensures XorBits(a, b, width) < Pow2(width)
  {
    if width != 0 {
      XorBitsBound(a / 2, b / 2, width - 1);
    }
  }

  /** `a ^ b` on bytes. */
  function Xor(a: byte, b: byte): byte {
    XorBitsBound(a, b, 8);
    assert Pow2(8) == 0x100;
    XorBits(a, b, 8)
  }

  /** Bit `i` of a number, counted from the lowest. */
  function Bit(n: nat, i: nat): nat {
    if i == 0 then n % 2 else Bit(n / 2, i - 1)
  }

  lemma {:induction false} XorBitsBit(a: nat, b: nat, width: nat, i: nat)
    requires i < width
    ensures Bit(XorBits(a, b, width), i) == (Bit(a, i) + Bit(b, i)) % 2
  {
    var high, low := XorBits(a / 2, b / 2, width - 1), (a % 2 + b % 2) % 2;
    assert (2 * high + low) % 2 == low && (2 * high + low) / 2 == high;
    if i > 0 {
      XorBitsBit(a / 2, b / 2, width - 1, i - 1);
    }
  }

  /** Every bit of an exclusive or is the sum of the two bits modulo 2. */
  lemma XorIsBitwise(a: byte, b: byte, i: nat)
    requires i < 8
    ensures Bit(Xor(a, b), i) == (Bit(a, i) + Bit(b, i)) % 2
  {
    XorBitsBit(a, b, 8, i);
  }

  lemma {:induction false} XorBitsOfZero(b: nat, width: nat)
    requires b < Pow2(width)
    ensures XorBits(0, b, width) == b
  {
    if width != 0 {
      XorBitsOfZero(b / 2, width - 1);
    }
  }

  lemma XorTwice(a: byte, b: byte)
    ensures Xor(Xor(a, b), b) == a
  {
    assert Pow2(8) == 0x100;
    XorBitsTwice(a, b, 8);
  }

  /** A byte string read as a big-endian number. */
  function BigEndian(s: seq<byte>): nat {
    if s == [] then 0 else 0x100 * BigEndian(s[..|s| - 1]) + s[|s| - 1]
  }

  /** The `width` low bytes of `n`, most significant first. */
  function ToBigEndian(n: nat, width: nat): (s: seq<byte>)
    ensures |s| == width
  {
    if width == 0 then [] else ToBigEndian(n / 0x100, width - 1) + [n % 0x100]
  }

  function Pow256(width: nat): nat {
    if width == 0 then 1 else 0x100 * Pow256(width - 1)
  }

  /** The `n`-th counter block of the standard incrementing function, from a zero initial block. */
  function CounterBlock(n: nat): Block {
    ToBigEndian(n, 16)
  }

  /** One step of the counter on value level: carry from the last byte. */
  function Increment(s: seq<byte>): (r: seq<byte>)
    ensures |r| == |s|
  {
    if s == [] then []
    else
      var n := |s| - 1;
      if s[n] == 255 then Increment(s[..n]) + [0] else s[..n] + [s[n] + 1]
  }

  lemma {:induction false} IncrementIsSuccessor(n: nat, width: nat)
    ensures Increment(ToBigEndian(n, width)) == ToBigEndian(n + 1, width)
  {
    if width != 0 {
      var s := ToBigEndian(n, width);
      assert s[..width - 1] == ToBigEndian(n / 0x100, width - 1);
      if n % 0x100 == 255 {
        IncrementIsSuccessor(n / 0x100, width - 1);
        assert (n + 1) / 0x100 == n / 0x100 + 1;
      } else {
        assert (n + 1) / 0x100 == n / 0x100;
      }
    }
  }

  /** Appendix B.1 of NIST SP 800-38A: the counter after `n` steps is `n` modulo 2^(8 * width). */
  lemma {:induction false} CounterReadsAsCount(n: nat, width: nat)
    ensures Pow256(width) > 0 && BigEndian(ToBigEndian(n, width)) == n % Pow256(width)
  {
    if width != 0 {
      CounterReadsAsCount(n / 0x100, width - 1);
      var s, p := ToBigEndian(n, width), Pow256(width - 1);
      assert s[..width - 1] == ToBigEndian(n / 0x100, width - 1);
      ModOfScaled(n, p);
    }
  }

  /** The counter array after `n` increments of sixteen zero bytes. */
  function Counted(n: nat): (s: seq<byte>)
    ensures |s| == 16
  {
    if n == 0 then seq(16, _ => 0) else Increment(Counted(n - 1))
  }

  /** After `n` increments the counter is the `n`-th counter block, and reads big-endian as `n` modulo 2^128. */
  lemma {:induction false} CounterAfterIncrements(n: nat)
    ensures Counted(n) == CounterBlock(n)
    ensures BigEndian(Counted(n)) == n % 0x1_0000_0000_0000_0000_0000_0000_0000_0000
  {
    hide Increment, ToBigEndian, BigEndian;
    if n == 0 {
      ZeroBytes(16);
    } else {
      CounterAfterIncrements(n - 1);
      IncrementIsSuccessor(n - 1, 16);
    }
    CounterReadsAsCount(n, 16);
    SixteenBytes();
  }

  lemma SixteenBytes()
    ensures Pow256(16) == 0x1_0000_0000_0000_0000_0000_0000_0000_0000
  {
    assert Pow256(4) == 0x1_0000_0000;
    assert Pow256(8) == 0x1_0000_0000_0000_0000;
    assert Pow256(12) == 0x1_0000_0000_0000_0000_0000_0000;
  }

  lemma ModOfScaled(n: nat, p: nat)
    requires p > 0
    ensures n % (0x100 * p) == 0x100 * (n / 0x100 % p) + n % 0x100
  {
    var q, r := n / 0x100 / p, 0x100 * (n / 0x100 % p) + n % 0x100;
    assert n / 0x100 == p * q + n / 0x100 % p;
    assert n == (0x100 * p) * q + r;
    assert 0 <= r < 0x100 * p;
    ModUnique(n, 0x100 * p, q, r);
  }

  lemma MulMonotone(m: nat, a: int, b: int)
    requires a <= b
    ensures m * a <= m * b
  {
  }

  lemma ModUnique(n: nat, m: nat, q: nat, r: nat)
    requires m > 0 && n == m * q + r && r < m
    ensures n % m == r
  {
    var k, s := n / m, n % m;
    assert n == m * k + s;
    if q > k {
      MulMonotone(m, k + 1, q);
    } else if q < k {
      MulMonotone(m, q + 1, k);
    }
  }

  lemma CarryStep(s: seq<byte>, i: nat)
    requires i < |s|
    ensures Increment(s[..i + 1]) == if s[i] == 255 then Increment(s[..i]) + [0] else s[..i] + [s[i] + 1]
  {
    assert s[..i + 1][..i] == s[..i];
  }

  lemma CarryOut(s: seq<byte>)
    ensures Increment(s[..0]) == []
  {
  }

  /** The big-endian increment loop on the 16-byte counter, in place. */
  method IncrementCounter(counter: array<byte>)
    modifies counter
    ensures counter[..] == Increment(old(counter[..]))
  {
    hide Increment;
    ghost var was := counter[..];
    assert was[..counter.Length] == was;
    var i := counter.Length;
    while i > 0
      invariant 0 <= i <= counter.Length
      invariant counter[..i] == was[..i]
      invariant Increment(was) == Increment(was[..i]) + counter[i..]
    {
      i := i - 1;
      ghost var tail := counter[i + 1..];
      CarryStep(was, i);
      counter[i] := (counter[i] as int + 1) % 0x100;
      assert counter[i..] == [counter[i]] + tail;
      if counter[i] != 0 {
        assert counter[..] == was[..i] + [was[i] + 1] + tail;
        return;
      }
      assert Increment(was[..i + 1]) + tail == Increment(was[..i]) + counter[i..];
    }
    CarryOut(was);
    assert counter[..] == counter[0..];
  }

  /** Byte `i` of CTR mode: section 6.5 of NIST SP 800-38A with the zero-based standard counter blocks. */
  function CtrByte(enc: BlockEncrypt, key: Key256, text: seq<byte>, i: nat): byte
    requires i < |text|
  {
    Xor(text[i], enc(key, CounterBlock(i / 16))[i % 16])
  }

  function CtrMode(enc: BlockEncrypt, key: Key256, text: seq<byte>): (out: seq<byte>)
    ensures |out| == |text|
  {
    seq(|text|, i requires 0 <= i < |text| => CtrByte(enc, key, text, i))
  }

  /** Applying CTR mode twice with one key gives the text back. */
  lemma CtrTwice(enc: BlockEncrypt, key: Key256, text: seq<byte>)
    ensures CtrMode(enc, key, CtrMode(enc, key, text)) == text
  {
    forall i | 0 <= i < |text|
      ensures CtrMode(enc, key, CtrMode(enc, key, text))[i] == text[i]
    {
      XorTwice(text[i], enc(key, CounterBlock(i / 16))[i % 16]);
    }
  }

  /**
   Byte `i` of the output is byte `i` of the text, exclusive or byte `i` mod 16 of the enciphered
   counter as it is after `i` div 16 increments: bit by bit, the sums modulo 2.
   */
  lemma CtrOutput(enc: BlockEncrypt, key: Key256, text: seq<byte>, i: nat, j: nat)
    requires i < |text| && j < 8
    ensures Bit(CtrMode(enc, key, text)[i], j) == (Bit(text[i], j) + Bit(enc(key, Counted(i / 16))[i % 16], j)) % 2
  {
    CounterAfterIncrements(i / 16);
    XorIsBitwise(text[i], enc(key, CounterBlock(i / 16))[i % 16], j);
    hide Xor, Bit;
  }

  /** Zero bytes come out as the key stream. */
  lemma ZerosGiveKeyStream(enc: BlockEncrypt, key: Key256, n: nat, i: nat)
    requires i < n
    ensures CtrMode(enc, key, seq(n, _ => 0))[i] == enc(key, Counted(i / 16))[i % 16]
  {
    CounterAfterIncrements(i / 16);
    assert Pow2(8) == 0x100;
    XorBitsOfZero(enc(key, CounterBlock(i / 16))[i % 16], 8);
  }

  /** The block of output that starts at byte `at` is the text there, xor the encrypted counter. */
  lemma CtrChunk(enc: BlockEncrypt, key: Key256, text: seq<byte>, at: nat, chunk: seq<byte>, block: Block)
    requires at % 16 == 0 && at + |chunk| <= |text| && |chunk| <= 16
    requires chunk == text[at..at + |chunk|] && block == enc(key, CounterBlock(at / 16))
    ensures CtrMode(enc, key, text)[at..at + |chunk|] == XorPrefix(chunk, block)
  {
    forall i | 0 <= i < |chunk|
      ensures CtrMode(enc, key, text)[at + i] == Xor(chunk[i], block[i])
    {
      assert (at + i) / 16 == at / 16 && (at + i) % 16 == i;
    }
  }

  function XorPrefix(chunk: seq<byte>, block: seq<byte>): (out: seq<byte>)
    requires |chunk| <= |block|
    ensures |out| == |chunk|
  {
    seq(|chunk|, i requires 0 <= i < |chunk| => Xor(chunk[i], block[i]))
  }

  /** The inner loop: pushes one output byte for every byte of the chunk. */
  method PushXored(out: seq<byte>, chunk: seq<byte>, block: Block) returns (r: seq<byte>)
    requires |chunk| <= 16
    ensures r == out + XorPrefix(chunk, block)
  {
    r := out;
    for i := 0 to |chunk|
      invariant r == out + XorPrefix(chunk, block)[..i]
    {
      r := r + [Xor(chunk[i], block[i])];
    }
  }

  /** `aes256_ctr_encrypt`. */
  method Aes256CtrEncrypt(enc: BlockEncrypt, key: seq<byte>, plaintext: seq<byte>)
    returns (r: Result<seq<byte>, string>)
    ensures r.Ok? <==> |key| == 32
    ensures r.Ok? ==> r.value == CtrMode(enc, key, plaintext)
  {
    hide CtrMode, XorPrefix, Increment, ToBigEndian;
    if |key| != 32 {
      return Err("AES-256 key must be 32 bytes");
    }
    var counter := new byte[16](_ => 0);
    assert counter[..] == seq(16, _ => 0);
    ZeroBytes(16);
    var out: seq<byte> := [];
    var at := 0;
    while at < |plaintext|
      invariant at % 16 == 0
      invariant counter[..] == CounterBlock(at / 16)
      invariant out == CtrMode(enc, key, plaintext)[..Min(at, |plaintext|)]
    {
      var end := Min(at + 16, |plaintext|);
      var chunk := plaintext[at..end];
      var block := enc(key, counter[..]);
      CtrChunk(enc, key, plaintext, at, chunk, block);
      IncrementIsSuccessor(at / 16, 16);
      assert CtrMode(enc, key, plaintext)[..end]
          == CtrMode(enc, key, plaintext)[..at] + CtrMode(enc, key, plaintext)[at..end];
      out := PushXored(out, chunk, block);
      IncrementCounter(counter);
      at := at + 16;
    }
    return Ok(out);
  }

  lemma {:induction false} ZeroBytes(width: nat)
    ensures ToBigEndian(0, width) == seq(width, _ => 0)
  {
    if width != 0 {
      ZeroBytes(width - 1);
    }
  }
}
