/**
 Filling a byte buffer from the Xous TRNG server, in both backends: scalar messages only
 (`src/getrandom_xous.rs`) and scalar messages below 64 bytes with one memory page above
 (`imports/getrandom-02/src/xous.rs`). The target is 32-bit and little-endian.
 */
module Trng {
  import opened Base

  type WordStream = nat -> u32

  /** Byte `k` of a word in little-endian order. */
  function LeByte(w: u32, k: nat): byte
    requires k < 4
  {
    if k == 0 then w % 0x100
    else if k == 1 then w / 0x100 % 0x100
    else if k == 2 then w / 0x1_0000 % 0x100
    else w / 0x100_0000 % 0x100
  }

  /** `u32::to_ne_bytes`. */
  function WordBytes(w: u32): (s: seq<byte>)
    ensures |s| == 4
  {
    [LeByte(w, 0), LeByte(w, 1), LeByte(w, 2), LeByte(w, 3)]
  }

  /** `lo as u64 | (hi as u64) << 32`. */
  function Join(lo: u32, hi: u32): (w: u64)
    ensures w % 0x1_0000_0000 == lo && w / 0x1_0000_0000 == hi
  {
    lo as int + 0x1_0000_0000 * hi as int
  }

  /** `u64::to_ne_bytes`. */
  function U64Bytes(w: u64): (s: seq<byte>)
    ensures |s| == 8
  {
    WordBytes(w % 0x1_0000_0000) + WordBytes(w / 0x1_0000_0000)
  }

  /** Little-endian bytes of a sequence of words. */
  function Serialise(ws: seq<u32>): (s: seq<byte>)
    ensures |s| == 4 * |ws|
  {
    if ws == [] then [] else Serialise(ws[..|ws| - 1]) + WordBytes(ws[|ws| - 1])
  }

  /** `count` words of the stream, beginning with word `from`. */
  function Words(words: WordStream, from: nat, count: nat): seq<u32> {
    seq(count, i requires 0 <= i < count => words(from + i))
  }

  /** What a request for `n` bytes is due: the first `n` bytes of the next ceil(n / 4) words. */
  function Due(words: WordStream, from: nat, n: nat): (s: seq<byte>)
    ensures |s| == n
  {
    Serialise(Words(words, from, CeilDiv(n, 4)))[..n]
  }

  lemma {:induction false} SerialiseAt(ws: seq<u32>, i: nat)
    requires i < 4 * |ws|
    ensures Serialise(ws)[i] == LeByte(ws[i / 4], i % 4)
  {
    if i < 4 * (|ws| - 1) {
      SerialiseAt(ws[..|ws| - 1], i);
    }
  }

  /** Byte `i` of a request depends only on word `i / 4`: chunking leaves no trace in the output. */
  lemma DueAt(words: WordStream, from: nat, n: nat, i: nat)
    requires i < n
    ensures Due(words, from, n)[i] == LeByte(words(from + i / 4), i % 4)
  {
    SerialiseAt(Words(words, from, CeilDiv(n, 4)), i);
  }

  /** The four bytes of a word are its base-256 digits, lowest first. */
  lemma BytesAreTheWord(w: u32)
    ensures LeByte(w, 0) + 0x100 * LeByte(w, 1) + 0x1_0000 * LeByte(w, 2) + 0x100_0000 * LeByte(w, 3) == w
  {
    var a, b := w / 0x100, w / 0x1_0000;
    assert w == 0x100 * a + w % 0x100;
    assert b == a / 0x100 && a == 0x100 * b + a % 0x100;
    assert w / 0x100_0000 == b / 0x100 && b == 0x100 * (b / 0x100) + b % 0x100;
  }

  /** Every four bytes due recombine to the next word of the stream. */
  lemma DueSpellsWords(words: WordStream, from: nat, n: nat, k: nat)
    requires 4 * k + 4 <= n
    ensures var due := Due(words, from, n);
      due[4 * k] as int + 0x100 * due[4 * k + 1] as int + 0x1_0000 * due[4 * k + 2] as int
      + 0x100_0000 * due[4 * k + 3] as int == words(from + k)
  {
    DueAt(words, from, n, 4 * k);
    DueAt(words, from, n, 4 * k + 1);
    DueAt(words, from, n, 4 * k + 2);
    DueAt(words, from, n, 4 * k + 3);
    BytesAreTheWord(words(from + k));
    hide LeByte, Due;
  }

  lemma OneMoreWord(words: WordStream, from: nat, count: nat)
    ensures Serialise(Words(words, from, count + 1)) ==
            Serialise(Words(words, from, count)) + WordBytes(words(from + count))
  {
    assert Words(words, from, count + 1)[..count] == Words(words, from, count);
  }

  /** A scalar message for two words serialises as the two words in order. */
  lemma TwoMoreWords(words: WordStream, from: nat, count: nat)
    ensures Serialise(Words(words, from, count + 2))
         == Serialise(Words(words, from, count)) + U64Bytes(Join(words(from + count), words(from + count + 1)))
  {
    OneMoreWord(words, from, count);
    OneMoreWord(words, from, count + 1);
  }

  const PAGE_WORDS := 1020
  const PAGE_BYTES := 4096

  /** The TRNG server as its clients see it: a stream of words and how many have been handed out. */
  class TrngServer {
    const words: WordStream
    var used: nat

    constructor (words: WordStream)
      ensures this.words == words && used == 0
    {
      this.words := words;
      used := 0;
    }

    method NextU32() returns (w: u32)
      modifies this
      ensures w == words(old(used)) && used == old(used) + 1
    {
      w := words(used);
      used := used + 1;
    }

    method NextU64() returns (w: u64)
      modifies this
      ensures w == Join(words(old(used)), words(old(used) + 1)) && used == old(used) + 2
    {
      w := Join(words(used), words(used + 1));
      used := used + 2;
    }

    /** The FillTrng message: the server overwrites the first `len` words of the lent page. */
    method FillPage(page: array<u32>, len: nat)
      requires len <= page.Length
      modifies this, page
      ensures used == old(used) + len
      ensures page[..len] == Words(words, old(used), len)
    {
      for k := 0 to len
        invariant used == old(used) + k
        invariant page[..k] == Words(words, old(used), k)
      {
        page[k] := words(used);
        used := used + 1;
      }
    }
  }

  /** `dst[at..at + n].copy_from_slice(&src[..n])`. */
  method CopyInto<T>(dst: array<T>, at: nat, src: seq<T>, n: nat)
    requires at + n <= dst.Length && n <= |src|
    modifies dst
    ensures dst[..at + n] == old(dst[..at]) + src[..n]
  {
    for k := 0 to n
      invariant dst[..at + k] == old(dst[..at]) + src[..k]
    {
      dst[at + k] := src[k];
    }
  }

  lemma NoWords(words: WordStream, from: nat)
    ensures Serialise(Words(words, from, 0)) == []
  {
  }

  /** The scalar loop, `fill_from_trng` and `fill_bytes_via_next` alike: 8 bytes a message, then a tail. */
  method FillFromTrng(buf: array<byte>, trng: TrngServer)
    modifies buf, trng
    ensures buf[..] == Due(trng.words, old(trng.used), buf.Length)
    ensures trng.used == old(trng.used) + CeilDiv(buf.Length, 4)
  {
    hide LeByte, WordBytes, U64Bytes, Join, Serialise, Words, Due, CeilDiv;
    ghost var from := trng.used;
    var at := 0;
    NoWords(trng.words, from);
    while buf.Length - at >= 8
      invariant at % 8 == 0 && at <= buf.Length
      invariant trng.used == from + at / 4
      invariant buf[..at] == Serialise(Words(trng.words, from, at / 4))
    {
      TwoMoreWords(trng.words, from, at / 4);
      var chunk := trng.NextU64();
      CopyInto(buf, at, U64Bytes(chunk), 8);
      assert U64Bytes(chunk)[..8] == U64Bytes(chunk);
      at := at + 8;
    }
    FillTail(buf, at, trng, from);
  }

  lemma WordsOfTail(at: nat, n: nat)
    requires at % 8 == 0 && 0 < n <= 8
    ensures CeilDiv(at + n, 4) == at / 4 + (if n > 4 then 2 else 1) && 4 * (at / 4) == at
  {
    var q := at / 8;
    assert at == 8 * q && at / 4 == 2 * q;
    assert CeilDiv(at + n, 4) == (8 * q + (n + 3)) / 4;
    hide CeilDiv;
    EightsAndFours(q, n + 3);
  }

  lemma EightsAndFours(q: nat, r: nat)
    requires 4 <= r < 12
    ensures (8 * q + r) / 4 == 2 * q + if r >= 8 then 2 else 1
  {
  }

  lemma PrefixOfSum(a: seq<byte>, b: seq<byte>, n: nat)
    requires n <= |b|
    ensures (a + b)[..|a| + n] == a + b[..n]
  {
  }

  /** What is due after `at` bytes when a request ends 5 to 8 bytes, or 1 to 4 bytes, further on. */
  lemma DueTail(words: WordStream, from: nat, at: nat, n: nat)
    requires at % 8 == 0 && 0 < n <= 8
    ensures CeilDiv(at + n, 4) == at / 4 + if n > 4 then 2 else 1
    ensures n > 4 ==> Due(words, from, at + n) == Serialise(Words(words, from, at / 4))
                        + U64Bytes(Join(words(from + at / 4), words(from + at / 4 + 1)))[..n]
    ensures n <= 4 ==> Due(words, from, at + n) == Serialise(Words(words, from, at / 4))
                        + WordBytes(words(from + at / 4))[..n]
  {
    hide LeByte, WordBytes, U64Bytes, Join, Serialise, CeilDiv;
    WordsOfTail(at, n);
    var front := Serialise(Words(words, from, at / 4));
    assert |front| == at;
    if n > 4 {
      TwoMoreWords(words, from, at / 4);
      PrefixOfSum(front, U64Bytes(Join(words(from + at / 4), words(from + at / 4 + 1))), n);
    } else {
      OneMoreWord(words, from, at / 4);
      PrefixOfSum(front, WordBytes(words(from + at / 4)), n);
    }
  }

  lemma DueWhole(words: WordStream, from: nat, at: nat)
    requires at % 8 == 0
    ensures CeilDiv(at, 4) == at / 4
    ensures Due(words, from, at) == Serialise(Words(words, from, at / 4))
  {
    hide LeByte, WordBytes;
    assert Serialise(Words(words, from, at / 4))[..at] == Serialise(Words(words, from, at / 4));
  }

  /** The last `n < 8` bytes: two words for more than 4 of them, one word for 1 to 4. */
  method FillTail(buf: array<byte>, at: nat, trng: TrngServer, ghost from: nat)
    requires at % 8 == 0 && at <= buf.Length < at + 8
    requires trng.used == from + at / 4
    requires buf[..at] == Serialise(Words(trng.words, from, at / 4))
    modifies buf, trng
    ensures buf[..] == Due(trng.words, from, buf.Length)
    ensures trng.used == from + CeilDiv(buf.Length, 4)
  {
    hide LeByte, WordBytes, U64Bytes, Join, Due, Serialise, Words;
    var n := buf.Length - at;
    if n > 0 {
      DueTail(trng.words, from, at, n);
    } else {
      DueWhole(trng.words, from, at);
    }
    if n > 4 {
      var chunk := trng.NextU64();
      CopyInto(buf, at, U64Bytes(chunk), n);
    } else if n > 0 {
      var chunk := trng.NextU32();
      CopyInto(buf, at, WordBytes(chunk), n);
    }
    assert buf[..] == buf[..at + n];
  }

  /** `fill_buf`: fills `data` through one page; `false` is the failed assertion on its size. */
  method FillBuf(data: array<u32>, trng: TrngServer) returns (ok: bool)
    modifies data, trng
    ensures ok <==> data.Length <= 1020
    ensures ok ==> data[..] == Words(trng.words, old(trng.used), data.Length)
    ensures trng.used == old(trng.used) + if ok then data.Length else 0
  {
    var page := new u32[PAGE_WORDS](_ => 0);
    if data.Length > page.Length {
      return false;
    }
    trng.FillPage(page, data.Length);
    CopyInto(data, 0, page[..data.Length], data.Length);
    assert data[..] == data[..data.Length];
    return true;
  }

  /**
   `fill_bytes`; `false` means the call panics. It does so exactly above 4080 bytes: a whole
   4096-byte chunk is 1024 words and fails the assertion of `fill_buf`, and a remainder above
   4080 bytes runs past the end of the 1020-word page.
   */
  method FillBytes(dest: array<byte>, trng: TrngServer) returns (ok: bool)
    modifies dest, trng
    ensures ok <==> dest.Length <= 4080
    ensures ok ==> dest[..] == Due(trng.words, old(trng.used), dest.Length)
    ensures ok ==> trng.used == old(trng.used) + CeilDiv(dest.Length, 4)
  {
    if dest.Length < 64 {
      FillFromTrng(dest, trng);
      return true;
    }
    var chunks := dest.Length / PAGE_BYTES;
    for k := 0 to chunks
      invariant k == 0 && trng.used == old(trng.used)
    {
      var chunk := new u32[PAGE_BYTES / 4](_ => 0);
      var filled := FillBuf(chunk, trng);
      if !filled {
        return false;
      }
    }
    ok := FillRemainder(dest, trng);
  }

  /** The tail of `fill_bytes`, with its own copy of the page exchange. */
  method FillRemainder(remainder: array<byte>, trng: TrngServer) returns (ok: bool)
    modifies remainder, trng
    ensures ok <==> remainder.Length <= 4080
    ensures ok ==> remainder[..] == Due(trng.words, old(trng.used), remainder.Length)
    ensures ok ==> trng.used == old(trng.used) + CeilDiv(remainder.Length, 4)
  {
    if remainder.Length != 0 {
      var page := new u32[PAGE_WORDS](_ => 0);
      var len := if remainder.Length % 4 == 0 then remainder.Length / 4 else 1 + remainder.Length / 4;
      if len > page.Length {
        return false;
      }
      trng.FillPage(page, len);
      CopyInto(remainder, 0, Serialise(page[..len]), remainder.Length);
    }
    assert remainder[..] == remainder[..remainder.Length];
    return true;
  }
}
