/** Cipher block chaining with PKCS#7 padding (NIST SP 800-38A section 6.2, RFC 5652 section 6.3). */
module Cbc {
  import opened Base
  import opened Ctr

  function XorBlock(a: Block, b: Block): Block {
    seq(16, i requires 0 <= i < 16 => Xor(a[i], b[i]))
  }

  lemma XorBlockTwice(a: Block, b: Block)
    ensures XorBlock(XorBlock(a, b), b) == a
  {
    forall i | 0 <= i < 16
      ensures XorBlock(XorBlock(a, b), b)[i] == a[i]
    {
      XorTwice(a[i], b[i]);
    }
  }

  function Encrypt(enc: BlockEncrypt, key: Key256, iv: Block, text: seq<byte>): (out: seq<byte>)
    requires |text| % 16 == 0
    ensures |out| == |text|
    decreases |text|
  {
    if text == [] then []
    else
      var c := enc(key, XorBlock(text[..16], iv));
      c + Encrypt(enc, key, c, text[16..])
  }

  function Decrypt(dec: BlockEncrypt, key: Key256, iv: Block, text: seq<byte>): (out: seq<byte>)
    requires |text| % 16 == 0
    ensures |out| == |text|
    decreases |text|
  {
    if text == [] then []
    else XorBlock(dec(key, text[..16]), iv) + Decrypt(dec, key, text[..16], text[16..])
  }

  ghost predicate Inverse(f: BlockEncrypt, g: BlockEncrypt) {
    forall k: Key256, b: Block :: g(k, f(k, b)) == b
  }

  lemma {:induction false} DecryptUndoesEncrypt(enc: BlockEncrypt, dec: BlockEncrypt, key: Key256, iv: Block,
    text: seq<byte>)
    requires |text| % 16 == 0 && Inverse(enc, dec)
    ensures Decrypt(dec, key, iv, Encrypt(enc, key, iv, text)) == text
    decreases |text|
  {
    if text != [] {
      var c := enc(key, XorBlock(text[..16], iv));
      var out := Encrypt(enc, key, iv, text);
      assert out[..16] == c && out[16..] == Encrypt(enc, key, c, text[16..]);
      DecryptUndoesEncrypt(enc, dec, key, c, text[16..]);
      XorBlockTwice(text[..16], iv);
      assert dec(key, c) == XorBlock(text[..16], iv);
      hide XorBlock;
      assert text == text[..16] + text[16..];
    }
  }

  lemma {:induction false} EncryptUndoesDecrypt(enc: BlockEncrypt, dec: BlockEncrypt, key: Key256, iv: Block,
    text: seq<byte>)
    requires |text| % 16 == 0 && Inverse(dec, enc)
    ensures Encrypt(enc, key, iv, Decrypt(dec, key, iv, text)) == text
    decreases |text|
  {
    if text != [] {
      var d := dec(key, text[..16]);
      var out := Decrypt(dec, key, iv, text);
      assert out[..16] == XorBlock(d, iv) && out[16..] == Decrypt(dec, key, text[..16], text[16..]);
      EncryptUndoesDecrypt(enc, dec, key, text[..16], text[16..]);
      XorBlockTwice(d, iv);
      assert enc(key, d) == text[..16];
      hide XorBlock;
      assert text == text[..16] + text[16..];
    }
  }

  function Repeat(b: byte, n: nat): (s: seq<byte>)
    ensures |s| == n
  {
    seq(n, _ => b)
  }

  function PadLength(n: nat): (k: byte)
    ensures 1 <= k <= 16 && (n + k) % 16 == 0
  {
    16 - n % 16
  }

  function Pad(text: seq<byte>): (out: seq<byte>)
    ensures |out| % 16 == 0 && out != []
  {
    text + Repeat(PadLength(|text|), PadLength(|text|))
  }

  /** Removes the padding; `None` is the padding error. */
  function Unpad(text: seq<byte>): Option<seq<byte>> {
    if text == [] then None
    else
      var k := text[|text| - 1];
      if 1 <= k <= 16 && k <= |text| && text[|text| - k..] == Repeat(k, k) then Some(text[..|text| - k]) else None
  }

  lemma UnpadUndoesPad(text: seq<byte>)
    ensures Unpad(Pad(text)) == Some(text)
  {
    var k, out := PadLength(|text|), Pad(text);
    assert out[|out| - 1] == k && out[|out| - k..] == Repeat(k, k) && out[..|out| - k] == text;
  }

  /** On whole blocks only correctly padded texts are accepted. */
  lemma UnpadAcceptsOnlyPadded(out: seq<byte>)
    requires |out| % 16 == 0 && Unpad(out).Some?
    ensures Pad(Unpad(out).value) == out
  {
    var k, text := out[|out| - 1], Unpad(out).value;
    assert PadLength(|text|) == k;
    assert out == text + out[|out| - k..];
  }

  /** Blocks are added bit by bit. */
  lemma XorBlockIsBitwise(a: Block, b: Block, i: nat, j: nat)
    requires i < 16 && j < 8
    ensures Bit(XorBlock(a, b)[i], j) == (Bit(a[i], j) + Bit(b[i], j)) % 2
  {
    XorIsBitwise(a[i], b[i], j);
    hide Bit, Xor;
  }

  /** Block `i` of a text. */
  function BlockAt(text: seq<byte>, i: nat): (b: seq<byte>)
    requires 16 * i + 16 <= |text|
    ensures |b| == 16
  {
    text[16 * i..16 * i + 16]
  }

  /** Each cipher block is the enciphered sum of the text block and the cipher block before it, the first of the IV. */
  lemma {:induction false} BlocksAreChained(enc: BlockEncrypt, key: Key256, iv: Block, text: seq<byte>, i: nat)
    requires |text| % 16 == 0 && 16 * i + 16 <= |text|
    ensures var out := Encrypt(enc, key, iv, text);
      BlockAt(out, i) == enc(key, XorBlock(BlockAt(text, i), if i == 0 then iv else BlockAt(out, i - 1)))
    decreases i
  {
    var c := enc(key, XorBlock(text[..16], iv));
    var out, rest := Encrypt(enc, key, iv, text), Encrypt(enc, key, c, text[16..]);
    assert BlockAt(out, 0) == c && BlockAt(text, 0) == text[..16];
    if i > 0 {
      BlocksAreChained(enc, key, c, text[16..], i - 1);
      assert BlockAt(text[16..], i - 1) == BlockAt(text, i) && BlockAt(rest, i - 1) == BlockAt(out, i);
      if i > 1 {
        assert BlockAt(rest, i - 2) == BlockAt(out, i - 1);
      }
    }
  }

  /** Padding adds 1 to 16 bytes up to a whole block, each of which is their number. */
  lemma PadAddsItsLength(text: seq<byte>)
    ensures var out, k := Pad(text), 16 - |text| % 16;
      && |out| == |text| + k && out[..|text|] == text
      && forall i :: |text| <= i < |out| ==> out[i] == k
  {
  }
}
