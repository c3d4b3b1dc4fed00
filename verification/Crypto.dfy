/** The cryptographic primitives as functions of which only the stated laws are known. */
module Crypto {
  import opened Base
  import opened Ctr

  type Digest = d: seq<byte> | |d| == 32 witness seq(32, _ => 0)
  type TwoKeys = d: seq<byte> | |d| == 64 witness seq(64, _ => 0)

  /** X25519 keys: 32 bytes each. */
  datatype Private = Private(scalar: Digest)
  datatype Public = Public(point: Digest)

  /** X25519 keys and agreement, HMAC-SHA256, HKDF-SHA256 to 64 bytes, and AES-256 in both directions. */
  datatype Suite = Suite(
    publicOf: Private -> Public,
    agree: (Private, Public) -> Option<seq<byte>>,
    hmac: (seq<byte>, seq<byte>) -> Digest,
    hkdf: (seq<byte>, seq<byte>) -> TwoKeys,
    enc: BlockEncrypt,
    dec: BlockEncrypt,
    parsePrivate: seq<byte> -> Option<Private>,
    parsePublic: seq<byte> -> Option<Public>,
    writePublic: Public -> seq<byte>)

  /** Both sides of an agreement compute one secret. */
  ghost predicate Agrees(s: Suite) {
    && (forall a: Private, b: Private :: s.agree(a, s.publicOf(b)).Some?)
    && (forall a: Private, b: Private :: s.agree(a, s.publicOf(b)) == s.agree(b, s.publicOf(a)))
  }

  /** A serialised public key parses back, and its length fits a length prefix. */
  ghost predicate WritesKeys(s: Suite) {
    forall p: Public :: s.parsePublic(s.writePublic(p)) == Some(p) && |s.writePublic(p)| < TWO_TO_THE_32
  }

  /** Under every key the block cipher is a permutation and `dec` its inverse. */
  ghost predicate Permutes(s: Suite) {
    && (forall k: Key256, b: Block :: s.dec(k, s.enc(k, b)) == b)
    && (forall k: Key256, b: Block :: s.enc(k, s.dec(k, b)) == b)
  }

  /** A base64 alphabet. */
  datatype Base64 = Base64(encode: seq<byte> -> string, decode: string -> Option<seq<byte>>)

  ghost predicate Decodes(b64: Base64) {
    forall b: seq<byte> :: b64.decode(b64.encode(b)) == Some(b)
  }

  /** The bytes of an ASCII literal. */
  function Ascii(s: string): seq<byte>
    requires forall i :: 0 <= i < |s| ==> s[i] < 128 as char
  {
    seq(|s|, i requires 0 <= i < |s| => s[i] as int)
  }
}
