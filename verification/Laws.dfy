/**
 The laws that the theorems assume of libraries can be met: for each of them a small model that
 meets it, so that no theorem holds merely because nothing satisfies what it assumes.
 */
module Laws {
  import opened Base
  import opened Crypto
  import Ctr
  import DeviceName
  import Linked
  import OutgoingMessage
  import Provisioning
  import Routing
  import Stores

  // ---- Keys and ciphers -------------------------------------------------------

  /** Byte-wise sum, which commutes. */
  function Sum(a: Digest, b: Digest): seq<byte> {
    seq(32, i requires 0 <= i < 32 => (a[i] as int + b[i] as int) % 0x100)
  }

  /** A key is its own public half, an agreement is the sum, and the block cipher is the identity. */
  function ModelSuite(): Suite {
    Suite(
      (a: Private) => Public(a.scalar),
      (a: Private, p: Public) => Some(Sum(a.scalar, p.point)),
      (key: seq<byte>, text: seq<byte>) => seq(32, _ => 0),
      (secret: seq<byte>, info: seq<byte>) => seq(64, _ => 0),
      (k: Ctr.Key256, b: Ctr.Block) => b,
      (k: Ctr.Key256, b: Ctr.Block) => b,
      (b: seq<byte>) => if |b| == 32 then Some(Private(b)) else None,
      (b: seq<byte>) => if |b| == 33 && b[0] == 5 then Some(Public(b[1..])) else None,
      (p: Public) => [5] + p.point)
  }

  lemma SuiteLawsHold()
    ensures Agrees(ModelSuite()) && WritesKeys(ModelSuite()) && Permutes(ModelSuite())
    ensures forall a: Private :: ModelSuite().parsePrivate(a.scalar) == Some(a)
  {
    var s := ModelSuite();
    forall a: Private, b: Private ensures s.agree(a, s.publicOf(b)) == s.agree(b, s.publicOf(a)) {
      assert Sum(a.scalar, b.scalar) == Sum(b.scalar, a.scalar);
    }
    forall p: Public ensures s.parsePublic(s.writePublic(p)) == Some(p) {
      assert ([5] + p.point)[1..] == p.point;
    }
  }

  // ---- Base64 -----------------------------------------------------------------

  /** One of sixteen letters. */
  function Letter(n: nat): (c: char)
    requires n < 16
    ensures 'a' <= c <= 'p' && c as int == 'a' as int + n
  {
    'a' + n as char
  }

  /** Two letters a byte. */
  function Letters(b: seq<byte>): (s: string)
    ensures |s| == 2 * |b|
    ensures forall i :: 0 <= i < |s| ==> 'a' <= s[i] <= 'p'
  {
    if b == [] then "" else [Letter(b[0] / 16), Letter(b[0] % 16)] + Letters(b[1..])
  }

  function FromLetters(s: string): Option<seq<byte>> {
    if s == "" then Some([])
    else if |s| == 1 || !('a' <= s[0] <= 'p') || !('a' <= s[1] <= 'p') then None
    else match FromLetters(s[2..])
      case None => None
      case Some(b) => Some([16 * (s[0] as int - 'a' as int) + (s[1] as int - 'a' as int)] + b)
  }

  lemma {:induction false} LettersReadBack(b: seq<byte>)
    ensures FromLetters(Letters(b)) == Some(b)
  {
    hide Letter;
    if b != [] {
      LettersReadBack(b[1..]);
      var s, rest := Letters(b), Letters(b[1..]);
      assert s == [Letter(b[0] / 16), Letter(b[0] % 16)] + rest;
      hide Letters;
      assert s[2..] == rest;
      TwoLetters(s[0], s[1], b[0]);
      assert [b[0]] + b[1..] == b;
    }
  }

  lemma TwoLetters(c: char, d: char, b: byte)
    requires c == Letter(b / 16) && d == Letter(b % 16)
    ensures 16 * (c as int - 'a' as int) + (d as int - 'a' as int) == b
  {
  }

  const ALPHABET := Base64(Letters, FromLetters)

  lemma AlphabetLawsHold()
    ensures Decodes(ALPHABET) && Linked.Unspaced(ALPHABET)
  {
    forall b: seq<byte> ensures FromLetters(Letters(b)) == Some(b) {
      LettersReadBack(b);
    }
  }

  // ---- Theorems at the model --------------------------------------------------

  /** In the model every device name is recovered, for every identity and ephemeral key. */
  lemma NamesAreRecoveredInTheModel(name: seq<byte>, identity: Private, ephemeral: Private)
    requires |name| < TWO_TO_THE_64
    ensures var key := Letters(identity.scalar);
      var upload := DeviceName.Encrypt(ModelSuite(), ALPHABET, ALPHABET, name, key, ephemeral);
      upload.Ok? && DeviceName.Decrypt(ModelSuite(), ALPHABET, upload.value, identity) == Some(name)
  {
    SuiteLawsHold();
    AlphabetLawsHold();
    LettersReadBack(identity.scalar);
    hide Agrees, WritesKeys, Decodes, Permutes, Linked.Unspaced;
    var key := Letters(identity.scalar);
    DeviceName.PrimaryRecoversName(ModelSuite(), ALPHABET, ALPHABET, name, key, identity, ephemeral);
  }

  /** In the model every provisioning message is recovered from its frame. */
  lemma MessagesAreRecoveredInTheModel(ours: Private, ephemeral: Private, iv: Ctr.Block, plaintext: seq<byte>,
    kind: u32)
    requires |plaintext| < TWO_TO_THE_32
    ensures var sealed := Provisioning.Seal(ModelSuite(), ephemeral, ModelSuite().publicOf(ours), iv, plaintext);
      sealed.Some? &&
      var frame := Provisioning.FrameOf(kind, sealed.value);
      Provisioning.Decode(ModelSuite(), ALPHABET, Letters(ours.scalar), frame) == Ok(plaintext)
  {
    SuiteLawsHold();
    LettersReadBack(ours.scalar);
    hide Agrees, WritesKeys, Permutes;
    Provisioning.DecodeUndoesSeal(ModelSuite(), ALPHABET, Letters(ours.scalar), ours, ephemeral, iv, plaintext, kind);
  }

  // ---- Stores and sessions ----------------------------------------------------

  /** An id as four bytes, and then the material. */
  function Numbered(id: u32, material: string): (s: string)
    ensures |s| == 4 + |material|
  {
    [(id / 0x100_0000) as char, (id / 0x1_0000 % 0x100) as char, (id / 0x100 % 0x100) as char, (id % 0x100) as char]
    + material
  }

  function NumberOf(s: string): Option<u32> {
    if |s| < 4 then None
    else
      var n := 0x100_0000 * s[0] as int + 0x1_0000 * s[1] as int + 0x100 * s[2] as int + s[3] as int;
      if n < TWO_TO_THE_32 then Some(n) else None
  }

  lemma NumberedReadsBack(id: u32, material: string)
    ensures NumberOf(Numbered(id, material)) == Some(id) && Numbered(id, material)[4..] == material
  {
    var s := Numbered(id, material);
    var a, b, c := id / 0x100, id / 0x1_0000, id / 0x100_0000;
    FourBytes(id);
    assert s[0] as int == c && s[1] as int == b % 0x100 && s[2] as int == a % 0x100 && s[3] as int == id % 0x100;
  }

  lemma FourBytes(id: u32)
    ensures id == 0x100_0000 * (id / 0x100_0000) + 0x1_0000 * (id / 0x1_0000 % 0x100)
                  + 0x100 * (id / 0x100 % 0x100) + id % 0x100
  {
    var a, b := id / 0x100, id / 0x1_0000;
    assert id == 0x100 * a + id % 0x100;
    assert b == a / 0x100 && a == 0x100 * b + a % 0x100;
    assert id / 0x100_0000 == b / 0x100 && b == 0x100 * (b / 0x100) + b % 0x100;
  }

  function ModelCodecs(): Stores.Codecs {
    Stores.Codecs(
      Stores.Codec((k: Stores.IdentityKey) => Some(k.point), (s: string) => Some(Stores.IdentityKey(s))),
      Stores.Codec((r: Stores.PreKeyRecord) => Some(Numbered(r.id, r.material)),
                   (s: string) => if NumberOf(s).None? then None
                                  else Some(Stores.PreKeyRecord(NumberOf(s).value, s[4..]))),
      Stores.Codec((r: Stores.SignedPreKeyRecord) => Some(Numbered(r.id, r.material)),
                   (s: string) => if NumberOf(s).None? then None
                                  else Some(Stores.SignedPreKeyRecord(NumberOf(s).value, s[4..]))),
      Stores.Codec((r: Stores.KyberPreKeyRecord) => Some(Numbered(r.id, r.material)),
                   (s: string) => if NumberOf(s).None? then None
                                  else Some(Stores.KyberPreKeyRecord(NumberOf(s).value, s[4..]))),
      Stores.Codec((r: Stores.SessionRecord) => Some(r.material), (s: string) => Some(Stores.SessionRecord(s))),
      (k: Stores.IdentityKey) => k.point)
  }

  lemma CodecLawsHold()
    ensures Stores.Lawful(ModelCodecs())
  {
    hide Numbered, NumberOf;
    forall id: u32, material: string
      ensures NumberOf(Numbered(id, material)) == Some(id) && Numbered(id, material)[4..] == material
    {
      NumberedReadsBack(id, material);
    }
  }

  // ---- Sending and receiving --------------------------------------------------

  /** Encryption that hides nothing. */
  function ModelEncryptor(): OutgoingMessage.Encryptor {
    OutgoingMessage.Encryptor(
      (r: Stores.SessionRecord) => Some(1),
      (p: seq<byte>, to: Stores.Address, from: Stores.Address) => Some(OutgoingMessage.SignalMessage(p)))
  }

  function ModelDecryptors(): Routing.Decryptors {
    Routing.Decryptors(
      (c: seq<byte>) => None,
      (c: seq<byte>, from: Stores.Address) => Some(c),
      (c: seq<byte>, from: Stores.Address) => Some(c))
  }

  lemma SessionLawsHold(to: Stores.Address, from: Stores.Address)
    ensures OutgoingMessage.Inverts(ModelDecryptors(), ModelEncryptor(), to, from)
    ensures Routing.NamesAreText(ModelDecryptors())
  {
  }
}
