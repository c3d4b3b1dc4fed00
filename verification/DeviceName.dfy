/** `DeviceNameUtil::encrypt_device_name` (`src/manager/libsignal.rs`) and the primary device's side of it. */
module DeviceName {
  import opened Base
  import opened Crypto
  import opened Wire
  import Ctr

  datatype Failure = KeyNotBase64 | KeyInvalid | NoAgreement

  /** `HMAC(HMAC(master_secret, "auth"), plaintext)[..16]`. */
  function SyntheticIv(s: Suite, secret: seq<byte>, name: seq<byte>): (iv: seq<byte>)
    ensures |iv| == 16
  {
    s.hmac(s.hmac(secret, Ascii("auth")), name)[..16]
  }

  /** `HMAC(HMAC(master_secret, "cipher"), synthetic_iv)`. */
  function CipherKey(s: Suite, secret: seq<byte>, iv: seq<byte>): Digest {
    s.hmac(s.hmac(secret, Ascii("cipher")), iv)
  }

  datatype NameProto = NameProto(ephemeral: Option<seq<byte>>, iv: Option<seq<byte>>, ciphertext: Option<seq<byte>>)

  function NameFields(ephemeral: seq<byte>, iv: seq<byte>, ciphertext: seq<byte>): seq<Field> {
    [Field(1, Bytes(ephemeral)), Field(2, Bytes(iv)), Field(3, Bytes(ciphertext))]
  }

  /** The device name as it is uploaded; the name is the bytes of a Rust string. */
  function Encrypt(s: Suite, urlSafe: Base64, standard: Base64, name: seq<byte>, identityKey: string,
    ephemeral: Private)
    : Result<string, Failure>
  {
    match urlSafe.decode(identityKey)
    case None => Err(KeyNotBase64)
    case Some(bytes) =>
      match s.parsePrivate(bytes)
      case None => Err(KeyInvalid)
      case Some(identity) =>
        match s.agree(ephemeral, s.publicOf(identity))
        case None => Err(NoAgreement)
        case Some(secret) =>
          var iv := SyntheticIv(s, secret, name);
          var ciphertext := Ctr.CtrMode(s.enc, CipherKey(s, secret, iv), name);
          Ok(standard.encode(WriteFields(NameFields(s.writePublic(s.publicOf(ephemeral)), iv, ciphertext))))
  }

  /** Encrypting fails exactly for a key that is no base64, no private key, or agrees on nothing. */
  lemma FailsIff(s: Suite, urlSafe: Base64, standard: Base64, name: seq<byte>, identityKey: string,
    ephemeral: Private)
    ensures var r, bytes := Encrypt(s, urlSafe, standard, name, identityKey, ephemeral), urlSafe.decode(identityKey);
      var identity := if bytes.Some? then s.parsePrivate(bytes.value) else None;
      && (r == Err(KeyNotBase64) <==> bytes.None?)
      && (r == Err(KeyInvalid) <==> bytes.Some? && identity.None?)
      && (r == Err(NoAgreement) <==> identity.Some? && s.agree(ephemeral, s.publicOf(identity.value)).None?)
  {
    hide WriteFields, SyntheticIv, CipherKey, Ctr.CtrMode;
  }

  function NameField(m: NameProto, f: Field): Option<NameProto> {
    match f.tag
    case 1 => if f.value.Bytes? then Some(m.(ephemeral := Some(f.value.bytes))) else None
    case 2 => if f.value.Bytes? then Some(m.(iv := Some(f.value.bytes))) else None
    case 3 => if f.value.Bytes? then Some(m.(ciphertext := Some(f.value.bytes))) else None
    case _ => Some(m)
  }

  /**
   The holder of the identity private key recomputes secret, cipher key and key stream from the
   upload, and accepts the name only if its synthetic IV is the uploaded one.
   */
  function Decrypt(s: Suite, standard: Base64, upload: string, identity: Private): Option<seq<byte>> {
    match standard.decode(upload)
    case None => None
    case Some(wire) =>
      match ReadFields(wire)
      case None => None
      case Some(fs) =>
        var proto: Option<NameProto> := Merge(NameField, NameProto(None, None, None), fs);
        match proto
        case Some(NameProto(Some(ephemeral), Some(iv), Some(ciphertext))) =>
          (match s.parsePublic(ephemeral)
           case None => None
           case Some(their) =>
             match s.agree(identity, their)
             case None => None
             case Some(secret) =>
               var cipherKey := s.hmac(s.hmac(secret, Ascii("cipher")), iv);
               var name := Ctr.CtrMode(s.enc, cipherKey, ciphertext);
               if s.hmac(s.hmac(secret, Ascii("auth")), name)[..16] == iv then Some(name) else None)
        case _ => None
  }

  lemma ReadsBack(ephemeral: seq<byte>, iv: seq<byte>, ciphertext: seq<byte>)
    requires |ephemeral| < TWO_TO_THE_64 && |iv| < TWO_TO_THE_64 && |ciphertext| < TWO_TO_THE_64
    ensures var fs := NameFields(ephemeral, iv, ciphertext);
      && ReadFields(WriteFields(fs)) == Some(fs)
      && Merge(NameField, NameProto(None, None, None), fs) ==
         Some(NameProto(Some(ephemeral), Some(iv), Some(ciphertext)))
  {
    var fs := NameFields(ephemeral, iv, ciphertext);
    ReadOfWritten(fs);
    var one, two := NameProto(Some(ephemeral), None, None), NameProto(Some(ephemeral), Some(iv), None);
    assert fs[1..] == [fs[1], fs[2]] && fs[1..][1..] == [fs[2]];
    MergeOne(NameField, two, fs[2]);
    assert Merge(NameField, one, fs[1..]) == Merge(NameField, two, [fs[2]]);
  }

  /** Every name that can be encrypted comes back exactly, for every ephemeral key. */
  lemma PrimaryRecoversName(s: Suite, urlSafe: Base64, standard: Base64,
                            name: seq<byte>, identityKey: string, identity: Private, ephemeral: Private)
    requires Agrees(s) && WritesKeys(s) && Decodes(standard) && |name| < TWO_TO_THE_64
    requires urlSafe.decode(identityKey).Some? && s.parsePrivate(urlSafe.decode(identityKey).value) == Some(identity)
    ensures var upload := Encrypt(s, urlSafe, standard, name, identityKey, ephemeral);
      upload.Ok? && Decrypt(s, standard, upload.value, identity) == Some(name)
  {
    var secret := s.agree(ephemeral, s.publicOf(identity)).value;
    var iv := SyntheticIv(s, secret, name);
    var key := CipherKey(s, secret, iv);
    Ctr.CtrTwice(s.enc, key, name);
    ReadsBack(s.writePublic(s.publicOf(ephemeral)), iv, Ctr.CtrMode(s.enc, key, name));
  }
}
