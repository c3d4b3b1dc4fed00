/** `ProvisionMessage::decode` and `PrimaryProvisioningCipher::decrypt` (`src/manager/libsignal.rs`). */
module Provisioning {
  import opened Base
  import opened Crypto
  import opened Wire
  import Cbc
  import Ctr

  datatype Failure =
    | NotAWebSocketMessage | NoRequestBody
    | NotAnEnvelope | NoPublicKey | NoBody
    | BodyTooShort | BadVersion
    | KeyNotBase64 | KeyInvalid | EphemeralInvalid | NoAgreement
    | BadMac | BadPadding

  const VERSION: byte := 1
  const MIN_BODY := 65

  /** `envelope.public_key` and `envelope.body`. */
  datatype Envelope = Envelope(publicKey: Option<seq<byte>>, body: Option<seq<byte>>)

  function EnvelopeField(m: Envelope, f: Field): Option<Envelope> {
    match f.tag
    case 1 => if f.value.Bytes? then Some(m.(publicKey := Some(f.value.bytes))) else None
    case 2 => if f.value.Bytes? then Some(m.(body := Some(f.value.bytes))) else None
    case _ => Some(m)
  }

  /** The request inside the provisioning socket's frame, of which only the body matters. */
  datatype Request = Request(verb: Option<seq<byte>>, path: Option<seq<byte>>, body: Option<seq<byte>>, id: Option<u64>)

  datatype Frame = Frame(kind: Option<nat>, request: Option<Request>)

  const NO_REQUEST := Request(None, None, None, None)

  function RequestField(m: Request, f: Field): Option<Request> {
    match f.tag
    case 1 => var s := ReadString(f.value); if s.None? then None else Some(m.(verb := s))
    case 2 => var s := ReadString(f.value); if s.None? then None else Some(m.(path := s))
    case 3 => if f.value.Bytes? then Some(m.(body := Some(f.value.bytes))) else None
    case 4 => var n := ReadU64(f.value); if n.None? then None else Some(m.(id := n))
    case _ => Some(m)
  }

  function FrameField(m: Frame, f: Field): Option<Frame> {
    match f.tag
    case 1 => if f.value.Number? then Some(m.(kind := Some(f.value.n))) else None
    case 2 =>
      var r := MergeInto(RequestField, NO_REQUEST, m.request, f.value);
      if r.None? then None else Some(m.(request := r))
    case _ => Some(m)
  }

  // ---- The envelope body ------------------------------------------------------

  const HKDF_INFO := "TextSecure Provisioning Message"

  function Keys(s: Suite, secret: seq<byte>): (Digest, Digest) {
    var derived := s.hkdf(secret, Ascii(HKDF_INFO));
    (derived[..32], derived[32..])
  }

  /** What the primary device builds: version, IV, CBC with PKCS#7, and the HMAC over all three. */
  function BuildBody(s: Suite, secret: seq<byte>, iv: Ctr.Block, plaintext: seq<byte>): seq<byte> {
    var derived := s.hkdf(secret, Ascii("TextSecure Provisioning Message"));
    var signed := [1] + iv + Cbc.Encrypt(s.enc, derived[..32], iv, Cbc.Pad(plaintext));
    signed + s.hmac(derived[32..], signed)
  }

  /** Steps 6 and 7 of `decrypt`, on a body that passed the length and version checks. */
  function OpenBody(s: Suite, secret: seq<byte>, body: seq<byte>): Result<seq<byte>, Failure>
    requires |body| >= MIN_BODY
  {
    var (aesKey, macKey) := Keys(s, secret);
    var cut := |body| - 32;
    if s.hmac(macKey, body[..cut]) != body[cut..] then Err(BadMac)
    else
      var iv, ciphertext := body[1..17], body[17..cut];
      if |ciphertext| % 16 != 0 then Err(BadPadding)
      else match Cbc.Unpad(Cbc.Decrypt(s.dec, aesKey, iv, ciphertext))
        case None => Err(BadPadding)
        case Some(plaintext) => Ok(plaintext)
  }

  /** `decrypt`, up to the plaintext it then decodes. */
  function Decrypt(s: Suite, urlSafe: Base64, tempKey: string, bytes: seq<byte>): Result<seq<byte>, Failure> {
    match ReadFields(bytes)
    case None => Err(NotAnEnvelope)
    case Some(fs) =>
      var envelope: Option<Envelope> := Merge(EnvelopeField, Envelope(None, None), fs);
      match envelope
      case None => Err(NotAnEnvelope)
      case Some(Envelope(None, _)) => Err(NoPublicKey)
      case Some(Envelope(Some(_), None)) => Err(NoBody)
      case Some(Envelope(Some(ephemeral), Some(body))) =>
        if |body| < MIN_BODY then Err(BodyTooShort)
        else if body[0] != VERSION then Err(BadVersion)
        else match urlSafe.decode(tempKey)
          case None => Err(KeyNotBase64)
          case Some(keyBytes) =>
            match s.parsePrivate(keyBytes)
            case None => Err(KeyInvalid)
            case Some(ours) =>
              match s.parsePublic(ephemeral)
              case None => Err(EphemeralInvalid)
              case Some(their) =>
                match s.agree(ours, their)
                case None => Err(NoAgreement)
                case Some(secret) => OpenBody(s, secret, body)
  }

  /** `ProvisionMessage::decode`: unwrap the WebSocket message, then decrypt the request body. */
  function Decode(s: Suite, urlSafe: Base64, tempKey: string, bytes: seq<byte>): Result<seq<byte>, Failure> {
    match ReadFields(bytes)
    case None => Err(NotAWebSocketMessage)
    case Some(fs) =>
      var frame: Option<Frame> := Merge(FrameField, Frame(None, None), fs);
      match frame
      case None => Err(NotAWebSocketMessage)
      case Some(Frame(_, Some(Request(_, _, Some(body), _)))) => Decrypt(s, urlSafe, tempKey, body)
      case Some(_) => Err(NoRequestBody)
  }

  /** The four slices of a body long enough to be looked at partition it. */
  lemma SlicesPartition(body: seq<byte>)
    requires |body| >= MIN_BODY
    ensures var cut := |body| - 32;
      && body == [body[0]] + body[1..17] + body[17..cut] + body[cut..]
      && |body[1..17]| == 16 && |body[17..cut]| >= 16 && |body[cut..]| == 32
  {
  }

  /**
   `decrypt` accepts exactly the bodies the primary device builds: opening a body yields a
   plaintext if and only if the body is the one built from that plaintext and the body's own IV.
   */
  lemma OpensExactlyBuilt(s: Suite, secret: seq<byte>, body: seq<byte>, plaintext: seq<byte>)
    requires Permutes(s) && |body| >= MIN_BODY && body[0] == VERSION
    ensures OpenBody(s, secret, body) == Ok(plaintext) <==> body == BuildBody(s, secret, body[1..17], plaintext)
  {
    hide OpenBody, BuildBody, Permutes;
    if body == BuildBody(s, secret, body[1..17], plaintext) {
      OpenOfBuilt(s, secret, body[1..17], plaintext);
    }
    if OpenBody(s, secret, body) == Ok(plaintext) {
      OpenedWasBuilt(s, secret, body, plaintext);
    }
  }

  lemma OpenedWasBuilt(s: Suite, secret: seq<byte>, body: seq<byte>, plaintext: seq<byte>)
    requires Permutes(s) && |body| >= MIN_BODY && body[0] == VERSION
    requires OpenBody(s, secret, body) == Ok(plaintext)
    ensures body == BuildBody(s, secret, body[1..17], plaintext)
  {
    var (aesKey, macKey) := Keys(s, secret);
    hide Cbc.Encrypt, Cbc.Decrypt, Cbc.Pad, Cbc.Unpad;
    var cut := |body| - 32;
    var iv, ciphertext := body[1..17], body[17..cut];
    var padded := Cbc.Decrypt(s.dec, aesKey, iv, ciphertext);
    Cbc.EncryptUndoesDecrypt(s.enc, s.dec, aesKey, iv, ciphertext);
    hide Permutes;
    Cbc.UnpadAcceptsOnlyPadded(padded);
    assert body[..cut] == [VERSION] + iv + ciphertext;
    assert body == body[..cut] + body[cut..];
  }

  lemma OpenOfBuilt(s: Suite, secret: seq<byte>, iv: Ctr.Block, plaintext: seq<byte>)
    requires Permutes(s)
    ensures var body := BuildBody(s, secret, iv, plaintext);
      && |body| >= MIN_BODY && body[0] == VERSION && body[1..17] == iv
      && OpenBody(s, secret, body) == Ok(plaintext)
  {
    var (aesKey, macKey) := Keys(s, secret);
    var ciphertext := Cbc.Encrypt(s.enc, aesKey, iv, Cbc.Pad(plaintext));
    var body := BuildBody(s, secret, iv, plaintext);
    var cut := |body| - 32;
    assert body[..cut] == [VERSION] + iv + ciphertext;
    assert body[1..17] == iv && body[17..cut] == ciphertext;
    Cbc.DecryptUndoesEncrypt(s.enc, s.dec, aesKey, iv, Cbc.Pad(plaintext));
    Cbc.UnpadUndoesPad(plaintext);
  }

  /** The envelope the primary device sends, addressed to the public half of the temporary key. */
  function Seal(s: Suite, ephemeral: Private, to: Public, iv: Ctr.Block, plaintext: seq<byte>): Option<seq<byte>> {
    match s.agree(ephemeral, to)
    case None => None
    case Some(secret) =>
      var key, body := s.writePublic(s.publicOf(ephemeral)), BuildBody(s, secret, iv, plaintext);
      Some(WriteFields([Field(1, Bytes(key)), Field(2, Bytes(body))]))
  }

  lemma EnvelopeReadsBack(publicKey: seq<byte>, body: seq<byte>)
    requires |publicKey| < TWO_TO_THE_64 && |body| < TWO_TO_THE_64
    ensures var fs := [Field(1, Bytes(publicKey)), Field(2, Bytes(body))];
      && ReadFields(WriteFields(fs)) == Some(fs)
      && Merge(EnvelopeField, Envelope(None, None), fs) == Some(Envelope(Some(publicKey), Some(body)))
  {
    var fs := [Field(1, Bytes(publicKey)), Field(2, Bytes(body))];
    ReadOfWritten(fs);
    assert fs[1..] == [fs[1]];
    MergeOne(EnvelopeField, Envelope(Some(publicKey), None), fs[1]);
  }

  /** The second half of what is derived from the agreed secret. */
  function MacKey(s: Suite, secret: seq<byte>): Digest {
    s.hkdf(secret, Ascii("TextSecure Provisioning Message"))[32..]
  }

  /**
   A whole envelope opens to a plaintext if and only if its key parses and agrees and its body is one
   built from that plaintext with the agreed secret; a body under 65 bytes or with another version
   byte than 1 is refused before any key is looked at, and a wrong HMAC before anything is deciphered.
   */
  lemma DecryptsExactlyBuilt(s: Suite, urlSafe: Base64, tempKey: string, ours: Private, publicKey: seq<byte>,
    body: seq<byte>, plaintext: seq<byte>)
    requires Permutes(s) && |publicKey| < TWO_TO_THE_64 && |body| < TWO_TO_THE_64
    requires urlSafe.decode(tempKey).Some? && s.parsePrivate(urlSafe.decode(tempKey).value) == Some(ours)
    ensures var r := Decrypt(s, urlSafe, tempKey, WriteFields([Field(1, Bytes(publicKey)), Field(2, Bytes(body))]));
      var their := s.parsePublic(publicKey);
      var secret := if their.Some? then s.agree(ours, their.value) else None;
      && (r == Ok(plaintext) <==>
            secret.Some? && exists iv: Ctr.Block :: body == BuildBody(s, secret.value, iv, plaintext))
      && (|body| < 65 <==> r == Err(BodyTooShort))
      && (|body| >= 65 && body[0] != 1 <==> r == Err(BadVersion))
      && (|body| >= 65 && body[0] == 1 && secret.Some? ==>
            var n := |body| - 32;
            s.hmac(MacKey(s, secret.value), body[..n]) != body[n..] <==> r == Err(BadMac))
  {
    hide Decrypt, OpenBody, WriteFields, BuildBody, Permutes, MacKey;
    DecryptOfFields(s, urlSafe, tempKey, ours, publicKey, body);
    var their := s.parsePublic(publicKey);
    var secret := if their.Some? then s.agree(ours, their.value) else None;
    if secret.Some? {
      OpensIfBuilt(s, secret.value, body, plaintext);
      if |body| >= 65 {
        MacIsCheckedFirst(s, secret.value, body);
        OpenBodyFails(s, secret.value, body);
      }
    }
  }

  lemma OpensIfBuilt(s: Suite, secret: seq<byte>, body: seq<byte>, plaintext: seq<byte>)
    requires Permutes(s)
    ensures (exists iv: Ctr.Block :: body == BuildBody(s, secret, iv, plaintext)) <==>
            |body| >= 65 && body[0] == 1 && OpenBody(s, secret, body) == Ok(plaintext)
  {
    hide OpenBody, BuildBody, Permutes;
    forall iv: Ctr.Block | body == BuildBody(s, secret, iv, plaintext)
      ensures |body| >= 65 && body[0] == 1 && OpenBody(s, secret, body) == Ok(plaintext)
    {
      OpenOfBuilt(s, secret, iv, plaintext);
    }
    if |body| >= 65 && body[0] == 1 {
      OpensExactlyBuilt(s, secret, body, plaintext);
    }
  }

  lemma DecryptOfFields(s: Suite, urlSafe: Base64, tempKey: string, ours: Private, publicKey: seq<byte>,
    body: seq<byte>)
    requires |publicKey| < TWO_TO_THE_64 && |body| < TWO_TO_THE_64
    requires urlSafe.decode(tempKey).Some? && s.parsePrivate(urlSafe.decode(tempKey).value) == Some(ours)
    ensures Decrypt(s, urlSafe, tempKey, WriteFields([Field(1, Bytes(publicKey)), Field(2, Bytes(body))])) ==
            if |body| < 65 then Err(BodyTooShort)
            else if body[0] != 1 then Err(BadVersion)
            else if s.parsePublic(publicKey).None? then Err(EphemeralInvalid)
            else if s.agree(ours, s.parsePublic(publicKey).value).None? then Err(NoAgreement)
            else OpenBody(s, s.agree(ours, s.parsePublic(publicKey).value).value, body)
  {
    EnvelopeReadsBack(publicKey, body);
    hide ReadFields, WriteFields, Merge, OpenBody;
  }

  /** Which key is to blame when a body of the right version is not even looked into. */
  lemma KeyFailsIff(s: Suite, urlSafe: Base64, tempKey: string, publicKey: seq<byte>, body: seq<byte>)
    requires |publicKey| < TWO_TO_THE_64 && 65 <= |body| < TWO_TO_THE_64 && body[0] == 1
    ensures var r := Decrypt(s, urlSafe, tempKey, WriteFields([Field(1, Bytes(publicKey)), Field(2, Bytes(body))]));
      var bytes, their := urlSafe.decode(tempKey), s.parsePublic(publicKey);
      var ours := if bytes.Some? then s.parsePrivate(bytes.value) else None;
      && (r == Err(KeyNotBase64) <==> bytes.None?)
      && (r == Err(KeyInvalid) <==> bytes.Some? && ours.None?)
      && (r == Err(EphemeralInvalid) <==> ours.Some? && their.None?)
      && (r == Err(NoAgreement) <==> ours.Some? && their.Some? && s.agree(ours.value, their.value).None?)
  {
    EnvelopeReadsBack(publicKey, body);
    hide ReadFields, WriteFields, Merge, OpenBody;
    var bytes, their := urlSafe.decode(tempKey), s.parsePublic(publicKey);
    if bytes.Some? && s.parsePrivate(bytes.value).Some? && their.Some? {
      var secret := s.agree(s.parsePrivate(bytes.value).value, their.value);
      if secret.Some? {
        OpenBodyFails(s, secret.value, body);
      }
    }
  }

  /** What is missing is named: the public key before the body, or the request in the frame. */
  lemma MissingPartIsNamed(s: Suite, urlSafe: Base64, tempKey: string, b: seq<byte>, kind: u32)
    requires |b| < TWO_TO_THE_64
    ensures Decrypt(s, urlSafe, tempKey, []) == Err(NoPublicKey)
    ensures Decrypt(s, urlSafe, tempKey, WriteFields([Field(2, Bytes(b))])) == Err(NoPublicKey)
    ensures Decrypt(s, urlSafe, tempKey, WriteFields([Field(1, Bytes(b))])) == Err(NoBody)
    ensures Decode(s, urlSafe, tempKey, WriteFields([Field(1, Number(kind))])) == Err(NoRequestBody)
  {
    ReadOfWritten([Field(2, Bytes(b))]);
    ReadOfWritten([Field(1, Bytes(b))]);
    ReadOfWritten([Field(1, Number(kind))]);
    assert ReadFields([]) == Some([]);
    hide ReadFields, WriteFields;
    MergeOne(EnvelopeField, Envelope(None, None), Field(2, Bytes(b)));
    MergeOne(EnvelopeField, Envelope(None, None), Field(1, Bytes(b)));
    MergeOne(FrameField, Frame(None, None), Field(1, Number(kind)));
  }

  lemma OpenBodyFails(s: Suite, secret: seq<byte>, body: seq<byte>)
    requires |body| >= 65
    ensures OpenBody(s, secret, body).Err? ==> OpenBody(s, secret, body).error in {BadMac, BadPadding}
  {
    hide Cbc.Decrypt, Cbc.Unpad;
  }

  lemma MacIsCheckedFirst(s: Suite, secret: seq<byte>, body: seq<byte>)
    requires |body| >= 65
    ensures var n := |body| - 32;
      s.hmac(MacKey(s, secret), body[..n]) != body[n..] <==> OpenBody(s, secret, body) == Err(BadMac)
  {
    hide Cbc.Decrypt, Cbc.Unpad;
  }

  /** For every message, key pair and IV, the device that showed the QR code recovers exactly the message. */
  lemma DecryptUndoesSeal(s: Suite, urlSafe: Base64, tempKey: string, ours: Private,
                          ephemeral: Private, iv: Ctr.Block, plaintext: seq<byte>)
    requires Agrees(s) && WritesKeys(s) && Permutes(s) && |plaintext| < TWO_TO_THE_32
    requires urlSafe.decode(tempKey).Some? && s.parsePrivate(urlSafe.decode(tempKey).value) == Some(ours)
    ensures var sealed := Seal(s, ephemeral, s.publicOf(ours), iv, plaintext);
      sealed.Some? && Decrypt(s, urlSafe, tempKey, sealed.value) == Ok(plaintext)
  {
    var secret := s.agree(ephemeral, s.publicOf(ours)).value;
    OpenOfBuilt(s, secret, iv, plaintext);
    EnvelopeReadsBack(s.writePublic(s.publicOf(ephemeral)), BuildBody(s, secret, iv, plaintext));
  }

  /** The frame in which the provisioning socket delivers an envelope. */
  function FrameOf(kind: u32, body: seq<byte>): seq<byte> {
    WriteFields([Field(1, Number(kind)), Field(2, Bytes(WriteFields([Field(3, Bytes(body))])))])
  }

  /** Unwrapping a frame gives `decrypt` exactly the body it carries. */
  lemma DecodeOpensFrame(s: Suite, urlSafe: Base64, tempKey: string, kind: u32, body: seq<byte>)
    requires |body| < TWO_TO_THE_64 && |WriteFields([Field(3, Bytes(body))])| < TWO_TO_THE_64
    ensures Decode(s, urlSafe, tempKey, FrameOf(kind, body)) == Decrypt(s, urlSafe, tempKey, body)
  {
    var inner := Field(3, Bytes(body));
    var a, b := Field(1, Number(kind)), Field(2, Bytes(WriteFields([inner])));
    ReadOfWritten([inner]);
    ReadOfWritten([a, b]);
    hide ReadFields, WriteFields, Decrypt;
    MergeOne(RequestField, NO_REQUEST, inner);
    MergeTwo(FrameField, Frame(None, None), a, Frame(Some(kind), None), b);
  }

  /** The device that showed the QR code recovers exactly the message from the frame that carries its envelope. */
  lemma DecodeUndoesSeal(s: Suite, urlSafe: Base64, tempKey: string, ours: Private,
                         ephemeral: Private, iv: Ctr.Block, plaintext: seq<byte>, kind: u32)
    requires Agrees(s) && WritesKeys(s) && Permutes(s) && |plaintext| < TWO_TO_THE_32
    requires urlSafe.decode(tempKey).Some? && s.parsePrivate(urlSafe.decode(tempKey).value) == Some(ours)
    ensures var sealed := Seal(s, ephemeral, s.publicOf(ours), iv, plaintext);
      sealed.Some? && Decode(s, urlSafe, tempKey, FrameOf(kind, sealed.value)) == Ok(plaintext)
  {
    DecryptUndoesSeal(s, urlSafe, tempKey, ours, ephemeral, iv, plaintext);
    SealedLength(s, ephemeral, s.publicOf(ours), iv, plaintext);
    hide Decrypt, Seal, Decode;
    var sealed := Seal(s, ephemeral, s.publicOf(ours), iv, plaintext).value;
    FieldLength(sealed);
    DecodeOpensFrame(s, urlSafe, tempKey, kind, sealed);
  }

  lemma SealedLength(s: Suite, ephemeral: Private, to: Public, iv: Ctr.Block, plaintext: seq<byte>)
    requires WritesKeys(s) && |plaintext| < TWO_TO_THE_32 && s.agree(ephemeral, to).Some?
    ensures |Seal(s, ephemeral, to, iv, plaintext).value| < 3 * TWO_TO_THE_32
  {
    hide WriteField;
    var body := BuildBody(s, s.agree(ephemeral, to).value, iv, plaintext);
    var key := s.writePublic(s.publicOf(ephemeral));
    assert |body| <= |plaintext| + 65;
    var a, b := Field(1, Bytes(key)), Field(2, Bytes(body));
    ScalarLength(1, a.value, |key|);
    ScalarLength(2, b.value, |body|);
    assert [a, b][1..] == [b] && [b][1..] == [];
    assert WriteFields([b]) == WriteField(b) + [];
  }

  lemma FieldLength(body: seq<byte>)
    requires |body| < TWO_TO_THE_64
    ensures |WriteFields([Field(3, Bytes(body))])| <= 20 + |body|
  {
    var f := Field(3, Bytes(body));
    assert [f][1..] == [];
    assert WriteFields([f]) == WriteField(f) + [];
    ScalarLength(3, Bytes(body), |body|);
  }
}
