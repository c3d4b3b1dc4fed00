/**
 From the bytes of an envelope to a plaintext and its sender: the routing of `dispatch_envelope`
 (`src/manager/main_ws.rs`).
 */
module Routing {
  import opened Base
  import opened WsProto
  import opened Stores
  import AccountCache
  import Delivery
  import Utf8
  import Wire

  type DeviceNumber = d: u32 | 1 <= d <= 127 witness 1

  /** The certificate inside a sealed message, with the times at which a trust root vouches for it. */
  datatype Certificate = Certificate(uuid: Option<string>, device: Option<DeviceNumber>, validAt: u64 -> bool)

  datatype InnerType = PreKeyType | WhisperType | OtherType | TypeUnreadable

  datatype Sealed = Sealed(certificate: Option<Certificate>, inner: InnerType, contents: Option<seq<byte>>)

  /** libsignal's side: parsing and decrypting, `None` for each failure. */
  datatype Decryptors = Decryptors(
    openSealed: seq<byte> -> Option<Sealed>,
    preKey: (seq<byte>, Address) -> Option<seq<byte>>,
    whisper: (seq<byte>, Address) -> Option<seq<byte>>)

  datatype Routed = Routed(plaintext: seq<byte>, sender: Address, serverTs: u64)

  const CIPHERTEXT := 1
  const PREKEY_BUNDLE := 3
  const UNIDENTIFIED_SENDER := 6

  function OrElse<T>(o: Option<T>, otherwise: T): T {
    if o.Some? then o.value else otherwise
  }

  function RouteSealed(content: seq<byte>, ts: u64, d: Decryptors): Option<Routed> {
    var usmc := d.openSealed(content);
    if usmc.None? || usmc.value.certificate.None? then None
    else
      var certificate := usmc.value.certificate.value;
      if !certificate.validAt(ts) || certificate.uuid.None? || certificate.device.None? then None
      else
        var sender := Address(certificate.uuid.value, certificate.device.value);
        var contents := OrElse(usmc.value.contents, []);
        var plaintext :=
          match usmc.value.inner
          case PreKeyType => d.preKey(contents, sender)
          case WhisperType => d.whisper(contents, sender)
          case _ => None;
        if plaintext.None? then None else Some(Routed(plaintext.value, sender, ts))
  }

  function RouteOpen(kind: c_int, content: seq<byte>, source: seq<byte>, device: u32, ts: u64, d: Decryptors)
    : Option<Routed>
  {
    if device == 0 || device > 127 then None
    else
      var sender := Address(Delivery.Chars(source), device);
      var plaintext :=
        if kind == PREKEY_BUNDLE then d.preKey(content, sender)
        else if kind == CIPHERTEXT then d.whisper(content, sender)
        else None;
      if plaintext.None? then None else Some(Routed(plaintext.value, sender, ts))
  }

  function Route(body: seq<byte>, d: Decryptors): Option<Routed> {
    match DecodeEnvelope(body)
    case None => None
    case Some(e) =>
      if e.content.None? then None
      else if e.kind == Some(UNIDENTIFIED_SENDER) then RouteSealed(e.content.value, OrElse(e.timestamp, 0), d)
      else RouteOpen(OrElse(e.kind, 0), e.content.value, OrElse(e.source, []), OrElse(e.device, 1),
        OrElse(e.timestamp, 0), d)
  }

  /** Certificate names are Rust strings. */
  ghost predicate NamesAreText(d: Decryptors) {
    forall c: seq<byte> ::
      var s := d.openSealed(c);
      s.Some? && s.value.certificate.Some? && s.value.certificate.value.uuid.Some? ==>
        AccountCache.IsText(s.value.certificate.value.uuid.value)
  }

  /**
   The envelopes that yield `r`. A sealed one has a certificate that is valid at the envelope's
   timestamp and names the sender, whose address decrypts it as the type it gives; any other has its
   source as the sender. A missing timestamp is 0, a missing source empty and a missing device 1.
   */
  ghost predicate Yields(e: Envelope, d: Decryptors, r: Routed) {
    && e.content.Some?
    && r.serverTs == (if e.timestamp.Some? then e.timestamp.value else 0)
    && 1 <= r.sender.device <= 127
    && if e.kind == Some(6) then
         exists s: Sealed, c: Certificate ::
           && d.openSealed(e.content.value) == Some(s) && s.certificate == Some(c) && c.validAt(r.serverTs)
           && c.uuid == Some(r.sender.name) && c.device == Some(r.sender.device)
           && var bytes := if s.contents.Some? then s.contents.value else [];
              || (s.inner == PreKeyType && d.preKey(bytes, r.sender) == Some(r.plaintext))
              || (s.inner == WhisperType && d.whisper(bytes, r.sender) == Some(r.plaintext))
       else
         && r.sender.name == (if e.source.Some? then Delivery.Chars(e.source.value) else "")
         && r.sender.device == (if e.device.Some? then e.device.value else 1)
         && (|| (e.kind == Some(3) && d.preKey(e.content.value, r.sender) == Some(r.plaintext))
             || (e.kind == Some(1) && d.whisper(e.content.value, r.sender) == Some(r.plaintext)))
  }

  lemma SealedRouteYields(e: Envelope, d: Decryptors, r: Routed)
    requires e.kind == Some(6) && e.content.Some?
    ensures RouteSealed(e.content.value, OrElse(e.timestamp, 0), d) == Some(r) <==> Yields(e, d, r)
  {
    var s := d.openSealed(e.content.value);
    if s.Some? && s.value.certificate.Some? {
      var c := s.value.certificate.value;
      assert s.value.certificate == Some(c);
    }
  }

  /** The bytes of a body are routed to `r` exactly if they decode as an envelope that yields it. */
  lemma RoutesIff(body: seq<byte>, d: Decryptors, r: Routed)
    ensures Route(body, d) == Some(r) <==> DecodeEnvelope(body).Some? && Yields(DecodeEnvelope(body).value, d, r)
  {
    hide DecodeEnvelope, RouteSealed;
    var e := DecodeEnvelope(body);
    if e.Some? && e.value.content.Some? && e.value.kind == Some(6) {
      SealedRouteYields(e.value, d, r);
      hide Yields;
    } else if e.Some? && e.value.content.Some? {
      assert Delivery.Chars([]) == "";
    }
  }

  /** Every envelope a server can encode is routed by exactly these rules. */
  lemma EncodedEnvelopeRoutesIff(e: Envelope, d: Decryptors, r: Routed)
    requires EnvelopeFits(e)
    ensures Route(EncodeEnvelope(e), d) == Some(r) <==> Yields(e, d, r)
  {
    EnvelopeReads(e);
    RoutesIff(EncodeEnvelope(e), d, r);
    hide DecodeEnvelope, EncodeEnvelope, EnvelopeFits, Yields, Route;
  }

  /**
   Whatever is delivered comes from a device numbered 1 to 127 and under a name that is text. A
   sealed message is attributed to the address of a certificate that is valid at the envelope's
   timestamp and was decrypted under that very address; any other to the envelope's source.
   */
  lemma RoutedIsAttributed(body: seq<byte>, d: Decryptors)
    requires Route(body, d).Some? && NamesAreText(d)
    ensures var r, e := Route(body, d).value, DecodeEnvelope(body).value;
      && 1 <= r.sender.device <= 127 && AccountCache.IsText(r.sender.name)
      && e.content.Some?
      && (e.kind == Some(6) ==>
            exists s: Sealed, c: Certificate ::
              && d.openSealed(e.content.value) == Some(s) && s.certificate == Some(c) && c.validAt(r.serverTs)
              && c.uuid == Some(r.sender.name) && c.device == Some(r.sender.device)
              && Some(r.plaintext) in {d.preKey(OrElse(s.contents, []), r.sender),
                d.whisper(OrElse(s.contents, []), r.sender)})
      && (e.kind != Some(6) ==>
            && e.kind in {Some(3), Some(1)}
            && r.sender == Address(Delivery.Chars(OrElse(e.source, [])), OrElse(e.device, 1))
            && Some(r.plaintext) == if e.kind == Some(3) then d.preKey(e.content.value, r.sender)
                                    else d.whisper(e.content.value, r.sender))
  {
    hide AccountCache.IsText, DecodeEnvelope;
    var r, e := Route(body, d).value, DecodeEnvelope(body).value;
    if e.kind == Some(6) {
      var s := d.openSealed(e.content.value).value;
      assert s.certificate == Some(s.certificate.value);
    } else {
      SourceIsText(body);
    }
  }

  lemma {:induction false} MergedSourceIsUtf8(m: Envelope, fs: seq<Wire.Field>)
    requires Utf8.Valid(OrElse(m.source, [])) && Wire.Merge(EnvelopeField, m, fs).Some?
    ensures Utf8.Valid(OrElse(Wire.Merge(EnvelopeField, m, fs).value.source, []))
    decreases |fs|
  {
    hide Utf8.Valid;
    if fs != [] {
      MergedSourceIsUtf8(EnvelopeField(m, fs[0]).value, fs[1..]);
    }
  }

  lemma SourceIsText(body: seq<byte>)
    requires DecodeEnvelope(body).Some?
    ensures AccountCache.IsText(Delivery.Chars(OrElse(DecodeEnvelope(body).value.source, [])))
  {
    MergedSourceIsUtf8(NO_ENVELOPE, Wire.ReadFields(body).value);
    CharsAreText(OrElse(DecodeEnvelope(body).value.source, []));
  }

  lemma CharsAreText(b: seq<byte>)
    requires Utf8.Valid(b)
    ensures AccountCache.IsText(Delivery.Chars(b))
  {
    assert AccountCache.Octets(Delivery.Chars(b)) == b;
  }
}
