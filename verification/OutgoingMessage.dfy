/**
 Building an encrypted message (`src/manager/outgoing.rs`), and what the receiving side
 (`src/manager/main_ws.rs`) makes of it.
 */
module OutgoingMessage {
  import opened Base
  import opened PddbModel
  import opened Content
  import opened Stores
  import opened Peer
  import AccountCache
  import Decimal
  import Delivery
  import Routing
  import Utf8
  import Wire
  import WsProto

  /** libsignal's `CiphertextMessage`: only the first two kinds can be sent. */
  datatype Ciphertext = SignalMessage(bytes: seq<byte>) | PreKeySignalMessage(bytes: seq<byte>) | Unsupported

  /** libsignal's side of sending; encrypting is given plaintext, recipient and own address. */
  datatype Encryptor = Encryptor(
    registrationId: SessionRecord -> Option<u32>,
    encrypt: (seq<byte>, Address, Address) -> Option<Ciphertext>)

  datatype EncryptedMessage = EncryptedMessage(bytes: seq<byte>, kind: c_int, device: u32, registrationId: u32,
    timestamp: u64)

  /** The plaintext given to encryption. */
  function PlaintextOf(body: seq<byte>, timestamp: u64): seq<byte> {
    Padded(EncodeOutgoing(Outgoing(Some(DataMessage(Some(body), Some(timestamp))))))
  }

  /** `build_encrypted_message_with_stores`. */
  function Build(body: seq<byte>, timestamp: u64, to: Address, local: Address, db: Db, c: Codecs, lib: Encryptor,
    io: Io)
    : Result<EncryptedMessage, OutgoingError>
  {
    match Stores.Find(db, SessionSlot(to), c.session, io)
    case Err(_) => Err(SessionLoadFailed)
    case Ok(None) => Err(NoSession)
    case Ok(Some(session)) =>
      var id := lib.registrationId(session);
      if id.None? then Err(RegistrationIdFailed)
      else match lib.encrypt(PlaintextOf(body, timestamp), to, local)
        case None => Err(EncryptFailed)
        case Some(SignalMessage(b)) => Ok(EncryptedMessage(b, Routing.CIPHERTEXT, to.device, id.value, timestamp))
        case Some(PreKeySignalMessage(b)) =>
          Ok(EncryptedMessage(b, Routing.PREKEY_BUNDLE, to.device, id.value, timestamp))
        case Some(Unsupported) => Err(UnsupportedType)
  }

  /** `build_encrypted_message`. */
  method BuildEncryptedMessage(pddb: Pddb, body: seq<byte>, timestamp: u64, to: Address, c: Codecs, lib: Encryptor,
    io: Io)
    returns (r: Result<EncryptedMessage, OutgoingError>)
    ensures r == match LocalAddress(pddb.db, io)
                 case Err(e) => Err(e)
                 case Ok(local) => Build(body, timestamp, to, local, pddb.db, c, lib, io)
  {
    var local := LocalAddress(pddb.db, io);
    if local.Err? {
      return Err(local.error);
    }
    var sessions := new PddbSessionStore(pddb, c);
    var content := EncodeOutgoing(Outgoing(Some(DataMessage(Some(body), Some(timestamp)))));
    var padded := SignalPad(content);
    var session := sessions.LoadSession(to, io);
    if session.Err? {
      return Err(SessionLoadFailed);
    }
    if session.value.None? {
      return Err(NoSession);
    }
    var id := lib.registrationId(session.value.value);
    if id.None? {
      return Err(RegistrationIdFailed);
    }
    var ciphertext := lib.encrypt(padded, to, local.value);
    match ciphertext
    case None => return Err(EncryptFailed);
    case Some(SignalMessage(b)) => return Ok(EncryptedMessage(b, Routing.CIPHERTEXT, to.device, id.value, timestamp));
    case Some(PreKeySignalMessage(b)) =>
      return Ok(EncryptedMessage(b, Routing.PREKEY_BUNDLE, to.device, id.value, timestamp));
    case Some(Unsupported) => return Err(UnsupportedType);
  }

  /**
   A message is built exactly if storage holds a readable session with the recipient that knows its
   registration id and encryption yields one of the two kinds: type 1 for a session's own messages
   and 3 for those that open one. It is addressed to the recipient's device under the id of that
   session and keeps the timestamp.
   */
  lemma BuildsIff(body: seq<byte>, timestamp: u64, to: Address, local: Address, db: Db, c: Codecs, lib: Encryptor,
    io: Io, m: EncryptedMessage)
    ensures var slot := Slot("sigchat.session", to.name + "." + Decimal.Print(to.device));
      var session := if slot in db && !io.readFails then c.session.read(db[slot]) else None;
      var encrypted := lib.encrypt(PlaintextOf(body, timestamp), to, local);
      Build(body, timestamp, to, local, db, c, lib, io) == Ok(m) <==>
      && session.Some? && lib.registrationId(session.value) == Some(m.registrationId)
      && m.device == to.device && m.timestamp == timestamp
      && (|| (m.kind == 1 && encrypted == Some(SignalMessage(m.bytes)))
          || (m.kind == 3 && encrypted == Some(PreKeySignalMessage(m.bytes))))
  {
    hide PlaintextOf, Decimal.Print;
  }

  /** Without a session nothing is built, and a session that cannot be read is told from one that is not there. */
  lemma NoSessionIff(body: seq<byte>, timestamp: u64, to: Address, local: Address, db: Db, c: Codecs, lib: Encryptor,
    io: Io)
    ensures var slot := Slot("sigchat.session", to.name + "." + Decimal.Print(to.device));
      var r := Build(body, timestamp, to, local, db, c, lib, io);
      && (r == Err(NoSession) <==> !io.readFails && slot !in db)
      && (r == Err(SessionLoadFailed) <==> io.readFails || (slot in db && c.session.read(db[slot]).None?))
  {
    hide PlaintextOf, Decimal.Print;
  }

  /** The receiver's decryption, for messages from `from`, undoes the sender's encryption to `to`. */
  ghost predicate Inverts(d: Routing.Decryptors, lib: Encryptor, to: Address, from: Address) {
    forall p: seq<byte> ::
      match lib.encrypt(p, to, from)
      case Some(SignalMessage(b)) => d.whisper(b, from) == Some(p)
      case Some(PreKeySignalMessage(b)) => d.preKey(b, from) == Some(p)
      case _ => true
  }

  lemma DataFits(body: seq<byte>, timestamp: u64)
    requires Utf8.Valid(body) && |body| < 0x8000_0000_0000_0000
    ensures Fits(DataMessage(Some(body), Some(timestamp)))
  {
    var a, b := Wire.Field(1, Wire.Bytes(body)), Wire.Field(5, Wire.Number(timestamp));
    assert DataFields(DataMessage(Some(body), Some(timestamp))) == [a, b];
    Wire.ScalarLength(1, a.value, |body|);
    Wire.ScalarLength(5, b.value, 0);
    hide Wire.WriteField;
    assert [a, b][1..] == [b] && [b][1..] == [];
    assert Wire.WriteFields([b]) == Wire.WriteField(b) + [];
  }

  /** The padded content of a message delivers as that message. */
  lemma PlaintextDelivers(db: Db, body: seq<byte>, timestamp: u64, from: Address, serverTs: u64, io: Io)
    requires Utf8.Valid(body) && |body| < 0x8000_0000_0000_0000
    ensures Delivery.DeliverOne(db, Delivery.Incoming(PlaintextOf(body, timestamp), from, serverTs, io)) ==
      if body == [] then Delivery.Delivered(db, [], false)
      else Delivery.Delivered(Write(db, PEER_SLOT, PrintPeer(from), io),
                              [Delivery.Posted(from.name, timestamp, body), Delivery.Redrawn], false)
  {
    var m := DataMessage(Some(body), Some(timestamp));
    hide EncodeOutgoing, Padded, Fits, Delivery.DeliverOne, PrintPeer, Write;
    DataFits(body, timestamp);
    Delivery.DataIsShown(db, m, from, serverTs, io);
  }

  /** An envelope that carries a built message from the sender's address. */
  predicate Carries(envelope: seq<byte>, m: EncryptedMessage, from: Address) {
    var e := WsProto.DecodeEnvelope(envelope);
    && e.Some?
    && e.value.kind == Some(m.kind) && e.value.content == Some(m.bytes) && e.value.device == Some(from.device)
    && e.value.source.Some? && Delivery.Chars(e.value.source.value) == from.name
  }

  lemma EnvelopeRoutes(
    senderDb: Db, body: seq<byte>, timestamp: u64, to: Address, from: Address, c: Codecs, lib: Encryptor, io: Io,
    d: Routing.Decryptors, envelope: seq<byte>)
    requires 1 <= from.device <= 127 && Inverts(d, lib, to, from)
    requires var m := Build(body, timestamp, to, from, senderDb, c, lib, io); m.Ok? && Carries(envelope, m.value, from)
    ensures var serverTs := Routing.OrElse(WsProto.DecodeEnvelope(envelope).value.timestamp, 0);
      Routing.Route(envelope, d) == Some(Routing.Routed(PlaintextOf(body, timestamp), from, serverTs))
  {
    hide PlaintextOf, WsProto.DecodeEnvelope, Delivery.Chars;
    assert lib.encrypt(PlaintextOf(body, timestamp), to, from).Some?;
  }

  /**
   A message that was built and encrypted, delivered in an envelope of its kind from the sender's
   address, is shown with exactly the body and timestamp it was sent with (an empty one not at
   all), and the reply to it goes to the sender, exactly if the sender's name has no double quote.
   */
  lemma MessageArrives(
    senderDb: Db, body: seq<byte>, timestamp: u64, to: Address, from: Address, c: Codecs, lib: Encryptor, io: Io,
    d: Routing.Decryptors, db: Db, envelope: seq<byte>)
    requires Utf8.Valid(body) && |body| < 0x8000_0000_0000_0000 && 1 <= from.device <= 127 && Inverts(d, lib, to, from)
    requires var m := Build(body, timestamp, to, from, senderDb, c, lib, io); m.Ok? && Carries(envelope, m.value, from)
    ensures Routing.Route(envelope, d).Some?
    ensures var r := Routing.Route(envelope, d).value;
      var arrived := Delivery.DeliverOne(db, Delivery.Incoming(r.plaintext, r.sender, r.serverTs, HEALTHY));
      && arrived.shown == (if body == [] then [] else [Delivery.Posted(from.name, timestamp, body), Delivery.Redrawn])
      && !arrived.panicked
      && (body != [] ==> (CurrentRecipient(arrived.db, HEALTHY) == Ok(from) <==> !Quoted(from.name)))
  {
    Routing.SourceIsText(envelope);
    assert AccountCache.IsText(from.name);
    EnvelopeRoutes(senderDb, body, timestamp, to, from, c, lib, io, d, envelope);
    hide Build, Carries, Inverts, Routing.Route, PlaintextOf, Utf8.Valid, WsProto.DecodeEnvelope, AccountCache.IsText,
      CurrentRecipient, Delivery.DeliverOne, PrintPeer, Write;
    PlaintextDelivers(db, body, timestamp, from, Routing.Route(envelope, d).value.serverTs, HEALTHY);
    RecipientIsTheOneSetIff(db, from);
  }
}
