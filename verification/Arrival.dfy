/**
 A message from one device to another: built and encrypted (`src/manager/outgoing.rs`), forwarded by the
 server as a request, and received, shown and acknowledged by a session (`src/manager/main_ws.rs`).
 */
module Arrival {
  import opened Base
  import opened PddbModel
  import opened WsProto
  import opened OutgoingMessage
  import opened Session
  import opened SessionRuns
  import opened Stores
  import AccountCache
  import Crypto
  import Decimal
  import Delivery
  import Peer
  import Routing
  import Utf8

  /** The envelope of a message from `from`. */
  function EnvelopeFor(m: EncryptedMessage, from: Address, serverTs: u64): Envelope {
    Envelope(Some(m.kind), Some(AccountCache.Octets(from.name)), Some(from.device), Some(serverTs), Some(m.bytes))
  }

  /** Request `id`, which puts a body to the message path. */
  function Put(id: u64, body: seq<byte>): WsMessage {
    var verb, path := Crypto.Ascii("PUT"), Crypto.Ascii("/api/v1/message");
    WsMessage(Some(1), Some(Request(Some(verb), Some(path), Some(body), Some(id), [])), None)
  }

  /** The response 200 to request `id`. */
  function Confirmation(id: u64): WsMessage {
    WsMessage(Some(2), None, Some(Response(Some(id), Some(200), Some(Crypto.Ascii("OK")), None, [])))
  }

  /** The turn comes to its read and finds the message there. */
  predicate Arrives(m: EncryptedMessage, from: Address, serverTs: u64, id: u64, s: State, t: Turn) {
    var e := EnvelopeFor(m, from, serverTs);
    && EnvelopeFits(e) && MessageFits(Put(id, EncodeEnvelope(e)))
    && ReachesRead(s, t) && t.frame == BinaryFrame(EncodeMessage(Put(id, EncodeEnvelope(e))))
  }

  lemma NameSurvives(name: string)
    requires AccountCache.IsText(name)
    ensures Delivery.Chars(AccountCache.Octets(name)) == name
  {
    hide Utf8.Valid;
  }

  /** The server's frame is heard as a message request with that envelope. */
  lemma PutIsHeard(m: EncryptedMessage, from: Address, serverTs: u64, id: u64, s: State, t: Turn)
    requires Arrives(m, from, serverTs, id, s, t)
    ensures var body := EncodeEnvelope(EnvelopeFor(m, from, serverTs));
      HeardIn(s, t) == [Heard(Put(id, body).request.value, t.ackOk)]
  {
    hide EnvelopeFits, MessageFits, EncodeEnvelope, EncodeMessage, ReachesRead, HeardIn;
    EncodedRequestsAreHeard(s, t, Put(id, EncodeEnvelope(EnvelopeFor(m, from, serverTs))));
  }

  /** The message of `lib` that encrypts the plaintext `p`. */
  predicate Encrypts(m: EncryptedMessage, p: seq<byte>, to: Address, from: Address, lib: Encryptor) {
    || (m.kind == 1 && lib.encrypt(p, to, from) == Some(SignalMessage(m.bytes)))
    || (m.kind == 3 && lib.encrypt(p, to, from) == Some(PreKeySignalMessage(m.bytes)))
  }

  /** What comes in is the plaintext that went out, from its sender. */
  lemma PlaintextComesIn(m: EncryptedMessage, p: seq<byte>, to: Address, from: Address, lib: Encryptor,
    serverTs: u64, id: u64, s: State, t: Turn)
    requires 1 <= from.device <= 127 && AccountCache.IsText(from.name) && Inverts(t.decryptors, lib, to, from)
    requires Encrypts(m, p, to, from, lib) && Arrives(m, from, serverTs, id, s, t)
    ensures IncomingIn(s, t) == [Delivery.Incoming(p, from, serverTs, t.io)]
  {
    hide EnvelopeFits, MessageFits, EncodeEnvelope, EncodeMessage, ReachesRead, HeardIn, AccountCache.IsText,
      Delivery.Chars, AccountCache.Octets, Crypto.Ascii, Routing.Route;
    var e := EnvelopeFor(m, from, serverTs);
    NameSurvives(from.name);
    PutIsHeard(m, from, serverTs, id, s, t);
    Routing.EncodedEnvelopeRoutesIff(e, t.decryptors, Routing.Routed(p, from, serverTs));
  }

  /** The turn acknowledges the request, whatever the envelope holds, unless delivering it panics. */
  lemma PutIsConfirmed(m: EncryptedMessage, from: Address, serverTs: u64, id: u64, s: State, t: Turn)
    requires Arrives(m, from, serverTs, id, s, t) && !Iterate(s, t).s.control.Panicked?
    ensures Acks(Iterate(s, t).log) == [Acked(EncodeMessage(Confirmation(id)), t.ackOk)]
  {
    hide EnvelopeFits, MessageFits, EncodeEnvelope, EncodeMessage, HeardIn, Crypto.Ascii, Iterate, Acks,
      Handled, SessionRuns.Answer;
    PutIsHeard(m, from, serverTs, id, s, t);
    IterationAnswers(s, t);
    AcksOfHandled(Iterate(s, t).log);
    AcksOfAnswer(HeardIn(s, t)[0]);
  }

  lemma DoesNotEnd(m: EncryptedMessage, from: Address, serverTs: u64, id: u64, s: State, t: Turn)
    requires Arrives(m, from, serverTs, id, s, t)
    ensures s.control.Live? && !Iterate(s, t).s.control.Ended?
  {
    hide EnvelopeFits, MessageFits, EncodeEnvelope, EncodeMessage, Put, Iterate;
    SessionEndsIff(s, t);
  }

  lemma EncryptedIsDelivered(m: EncryptedMessage, body: seq<byte>, timestamp: u64, to: Address, from: Address,
    lib: Encryptor, serverTs: u64, id: u64, s: State, t: Turn)
    requires Encrypts(m, PlaintextOf(body, timestamp), to, from, lib) && Arrives(m, from, serverTs, id, s, t)
    requires Utf8.Valid(body) && |body| < 0x8000_0000_0000_0000
    requires 1 <= from.device <= 127 && AccountCache.IsText(from.name) && Inverts(t.decryptors, lib, to, from)
    ensures var o, d := Iterate(s, t), Delivery.DeliverOne(s.db, Delivery.Incoming(PlaintextOf(body, timestamp), from,
      serverTs, t.io));
      o.s.control.Live? && o.s.shown == s.shown + d.shown && o.s.db == d.db
    ensures Acks(Iterate(s, t).log) == [Acked(EncodeMessage(Confirmation(id)), t.ackOk)]
  {
    hide Iterate, IncomingIn, Inverts, PlaintextOf, AccountCache.IsText, Utf8.Valid, Delivery.DeliverOne, Acks,
      EncodeMessage, Encrypts, Arrives, Confirmation, Write, Peer.PrintPeer;
    DoesNotEnd(m, from, serverTs, id, s, t);
    PlaintextComesIn(m, PlaintextOf(body, timestamp), to, from, lib, serverTs, id, s, t);
    IterationDelivers(s, t);
    PlaintextDelivers(s.db, body, timestamp, from, serverTs, t.io);
    PutIsConfirmed(m, from, serverTs, id, s, t);
  }

  /**
   A message that was built for this device, in the frame in which the server forwards it, is
   delivered by the turn that reads it: shown with exactly the body and timestamp it was sent with
   under the sender's name (an empty one not at all), acknowledged under the id of its request, and
   the reply goes to its sender exactly if the sender's name has no double quote.
   */
  lemma MessageIsDelivered(senderDb: Db, body: seq<byte>, timestamp: u64, to: Address, from: Address, c: Codecs,
    lib: Encryptor, io: Io, m: EncryptedMessage, serverTs: u64, id: u64, s: State, t: Turn)
    requires Build(body, timestamp, to, from, senderDb, c, lib, io) == Ok(m) && Arrives(m, from, serverTs, id, s, t)
    requires Utf8.Valid(body) && |body| < 0x8000_0000_0000_0000
    requires 1 <= from.device <= 127 && AccountCache.IsText(from.name) && Inverts(t.decryptors, lib, to, from)
    requires t.io == HEALTHY
    ensures var o := Iterate(s, t);
      && o.s.control.Live?
      && o.s.shown == s.shown + (if body == [] then []
                                 else [Delivery.Posted(from.name, timestamp, body), Delivery.Redrawn])
      && Acks(o.log) == [Acked(EncodeMessage(Confirmation(id)), t.ackOk)]
      && (if body == [] then o.s.db == s.db
          else Peer.CurrentRecipient(o.s.db, HEALTHY) == Ok(from) <==> !Peer.Quoted(from.name))
  {
    hide Build, Iterate, Inverts, PlaintextOf, AccountCache.IsText, Utf8.Valid, Peer.CurrentRecipient,
      Delivery.DeliverOne, Peer.PrintPeer, Write, Acks, EncodeMessage, Arrives, Confirmation, Decimal.Print;
    BuildsIff(body, timestamp, to, from, senderDb, c, lib, io, m);
    EncryptedIsDelivered(m, body, timestamp, to, from, lib, serverTs, id, s, t);
    PlaintextDelivers(s.db, body, timestamp, from, serverTs, HEALTHY);
    Peer.RecipientIsTheOneSetIff(s.db, from);
  }
}
