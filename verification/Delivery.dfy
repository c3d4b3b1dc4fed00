/** Delivering decrypted content to the chat window, and with it the reply address (`src/manager/main_ws.rs`). */
module Delivery {
  import opened Base
  import opened PddbModel
  import opened Content
  import opened Stores
  import AccountCache
  import Peer
  import Utf8
  import opened Wire

  /** What reaches the chat window. */
  datatype Shown = Posted(author: string, timestamp: u64, body: seq<byte>) | Redrawn

  class ChatWindow {
    var shown: seq<Shown>

    constructor ()
      ensures shown == []
    {
      shown := [];
    }

    method Add(s: Shown)
      modifies this
      ensures shown == old(shown) + [s]
    {
      shown := shown + [s];
    }
  }

  function Chars(b: seq<byte>): string {
    seq(|b|, i requires 0 <= i < |b| => b[i] as char)
  }

  const ARROW: string := [0xE2 as char, 0x86 as char, 0x92 as char]

  function BodyOf(m: DataMessage): seq<byte> {
    if m.body.Some? then m.body.value else []
  }

  function Default(t: Option<u64>, otherwise: u64): u64 {
    if t.Some? then t.value else otherwise
  }

  /** `&dest[..dest.len().min(8)]` panics off a character boundary. */
  predicate Cuttable(dest: seq<byte>) {
    Utf8.IsCharBoundary(dest, Min(|dest|, 8))
  }

  function Destination(s: Sent): seq<byte> {
    if s.destination.Some? then s.destination.value else []
  }

  /** What a data message shows; nothing without a body. */
  function ShownForData(m: DataMessage, author: string, serverTs: u64): seq<Shown> {
    if BodyOf(m) == [] then [] else [Posted(author, Default(m.timestamp, serverTs), BodyOf(m)), Redrawn]
  }

  /** What a message sent by another device of the account shows; `None` for a panic. */
  function ShownForSync(sync: Sync, serverTs: u64): Option<seq<Shown>> {
    if sync.sent.None? || sync.sent.value.message.None? || BodyOf(sync.sent.value.message.value) == [] then Some([])
    else
      var sent, m := sync.sent.value, sync.sent.value.message.value;
      var dest := Destination(sent);
      if !Cuttable(dest) then None
      else
        var author := ARROW + Chars(dest[..Min(|dest|, 8)]);
        Some([Posted(author, Default(m.timestamp, Default(sent.timestamp, serverTs)), BodyOf(m)), Redrawn])
  }

  /** A decrypted message with its sender, the server's timestamp, and what storage does while it is delivered. */
  datatype Incoming = Incoming(plaintext: seq<byte>, sender: Address, serverTs: u64, io: Io)

  datatype Delivered = Delivered(db: Db, shown: seq<Shown>, panicked: bool)

  /** The data message with a body in a content, if there is one. */
  function TextOf(i: Incoming): Option<DataMessage> {
    match DecodeReceived(Stripped(i.plaintext))
    case None => None
    case Some(c) =>
      if c.dataMessage.Some? && BodyOf(c.dataMessage.value) != [] then c.dataMessage else None
  }

  /** `deliver_content`. */
  function DeliverOne(db: Db, i: Incoming): Delivered {
    match DecodeReceived(Stripped(i.plaintext))
    case None => Delivered(db, [], false)
    case Some(c) =>
      if c.dataMessage.Some? then
        var shown := ShownForData(c.dataMessage.value, i.sender.name, i.serverTs);
        if shown == [] then Delivered(db, [], false)
        else Delivered(Write(db, Peer.PEER_SLOT, Peer.PrintPeer(i.sender), i.io), shown, false)
      else if c.syncMessage.Some? then
        match ShownForSync(c.syncMessage.value, i.serverTs)
        case None => Delivered(db, [], true)
        case Some(shown) => Delivered(db, shown, false)
      else Delivered(db, [], false)
  }

  /** `deliver_data_message`. */
  method DeliverDataMessage(chat: ChatWindow, m: DataMessage, author: string, serverTs: u64) returns (delivered: bool)
    modifies chat
    ensures delivered == (BodyOf(m) != [])
    ensures chat.shown + (if delivered then [Redrawn] else []) == old(chat.shown) + ShownForData(m, author, serverTs)
  {
    if BodyOf(m) == [] {
      return false;
    }
    chat.Add(Posted(author, Default(m.timestamp, serverTs), BodyOf(m)));
    return true;
  }

  /** `deliver_sync_message`; `None` stands for the panic. */
  method DeliverSyncMessage(chat: ChatWindow, sync: Sync, serverTs: u64) returns (delivered: Option<bool>)
    modifies chat
    ensures delivered.None? <==> ShownForSync(sync, serverTs).None?
    ensures delivered.None? ==> chat.shown == old(chat.shown)
    ensures delivered.Some? ==>
      chat.shown + (if delivered.value then [Redrawn] else []) == old(chat.shown) + ShownForSync(sync, serverTs).value
  {
    if sync.sent.None? {
      return Some(false);
    }
    var sent := sync.sent.value;
    if sent.message.None? {
      return Some(false);
    }
    var m, dest := sent.message.value, Destination(sent);
    if BodyOf(m) == [] {
      return Some(false);
    }
    if !Cuttable(dest) {
      return None;
    }
    var ts := Default(m.timestamp, Default(sent.timestamp, serverTs));
    chat.Add(Posted(ARROW + Chars(dest[..Min(|dest|, 8)]), ts, BodyOf(m)));
    return Some(true);
  }

  /** `deliver_content`. */
  method DeliverContent(pddb: Pddb, chat: ChatWindow, i: Incoming) returns (panicked: bool)
    requires pddb as object != chat as object
    modifies pddb, chat
    ensures var d := DeliverOne(old(pddb.db), i);
      pddb.db == d.db && chat.shown == old(chat.shown) + d.shown && panicked == d.panicked
  {
    var plaintext := StripSignalPadding(i.plaintext);
    var content := DecodeReceived(plaintext);
    if content.None? {
      return false;
    }
    var delivered := false;
    if content.value.dataMessage.Some? {
      delivered := DeliverDataMessage(chat, content.value.dataMessage.value, i.sender.name, i.serverTs);
      if delivered {
        var _ := Peer.SetCurrentRecipient(pddb, i.sender, i.io);
      }
    } else if content.value.syncMessage.Some? {
      var r := DeliverSyncMessage(chat, content.value.syncMessage.value, i.serverTs);
      if r.None? {
        return true;
      }
      delivered := r.value;
    }
    if delivered {
      chat.Add(Redrawn);
    }
    return false;
  }

  /** Contents delivered one after the other; a panic ends it. */
  function DeliverAll(db: Db, ins: seq<Incoming>): Delivered {
    if ins == [] then Delivered(db, [], false)
    else
      var d := DeliverAll(db, ins[..|ins| - 1]);
      if d.panicked then d
      else
        var last := DeliverOne(d.db, ins[|ins| - 1]);
        Delivered(last.db, d.shown + last.shown, last.panicked)
  }

  /** The last message with text to be delivered. */
  function LastText(db: Db, ins: seq<Incoming>): (r: Option<Incoming>)
    ensures r.Some? ==> r.value in ins
  {
    if ins == [] then None
    else
      var n := |ins| - 1;
      if TextOf(ins[n]).Some? && !DeliverAll(db, ins[..n]).panicked then Some(ins[n]) else LastText(db, ins[..n])
  }

  /** Only a data message with a body touches storage, and it stores its sender. */
  lemma OnlyTextIsRemembered(db: Db, i: Incoming)
    ensures DeliverOne(db, i).db ==
      if TextOf(i).Some? then Write(db, Peer.PEER_SLOT, Peer.PrintPeer(i.sender), i.io) else db
  {
    hide Peer.PrintPeer, DecodeReceived, Write;
  }

  /** The last write to storage was that of the sender of `i`. */
  ghost predicate Remembers(db: Db, i: Incoming) {
    exists before: Db :: db == Write(before, Peer.PEER_SLOT, Peer.PrintPeer(i.sender), i.io)
  }

  lemma {:induction false} StoredIsLastText(db: Db, ins: seq<Incoming>)
    ensures LastText(db, ins).None? ==> DeliverAll(db, ins).db == db
    ensures LastText(db, ins).Some? ==> Remembers(DeliverAll(db, ins).db, LastText(db, ins).value)
  {
    hide DeliverOne, Write, TextOf, Peer.PrintPeer;
    if ins != [] {
      var n := |ins| - 1;
      StoredIsLastText(db, ins[..n]);
      OnlyTextIsRemembered(DeliverAll(db, ins[..n]).db, ins[n]);
    }
  }

  /**
   After any sequence of received contents the reply goes to the sender of the last delivered
   message with text, exactly if that sender's address survives printing, and in any case to what
   that address reads back as. Without such a message the reply address is what it was, whatever else came in.
   */
  lemma RepliesGoToLastSender(db: Db, ins: seq<Incoming>)
    requires forall i :: i in ins ==> i.io == HEALTHY && AccountCache.IsText(i.sender.name)
    ensures var last, now := LastText(db, ins), Peer.CurrentRecipient(DeliverAll(db, ins).db, HEALTHY);
      match last
      case None => now == Peer.CurrentRecipient(db, HEALTHY)
      case Some(i) =>
        && (now == Ok(i.sender) <==> !Peer.Quoted(i.sender.name) && 1 <= i.sender.device <= 127)
        && now == Peer.ReadBack(i.sender)
  {
    StoredIsLastText(db, ins);
    var last := LastText(db, ins);
    hide DeliverAll, LastText, Peer.PrintPeer, Peer.CurrentRecipient, AccountCache.IsText, Write;
    if last.Some? {
      var i := last.value;
      var before: Db :| DeliverAll(db, ins).db == Write(before, Peer.PEER_SLOT, Peer.PrintPeer(i.sender), i.io);
      Peer.RecipientIsTheOneSetIff(before, i.sender);
      Peer.RecipientIsCutAtQuote(before, i.sender);
    }
  }

  /** On storage that never held a recipient there is none until a message with text arrives. */
  lemma NoTextNoRecipient(ins: seq<Incoming>)
    requires LastText(map[], ins).None?
    ensures Peer.CurrentRecipient(DeliverAll(map[], ins).db, HEALTHY) == Err(Peer.NoRecipient)
  {
    StoredIsLastText(map[], ins);
  }

  /** Delivering panics exactly on a sent transcript with text whose destination cannot be cut at its eighth byte. */
  lemma PanicsIff(db: Db, i: Incoming)
    ensures DeliverOne(db, i).panicked <==>
      var content := DecodeReceived(Stripped(i.plaintext));
      && content.Some? && content.value.dataMessage.None? && content.value.syncMessage.Some?
      && content.value.syncMessage.value.sent.Some?
      && var sent := content.value.syncMessage.value.sent.value;
         && sent.message.Some? && BodyOf(sent.message.value) != []
         && |Destination(sent)| > 8 && Utf8.IsContinuation(Destination(sent)[8])
  {
    hide DecodeReceived, Stripped, Peer.PrintPeer, Write;
  }

  /** What the decoded content makes of a delivery is the whole of it. */
  lemma DeliversDecoded(db: Db, content: seq<byte>, c: Received, sender: Address, serverTs: u64, io: Io)
    requires DecodeReceived(content) == Some(c)
    ensures DeliverOne(db, Incoming(Padded(content), sender, serverTs, io)) ==
      if c.dataMessage.Some? then
        var shown := ShownForData(c.dataMessage.value, sender.name, serverTs);
        Delivered(if shown == [] then db else Write(db, Peer.PEER_SLOT, Peer.PrintPeer(sender), io), shown, false)
      else if c.syncMessage.Some? then
        var shown := ShownForSync(c.syncMessage.value, serverTs);
        if shown.None? then Delivered(db, [], true) else Delivered(db, shown.value, false)
      else Delivered(db, [], false)
  {
    StripUndoesPad(content);
    hide Padded, Stripped, DecodeReceived, Peer.PrintPeer, Write, ShownForData, ShownForSync;
  }

  /**
   A data message is shown with its sender's name, its own timestamp (the server's where it has none)
   and its body, and the sender is stored for the reply. One without a body leaves no trace.
   */
  lemma DataIsShown(db: Db, m: DataMessage, sender: Address, serverTs: u64, io: Io)
    requires Fits(m)
    ensures DeliverOne(db, Incoming(Padded(EncodeOutgoing(Outgoing(Some(m)))), sender, serverTs, io)) ==
      if m.body in {None, Some([])} then Delivered(db, [], false)
      else
        var ts := if m.timestamp.Some? then m.timestamp.value else serverTs;
        Delivered(Write(db, Slot("sigchat.dialogue", "default.peer"), Peer.PrintPeer(sender), io),
          [Posted(sender.name, ts, m.body.value), Redrawn], false)
  {
    ReceiverReadsSender(m);
    hide Fits, EncodeOutgoing, DecodeReceived, DeliverOne, Padded, Peer.PrintPeer, Write;
    DeliversDecoded(db, EncodeOutgoing(Outgoing(Some(m))), Received(Some(m), None), sender, serverTs, io);
  }

  /**
   A transcript with text is shown as sent to the first eight bytes of its destination, behind an
   arrow (E2 86 92), with the message's timestamp, else the transcript's, else the server's; it
   panics exactly if the ninth byte continues a character. One without text leaves no trace.
   */
  lemma TranscriptIsShown(db: Db, s: Sent, sender: Address, serverTs: u64, io: Io)
    requires TranscriptFits(s)
    ensures var to := if s.destination.Some? then s.destination.value else [];
      var d := DeliverOne(db, Incoming(Padded(EncodeTranscript(s)), sender, serverTs, io));
      d == if s.message.None? || s.message.value.body in {None, Some([])} then Delivered(db, [], false)
           else if |to| > 8 && 0x80 <= to[8] <= 0xBF then Delivered(db, [], true)
           else
             var author := [0xE2 as char, 0x86 as char, 0x92 as char] + Chars(if |to| > 8 then to[..8] else to);
             var ts := if s.message.value.timestamp.Some? then s.message.value.timestamp.value
                       else if s.timestamp.Some? then s.timestamp.value else serverTs;
             Delivered(db, [Posted(author, ts, s.message.value.body.value), Redrawn], false)
  {
    TranscriptReads(s);
    hide TranscriptFits, EncodeTranscript, DecodeReceived, DeliverOne, Padded, Peer.PrintPeer, Write;
    DeliversDecoded(db, EncodeTranscript(s), Received(None, Some(Sync(Some(s)))), sender, serverTs, io);
    var to := if s.destination.Some? then s.destination.value else [];
    assert |to| <= 8 ==> to[..Min(|to|, 8)] == to;
  }

  /** Seven ASCII bytes and then a character of two. */
  const OFF_BOUNDARY: seq<byte> := [0x61, 0x61, 0x61, 0x61, 0x61, 0x61, 0x61, 0xC3, 0xA9]

  const HI := DataMessage(Some([0x48, 0x69]), None)

  lemma OffBoundaryIsUtf8()
    ensures Utf8.Valid(OFF_BOUNDARY)
  {
    var front, last := OFF_BOUNDARY[..7], [0xC3, 0xA9];
    Utf8.AsciiIsValid(front);
    assert Utf8.CharLength(last) == 2;
    Utf8.ConcatIsValid(front, last);
    assert OFF_BOUNDARY == front + last;
  }

  const OFF_TRANSCRIPT := Sent(Some(OFF_BOUNDARY), None, Some(HI))

  lemma HiFits()
    ensures Fits(HI) && WriteFields(DataFields(HI)) == [0x0A, 2, 0x48, 0x69]
  {
    var body := Field(1, Bytes([0x48, 0x69]));
    Utf8.AsciiIsValid([0x48, 0x69]);
    assert DataFields(HI) == [body];
    assert WriteFields([body]) == [0x0A, 2, 0x48, 0x69];
  }

  lemma OffBoundaryFits()
    ensures TranscriptFits(OFF_TRANSCRIPT)
  {
    OffBoundaryIsUtf8();
    HiFits();
    hide Utf8.Valid, Fits, DataFields;
    var inner := [0x0A, 2, 0x48, 0x69];
    var a, b := Field(1, Bytes(OFF_BOUNDARY)), Field(3, Bytes(inner));
    assert SentFields(OFF_TRANSCRIPT) == [a, b];
    OneField(3, inner);
    OneField(1, OFF_BOUNDARY);
    assert [a, b][1..] == [b];
    assert WriteFields([a, b]) == WriteField(a) + WriteFields([b]);
    hide WriteFields, WriteField;
    OneField(1, WriteFields([a, b]));
  }

  lemma OneField(tag: nat, content: seq<byte>)
    requires tag < 16 && |content| < 128
    ensures |WriteFields([Field(tag, Bytes(content))])| == |WriteField(Field(tag, Bytes(content)))| == 2 + |content|
  {
    var f := Field(tag, Bytes(content));
    assert [f][1..] == [];
    assert WriteFields([f]) == WriteField(f) + [];
  }

  /** One plaintext on which delivery panics. */
  lemma OffBoundaryPanics(db: Db, sender: Address, serverTs: u64, io: Io)
    ensures DeliverOne(db, Incoming(Padded(EncodeTranscript(OFF_TRANSCRIPT)), sender, serverTs, io)).panicked
  {
    OffBoundaryFits();
    hide TranscriptFits, EncodeTranscript, DeliverOne;
    TranscriptIsShown(db, OFF_TRANSCRIPT, sender, serverTs, io);
  }
}
