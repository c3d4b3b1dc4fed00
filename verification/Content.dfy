/**
 The Content message of both directions: the sender's schema and encoder (`src/manager/outgoing.rs`),
 the receiver's schema and decoder (`src/manager/main_ws.rs`), and the padding layer between them.
 Byte strings stand for Rust `String`s that hold well-formed UTF-8.
 */
module Content {
  import opened Base
  import opened Wire
  import Utf8

  // ---- Schemas ----------------------------------------------------------------

  datatype DataMessage = DataMessage(body: Option<seq<byte>>, timestamp: Option<u64>)

  datatype Sent = Sent(destination: Option<seq<byte>>, timestamp: Option<u64>, message: Option<DataMessage>)

  datatype Sync = Sync(sent: Option<Sent>)

  /** The receiver's ContentProto. */
  datatype Received = Received(dataMessage: Option<DataMessage>, syncMessage: Option<Sync>)

  /** The sender's ContentProto. */
  datatype Outgoing = Outgoing(dataMessage: Option<DataMessage>)

  const NO_DATA := DataMessage(None, None)
  const NO_SENT := Sent(None, None, None)

  /** The last value of a scalar wins, unknown tags are skipped. */
  function DataField(m: DataMessage, f: Field): Option<DataMessage> {
    match f.tag
    case 1 => var s := ReadString(f.value); if s.None? then None else Some(m.(body := s))
    case 5 => var n := ReadU64(f.value); if n.None? then None else Some(m.(timestamp := n))
    case _ => Some(m)
  }

  function MergeData(m: Option<DataMessage>, v: Value): Option<DataMessage> {
    MergeInto(DataField, NO_DATA, m, v)
  }

  function SentField(m: Sent, f: Field): Option<Sent> {
    match f.tag
    case 1 => var s := ReadString(f.value); if s.None? then None else Some(m.(destination := s))
    case 2 => var n := ReadU64(f.value); if n.None? then None else Some(m.(timestamp := n))
    case 3 => var d := MergeData(m.message, f.value); if d.None? then None else Some(m.(message := d))
    case _ => Some(m)
  }

  function SyncField(m: Sync, f: Field): Option<Sync> {
    if f.tag != 1 then Some(m)
    else
      var s := MergeInto(SentField, NO_SENT, m.sent, f.value);
      if s.None? then None else Some(Sync(s))
  }

  function ReceivedField(m: Received, f: Field): Option<Received> {
    match f.tag
    case 1 => var d := MergeData(m.dataMessage, f.value); if d.None? then None else Some(m.(dataMessage := d))
    case 2 =>
      var s := MergeInto(SyncField, Sync(None), m.syncMessage, f.value);
      if s.None? then None else Some(m.(syncMessage := s))
    case _ => Some(m)
  }

  function OutgoingField(m: Outgoing, f: Field): Option<Outgoing> {
    if f.tag != 1 then Some(m)
    else
      var d := MergeData(m.dataMessage, f.value);
      if d.None? then None else Some(Outgoing(d))
  }

  /** `ContentProto::decode` of main_ws.rs. */
  function DecodeReceived(bytes: seq<byte>): Option<Received> {
    match ReadFields(bytes) case None => None case Some(fs) => Merge(ReceivedField, Received(None, None), fs)
  }

  /** `ContentProto::decode` of outgoing.rs. */
  function DecodeOutgoing(bytes: seq<byte>): Option<Outgoing> {
    match ReadFields(bytes) case None => None case Some(fs) => Merge(OutgoingField, Outgoing(None), fs)
  }

  function DataFields(m: DataMessage): seq<Field> {
    Text(1, m.body) + Num(5, m.timestamp)
  }

  /** `encode_to_vec` of outgoing.rs. */
  function EncodeOutgoing(c: Outgoing): seq<byte> {
    if c.dataMessage.None? then []
    else WriteField(Field(1, Bytes(WriteFields(DataFields(c.dataMessage.value)))))
  }

  /** What a schema of the tag-2 fields alone would make of a field. */
  function SyncTagField(m: Option<Sync>, f: Field): Option<Option<Sync>> {
    if f.tag != 2 then Some(m)
    else
      var s := MergeInto(SyncField, Sync(None), m, f.value);
      if s.None? then None else Some(s)
  }

  function DecodeSyncTag(bytes: seq<byte>): Option<Option<Sync>> {
    match ReadFields(bytes) case None => None case Some(fs) => Merge(SyncTagField, None, fs)
  }

  function Both(o: Option<Outgoing>, y: Option<Option<Sync>>): Option<Received> {
    if o.Some? && y.Some? then Some(Received(o.value.dataMessage, y.value)) else None
  }

  lemma {:induction false} MergesAgree(o: Outgoing, y: Option<Sync>, fs: seq<Field>)
    ensures Merge(ReceivedField, Received(o.dataMessage, y), fs) ==
            Both(Merge(OutgoingField, o, fs), Merge(SyncTagField, y, fs))
    decreases |fs|
  {
    hide MergeInto, MergeData;
    if fs != [] {
      var o', y' := OutgoingField(o, fs[0]), SyncTagField(y, fs[0]);
      if o'.Some? && y'.Some? {
        MergesAgree(o'.value, y'.value, fs[1..]);
      }
    }
  }

  /**
   The two schemas agree on every byte string: the receiver accepts it exactly if the sender's
   schema does and every tag-2 field merges as a SyncMessage, and then both read one data message.
   */
  lemma SchemasAgree(bytes: seq<byte>)
    ensures DecodeReceived(bytes).Some? <==> DecodeOutgoing(bytes).Some? && DecodeSyncTag(bytes).Some?
    ensures DecodeReceived(bytes).Some? ==>
      DecodeReceived(bytes).value == Received(DecodeOutgoing(bytes).value.dataMessage, DecodeSyncTag(bytes).value)
  {
    if ReadFields(bytes).Some? {
      MergesAgree(Outgoing(None), None, ReadFields(bytes).value);
    }
    hide ReadFields, ReceivedField, OutgoingField, SyncTagField;
  }

  /** The sender's schema skips a tag-2 field that the receiver rejects: here a number in place of a message. */
  lemma SchemasDiffer()
    ensures DecodeOutgoing([0x10, 0x00]) == Some(Outgoing(None))
    ensures DecodeReceived([0x10, 0x00]) == None
  {
    var f := Field(2, Number(0));
    assert WriteFields([f]) == [0x10, 0x00];
    ReadOfWritten([f]);
    MergeOne(OutgoingField, Outgoing(None), f);
    MergeOne(ReceivedField, Received(None, None), f);
  }

  /** Lengths stay far below 2^64 on any machine; only then can a length prefix be written. */
  predicate Fits(m: DataMessage) {
    && (m.body.Some? ==> Utf8.Valid(m.body.value) && |m.body.value| < TWO_TO_THE_64)
    && |WriteFields(DataFields(m))| < TWO_TO_THE_64
  }

  lemma DataRoundTrip(m: DataMessage)
    requires Fits(m)
    ensures MergeData(None, Bytes(WriteFields(DataFields(m)))) == Some(m)
  {
    ReadOfWritten(DataFields(m));
    hide Merge, Utf8.Valid, WriteFields, ReadFields;
    MergeAtMostOne(DataField, NO_DATA, Text(1, m.body), NO_DATA.(body := m.body));
    MergeAtMostOne(DataField, NO_DATA.(body := m.body), Num(5, m.timestamp), m);
    MergeAppend(DataField, NO_DATA, Text(1, m.body), Num(5, m.timestamp));
  }

  /** The receiver decodes exactly the data message the sender encoded. */
  lemma ReceiverReadsSender(m: DataMessage)
    requires Fits(m)
    ensures DecodeReceived(EncodeOutgoing(Outgoing(Some(m)))) == Some(Received(Some(m), None))
  {
    var f := Field(1, Bytes(WriteFields(DataFields(m))));
    DataRoundTrip(m);
    ReadOfWritten([f]);
    assert [f][1..] == [];
    assert WriteFields([f]) == WriteField(f) + [] == WriteField(f);
    hide MergeData, WriteField, ReadFields, DataFields;
    MergeOne(ReceivedField, Received(None, None), f);
  }

  // ---- Sent transcripts -------------------------------------------------------

  function SentFields(s: Sent): seq<Field> {
    Text(1, s.destination) + Num(2, s.timestamp) + MessageField(s.message)
  }

  function SyncBytes(s: Sent): seq<byte> {
    WriteFields([Field(1, Bytes(WriteFields(SentFields(s))))])
  }

  /** A content in which another device of the account reports what it sent. */
  function EncodeTranscript(s: Sent): seq<byte> {
    WriteFields([Field(2, Bytes(SyncBytes(s)))])
  }

  predicate TranscriptFits(s: Sent) {
    && (s.destination.Some? ==> Utf8.Valid(s.destination.value)) && (s.message.Some? ==> Fits(s.message.value))
    && AllWritable(SentFields(s)) && |WriteFields(SentFields(s))| < TWO_TO_THE_64 && |SyncBytes(s)| < TWO_TO_THE_64
  }

  function MessageField(m: Option<DataMessage>): seq<Field> {
    if m.Some? then [Field(3, Bytes(WriteFields(DataFields(m.value))))] else []
  }

  lemma SentPartsMerge(s: Sent)
    requires TranscriptFits(s)
    ensures var s1, s2 := NO_SENT.(destination := s.destination), s.(message := None);
      && Merge(SentField, NO_SENT, Text(1, s.destination)) == Some(s1)
      && Merge(SentField, s1, Num(2, s.timestamp)) == Some(s2)
      && Merge(SentField, s2, MessageField(s.message)) == Some(s)
  {
    if s.message.Some? {
      DataRoundTrip(s.message.value);
    }
    hide MergeData, WriteFields, Merge, Fits, Utf8.Valid, DataFields, AllWritable;
    var s1, s2 := NO_SENT.(destination := s.destination), s.(message := None);
    MergeAtMostOne(SentField, NO_SENT, Text(1, s.destination), s1);
    MergeAtMostOne(SentField, s1, Num(2, s.timestamp), s2);
    MergeAtMostOne(SentField, s2, MessageField(s.message), s);
  }

  lemma SentReads(s: Sent)
    requires TranscriptFits(s)
    ensures MergeInto(SentField, NO_SENT, None, Bytes(WriteFields(SentFields(s)))) == Some(s)
  {
    ReadOfWritten(SentFields(s));
    SentPartsMerge(s);
    hide SentField, ReadFields, WriteFields, Merge, Text, Num, MessageField, TranscriptFits;
    MergeAppend(SentField, NO_SENT, Text(1, s.destination), Num(2, s.timestamp));
    MergeAppend(SentField, NO_SENT, Text(1, s.destination) + Num(2, s.timestamp), MessageField(s.message));
  }

  /** The receiver decodes exactly that transcript. */
  lemma TranscriptReads(s: Sent)
    requires TranscriptFits(s)
    ensures DecodeReceived(EncodeTranscript(s)) == Some(Received(None, Some(Sync(Some(s)))))
  {
    var inner := Field(1, Bytes(WriteFields(SentFields(s))));
    var outer := Field(2, Bytes(SyncBytes(s)));
    SentReads(s);
    ReadOfWritten([inner]);
    ReadOfWritten([outer]);
    hide ReadFields, WriteFields, SentFields;
    MergeOne(SyncField, Sync(None), inner);
    MergeOne(ReceivedField, Received(None, None), outer);
  }

  // ---- Padding ----------------------------------------------------------------

  const PAD_BLOCK := 160

  function Zeros(n: nat): (s: seq<byte>)
    ensures |s| == n
  {
    if n == 0 then [] else Zeros(n - 1) + [0]
  }

  /** The marker, then zeros up to the least multiple of 160 above the content's length. */
  function Padded(content: seq<byte>): seq<byte> {
    content + [0x80] + Zeros(PAD_BLOCK * (|content| / PAD_BLOCK + 1) - |content| - 1)
  }

  function Stripped(s: seq<byte>): seq<byte> {
    if s != [] && s[|s| - 1] == 0 then Stripped(s[..|s| - 1])
    else if s != [] && s[|s| - 1] == 0x80 then s[..|s| - 1]
    else s
  }

  /** `signal_pad`. */
  method SignalPad(content: seq<byte>) returns (padded: seq<byte>)
    ensures padded == Padded(content)
  {
    padded := content + [0x80];
    ghost var n := 0;
    while |padded| % PAD_BLOCK != 0
      invariant padded == content + [0x80] + Zeros(n)
      invariant |padded| <= PAD_BLOCK * (|content| / PAD_BLOCK + 1)
      decreases PAD_BLOCK * (|content| / PAD_BLOCK + 1) - |padded|
    {
      assert |padded| != PAD_BLOCK * (|content| / PAD_BLOCK + 1);
      padded := padded + [0];
      n := n + 1;
    }
  }

  /** `strip_signal_padding`. */
  method StripSignalPadding(plaintext: seq<byte>) returns (stripped: seq<byte>)
    ensures stripped == Stripped(plaintext)
  {
    stripped := plaintext;
    while stripped != [] && stripped[|stripped| - 1] == 0
      invariant Stripped(stripped) == Stripped(plaintext)
    {
      stripped := stripped[..|stripped| - 1];
    }
    if stripped != [] && stripped[|stripped| - 1] == 0x80 {
      stripped := stripped[..|stripped| - 1];
    }
  }

  lemma {:induction false} ZerosAreZero(n: nat)
    ensures forall i :: 0 <= i < n ==> Zeros(n)[i] == 0
  {
    if n > 0 {
      ZerosAreZero(n - 1);
    }
  }

  /** Padding adds 0x80 and then zeros up to the least multiple of 160 strictly above the content's length. */
  lemma PaddedShape(content: seq<byte>, m: nat)
    ensures var p, n := Padded(content), |content|;
      && |p| % 160 == 0 && |p| > n && (m % 160 == 0 && m > n ==> |p| <= m)
      && p[..n] == content && p[n] == 0x80 && forall i :: n < i < |p| ==> p[i] == 0
  {
    ZerosAreZero(160 * (|content| / 160 + 1) - |content| - 1);
  }

  /** What is left of `s` is the part before a 0x80 that only zeros follow, or else all of it but its last zeros. */
  predicate StripsTo(s: seq<byte>, r: seq<byte>) {
    && |r| <= |s| && r == s[..|r|]
    && (|| (|r| < |s| && s[|r|] == 0x80 && forall i :: |r| < i < |s| ==> s[i] == 0)
        || ((r == [] || r[|r| - 1] !in {0, 0x80}) && forall i :: |r| <= i < |s| ==> s[i] == 0))
  }

  /** Stripping removes exactly that, whether or not `s` was ever padded. */
  lemma {:induction false} StrippedIff(s: seq<byte>, r: seq<byte>)
    ensures Stripped(s) == r <==> StripsTo(s, r)
  {
    if s != [] && s[|s| - 1] == 0 {
      StrippedIff(s[..|s| - 1], r);
      assert StripsTo(s[..|s| - 1], r) <==> StripsTo(s, r) by {
        StripsWithoutZero(s, r);
      }
    } else if s != [] && s[|s| - 1] == 0x80 {
      assert s == s[..|s| - 1] + [0x80];
      assert StripsTo(s, r) ==> |r| == |s| - 1;
    } else {
      assert StripsTo(s, r) ==> |r| == |s|;
    }
  }

  lemma StripsWithoutZero(s: seq<byte>, r: seq<byte>)
    requires s != [] && s[|s| - 1] == 0
    ensures StripsTo(s[..|s| - 1], r) <==> StripsTo(s, r)
  {
    var t := s[..|s| - 1];
    if |r| < |s| {
      assert t[..|r|] == s[..|r|];
    }
  }

  lemma {:induction false} StripZeros(s: seq<byte>, n: nat)
    ensures Stripped(s + Zeros(n)) == Stripped(s)
  {
    if n == 0 {
      assert s + Zeros(0) == s;
    } else {
      assert (s + Zeros(n))[..|s| + n - 1] == s + Zeros(n - 1);
      StripZeros(s, n - 1);
    }
  }

  /** Stripping undoes padding on every byte string, also one that itself ends in zeros or in 0x80. */
  lemma StripUndoesPad(content: seq<byte>)
    ensures Stripped(Padded(content)) == content
  {
    StripZeros(content + [0x80], PAD_BLOCK * (|content| / PAD_BLOCK + 1) - |content| - 1);
    assert (content + [0x80])[..|content|] == content;
  }
}
