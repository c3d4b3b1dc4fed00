/** The messages on the authenticated socket, as `src/manager/main_ws.rs` declares them. */
module WsProto {
  import opened Base
  import opened Wire
  import opened Crypto
  import Utf8

  datatype Request = Request(
    verb: Option<seq<byte>>, path: Option<seq<byte>>, body: Option<seq<byte>>, id: Option<u64>, headers: seq<seq<byte>>)

  datatype Response = Response(
    id: Option<u64>, status: Option<u32>, message: Option<seq<byte>>, body: Option<seq<byte>>, headers: seq<seq<byte>>)

  datatype WsMessage = WsMessage(kind: Option<c_int>, request: Option<Request>, response: Option<Response>)

  datatype Envelope = Envelope(
    kind: Option<c_int>, source: Option<seq<byte>>, device: Option<u32>, timestamp: Option<u64>,
    content: Option<seq<byte>>)

  const NO_REQUEST := Request(None, None, None, None, [])
  const NO_RESPONSE := Response(None, None, None, None, [])
  const NO_ENVELOPE := Envelope(None, None, None, None, None)

  function RequestField(m: Request, f: Field): Option<Request> {
    match f.tag
    case 1 => var s := ReadString(f.value); if s.None? then None else Some(m.(verb := s))
    case 2 => var s := ReadString(f.value); if s.None? then None else Some(m.(path := s))
    case 3 => var b := ReadBytes(f.value); if b.None? then None else Some(m.(body := b))
    case 4 => var n := ReadU64(f.value); if n.None? then None else Some(m.(id := n))
    case 5 => var s := ReadString(f.value); if s.None? then None else Some(m.(headers := m.headers + [s.value]))
    case _ => Some(m)
  }

  function ResponseField(m: Response, f: Field): Option<Response> {
    match f.tag
    case 1 => var n := ReadU64(f.value); if n.None? then None else Some(m.(id := n))
    case 2 => var n := ReadU32(f.value); if n.None? then None else Some(m.(status := n))
    case 3 => var s := ReadString(f.value); if s.None? then None else Some(m.(message := s))
    case 4 => var b := ReadBytes(f.value); if b.None? then None else Some(m.(body := b))
    case 5 => var s := ReadString(f.value); if s.None? then None else Some(m.(headers := m.headers + [s.value]))
    case _ => Some(m)
  }

  function MessageField(m: WsMessage, f: Field): Option<WsMessage> {
    match f.tag
    case 1 => var n := ReadI32(f.value); if n.None? then None else Some(m.(kind := n))
    case 2 =>
      var r := MergeInto(RequestField, NO_REQUEST, m.request, f.value);
      if r.None? then None else Some(m.(request := r))
    case 3 =>
      var r := MergeInto(ResponseField, NO_RESPONSE, m.response, f.value);
      if r.None? then None else Some(m.(response := r))
    case _ => Some(m)
  }

  function EnvelopeField(m: Envelope, f: Field): Option<Envelope> {
    match f.tag
    case 1 => var n := ReadI32(f.value); if n.None? then None else Some(m.(kind := n))
    case 2 => var s := ReadString(f.value); if s.None? then None else Some(m.(source := s))
    case 5 => var n := ReadU64(f.value); if n.None? then None else Some(m.(timestamp := n))
    case 7 => var n := ReadU32(f.value); if n.None? then None else Some(m.(device := n))
    case 8 => var b := ReadBytes(f.value); if b.None? then None else Some(m.(content := b))
    case _ => Some(m)
  }

  /** `WsMessageProto::decode`. */
  function DecodeMessage(bytes: seq<byte>): Option<WsMessage> {
    match ReadFields(bytes) case None => None case Some(fs) => Merge(MessageField, WsMessage(None, None, None), fs)
  }

  /** `EnvelopeProto::decode`. */
  function DecodeEnvelope(bytes: seq<byte>): Option<Envelope> {
    match ReadFields(bytes) case None => None case Some(fs) => Merge(EnvelopeField, NO_ENVELOPE, fs)
  }

  // ---- Encoding ---------------------------------------------------------------

  function Num32(tag: nat, o: Option<u32>): seq<Field> {
    if o.Some? then [Field(tag, Number(o.value))] else []
  }

  /** An `int32` is sign-extended to 64 bits. */
  function Int(tag: nat, o: Option<c_int>): seq<Field> {
    if o.Some? then [Field(tag, Number(if o.value >= 0 then o.value else o.value + TWO_TO_THE_64))] else []
  }

  function Each(tag: nat, texts: seq<seq<byte>>): seq<Field> {
    if texts == [] then [] else Each(tag, texts[..|texts| - 1]) + [Field(tag, Bytes(texts[|texts| - 1]))]
  }

  function RequestFields(r: Request): seq<Field> {
    Text(1, r.verb) + Text(2, r.path) + Text(3, r.body) + Num(4, r.id) + Each(5, r.headers)
  }

  function ResponseFields(r: Response): seq<Field> {
    Num(1, r.id) + Num32(2, r.status) + Text(3, r.message) + Text(4, r.body) + Each(5, r.headers)
  }

  function MessageFields(m: WsMessage): seq<Field> {
    Int(1, m.kind)
    + (if m.request.Some? then [Field(2, Bytes(WriteFields(RequestFields(m.request.value))))] else [])
    + (if m.response.Some? then [Field(3, Bytes(WriteFields(ResponseFields(m.response.value))))] else [])
  }

  function EnvelopeFields(e: Envelope): seq<Field> {
    Int(1, e.kind) + Text(2, e.source) + Num(5, e.timestamp) + Num32(7, e.device) + Text(8, e.content)
  }

  /** `encode_to_vec` of a message. */
  function EncodeMessage(m: WsMessage): seq<byte> {
    WriteFields(MessageFields(m))
  }

  function EncodeEnvelope(e: Envelope): seq<byte> {
    WriteFields(EnvelopeFields(e))
  }

  predicate IsUtf8(o: Option<seq<byte>>) {
    o.Some? ==> Utf8.Valid(o.value)
  }

  predicate RequestFits(r: Request) {
    && IsUtf8(r.verb) && IsUtf8(r.path) && (forall i :: 0 <= i < |r.headers| ==> Utf8.Valid(r.headers[i]))
    && AllWritable(RequestFields(r))
  }

  predicate ResponseFits(r: Response) {
    && IsUtf8(r.message) && (forall i :: 0 <= i < |r.headers| ==> Utf8.Valid(r.headers[i]))
    && AllWritable(ResponseFields(r))
  }

  predicate MessageFits(m: WsMessage) {
    && (m.request.Some? ==> RequestFits(m.request.value)) && (m.response.Some? ==> ResponseFits(m.response.value))
    && AllWritable(MessageFields(m))
  }

  predicate EnvelopeFits(e: Envelope) {
    IsUtf8(e.source) && AllWritable(EnvelopeFields(e))
  }

  /** Five groups of fields, merged one after the other. */
  lemma MergeFive<M>(step: (M, Field) -> Option<M>, m0: M, a: seq<Field>, m1: M, b: seq<Field>, m2: M,
    c: seq<Field>, m3: M, d: seq<Field>, m4: M, e: seq<Field>, m5: M)
    requires Merge(step, m0, a) == Some(m1) && Merge(step, m1, b) == Some(m2) && Merge(step, m2, c) == Some(m3)
    requires Merge(step, m3, d) == Some(m4) && Merge(step, m4, e) == Some(m5)
    ensures Merge(step, m0, a + b + c + d + e) == Some(m5)
  {
    hide Merge;
    MergeAppend(step, m0, a, b);
    MergeAppend(step, m0, a + b, c);
    MergeAppend(step, m0, a + b + c, d);
    MergeAppend(step, m0, a + b + c + d, e);
  }

  lemma {:induction false} RequestHeadersMerge(r: Request, headers: seq<seq<byte>>)
    requires r.headers == [] && forall i :: 0 <= i < |headers| ==> Utf8.Valid(headers[i])
    ensures Merge(RequestField, r, Each(5, headers)) == Some(r.(headers := headers))
  {
    hide Utf8.Valid;
    if headers == [] {
      assert r.(headers := []) == r;
    } else {
      var n := |headers| - 1;
      RequestHeadersMerge(r, headers[..n]);
      var last := [Field(5, Bytes(headers[n]))];
      MergeAppend(RequestField, r, Each(5, headers[..n]), last);
      MergeOne(RequestField, r.(headers := headers[..n]), last[0]);
      assert headers[..n] + [headers[n]] == headers;
    }
  }

  lemma {:induction false} ResponseHeadersMerge(r: Response, headers: seq<seq<byte>>)
    requires r.headers == [] && forall i :: 0 <= i < |headers| ==> Utf8.Valid(headers[i])
    ensures Merge(ResponseField, r, Each(5, headers)) == Some(r.(headers := headers))
  {
    hide Utf8.Valid;
    if headers == [] {
      assert r.(headers := []) == r;
    } else {
      var n := |headers| - 1;
      ResponseHeadersMerge(r, headers[..n]);
      var last := [Field(5, Bytes(headers[n]))];
      MergeAppend(ResponseField, r, Each(5, headers[..n]), last);
      MergeOne(ResponseField, r.(headers := headers[..n]), last[0]);
      assert headers[..n] + [headers[n]] == headers;
    }
  }

  lemma RequestTextsMerge(r: Request)
    requires IsUtf8(r.verb) && IsUtf8(r.path)
    ensures var m1, m2 := NO_REQUEST.(verb := r.verb), NO_REQUEST.(verb := r.verb, path := r.path);
      && Merge(RequestField, NO_REQUEST, Text(1, r.verb)) == Some(m1)
      && Merge(RequestField, m1, Text(2, r.path)) == Some(m2)
  {
    hide Utf8.Valid, Merge;
    var m1 := NO_REQUEST.(verb := r.verb);
    MergeAtMostOne(RequestField, NO_REQUEST, Text(1, r.verb), m1);
    MergeAtMostOne(RequestField, m1, Text(2, r.path), m1.(path := r.path));
  }

  lemma RequestRestMerges(r: Request)
    requires r.headers == []
    ensures var m2, m3 := r.(body := None, id := None), r.(id := None);
      && Merge(RequestField, m2, Text(3, r.body)) == Some(m3)
      && Merge(RequestField, m3, Num(4, r.id)) == Some(r)
  {
    hide Merge;
    MergeAtMostOne(RequestField, r.(body := None, id := None), Text(3, r.body), r.(id := None));
    MergeAtMostOne(RequestField, r.(id := None), Num(4, r.id), r);
  }

  lemma RequestMerges(r: Request)
    requires RequestFits(r)
    ensures MergeInto(RequestField, NO_REQUEST, None, Bytes(WriteFields(RequestFields(r)))) == Some(r)
  {
    ReadOfWritten(RequestFields(r));
    hide AllWritable, Merge, ReadFields, WriteFields, Text, Num, Each, RequestField;
    var bare := r.(headers := []);
    RequestTextsMerge(r);
    RequestRestMerges(bare);
    RequestHeadersMerge(bare, r.headers);
    MergeFive(RequestField, NO_REQUEST, Text(1, r.verb), NO_REQUEST.(verb := r.verb),
              Text(2, r.path), NO_REQUEST.(verb := r.verb, path := r.path), Text(3, r.body), bare.(id := None),
              Num(4, r.id), bare, Each(5, r.headers), r);
  }

  lemma ResponseNumbersMerge(r: Response)
    ensures var m1, m2 := NO_RESPONSE.(id := r.id), NO_RESPONSE.(id := r.id, status := r.status);
      && Merge(ResponseField, NO_RESPONSE, Num(1, r.id)) == Some(m1)
      && Merge(ResponseField, m1, Num32(2, r.status)) == Some(m2)
  {
    hide Merge;
    if r.status.Some? {
      ReadsU32(r.status.value);
    }
    hide ReadU32;
    var m1 := NO_RESPONSE.(id := r.id);
    MergeAtMostOne(ResponseField, NO_RESPONSE, Num(1, r.id), m1);
    MergeAtMostOne(ResponseField, m1, Num32(2, r.status), m1.(status := r.status));
  }

  lemma ResponseRestMerges(r: Response)
    requires r.headers == [] && IsUtf8(r.message)
    ensures var m2, m3 := r.(message := None, body := None), r.(body := None);
      && Merge(ResponseField, m2, Text(3, r.message)) == Some(m3)
      && Merge(ResponseField, m3, Text(4, r.body)) == Some(r)
  {
    hide Merge, Utf8.Valid;
    MergeAtMostOne(ResponseField, r.(message := None, body := None), Text(3, r.message), r.(body := None));
    MergeAtMostOne(ResponseField, r.(body := None), Text(4, r.body), r);
  }

  lemma ResponseMerges(r: Response)
    requires ResponseFits(r)
    ensures MergeInto(ResponseField, NO_RESPONSE, None, Bytes(WriteFields(ResponseFields(r)))) == Some(r)
  {
    ReadOfWritten(ResponseFields(r));
    hide AllWritable, Merge, ReadFields, WriteFields, Text, Num, Num32, Each, ResponseField;
    var bare := r.(headers := []);
    ResponseNumbersMerge(r);
    ResponseRestMerges(bare);
    ResponseHeadersMerge(bare, r.headers);
    MergeFive(ResponseField, NO_RESPONSE, Num(1, r.id), NO_RESPONSE.(id := r.id),
              Num32(2, r.status), NO_RESPONSE.(id := r.id, status := r.status), Text(3, r.message), bare.(body := None),
              Text(4, r.body), bare, Each(5, r.headers), r);
  }

  /** Every message decodes as it was encoded. */
  lemma MessageReads(m: WsMessage)
    requires MessageFits(m)
    ensures DecodeMessage(EncodeMessage(m)) == Some(m)
  {
    ReadOfWritten(MessageFields(m));
    if m.request.Some? {
      RequestMerges(m.request.value);
    }
    if m.response.Some? {
      ResponseMerges(m.response.value);
    }
    hide AllWritable, Merge, ReadFields, WriteFields, RequestFits, ResponseFits, MergeInto;
    if m.kind.Some? {
      ReadsI32(m.kind.value);
    }
    hide ReadI32;
    var m0, m1, m2 := WsMessage(None, None, None), WsMessage(m.kind, None, None), WsMessage(m.kind, m.request, None);
    var request := if m.request.Some? then [Field(2, Bytes(WriteFields(RequestFields(m.request.value))))] else [];
    var response := if m.response.Some? then [Field(3, Bytes(WriteFields(ResponseFields(m.response.value))))] else [];
    MergeAtMostOne(MessageField, m0, Int(1, m.kind), m1);
    MergeAtMostOne(MessageField, m1, request, m2);
    MergeAtMostOne(MessageField, m2, response, m);
    MergeAtMostOne(MessageField, m, [], m);
    MergeFive(MessageField, m0, Int(1, m.kind), m1, request, m2, response, m, [], m, [], m);
    assert MessageFields(m) == Int(1, m.kind) + request + response + [] + [];
  }

  lemma EnvelopeFrontMerges(e: Envelope)
    requires IsUtf8(e.source)
    ensures var m1 := NO_ENVELOPE.(kind := e.kind);
      var m2 := m1.(source := e.source);
      && Merge(EnvelopeField, NO_ENVELOPE, Int(1, e.kind)) == Some(m1)
      && Merge(EnvelopeField, m1, Text(2, e.source)) == Some(m2)
  {
    hide Utf8.Valid, Merge;
    if e.kind.Some? {
      ReadsI32(e.kind.value);
    }
    hide ReadI32;
    MergeAtMostOne(EnvelopeField, NO_ENVELOPE, Int(1, e.kind), NO_ENVELOPE.(kind := e.kind));
    MergeAtMostOne(EnvelopeField, NO_ENVELOPE.(kind := e.kind), Text(2, e.source),
                   NO_ENVELOPE.(kind := e.kind, source := e.source));
  }

  lemma EnvelopeBackMerges(e: Envelope)
    ensures var m2 := NO_ENVELOPE.(kind := e.kind, source := e.source);
      var m3 := m2.(timestamp := e.timestamp);
      var m4 := m3.(device := e.device);
      && Merge(EnvelopeField, m2, Num(5, e.timestamp)) == Some(m3)
      && Merge(EnvelopeField, m3, Num32(7, e.device)) == Some(m4)
      && Merge(EnvelopeField, m4, Text(8, e.content)) == Some(e)
  {
    hide Merge;
    if e.device.Some? {
      ReadsU32(e.device.value);
    }
    hide ReadU32;
    var m2 := NO_ENVELOPE.(kind := e.kind, source := e.source);
    MergeAtMostOne(EnvelopeField, m2, Num(5, e.timestamp), m2.(timestamp := e.timestamp));
    MergeAtMostOne(EnvelopeField, m2.(timestamp := e.timestamp), Num32(7, e.device), e.(content := None));
    MergeAtMostOne(EnvelopeField, e.(content := None), Text(8, e.content), e);
  }

  /** Every envelope decodes as it was encoded. */
  lemma EnvelopeReads(e: Envelope)
    requires EnvelopeFits(e)
    ensures DecodeEnvelope(EncodeEnvelope(e)) == Some(e)
  {
    ReadOfWritten(EnvelopeFields(e));
    hide AllWritable, Merge, ReadFields, WriteFields, Int, Text, Num, Num32, EnvelopeField;
    EnvelopeFrontMerges(e);
    EnvelopeBackMerges(e);
    var m2 := NO_ENVELOPE.(kind := e.kind, source := e.source);
    MergeFive(EnvelopeField, NO_ENVELOPE, Int(1, e.kind), NO_ENVELOPE.(kind := e.kind), Text(2, e.source), m2,
              Num(5, e.timestamp), m2.(timestamp := e.timestamp), Num32(7, e.device), e.(content := None),
              Text(8, e.content), e);
  }

  // ---- What the client sends --------------------------------------------------

  function OkText(): seq<byte> { Ascii("OK") }
  function GetVerb(): seq<byte> { Ascii("GET") }
  function KeepalivePath(): seq<byte> { Ascii("/v1/keepalive") }

  /** The message of `send_ack`. */
  function AckMessage(id: u64, status: u32): WsMessage {
    WsMessage(Some(2), None, Some(Response(Some(id), Some(status), Some(OkText()), None, [])))
  }

  function EncodeAck(id: u64, status: u32): seq<byte> {
    EncodeMessage(AckMessage(id, status))
  }

  /** The application keepalive. */
  function KeepaliveMessage(id: u64): WsMessage {
    WsMessage(Some(1), Some(Request(Some(GetVerb()), Some(KeepalivePath()), None, Some(id), [])), None)
  }

  function EncodeKeepalive(id: u64): seq<byte> {
    EncodeMessage(KeepaliveMessage(id))
  }

  lemma ThreeFields(a: Field, b: Field, c: Field)
    ensures WriteFields([a, b, c]) == WriteField(a) + (WriteField(b) + WriteField(c))
  {
    assert [a, b, c][1..] == [b, c] && [b, c][1..] == [c] && [c][1..] == [];
    assert WriteFields([c]) == WriteField(c) + [] == WriteField(c);
    assert WriteFields([b, c]) == WriteField(b) + WriteField(c);
  }

  lemma AsciiIsUtf8(s: string)
    requires forall i :: 0 <= i < |s| ==> s[i] < 128 as char
    ensures Utf8.Valid(Ascii(s)) && |Ascii(s)| == |s|
  {
    Utf8.AsciiIsValid(Ascii(s));
  }

  predicate IsShort(f: Field) {
    Writable(f) && (f.value.Number? || (f.value.Bytes? && |f.value.bytes| <= 20))
  }

  lemma ThreeShortFields(fs: seq<Field>)
    requires |fs| == 3 && IsShort(fs[0]) && IsShort(fs[1]) && IsShort(fs[2])
    ensures AllWritable(fs) && |WriteFields(fs)| < TWO_TO_THE_32
  {
    hide Varint, WriteField;
    assert fs == [fs[0], fs[1], fs[2]];
    ThreeFields(fs[0], fs[1], fs[2]);
    ScalarLength(fs[0].tag, fs[0].value, 20);
    ScalarLength(fs[1].tag, fs[1].value, 20);
    ScalarLength(fs[2].tag, fs[2].value, 20);
  }

  lemma OkIsText()
    ensures Utf8.Valid(OkText()) && |OkText()| == 2
  {
    hide Utf8.Valid;
    AsciiIsUtf8("OK");
  }

  lemma KeepaliveTexts()
    ensures Utf8.Valid(GetVerb()) && |GetVerb()| == 3
    ensures Utf8.Valid(KeepalivePath()) && |KeepalivePath()| == 13
  {
    hide Utf8.Valid;
    AsciiIsUtf8("GET");
    AsciiIsUtf8("/v1/keepalive");
  }

  lemma AckFits(id: u64, status: u32)
    ensures MessageFits(AckMessage(id, status))
  {
    hide Utf8.Valid, WriteFields, OkText;
    OkIsText();
    var r := AckMessage(id, status).response.value;
    assert ResponseFields(r) == [Field(1, Number(id)), Field(2, Number(status)), Field(3, Bytes(OkText()))];
    ThreeShortFields(ResponseFields(r));
  }

  lemma KeepaliveFits(id: u64)
    ensures MessageFits(KeepaliveMessage(id))
  {
    hide Utf8.Valid, WriteFields, GetVerb, KeepalivePath;
    KeepaliveTexts();
    var r := KeepaliveMessage(id).request.value;
    assert RequestFields(r) == [Field(1, Bytes(GetVerb())), Field(2, Bytes(KeepalivePath())), Field(4, Number(id))];
    ThreeShortFields(RequestFields(r));
  }

  /** The server reads the acknowledgement as a response with that id and status and the message OK. */
  lemma AckReads(id: u64, status: u32)
    ensures DecodeMessage(EncodeAck(id, status)) ==
            Some(WsMessage(Some(2), None, Some(Response(Some(id), Some(status), Some(Ascii("OK")), None, []))))
  {
    AckFits(id, status);
    MessageReads(AckMessage(id, status));
    hide EncodeMessage, DecodeMessage, MessageFits;
  }

  /** The server reads the keepalive as `GET /v1/keepalive` with that id. */
  lemma KeepaliveReads(id: u64)
    ensures var request := Request(Some(Ascii("GET")), Some(Ascii("/v1/keepalive")), None, Some(id), []);
      DecodeMessage(EncodeKeepalive(id)) == Some(WsMessage(Some(1), Some(request), None))
  {
    KeepaliveFits(id);
    MessageReads(KeepaliveMessage(id));
    hide EncodeMessage, DecodeMessage, MessageFits;
  }
}
