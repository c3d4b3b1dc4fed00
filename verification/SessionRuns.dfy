/** What holds of every receive session: acknowledgements, keepalives, deliveries and the reply address. */
module SessionRuns {
  import opened Base
  import opened PddbModel
  import opened WsProto
  import opened Routing
  import opened Delivery
  import opened Session
  import opened Crypto
  import AccountCache
  import Peer

  /** The turn comes to its read: no send before it is due, or each due one succeeds. */
  predicate ReachesRead(s: State, t: Turn) {
    && s.control.Live?
    && (t.pingCheck >= s.lastPing + 25_000 ==> t.pingOk)
    && (t.appCheck >= s.lastApp + 55_000 ==> t.appOk)
  }

  /** Sends before the read touch neither storage nor chat window. */
  lemma BeforeReadKeeps(s: State, t: Turn)
    requires s.control.Live?
    ensures var b := BeforeRead(s, t);
      && b.s.db == s.db && b.s.shown == s.shown && !b.s.control.Panicked?
      && (b.s.control.Live? <==> ReachesRead(s, t))
      && Iterate(s, t) == if b.s.control.Live? then Outcome(ReadOne(b.s, t).s, b.log + ReadOne(b.s, t).log) else b
  {
    hide EncodeKeepalive, ReadOne;
  }

  // ---- Acknowledgements -------------------------------------------------------

  /** A request read by the session, with the fate of its acknowledgement. */
  datatype Heard = Heard(request: Request, ackOk: bool)

  /** A binary frame of type 1 with a request in it, if the turn comes to its read. */
  function HeardIn(s: State, t: Turn): seq<Heard> {
    var m := if ReachesRead(s, t) && t.frame.BinaryFrame? then DecodeMessage(t.frame.bytes) else None;
    if m.Some? && m.value.kind == Some(1) && m.value.request.Some? then [Heard(m.value.request.value, t.ackOk)] else []
  }

  lemma HeardIsRequestIn(s: State, t: Turn)
    ensures HeardIn(s, t) == if ReachesRead(s, t) && RequestIn(t.frame).Some?
                             then [Heard(RequestIn(t.frame).value, t.ackOk)] else []
  {
    hide DecodeMessage, ReachesRead;
  }

  /** Of the messages a server can encode, the session hears exactly the requests of type 1, as they were encoded. */
  lemma EncodedRequestsAreHeard(s: State, t: Turn, m: WsMessage)
    requires MessageFits(m) && t.frame == BinaryFrame(EncodeMessage(m))
    ensures HeardIn(s, t) == if ReachesRead(s, t) && m.kind == Some(1) && m.request.Some?
                             then [Heard(m.request.value, t.ackOk)] else []
  {
    MessageReads(m);
    hide DecodeMessage, EncodeMessage, MessageFits, ReachesRead;
  }

  /** All requests the session read, in order. */
  function HeardBy(s: State, turns: seq<Turn>): seq<Heard> {
    if turns == [] then []
    else
      var n := |turns| - 1;
      HeardBy(s, turns[..n]) + HeardIn(Run(s, turns[..n]).s, turns[n])
  }

  function Ack(h: Heard): Output {
    var id := if h.request.id.Some? then h.request.id.value else 0;
    Acked(EncodeMessage(WsMessage(Some(2), None, Some(Response(Some(id), Some(200), Some(Ascii("OK")), None, [])))),
          h.ackOk)
  }

  predicate IsMessage(r: Request) {
    r.verb == Some(Ascii("PUT")) && r.path == Some(Ascii("/api/v1/message"))
  }

  /** A request is answered by processing its envelope, if it carries one, and then acknowledging it. */
  function Answer(h: Heard): seq<Output> {
    var r := h.request;
    (if IsMessage(r) && r.body.Some? then [Dispatched(r.body.value)] else []) + [Ack(h)]
  }

  function Answers(hs: seq<Heard>): seq<Output> {
    if hs == [] then [] else Answers(hs[..|hs| - 1]) + Answer(hs[|hs| - 1])
  }

  /** The part of a log that handles requests. */
  function Handled(log: seq<Output>): seq<Output> {
    if log == [] then []
    else
      var o := log[|log| - 1];
      Handled(log[..|log| - 1]) + if o.Dispatched? || o.Acked? then [o] else []
  }

  lemma {:induction false} HandledAppend(a: seq<Output>, b: seq<Output>)
    ensures Handled(a + b) == Handled(a) + Handled(b)
  {
    if b == [] {
      assert a + b == a;
    } else {
      assert (a + b)[..|a + b| - 1] == a + b[..|b| - 1];
      HandledAppend(a, b[..|b| - 1]);
    }
  }

  lemma HandledTwo(a: Output, b: Output)
    ensures Handled([a]) == if a.Dispatched? || a.Acked? then [a] else []
    ensures Handled([a, b]) == Handled([a]) + Handled([b])
  {
    assert [a][..0] == [] && [a, b] == [a] + [b];
    HandledAppend([a], [b]);
  }

  lemma AnswersOneMore(hs: seq<Heard>, h: Heard)
    ensures Answers(hs + [h]) == Answers(hs) + Answer(h)
  {
    assert (hs + [h])[..|hs|] == hs;
  }

  /** One iteration answers the request it heard; a panic while processing it leaves out the acknowledgement. */
  lemma IterationAnswers(s: State, t: Turn)
    requires s.control.Live?
    ensures var o, hs := Iterate(s, t), HeardIn(s, t);
      && |hs| <= 1
      && (o.s.control.Panicked? ==> hs != [] && Handled(o.log) + [Ack(hs[0])] == Answer(hs[0]))
      && (!o.s.control.Panicked? ==> Handled(o.log) == if hs == [] then [] else Answer(hs[0]))
  {
    HeardIsRequestIn(s, t);
    hide BeforeRead, Iterate, ReadOne, Answer, Ack, Handled, RequestIn, HeardIn, ReachesRead;
    var b := BeforeRead(s, t);
    NothingHandledBeforeRead(s, t);
    BeforeReadKeeps(s, t);
    if b.s.control.Live? {
      ReadAnswers(b.s, t);
      HandledAppend(b.log, ReadOne(b.s, t).log);
    }
  }

  lemma ReadAnswers(s: State, t: Turn)
    requires s.control.Live?
    ensures var o := ReadOne(s, t);
      && (RequestIn(t.frame).None? ==> Handled(o.log) == [] && !o.s.control.Panicked?)
      && (RequestIn(t.frame).Some? ==>
            var h := Heard(RequestIn(t.frame).value, t.ackOk);
            if o.s.control.Panicked? then Handled(o.log) + [Ack(h)] == Answer(h) else Handled(o.log) == Answer(h))
  {
    hide DecodeMessage, Handle, Ack, Answer, Handled;
    if RequestIn(t.frame).Some? {
      var h := Heard(RequestIn(t.frame).value, t.ackOk);
      AllHandled(h);
      HandleAnswers(s, h.request, t);
    } else {
      NothingHandled();
    }
  }

  /** The log of one request is its answer, or its answer up to the acknowledgement. */
  lemma HandleAnswers(s: State, r: Request, t: Turn)
    requires s.control.Live?
    ensures var o, h := Handle(s, r, t), Heard(r, t.ackOk);
      && (o.s.control.Panicked? ==> |Answer(h)| == 2 && o.log == [Answer(h)[0]])
      && (!o.s.control.Panicked? ==> o.log == Answer(h))
  {
    hide Route, DeliverOne, EncodeMessage, Ascii;
  }

  lemma AllHandled(h: Heard)
    ensures Handled(Answer(h)) == Answer(h)
    ensures |Answer(h)| == 2 ==> Handled([Answer(h)[0]]) == [Answer(h)[0]] && Answer(h) == [Answer(h)[0]] + [Ack(h)]
  {
    hide EncodeMessage, Ascii;
    HandledTwo(Answer(h)[0], Ack(h));
    HandledTwo(Ack(h), Ack(h));
  }

  lemma NothingHandledBeforeRead(s: State, t: Turn)
    requires s.control.Live?
    ensures Handled(BeforeRead(s, t).log) == [] && !BeforeRead(s, t).s.control.Panicked?
  {
    hide EncodeKeepalive;
    var p := Ping(s, t);
    assert Handled(p.log) == [] by {
      if p.log != [] {
        HandledTwo(p.log[0], p.log[0]);
      }
    }
    if p.s.control.Live? {
      var k := AppKeepalive(p.s, t);
      HandledAppend(p.log, k.log);
      if k.log != [] {
        HandledTwo(k.log[0], k.log[0]);
      }
    }
  }

  /**
   Over any session, the requests are answered one by one, in order, each with one status-200
   response with the request's id (0 if absent) after its envelope was processed. Only a session
   that a panic ended lacks the acknowledgement of its last request.
   */
  lemma {:induction false} RequestsAreAnswered(s: State, turns: seq<Turn>)
    requires s.control.Live?
    ensures var o, hs := Run(s, turns), HeardBy(s, turns);
      && (o.s.control.Panicked? ==> hs != [] && Handled(o.log) + [Ack(hs[|hs| - 1])] == Answers(hs))
      && (!o.s.control.Panicked? ==> Handled(o.log) == Answers(hs))
  {
    hide HeardIn, Iterate, Handled, Answer, Ack, Answers;
    if turns == [] {
      NothingHandled();
    } else {
      var n := |turns| - 1;
      var o, hs := Run(s, turns[..n]), HeardBy(s, turns[..n]);
      var h := HeardIn(o.s, turns[n]);
      RequestsAreAnswered(s, turns[..n]);
      assert h == [] ==> HeardBy(s, turns) == hs;
      if o.s.control.Live? {
        IterationAnswers(o.s, turns[n]);
        HandledAppend(o.log, Iterate(o.s, turns[n]).log);
        if h != [] {
          assert h == [h[0]];
          AnswersOneMore(hs, h[0]);
        }
      } else {
        NothingIsHeard(o.s, turns[n]);
      }
    }
  }

  lemma NothingHandled()
    ensures Handled([]) == [] == Answers([])
  {
  }

  lemma NothingIsHeard(s: State, t: Turn)
    requires !s.control.Live?
    ensures HeardIn(s, t) == []
  {
  }

  function Acks(log: seq<Output>): seq<Output> {
    if log == [] then []
    else
      var o := log[|log| - 1];
      Acks(log[..|log| - 1]) + if o.Acked? then [o] else []
  }

  lemma {:induction false} AcksAppend(a: seq<Output>, b: seq<Output>)
    ensures Acks(a + b) == Acks(a) + Acks(b)
  {
    if b == [] {
      assert a + b == a;
    } else {
      assert (a + b)[..|a + b| - 1] == a + b[..|b| - 1];
      AcksAppend(a, b[..|b| - 1]);
    }
  }

  lemma {:induction false} AcksOfHandled(log: seq<Output>)
    ensures Acks(Handled(log)) == Acks(log)
  {
    if log != [] {
      var n := |log| - 1;
      var last := if log[n].Dispatched? || log[n].Acked? then [log[n]] else [];
      AcksOfHandled(log[..n]);
      AcksAppend(Handled(log[..n]), last);
      if last != [] {
        assert last[..0] == [];
      }
    }
  }

  lemma {:induction false} AcksOfAnswers(hs: seq<Heard>)
    ensures |Acks(Answers(hs))| == |hs|
    ensures forall k :: 0 <= k < |hs| ==> Acks(Answers(hs))[k] == Ack(hs[k])
  {
    hide Ack, Answer;
    if hs != [] {
      var n := |hs| - 1;
      AcksOfAnswers(hs[..n]);
      AcksAppend(Answers(hs[..n]), Answer(hs[n]));
      AcksOfAnswer(hs[n]);
      hide Acks;
    }
  }

  lemma AcksOfAnswer(h: Heard)
    ensures Acks(Answer(h)) == [Ack(h)]
  {
    hide EncodeAck, EnvelopeOf;
    var answer, n := Answer(h), |Answer(h)| - 1;
    assert Acks(answer[..n]) == [] by {
      if n > 0 {
        assert answer[..n][..0] == [];
      }
    }
  }

  /**
   A session that did not panic sent one acknowledgement per request, the k-th for the k-th, as a
   response the server reads back.
   */
  lemma AcksMatchRequests(s: State, turns: seq<Turn>)
    requires s.control.Live? && !Run(s, turns).s.control.Panicked?
    ensures var acks, hs := Acks(Run(s, turns).log), HeardBy(s, turns);
      && |acks| == |hs|
      && forall k :: 0 <= k < |hs| ==>
           && acks[k].Acked? && acks[k].ok == hs[k].ackOk
           && var id := if hs[k].request.id.Some? then hs[k].request.id.value else 0;
              DecodeMessage(acks[k].frame) ==
              Some(WsMessage(Some(2), None, Some(Response(Some(id), Some(200), Some(Ascii("OK")), None, []))))
  {
    var hs := HeardBy(s, turns);
    RequestsAreAnswered(s, turns);
    AcksOfHandled(Run(s, turns).log);
    AcksOfAnswers(hs);
    hide Run, HeardBy, Acks, Handled, Answers, EncodeAck, DecodeMessage;
    forall k | 0 <= k < |hs| {
      AckReads(if hs[k].request.id.Some? then hs[k].request.id.value else 0, 200);
    }
  }

  // ---- Keepalives -------------------------------------------------------------

  function Keepalives(log: seq<Output>): seq<Output> {
    if log == [] then []
    else
      var o := log[|log| - 1];
      Keepalives(log[..|log| - 1]) + if o.KeepaliveSent? then [o] else []
  }

  lemma {:induction false} KeepalivesAppend(a: seq<Output>, b: seq<Output>)
    ensures Keepalives(a + b) == Keepalives(a) + Keepalives(b)
  {
    if b == [] {
      assert a + b == a;
    } else {
      assert (a + b)[..|a + b| - 1] == a + b[..|b| - 1];
      KeepalivesAppend(a, b[..|b| - 1]);
    }
  }

  lemma {:induction false} NoKeepalives(log: seq<Output>)
    requires forall o :: o in log ==> !o.KeepaliveSent?
    ensures Keepalives(log) == []
  {
    if log != [] {
      NoKeepalives(log[..|log| - 1]);
    }
  }

  /** What an iteration sends: its Ping, its keepalive, and then nothing of either kind. */
  lemma IterationLog(s: State, t: Turn) returns (keepalive: seq<Output>, rest: seq<Output>)
    requires s.control.Live?
    ensures var p, o := Ping(s, t), Iterate(s, t);
      && o.log == p.log + keepalive + rest && o.s.lastPing == p.s.lastPing
      && (forall x :: x in rest ==> !x.PingSent? && !x.KeepaliveSent?)
      && (p.s.control.Live? ==>
            && keepalive == AppKeepalive(p.s, t).log
            && o.s.nextId == AppKeepalive(p.s, t).s.nextId && o.s.lastApp == AppKeepalive(p.s, t).s.lastApp)
      && (!p.s.control.Live? ==> keepalive == [] && o.s == p.s)
  {
    hide EncodeKeepalive, ReadOne, Ping;
    var p := Ping(s, t);
    keepalive, rest := [], [];
    if p.s.control.Live? {
      var k := AppKeepalive(p.s, t);
      keepalive := k.log;
      if k.s.control.Live? {
        ReadSendsNeither(k.s, t);
        rest := ReadOne(k.s, t).log;
      }
    }
  }

  lemma ReadSendsNeither(s: State, t: Turn)
    ensures forall o :: o in ReadOne(s, t).log ==> !o.PingSent? && !o.KeepaliveSent?
    ensures var r := ReadOne(s, t).s; r.nextId == s.nextId && r.lastApp == s.lastApp && r.lastPing == s.lastPing
  {
    hide EncodeAck, Route, DeliverOne, RequestIn, EnvelopeOf;
  }

  lemma PingIsNoKeepalive(s: State, t: Turn)
    ensures var p := Ping(s, t);
      && Keepalives(p.log) == [] && p.s.nextId == s.nextId && p.s.lastApp == s.lastApp
      && (p.s.control == if t.pingCheck >= s.lastPing + 25_000 && !t.pingOk then Ended else s.control)
  {
    NoKeepalives(Ping(s, t).log);
    hide Keepalives;
  }

  lemma KeepaliveOfOne(o: Output)
    ensures Keepalives([o]) == if o.KeepaliveSent? then [o] else []
  {
    assert [o][..0] == [];
  }

  lemma KeepalivesOfOwn(s: State, t: Turn)
    ensures var k := AppKeepalive(s, t); var sent := t.appCheck >= s.lastApp + 55_000 && t.appOk;
      && Keepalives(k.log) ==
         (if sent then [KeepaliveSent(EncodeKeepalive(s.nextId), t.appCheck, t.appDone)] else [])
      && k.s.nextId == (if sent then Successor(s.nextId) else s.nextId)
      && k.s.lastApp == if sent then t.appDone else s.lastApp
  {
    hide EncodeKeepalive, Keepalives, Successor;
    var k := AppKeepalive(s, t);
    if k.log != [] {
      KeepaliveOfOne(k.log[0]);
    } else {
      NoKeepalives([]);
    }
  }

  /** An iteration whose Ping does not end the session sends a keepalive exactly if one is due and the send succeeds. */
  lemma IterationKeepalive(s: State, t: Turn)
    requires s.control.Live?
    ensures var o := Iterate(s, t);
      var sent :=
        && (t.pingCheck >= s.lastPing + 25_000 ==> t.pingOk)
        && t.appCheck >= s.lastApp + 55_000 && t.appOk;
      && Keepalives(o.log) ==
         (if sent then [KeepaliveSent(EncodeKeepalive(s.nextId), t.appCheck, t.appDone)] else [])
      && o.s.nextId == (if sent then Successor(s.nextId) else s.nextId)
      && o.s.lastApp == if sent then t.appDone else s.lastApp
  {
    hide Iterate, Keepalives, Ping, AppKeepalive, EncodeKeepalive, Successor;
    var p := Ping(s, t);
    var keepalive, rest := IterationLog(s, t);
    PingIsNoKeepalive(s, t);
    KeepalivesOfOwn(p.s, t);
    NoKeepalives(rest);
    NoKeepalives([]);
    KeepalivesAppend(p.log, keepalive);
    KeepalivesAppend(p.log + keepalive, rest);
  }

  /** `GET /v1/keepalive` as request `id`. */
  function KeepaliveFrame(id: u64): seq<byte> {
    var request := Request(Some(Ascii("GET")), Some(Ascii("/v1/keepalive")), None, Some(id), []);
    EncodeMessage(WsMessage(Some(1), Some(request), None))
  }

  lemma KeepaliveIsSent(id: u64)
    ensures KeepaliveFrame(id) == EncodeKeepalive(id)
  {
    hide EncodeMessage, Ascii;
  }

  predicate NumberedAndSpaced(ks: seq<Output>) {
    && (forall k :: 0 <= k < |ks| ==>
          && ks[k].KeepaliveSent? && ks[k].check >= 55_000
          && ks[k].frame == KeepaliveFrame((k + 1) % 0x1_0000_0000_0000_0000))
    && (forall k :: 0 < k < |ks| ==> ks[k].check >= ks[k - 1].done + 55_000)
  }

  lemma RunOneMore(s: State, turns: seq<Turn>)
    requires turns != []
    ensures var o, t := Run(s, turns[..|turns| - 1]), turns[|turns| - 1];
      Run(s, turns) == if o.s.control.Live? then Outcome(Iterate(o.s, t).s, o.log + Iterate(o.s, t).log) else o
  {
    hide Iterate;
  }

  lemma NothingSent(s: State)
    ensures Run(s, []) == Outcome(s, [])
    ensures NumberedAndSpaced(Keepalives([])) && |Keepalives([])| == 0 == |Pings([])|
  {
  }

  /**
   The successful application keepalives of a session carry the ids 1, 2, 3 and so on modulo 2^64,
   each is due at least 55000 ms after the one before, and none before the clock reads 55000.
   */
  lemma {:induction false} KeepalivesAreNumberedAndSpaced(now: nat, nowApp: nat, db: Db, shown: seq<Shown>,
    turns: seq<Turn>)
    ensures var o := Run(Start(now, nowApp, db, shown), turns); var ks := Keepalives(o.log);
      && NumberedAndSpaced(ks)
      && o.s.nextId == (|ks| + 1) % 0x1_0000_0000_0000_0000
      && o.s.lastApp == if ks == [] then SaturatingSub(nowApp, 55_000) else ks[|ks| - 1].done
  {
    hide EncodeKeepalive, KeepaliveFrame, Iterate, NumberedAndSpaced, Keepalives, Run;
    if turns == [] {
      NothingSent(Start(now, nowApp, db, shown));
    } else {
      var n := |turns| - 1;
      var o := Run(Start(now, nowApp, db, shown), turns[..n]);
      RunOneMore(Start(now, nowApp, db, shown), turns);
      KeepalivesAreNumberedAndSpaced(now, nowApp, db, shown, turns[..n]);
      if o.s.control.Live? {
        var ks, more := Keepalives(o.log), Keepalives(Iterate(o.s, turns[n]).log);
        IterationKeepalive(o.s, turns[n]);
        KeepalivesAppend(o.log, Iterate(o.s, turns[n]).log);
        NextId(|ks|);
        KeepaliveIsSent(o.s.nextId);
        if more == [] {
          assert ks + more == ks;
        } else {
          OneMoreKeepalive(ks, more[0]);
        }
      }
    }
  }

  lemma OneMoreKeepalive(ks: seq<Output>, k: Output)
    requires NumberedAndSpaced(ks) && k.KeepaliveSent? && k.check >= 55_000
    requires k.frame == KeepaliveFrame((|ks| + 1) % 0x1_0000_0000_0000_0000)
    requires ks != [] ==> k.check >= ks[|ks| - 1].done + 55_000
    ensures NumberedAndSpaced(ks + [k])
  {
    hide KeepaliveFrame;
  }

  lemma NextId(n: nat)
    ensures ((n + 1) % 0x1_0000_0000_0000_0000 + 1) % 0x1_0000_0000_0000_0000 == (n + 2) % 0x1_0000_0000_0000_0000
  {
  }

  /**
   The first iteration attempts a keepalive exactly if the clock reads at least 55000 at its check,
   so on a device that has been up for less than 55 s there is none on connecting.
   */
  lemma FirstKeepaliveIff(now: nat, nowApp: nat, db: Db, shown: seq<Shown>, t: Turn)
    requires nowApp <= t.appCheck
    requires Ping(Start(now, nowApp, db, shown), t).s.control.Live?
    ensures var log := BeforeRead(Start(now, nowApp, db, shown), t).log;
            (exists o: Output :: o in log && (o.KeepaliveSent? || o.KeepaliveFailed?)) <==>
            t.appCheck >= 55_000
  {
    hide EncodeKeepalive;
    var s := Start(now, nowApp, db, shown);
    var p := Ping(s, t);
    var k := AppKeepalive(p.s, t);
    assert BeforeRead(s, t).log == p.log + k.log;
    if t.appCheck >= 55_000 {
      assert k.log[0] in p.log + k.log;
    }
  }

  /** An iteration that leaves the session running has sent a keepalive exactly if one was due at its check. */
  lemma DueKeepaliveIsSentIff(s: State, t: Turn)
    requires s.control.Live? && Iterate(s, t).s.control.Live?
    ensures Keepalives(Iterate(s, t).log) != [] <==> t.appCheck >= s.lastApp + 55_000
  {
    hide Iterate, Keepalives;
    SessionEndsIff(s, t);
    IterationKeepalive(s, t);
  }

  // ---- Pings and the end of a session -------------------------------------------

  function Pings(log: seq<Output>): seq<Output> {
    if log == [] then []
    else
      var o := log[|log| - 1];
      Pings(log[..|log| - 1]) + if o.PingSent? then [o] else []
  }

  lemma {:induction false} PingsAppend(a: seq<Output>, b: seq<Output>)
    ensures Pings(a + b) == Pings(a) + Pings(b)
  {
    if b == [] {
      assert a + b == a;
    } else {
      assert (a + b)[..|a + b| - 1] == a + b[..|b| - 1];
      PingsAppend(a, b[..|b| - 1]);
    }
  }

  lemma {:induction false} NoPings(log: seq<Output>)
    requires forall o :: o in log ==> !o.PingSent?
    ensures Pings(log) == []
  {
    if log != [] {
      NoPings(log[..|log| - 1]);
    }
  }

  lemma PingsOfPing(s: State, t: Turn)
    ensures var p, sent := Ping(s, t), t.pingCheck >= s.lastPing + 25_000 && t.pingOk;
      && Pings(p.log) == (if sent then [PingSent(t.pingCheck, t.pingDone)] else [])
      && p.s.lastPing == if sent then t.pingDone else s.lastPing
  {
    var p := Ping(s, t);
    if p.log != [] {
      assert p.log[..0] == [];
    }
  }

  /** An iteration sends a Ping exactly if one is due at its check and the send succeeds. */
  lemma IterationPings(s: State, t: Turn)
    requires s.control.Live?
    ensures var o, sent := Iterate(s, t), t.pingCheck >= s.lastPing + 25_000 && t.pingOk;
      && Pings(o.log) == (if sent then [PingSent(t.pingCheck, t.pingDone)] else [])
      && o.s.lastPing == if sent then t.pingDone else s.lastPing
  {
    hide Iterate, Pings, Ping, EncodeKeepalive;
    var keepalive, rest := IterationLog(s, t);
    PingsOfPing(s, t);
    NoPings(keepalive);
    NoPings(rest);
    PingsAppend(Ping(s, t).log, keepalive);
    PingsAppend(Ping(s, t).log + keepalive, rest);
  }

  predicate PingsSpaced(ps: seq<Output>, now: nat) {
    && (forall k :: 0 <= k < |ps| ==> ps[k].PingSent?)
    && (ps != [] ==> ps[0].check >= now + 25_000)
    && (forall k :: 0 < k < |ps| ==> ps[k].check >= ps[k - 1].done + 25_000)
  }

  /**
   Each Ping of a session is due at least 25000 ms after the one before was sent, and the first
   that long after the start.
   */
  lemma {:induction false} PingsAreSpaced(now: nat, nowApp: nat, db: Db, shown: seq<Shown>, turns: seq<Turn>)
    ensures var o := Run(Start(now, nowApp, db, shown), turns); var ps := Pings(o.log);
      && PingsSpaced(ps, now)
      && o.s.lastPing == if ps == [] then now else ps[|ps| - 1].done
  {
    hide Iterate, Run, Pings;
    if turns == [] {
      NothingSent(Start(now, nowApp, db, shown));
    } else {
      var n := |turns| - 1;
      var o := Run(Start(now, nowApp, db, shown), turns[..n]);
      RunOneMore(Start(now, nowApp, db, shown), turns);
      PingsAreSpaced(now, nowApp, db, shown, turns[..n]);
      if o.s.control.Live? {
        var ps, more := Pings(o.log), Pings(Iterate(o.s, turns[n]).log);
        IterationPings(o.s, turns[n]);
        PingsAppend(o.log, Iterate(o.s, turns[n]).log);
        assert more != [] ==> PingsSpaced(ps + [more[0]], now);
      }
    }
  }

  /**
   An iteration ends the session exactly if a due Ping or keepalive could not be sent or its read
   finds a close frame or an error; a failed acknowledgement does not.
   */
  lemma SessionEndsIff(s: State, t: Turn)
    requires s.control.Live?
    ensures Iterate(s, t).s.control.Ended? <==>
            || (t.pingCheck >= s.lastPing + 25_000 && !t.pingOk)
            || (t.appCheck >= s.lastApp + 55_000 && !t.appOk)
            || t.frame.CloseFrame? || t.frame.ReadError?
  {
    hide EncodeKeepalive, EncodeAck, Route, DeliverOne, RequestIn, EnvelopeOf;
  }

  // ---- Deliveries and the reply address ---------------------------------------

  /** The contents the session hands to delivery, in order. */
  function IncomingIn(s: State, t: Turn): seq<Incoming> {
    if HeardIn(s, t) == [] then []
    else
      var r := HeardIn(s, t)[0].request;
      var routed := if IsMessage(r) && r.body.Some? then Route(r.body.value, t.decryptors) else None;
      if routed.None? then []
      else [Incoming(routed.value.plaintext, routed.value.sender, routed.value.serverTs, t.io)]
  }

  function IncomingBy(s: State, turns: seq<Turn>): seq<Incoming> {
    if turns == [] then []
    else
      var n := |turns| - 1;
      IncomingBy(s, turns[..n]) + IncomingIn(Run(s, turns[..n]).s, turns[n])
  }

  lemma IterationDelivers(s: State, t: Turn)
    requires s.control.Live?
    ensures var o, ins := Iterate(s, t), IncomingIn(s, t);
      && |ins| <= 1
      && (ins == [] ==> o.s.db == s.db && o.s.shown == s.shown && !o.s.control.Panicked?)
      && (ins != [] ==>
            var d := DeliverOne(s.db, ins[0]);
            o.s.db == d.db && o.s.shown == s.shown + d.shown && (o.s.control.Panicked? <==> d.panicked))
  {
    BeforeReadKeeps(s, t);
    HeardIsRequestIn(s, t);
    hide BeforeRead, Iterate, Route, DeliverOne, RequestIn, Handle, IsMessage, HeardIn, ReachesRead;
    var b, f := BeforeRead(s, t).s, t.frame;
    if b.control.Live? && RequestIn(f).Some? {
      HandleDelivers(b, RequestIn(f).value, t);
      RequestIsBinary(f);
    }
  }

  lemma RequestIsBinary(f: Frame)
    ensures RequestIn(f).Some? ==> f.BinaryFrame?
  {
    hide DecodeMessage;
  }

  lemma HandleDelivers(s: State, r: Request, t: Turn)
    requires s.control.Live?
    ensures var o := Handle(s, r, t);
      var routed := if IsMessage(r) && r.body.Some? then Route(r.body.value, t.decryptors) else None;
      && (routed.None? ==> o.s == s)
      && (routed.Some? ==>
            var x := routed.value;
            var d := DeliverOne(s.db, Incoming(x.plaintext, x.sender, x.serverTs, t.io));
            o.s.db == d.db && o.s.shown == s.shown + d.shown && (o.s.control.Panicked? <==> d.panicked))
  {
    hide EncodeAck, Route, DeliverOne, Ascii;
  }

  /** A session changes chat window and storage exactly as delivering its contents one after the other does. */
  lemma {:induction false} SessionDelivers(s: State, turns: seq<Turn>)
    requires s.control.Live?
    ensures var o, d := Run(s, turns), DeliverAll(s.db, IncomingBy(s, turns));
      o.s.db == d.db && o.s.shown == s.shown + d.shown && (o.s.control.Panicked? <==> d.panicked)
  {
    hide Iterate, IncomingIn, DeliverOne;
    if turns != [] {
      var n := |turns| - 1;
      var o, ins := Run(s, turns[..n]), IncomingBy(s, turns[..n]);
      SessionDelivers(s, turns[..n]);
      var more := IncomingIn(o.s, turns[n]);
      if o.s.control.Live? {
        IterationDelivers(o.s, turns[n]);
        if more != [] {
          assert (ins + more)[..|ins|] == ins && (ins + more)[|ins|] == more[0] && |ins + more| == |ins| + 1;
        } else {
          assert ins + more == ins;
        }
      } else {
        NothingComesIn(o.s, turns[n]);
        assert ins + more == ins;
      }
    }
  }

  lemma NothingComesIn(s: State, t: Turn)
    requires !s.control.Live?
    ensures IncomingIn(s, t) == []
  {
  }

  lemma {:induction false} IncomingIsAttributed(s: State, turns: seq<Turn>)
    requires forall t :: t in turns ==> t.io == HEALTHY && NamesAreText(t.decryptors)
    ensures forall i :: i in IncomingBy(s, turns) ==>
      i.io == HEALTHY && 1 <= i.sender.device <= 127 && AccountCache.IsText(i.sender.name)
  {
    hide AccountCache.IsText, Run, Route, NamesAreText, IsMessage, HeardIn;
    if turns != [] {
      var n := |turns| - 1;
      IncomingIsAttributed(s, turns[..n]);
      var t := turns[n];
      var more := IncomingIn(Run(s, turns[..n]).s, t);
      if more != [] {
        var body := HeardIn(Run(s, turns[..n]).s, t)[0].request.body.value;
        RoutedIsAttributed(body, t.decryptors);
      }
    }
  }

  /**
   After any session on healthy storage, the reply address is that of the sender of the last
   message with text, exactly if that sender's name has no double quote; with no such message it
   is what it was before the session.
   */
  lemma SessionRepliesToLastSender(s: State, turns: seq<Turn>)
    requires s.control.Live? && forall t :: t in turns ==> t.io == HEALTHY && NamesAreText(t.decryptors)
    ensures var last, now := LastText(s.db, IncomingBy(s, turns)), Peer.CurrentRecipient(Run(s, turns).s.db, HEALTHY);
      match last
      case None => now == Peer.CurrentRecipient(s.db, HEALTHY)
      case Some(i) =>
        && (now == Ok(i.sender) <==> !Peer.Quoted(i.sender.name))
        && now == Peer.ReadBack(i.sender)
  {
    hide AccountCache.IsText, Run, IncomingBy, Peer.CurrentRecipient, NamesAreText, DeliverAll, LastText;
    SessionDelivers(s, turns);
    IncomingIsAttributed(s, turns);
    RepliesGoToLastSender(s.db, IncomingBy(s, turns));
  }
}
