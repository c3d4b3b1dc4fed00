/**
 The receive session: the loop of `run_session`, and `handle_request` with its acknowledgements
 (`src/manager/main_ws.rs`).
 */
module Session {
  import opened Base
  import opened PddbModel
  import opened WsProto
  import opened Routing
  import opened Delivery
  import Crypto
  import Peer

  const KEEPALIVE_MS := 25_000
  const APP_KEEPALIVE_MS := 55_000

  /** What one read of the socket yields; `Other` is text, a ping or pong, another frame or a time-out. */
  datatype Frame = BinaryFrame(bytes: seq<byte>) | Other | CloseFrame | ReadError

  /**
   What the environment does in one iteration: the clock at each look, whether each send
   succeeds, the frame read, and decryption and storage while its content is handled.
   */
  datatype Turn = Turn(
    pingCheck: nat, pingOk: bool, pingDone: nat,
    appCheck: nat, appOk: bool, appDone: nat,
    frame: Frame, decryptors: Decryptors, io: Io, ackOk: bool)

  /** What the session does, in order. `Acked` is one send, successful or not. */
  datatype Output =
    | PingSent(check: nat, done: nat) | PingFailed
    | KeepaliveSent(frame: seq<byte>, check: nat, done: nat) | KeepaliveFailed(frame: seq<byte>)
    | Dispatched(body: seq<byte>) | Acked(frame: seq<byte>, ok: bool)
    | SocketClosed

  datatype Control = Live | Ended | Panicked

  datatype State = State(lastPing: nat, lastApp: nat, nextId: u64, db: Db, shown: seq<Shown>, control: Control)

  datatype Outcome = Outcome(s: State, log: seq<Output>)

  /** The session's start at the clock readings `now` and then `nowApp`. */
  function Start(now: nat, nowApp: nat, db: Db, shown: seq<Shown>): State {
    State(now, SaturatingSub(nowApp, APP_KEEPALIVE_MS), 1, db, shown, Live)
  }

  /** (1a) */
  function Ping(s: State, t: Turn): Outcome {
    if SaturatingSub(t.pingCheck, s.lastPing) < KEEPALIVE_MS then Outcome(s, [])
    else if t.pingOk then Outcome(s.(lastPing := t.pingDone), [PingSent(t.pingCheck, t.pingDone)])
    else Outcome(s.(control := Ended), [PingFailed])
  }

  function Successor(id: u64): u64 {
    (id + 1) % 0x1_0000_0000_0000_0000
  }

  /** (1b) */
  function AppKeepalive(s: State, t: Turn): Outcome {
    var frame := EncodeKeepalive(s.nextId);
    if SaturatingSub(t.appCheck, s.lastApp) < APP_KEEPALIVE_MS then Outcome(s, [])
    else if t.appOk then
      Outcome(s.(lastApp := t.appDone, nextId := Successor(s.nextId)), [KeepaliveSent(frame, t.appCheck, t.appDone)])
    else Outcome(s.(control := Ended), [KeepaliveFailed(frame)])
  }

  function PutVerb(): seq<byte> { Crypto.Ascii("PUT") }
  function MessagePath(): seq<byte> { Crypto.Ascii("/api/v1/message") }

  /** The envelope carried by a request, if it is a message. */
  function EnvelopeOf(r: Request): Option<seq<byte>> {
    if r.verb == Some(PutVerb()) && r.path == Some(MessagePath()) then r.body else None
  }

  function IdOf(r: Request): u64 {
    OrElse(r.id, 0)
  }

  function ToIncoming(r: Routed, io: Io): Incoming {
    Incoming(r.plaintext, r.sender, r.serverTs, io)
  }

  /** `handle_request`. */
  function Handle(s: State, r: Request, t: Turn): Outcome {
    var ack := Acked(EncodeAck(IdOf(r), 200), t.ackOk);
    match EnvelopeOf(r)
    case None => Outcome(s, [ack])
    case Some(body) =>
      match Route(body, t.decryptors)
      case None => Outcome(s, [Dispatched(body), ack])
      case Some(routed) =>
        var d := DeliverOne(s.db, ToIncoming(routed, t.io));
        var s' := s.(db := d.db, shown := s.shown + d.shown);
        if d.panicked then Outcome(s'.(control := Panicked), [Dispatched(body)])
        else Outcome(s', [Dispatched(body), ack])
  }

  /** The request in a frame that decodes as a message of the request type with a request in it. */
  function RequestIn(f: Frame): Option<Request> {
    if !f.BinaryFrame? then None
    else
      var m := DecodeMessage(f.bytes);
      if m.Some? && m.value.kind == Some(1) then m.value.request else None
  }

  /** (2) and (3) */
  function ReadOne(s: State, t: Turn): Outcome {
    if t.frame.CloseFrame? || t.frame.ReadError? then Outcome(s.(control := Ended), [])
    else if RequestIn(t.frame).Some? then Handle(s, RequestIn(t.frame).value, t)
    else Outcome(s, [])
  }

  function Then(o: Outcome, next: State -> Outcome): Outcome {
    if o.s.control != Live then o else Outcome(next(o.s).s, o.log + next(o.s).log)
  }

  /** The state in which the turn reaches its read, if it does. */
  function BeforeRead(s: State, t: Turn): Outcome {
    Then(Ping(s, t), (s1: State) => AppKeepalive(s1, t))
  }

  function Iterate(s: State, t: Turn): Outcome {
    Then(BeforeRead(s, t), (s2: State) => ReadOne(s2, t))
  }

  /** A whole session; nothing happens after it has ended. */
  function Run(s: State, turns: seq<Turn>): Outcome {
    if turns == [] then Outcome(s, [])
    else
      var o := Run(s, turns[..|turns| - 1]);
      if o.s.control != Live then o
      else
        var last := Iterate(o.s, turns[|turns| - 1]);
        Outcome(last.s, o.log + last.log)
  }

  // ---- The loop ---------------------------------------------------------------

  /** The local variables of `run_session`, the storage and the chat window. */
  class Loop {
    const pddb: Pddb
    const chat: ChatWindow
    var lastPing: nat
    var lastApp: nat
    var nextId: u64
    var control: Control
    var log: seq<Output>

    constructor (pddb: Pddb, chat: ChatWindow, now: nat, nowApp: nat)
      ensures this.pddb == pddb && this.chat == chat && log == []
      ensures Value() == Start(now, nowApp, pddb.db, chat.shown)
    {
      this.pddb, this.chat := pddb, chat;
      lastPing, lastApp, nextId := now, SaturatingSub(nowApp, APP_KEEPALIVE_MS), 1;
      control, log := Live, [];
    }

    ghost predicate Valid() {
      pddb as object != chat as object && pddb as object != this as object && chat as object != this as object
    }

    ghost function Value(): State
      reads this, pddb, chat
    {
      State(lastPing, lastApp, nextId, pddb.db, chat.shown, control)
    }

    method SendPing(t: Turn)
      modifies this
      ensures var o := Ping(old(Value()), t); old(control).Live? ==> Value() == o.s && log == old(log) + o.log
    {
      if SaturatingSub(t.pingCheck, lastPing) >= KEEPALIVE_MS {
        if t.pingOk {
          lastPing := t.pingDone;
          log := log + [PingSent(t.pingCheck, t.pingDone)];
        } else {
          control := Ended;
          log := log + [PingFailed];
        }
      }
    }

    method SendAppKeepalive(t: Turn)
      modifies this
      ensures var o := AppKeepalive(old(Value()), t); old(control).Live? ==> Value() == o.s && log == old(log) + o.log
    {
      if SaturatingSub(t.appCheck, lastApp) >= APP_KEEPALIVE_MS {
        var frame := EncodeKeepalive(nextId);
        if t.appOk {
          lastApp := t.appDone;
          nextId := Successor(nextId);
          log := log + [KeepaliveSent(frame, t.appCheck, t.appDone)];
        } else {
          control := Ended;
          log := log + [KeepaliveFailed(frame)];
        }
      }
    }

    /** `send_ack`: a failure is only logged. */
    method SendAck(id: u64, status: u32, ok: bool)
      modifies this`log
      ensures log == old(log) + [Acked(EncodeAck(id, status), ok)]
    {
      log := log + [Acked(EncodeAck(id, status), ok)];
    }

    /** `handle_request`. */
    method HandleRequest(r: Request, t: Turn)
      requires Valid() && control.Live?
      modifies this, pddb, chat
      ensures var o := Handle(old(Value()), r, t); Value() == o.s && log == old(log) + o.log
    {
      hide Route, DeliverOne, EncodeAck;
      var id := IdOf(r);
      if r.verb == Some(PutVerb()) && r.path == Some(MessagePath()) {
        if r.body.Some? {
          log := log + [Dispatched(r.body.value)];
          var routed := Route(r.body.value, t.decryptors);
          if routed.Some? {
            var panicked := DeliverContent(pddb, chat, ToIncoming(routed.value, t.io));
            if panicked {
              control := Panicked;
              return;
            }
          }
        }
        SendAck(id, 200, t.ackOk);
      } else {
        SendAck(id, 200, t.ackOk);
      }
    }

    method Read(t: Turn)
      requires Valid() && control.Live?
      modifies this, pddb, chat
      ensures var o := ReadOne(old(Value()), t); Value() == o.s && log == old(log) + o.log
    {
      hide Handle;
      match t.frame
      case CloseFrame => control := Ended;
      case ReadError => control := Ended;
      case Other =>
      case BinaryFrame(bytes) =>
        var m := DecodeMessage(bytes);
        if m.Some? && m.value.kind == Some(1) && m.value.request.Some? {
          HandleRequest(m.value.request.value, t);
        }
    }

    method Iteration(t: Turn)
      requires Valid() && control.Live?
      modifies this, pddb, chat
      ensures var o := Iterate(old(Value()), t); Value() == o.s && log == old(log) + o.log
    {
      hide Ping, AppKeepalive, ReadOne;
      SendPing(t);
      if control.Live? {
        SendAppKeepalive(t);
        if control.Live? {
          Read(t);
        }
      }
    }
  }

  /** `run_session`, its environment given as a finite script of turns. */
  method RunSession(pddb: Pddb, chat: ChatWindow, now: nat, nowApp: nat, turns: seq<Turn>)
    returns (log: seq<Output>, control: Control)
    requires pddb as object != chat as object
    modifies pddb, chat
    ensures var o := Run(Start(now, nowApp, old(pddb.db), old(chat.shown)), turns);
      && pddb.db == o.s.db && chat.shown == o.s.shown && control == o.s.control
      && log == o.log + if control.Ended? then [SocketClosed] else []
  {
    hide Iterate;
    ghost var start := Start(now, nowApp, pddb.db, chat.shown);
    var loop := new Loop(pddb, chat, now, nowApp);
    var i := 0;
    while i < |turns| && loop.control.Live?
      invariant 0 <= i <= |turns| && fresh(loop) && loop.pddb == pddb && loop.chat == chat
      invariant Run(start, turns[..i]) == Outcome(loop.Value(), loop.log)
      decreases |turns| - i
    {
      assert turns[..i + 1][..i] == turns[..i];
      loop.Iteration(turns[i]);
      i := i + 1;
    }
    RunPrefix(start, turns, i);
    log, control := loop.log, loop.control;
    if control.Ended? {
      log := log + [SocketClosed];
    }
  }

  lemma {:induction false} RunPrefix(s: State, turns: seq<Turn>, i: nat)
    requires i <= |turns| && (i == |turns| || Run(s, turns[..i]).s.control != Live)
    ensures Run(s, turns) == Run(s, turns[..i])
  {
    if i == |turns| {
      assert turns[..i] == turns;
    } else {
      assert turns[..|turns| - 1][..i] == turns[..i];
      RunPrefix(s, turns[..|turns| - 1], i);
    }
  }
}
