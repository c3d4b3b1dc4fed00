/**
 The provisioning WebSocket worker (`src/manager/ws_server.rs`): the result page it fills, one
 pass of its loop as a composition of the five numbered phases, and runs of the loop against an
 arbitrary environment of IPC messages, clock readings, send results and frames.
 */
module WsServer {
  import opened Base

  const WS_PROVISION_MAX := 0x1_0000
  const KEEPALIVE_MS := 25_000

  const STATUS_BINARY: byte := 0
  const STATUS_CLOSED: byte := 1
  const STATUS_TIMED_OUT: byte := 2
  const STATUS_CANCELLED: byte := 3
  const STATUS_ERROR: byte := 4
  const STATUS_EMPTY: byte := 255

  datatype PendingResult = Binary(bytes: seq<byte>) | Closed | TimedOut | Cancelled | Error

  /** `wait_and_take_binary` reports with the same five cases; every unusable page is an `Error`. */
  type WsResult = PendingResult

  /** A result that the page has room for. */
  predicate FitsPage(r: PendingResult) {
    r.Binary? ==> |r.bytes| <= WS_PROVISION_MAX
  }

  // ---- The result page --------------------------------------------------------

  /** What the caller makes of a returned page. */
  function Decode(status: byte, len: u32, bytes: seq<byte>): WsResult
    requires |bytes| == WS_PROVISION_MAX
  {
    if status == STATUS_BINARY then
      if len > WS_PROVISION_MAX then Error else Binary(bytes[..len])
    else if status == STATUS_CLOSED then Closed
    else if status == STATUS_TIMED_OUT then TimedOut
    else if status == STATUS_CANCELLED then Cancelled
    else Error
  }

  /** `WsResultBuf`, lent by the caller and filled in place by the worker. */
  class WsResultBuf {
    var status: byte
    var len: u32
    const bytes: array<byte>

    ghost predicate Valid() {
      bytes.Length == WS_PROVISION_MAX
    }

    /** `WsResultBuf::empty`; returned as it came, it decodes as an error. */
    constructor ()
      ensures Valid() && fresh(bytes)
      ensures Decoded() == Error
      ensures status == STATUS_EMPTY && len == 0
    {
      status, len := STATUS_EMPTY, 0;
      bytes := new byte[WS_PROVISION_MAX](_ => 0);
    }

    ghost function Decoded(): WsResult
      requires Valid()
      reads this, bytes
    {
      Decode(status, len, bytes[..])
    }

    /** `fill_buf` on a memory message: whatever the page held, the caller now decodes exactly `result`. */
    method Fill(result: PendingResult)
      requires Valid() && FitsPage(result)
      modifies this, bytes
      ensures Decoded() == result
      ensures result.Binary? ==> status == 0 && len == |result.bytes| && bytes[..len] == result.bytes
      ensures result.Closed? ==> status == 1
      ensures result.TimedOut? ==> status == 2
      ensures result.Cancelled? ==> status == 3
      ensures result.Error? ==> status == 4
    {
      match result
      case Binary(b) =>
        status := STATUS_BINARY;
        len := |b|;
        for k := 0 to |b|
          invariant bytes[..k] == b[..k]
          invariant status == STATUS_BINARY && len == |b|
        {
          bytes[k] := b[k];
        }
      case Closed => status := STATUS_CLOSED;
      case TimedOut => status := STATUS_TIMED_OUT;
      case Cancelled => status := STATUS_CANCELLED;
      case Error => status := STATUS_ERROR;
    }
  }

  // ---- One pass of the loop ---------------------------------------------------

  /** `memory` says whether the message carries a page: a client may send any opcode either way. */
  datatype Envelope = Envelope(id: nat, memory: bool)

  datatype Msg = Wait(envelope: Envelope) | Cancel(envelope: Envelope) | Unknown(opcode: nat, envelope: Envelope)

  /** `try_receive_message`. */
  datatype Ipc = Received(msg: Msg) | Nothing | IpcError

  /** `ws.read`. */
  datatype Frame =
    | BinaryFrame(bytes: seq<byte>)
    | PingFrame | PongFrame | TextFrame | RawFrame
    | CloseFrame
    | ReadTimeout
    | ReadError

  /** How a client gets its page back. */
  datatype Reply = Filled(result: PendingResult) | Unfilled

  /** Effects of the worker, in order. `Lost` is a result spent on a message without a page. */
  datatype Output =
    | Returned(id: nat, reply: Reply)
    | Lost(id: nat, result: PendingResult)
    | ScalarReply(sender: nat)
    | PingSent(at: nat)
    | SocketClosed
    | SidDestroyed

  datatype Worker = Worker(
    pending: Option<PendingResult>,
    waiter: Option<Envelope>,
    lastSendAt: nat,
    deadline: nat)

  datatype Control = Live | Cancelling | IpcFailed

  /** A worker after some steps, what they put out, and whether the loop goes on. */
  datatype Outcome = Outcome(w: Worker, log: seq<Output>, control: Control)

  /** The environment's side of one pass, with every clock reading the pass may take. */
  datatype Turn = Turn(
    begin: nat,
    ipc: Ipc,
    deadlineCheck: nat,
    keepaliveCheck: nat,
    pingOk: bool,
    pingDone: nat,
    frame: Frame,
    end: nat)

  /** `tt.elapsed_ms() + deadline_secs.saturating_mul(1000)`. */
  function DeadlineFor(start: nat, secs: u64): nat {
    start + Min(secs * 1000, TWO_TO_THE_64 - 1)
  }

  function Start(deadline: nat, now: nat): Worker {
    Worker(None, None, now, deadline)
  }

  /** `fill_buf` as the client of `envelope` sees it. */
  function FillBuf(envelope: Envelope, result: PendingResult): Output {
    if envelope.memory then Returned(envelope.id, Filled(result)) else Lost(envelope.id, result)
  }

  /** The whole of `fill_buf`: on a message with a page, the reply is what the client decodes from it. */
  method FillPage(envelope: Envelope, page: WsResultBuf, result: PendingResult) returns (o: Output)
    requires page.Valid() && FitsPage(result)
    modifies page, page.bytes
    ensures o == FillBuf(envelope, result)
    ensures o.Returned? ==> o.reply == Filled(page.Decoded())
    ensures o.Lost? ==> page.Decoded() == old(page.Decoded())
  {
    if !envelope.memory {
      return Lost(envelope.id, result);
    }
    page.Fill(result);
    return Returned(envelope.id, Filled(result));
  }

  /** A message that goes out of scope gives its page back as it came. */
  function Dropped(envelope: Envelope): seq<Output> {
    if envelope.memory then [Returned(envelope.id, Unfilled)] else []
  }

  function Displaced(waiter: Option<Envelope>): seq<Output> {
    if waiter.Some? then Dropped(waiter.value) else []
  }

  /** Phase 1. */
  function ServiceIpc(w: Worker, ipc: Ipc): Outcome {
    match ipc
    case Received(Wait(envelope)) =>
      if w.pending.Some? then Outcome(w.(pending := None), [FillBuf(envelope, w.pending.value)], Live)
      else Outcome(w.(waiter := Some(envelope)), Displaced(w.waiter), Live)
    case Received(Cancel(envelope)) =>
      var drained := if w.waiter.Some? then [FillBuf(w.waiter.value, Cancelled)] else [];
      Outcome(w.(waiter := None), drained + [ScalarReply(envelope.id)] + Dropped(envelope), Cancelling)
    case Received(Unknown(_, envelope)) => Outcome(w, Dropped(envelope), Live)
    case Nothing => Outcome(w, [], Live)
    case IpcError => Outcome(w, [], IpcFailed)
  }

  function Observe(w: Worker, result: PendingResult): Outcome {
    Outcome(w.(pending := Some(result)), [], Live)
  }

  /** Phase 2. */
  function CheckDeadline(w: Worker, now: nat): Outcome {
    if w.pending.None? && now >= w.deadline then Observe(w, TimedOut) else Outcome(w, [], Live)
  }

  /** Phase 3. */
  function Keepalive(w: Worker, now: nat, ok: bool, done: nat): Outcome {
    if w.pending.None? && SaturatingSub(now, w.lastSendAt) >= KEEPALIVE_MS then
      if ok then Outcome(w.(lastSendAt := done), [PingSent(done)], Live) else Observe(w, Error)
    else Outcome(w, [], Live)
  }

  /** The terminal event a frame amounts to, if any. */
  function FrameResult(frame: Frame): Option<PendingResult> {
    match frame
    case BinaryFrame(b) => Some(if |b| > WS_PROVISION_MAX then Error else Binary(b))
    case CloseFrame => Some(Closed)
    case ReadError => Some(Error)
    case _ => None
  }

  /** Phase 4. */
  function ReadFrame(w: Worker, frame: Frame): Outcome {
    if w.pending.None? && FrameResult(frame).Some? then Observe(w, FrameResult(frame).value)
    else Outcome(w, [], Live)
  }

  /** Phase 5. */
  function Deliver(w: Worker): Outcome {
    if w.pending.Some? && w.waiter.Some? then
      Outcome(w.(pending := None, waiter := None), [FillBuf(w.waiter.value, w.pending.value)], Live)
    else Outcome(w, [], Live)
  }

  /** Phases 2 to 5. */
  function Drive(w: Worker, t: Turn): Outcome {
    var o2 := CheckDeadline(w, t.deadlineCheck);
    var o3 := Keepalive(o2.w, t.keepaliveCheck, t.pingOk, t.pingDone);
    var o4 := ReadFrame(o3.w, t.frame);
    var o5 := Deliver(o4.w);
    Outcome(o5.w, o2.log + o3.log + o4.log + o5.log, Live)
  }

  /** One pass of the loop: the phases in order, unless phase 1 breaks out of it. */
  function Pass(w: Worker, t: Turn): Outcome {
    var o := ServiceIpc(w, t.ipc);
    if o.control != Live then o else
    var d := Drive(o.w, t);
    Outcome(d.w, o.log + d.log, Live)
  }

  /** The loop over a finite prefix of the environment's turns; turns after the exit are not taken. */
  function Run(w: Worker, turns: seq<Turn>): Outcome {
    if turns == [] then Outcome(w, [], Live)
    else
      var o := Run(w, turns[..|turns| - 1]);
      if o.control != Live then o else
      var p := Pass(o.w, turns[|turns| - 1]);
      Outcome(p.w, o.log + p.log, p.control)
  }

  /** After the loop: close the socket, destroy the SID, drop a waiter left by an IPC error. */
  function Epilogue(o: Outcome): seq<Output> {
    if o.control == Live then [] else [SocketClosed, SidDestroyed] + Displaced(o.w.waiter)
  }

  /** The mutable state of `worker_loop`, with one method for each numbered phase of its body. */
  class LoopState {
    var pending: Option<PendingResult>
    var waiter: Option<Envelope>
    var lastSendAt: nat
    const deadlineMs: nat
    var log: seq<Output>

    constructor (deadlineMs: nat, now: nat)
      ensures Value() == Start(deadlineMs, now) && log == []
    {
      this.deadlineMs := deadlineMs;
      pending, waiter, lastSendAt, log := None, None, now, [];
    }

    ghost function Value(): Worker
      reads this
    {
      Worker(pending, waiter, lastSendAt, deadlineMs)
    }

    /** (1) Non-blocking IPC service; `false` breaks out of the loop. */
    method Service(ipc: Ipc) returns (live: bool)
      modifies this
      ensures var o := ServiceIpc(old(Value()), ipc);
        Value() == o.w && log == old(log) + o.log && live == (o.control == Live)
    {
      match ipc
      case Received(Wait(msg)) =>
        if pending.Some? {
          log := log + [FillBuf(msg, pending.value)];
          pending := None;
        } else {
          log := log + Displaced(waiter);
          waiter := Some(msg);
        }
        return true;
      case Received(Cancel(msg)) =>
        if waiter.Some? {
          log := log + [FillBuf(waiter.value, Cancelled)];
          waiter := None;
        }
        log := log + [ScalarReply(msg.id)];
        log := log + Dropped(msg);
        return false;
      case Received(Unknown(_, msg)) =>
        log := log + Dropped(msg);
        return true;
      case Nothing => return true;
      case IpcError => return false;
    }

    method SetPending(result: PendingResult)
      modifies this
      ensures Value() == Observe(old(Value()), result).w && log == old(log)
    {
      pending := Some(result);
    }

    /** (2) Deadline. */
    method Deadline(now: nat)
      modifies this
      ensures var o := CheckDeadline(old(Value()), now); Value() == o.w && log == old(log) + o.log
    {
      if pending.None? && now >= deadlineMs {
        SetPending(TimedOut);
      }
    }

    /** (3) Application-layer keepalive. */
    method Ping(now: nat, ok: bool, done: nat)
      modifies this
      ensures var o := Keepalive(old(Value()), now, ok, done); Value() == o.w && log == old(log) + o.log
    {
      if pending.None? && SaturatingSub(now, lastSendAt) >= KEEPALIVE_MS {
        if ok {
          lastSendAt := done;
          log := log + [PingSent(done)];
        } else {
          SetPending(Error);
        }
      }
    }

    /** (4) One read of the socket. */
    method Read(frame: Frame)
      modifies this
      ensures var o := ReadFrame(old(Value()), frame); Value() == o.w && log == old(log) + o.log
    {
      if pending.None? {
        match frame
        case BinaryFrame(b) =>
          if |b| > WS_PROVISION_MAX {
            SetPending(Error);
          } else {
            SetPending(Binary(b));
          }
        case CloseFrame => SetPending(Closed);
        case ReadError => SetPending(Error);
        case _ =>
      }
    }

    /** (5) Hand a pending result to a parked waiter. */
    method DeliverPending()
      modifies this
      ensures var o := Deliver(old(Value())); Value() == o.w && log == old(log) + o.log
    {
      if pending.Some? && waiter.Some? {
        log := log + [FillBuf(waiter.value, pending.value)];
        pending, waiter := None, None;
      }
    }

    /** Phases 2 to 5. */
    method DrivePhases(t: Turn)
      modifies this
      ensures var o := Drive(old(Value()), t); Value() == o.w && log == old(log) + o.log
    {
      hide CheckDeadline, Keepalive, ReadFrame, Deliver;
      Deadline(t.deadlineCheck);
      Ping(t.keepaliveCheck, t.pingOk, t.pingDone);
      Read(t.frame);
      DeliverPending();
    }

    /** One iteration of the loop; `false` breaks out of it. */
    method Iteration(t: Turn) returns (live: bool)
      modifies this
      ensures var o := Pass(old(Value()), t);
        Value() == o.w && log == old(log) + o.log && live == (o.control == Live)
    {
      hide ServiceIpc, Drive;
      live := Service(t.ipc);
      if live {
        DrivePhases(t);
      }
    }
  }

  /** `worker_loop`, its two clock readings before the loop and then a finite script of turns. */
  method WorkerLoop(begun: nat, deadlineSecs: u64, now: nat, turns: seq<Turn>) returns (log: seq<Output>, exited: bool)
    ensures var o := Run(Start(DeadlineFor(begun, deadlineSecs), now), turns);
      && (exited <==> o.control != Live) && log == o.log + Epilogue(o)
      && Epilogue(o) == if !exited then []
                        else [SocketClosed, SidDestroyed] + if o.w.waiter.Some? then Dropped(o.w.waiter.value) else []
  {
    hide Pass;
    var deadlineMs := DeadlineFor(begun, deadlineSecs);
    ghost var start := Start(deadlineMs, now);
    var state := new LoopState(deadlineMs, now);
    exited := false;
    var i := 0;
    while i < |turns| && !exited
      invariant 0 <= i <= |turns|
      invariant Run(start, turns[..i]).w == state.Value()
      invariant Run(start, turns[..i]).log == state.log
      invariant exited <==> Run(start, turns[..i]).control != Live
      decreases |turns| - i
    {
      assert turns[..i + 1][..i] == turns[..i];
      var live := state.Iteration(turns[i]);
      exited := !live;
      i := i + 1;
    }
    RunPrefix(start, turns, i);
    log := state.log;
    if exited {
      log := log + [SocketClosed, SidDestroyed] + Displaced(state.waiter);
    }
    assert log == state.log + Epilogue(Run(start, turns[..i]));
  }

  /** A run that has left the loop takes no further turn. */
  lemma {:induction false} RunPrefix(w: Worker, turns: seq<Turn>, i: nat)
    requires i <= |turns| && (i == |turns| || Run(w, turns[..i]).control != Live)
    ensures Run(w, turns) == Run(w, turns[..i])
  {
    if i == |turns| {
      assert turns[..i] == turns;
    } else {
      assert turns[..|turns| - 1][..i] == turns[..i];
      RunPrefix(w, turns[..|turns| - 1], i);
    }
  }
}
