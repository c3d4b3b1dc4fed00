/**
 `Manager::link` and the provisioning worker as one system: the caller (QR modal, one blocking
 wait, one cancel) and the worker (one phase of its loop at a time) interleave arbitrarily, the
 clock advances at any moment, and sends and reads may answer anything. No IPC error occurs.
 */
module WsLink {
  import opened Base
  import opened WsServer

  /** Where `Manager::link` stands; `Cancelling` and `Finished` keep what the wait returned, if it was reached. */
  datatype Caller =
    | Modal
    | Waiting
    | Answered(result: WsResult)
    | CancelSent(waited: Option<WsResult>)
    | Finished(waited: Option<WsResult>)

  datatype Pc = AtIpc | AtDeadline | AtKeepalive | AtRead | AtDeliver | AtClose | AtDestroy | Exited

  /** Why a terminal result arose. */
  datatype Cause = Deadline(at: nat) | PingFailed | FromSocket(frame: Frame)

  /**
   What the environment has offered so far, whatever the worker makes of it: the first terminal
   event, the last Ping.
   */
  datatype Heard = Heard(first: Option<Cause>, lastSend: nat)

  /**
   `heard` listens to the environment and never to the worker's slot, `deadline` is the session's;
   `answers` are the returns of the caller's page, `acks` the scalar replies to its cancel.
   */
  datatype Link = Link(
    caller: Caller,
    queue: seq<Msg>,
    pc: Pc,
    w: Worker,
    deadline: nat,
    heard: Heard,
    answers: seq<Reply>,
    acks: nat,
    now: nat)

  datatype Action =
    | ModalClosed | ModalFailed | TakeAnswer | SendCancel | TakeAck
    | Tick(ms: nat)
    | WorkerStep(pingOk: bool, sendMs: nat, frame: Frame)

  const PAGE := Envelope(0, true)
  const CANCEL := Envelope(1, false)

  /** `SignalWsServer::spawn(ws, 180)`; the deadline counts from here. */
  function Spawned(now: nat): Link {
    var deadline := DeadlineFor(now, 180);
    Link(Modal, [], AtIpc, Start(deadline, now), deadline, Heard(None, now), [], 0, now)
  }

  function InLoop(pc: Pc): bool {
    !(pc.AtClose? || pc.AtDestroy? || pc.Exited?)
  }

  function ResultOf(c: Cause): PendingResult {
    match c
    case Deadline(_) => TimedOut
    case PingFailed => Error
    case FromSocket(frame) => if FrameResult(frame).Some? then FrameResult(frame).value else Error
  }

  /** What the worker's step at `pc` gets to see; only the first terminal event is kept. */
  function Listen(h: Heard, pc: Pc, deadline: nat, now: nat, pingOk: bool, sent: nat, frame: Frame): Heard {
    if h.first.Some? then h
    else match pc
      case AtDeadline => if now >= deadline then h.(first := Some(Deadline(now))) else h
      case AtKeepalive =>
        if now < h.lastSend + 25_000 then h
        else if pingOk then h.(lastSend := sent)
        else h.(first := Some(PingFailed))
      case AtRead =>
        if frame.BinaryFrame? || frame.CloseFrame? || frame.ReadError? then h.(first := Some(FromSocket(frame))) else h
      case _ => h
  }

  /** What the outputs say to the caller blocked in the wait: its page comes back. */
  function Replies(log: seq<Output>): seq<Reply> {
    if log == [] then []
    else (if log[0].Returned? && log[0].id == PAGE.id then [log[0].reply] else []) + Replies(log[1..])
  }

  /** What they say to the caller blocked in the cancel: the scalar reply to it. */
  function Acks(log: seq<Output>): nat {
    if log == [] then 0
    else (if log[0] == ScalarReply(CANCEL.id) then 1 else 0) + Acks(log[1..])
  }

  /** The worker after a phase of its pass. */
  function Advance(s: Link, o: Outcome, next: Pc): Link {
    s.(w := o.w, pc := next, answers := s.answers + Replies(o.log), acks := s.acks + Acks(o.log))
  }

  function Work(s: Link, pingOk: bool, sent: nat, frame: Frame): Option<Link> {
    match s.pc
    case AtIpc =>
      var ipc := if s.queue == [] then Nothing else Ipc.Received(s.queue[0]);
      var o := ServiceIpc(s.w, ipc);
      Some(Advance(s, o, if o.control == Live then AtDeadline else AtClose)
           .(queue := if s.queue == [] then [] else s.queue[1..]))
    case AtDeadline => Some(Advance(s, CheckDeadline(s.w, s.now), AtKeepalive))
    case AtKeepalive => Some(Advance(s, Keepalive(s.w, s.now, pingOk, sent), AtRead))
    case AtRead => Some(Advance(s, ReadFrame(s.w, frame), AtDeliver))
    case AtDeliver => Some(Advance(s, Deliver(s.w), AtIpc))
    case AtClose => Some(s.(pc := AtDestroy))
    case AtDestroy => Some(s.(pc := Exited))
    case Exited => None
  }

  /** One step of the worker, with what the environment offers to it; a send takes `sendMs`. */
  function WorkerPhase(s: Link, pingOk: bool, sendMs: nat, frame: Frame): Option<Link> {
    match Work(s, pingOk, s.now + sendMs, frame)
    case None => None
    case Some(n) =>
      Some(n.(heard := Listen(s.heard, s.pc, s.deadline, s.now, pingOk, s.now + sendMs, frame),
              now := if s.pc.AtKeepalive? then s.now + sendMs else s.now))
  }

  /** The caller's page after the worker returned it; a page that came back unfilled reads as an error. */
  function Seen(r: Reply): WsResult {
    match r case Filled(result) => result case _ => Error
  }

  function Step(s: Link, a: Action): Option<Link> {
    match (s.caller, a)
    case (_, Tick(ms)) => Some(s.(now := s.now + ms))
    case (_, WorkerStep(pingOk, sendMs, frame)) => WorkerPhase(s, pingOk, sendMs, frame)
    case (Modal, ModalClosed) => Some(s.(caller := Waiting, queue := s.queue + [Wait(PAGE)]))
    case (Modal, ModalFailed) => Some(s.(caller := CancelSent(None), queue := s.queue + [Cancel(CANCEL)]))
    case (Waiting, TakeAnswer) => if s.answers == [] then None else Some(s.(caller := Answered(Seen(s.answers[0]))))
    case (Answered(r), SendCancel) => Some(s.(caller := CancelSent(Some(r)), queue := s.queue + [Cancel(CANCEL)]))
    case (CancelSent(r), TakeAck) => if s.acks == 0 then None else Some(s.(caller := Finished(r)))
    case _ => None
  }

  /** A whole run: `None` when some action of the trace is not enabled where it stands. */
  function Run(s: Link, trace: seq<Action>): Option<Link> {
    if trace == [] then Some(s)
    else match Run(s, trace[..|trace| - 1])
      case None => None
      case Some(s') => Step(s', trace[|trace| - 1])
  }

  /** The one answer, when there is one, is the first terminal event that the environment offered. */
  predicate AnswerInv(s: Link) {
    && s.w.pending != Some(Cancelled) && s.w.deadline == s.deadline
    && (s.answers == [] && s.w.pending.None? ==> s.heard == Heard(None, s.w.lastSendAt))
    && (s.answers == [] && s.w.pending.Some? ==>
          s.heard.first.Some? && s.w.pending == Some(ResultOf(s.heard.first.value)))
    && (s.answers != [] ==> s.heard.first.Some? && s.answers == [Filled(ResultOf(s.heard.first.value))])
    && (s.heard.first.Some? ==> Terminal(s.heard.first.value, s.deadline))
  }

  predicate Terminal(c: Cause, deadline: nat) {
    ResultOf(c) != Cancelled && (c.FromSocket? ==> FrameResult(c.frame).Some?) && (c.Deadline? ==> c.at >= deadline)
  }

  /** Where the caller's messages are. */
  predicate CallerInv(s: Link) {
    match s.caller
    case Modal => s.queue == [] && s.w.waiter.None? && s.answers == [] && s.acks == 0 && InLoop(s.pc)
    case Waiting =>
      && s.acks == 0 && InLoop(s.pc)
      && (|| (s.queue == [Wait(PAGE)] && s.w.waiter.None? && s.answers == [])
          || (s.queue == [] && s.w.waiter == Some(PAGE) && s.answers == [])
          || (s.queue == [] && s.w.waiter.None? && s.answers != []))
    case Answered(r) =>
      s.queue == [] && s.w.waiter.None? && s.answers == [Filled(r)] && s.acks == 0 && InLoop(s.pc)
    case CancelSent(r) =>
      && s.w.waiter.None? && s.answers == (if r.Some? then [Filled(r.value)] else [])
      && (|| (s.queue == [Cancel(CANCEL)] && s.acks == 0 && InLoop(s.pc))
          || (s.queue == [] && s.acks == 1 && !InLoop(s.pc)))
    case Finished(r) =>
      && s.w.waiter.None? && s.answers == (if r.Some? then [Filled(r.value)] else [])
      && s.queue == [] && s.acks == 1 && !InLoop(s.pc)
  }

  predicate Inv(s: Link) {
    AnswerInv(s) && CallerInv(s) && (InLoop(s.pc) && s.pc == AtIpc ==> s.w.pending.None? || s.w.waiter.None?)
  }

  lemma RepliesOne(o: Output)
    ensures Replies([o]) == if o.Returned? && o.id == PAGE.id then [o.reply] else []
    ensures Acks([o]) == if o == ScalarReply(CANCEL.id) then 1 else 0
  {
    assert [o][1..] == [];
  }

  /** Phases 2 to 4 return nothing; with an empty slot and no answer yet, the slot takes in what is heard. */
  predicate TakesInHeard(s: Link, o: Outcome, h: Heard) {
    && o.w.waiter == s.w.waiter && o.w.deadline == s.w.deadline
    && Replies(o.log) == [] && Acks(o.log) == 0
    && (s.w.pending.Some? ==> o.w == s.w)
    && (s.w.pending.None? && o.w.pending.Some? ==> o.w.pending != Some(Cancelled))
    && (s.w.pending.None? && s.heard == Heard(None, s.w.lastSendAt) ==>
          if h.first.Some? then o.w.pending == Some(ResultOf(h.first.value)) && Terminal(h.first.value, s.deadline)
          else o.w.pending.None? && h.lastSend == o.w.lastSendAt)
  }

  lemma ObservingPhase(s: Link, o: Outcome, next: Pc, h: Heard, now: nat)
    requires Inv(s) && InLoop(s.pc) && InLoop(next) && next != AtIpc
    requires TakesInHeard(s, o, h) && (s.heard.first.Some? ==> h == s.heard)
    ensures var n := Advance(s, o, next).(heard := h, now := now); Inv(n) && n.answers == s.answers
  {
    hide Replies, Acks, ResultOf, FrameResult;
  }

  lemma IpcPhase(s: Link, ok: bool, ms: nat, f: Frame)
    requires Inv(s) && s.pc == AtIpc
    ensures var n := WorkerPhase(s, ok, ms, f).value; Inv(n) && (s.answers != [] ==> n.answers == s.answers)
  {
    if s.w.pending.Some? {
      RepliesOne(FillBuf(PAGE, s.w.pending.value));
    }
    RepliesOne(ScalarReply(CANCEL.id));
    assert [] + [ScalarReply(CANCEL.id)] + [] == [ScalarReply(CANCEL.id)];
    hide ResultOf, FrameResult, Replies, Acks;
  }

  lemma DeliverPhase(s: Link, ok: bool, ms: nat, f: Frame)
    requires Inv(s) && s.pc == AtDeliver
    ensures var n := WorkerPhase(s, ok, ms, f).value; Inv(n) && (s.answers != [] ==> n.answers == s.answers)
  {
    if s.w.pending.Some? {
      RepliesOne(FillBuf(PAGE, s.w.pending.value));
    }
    hide ResultOf, FrameResult, Replies, Acks;
  }

  lemma DeadlinePhase(s: Link, ok: bool, ms: nat, f: Frame)
    requires Inv(s) && s.pc == AtDeadline
    ensures var n := WorkerPhase(s, ok, ms, f).value; Inv(n) && n.answers == s.answers
  {
    assert s.w.deadline == s.deadline;
    hide Inv;
    var h := Listen(s.heard, AtDeadline, s.deadline, s.now, ok, s.now + ms, f);
    ObservingPhase(s, CheckDeadline(s.w, s.now), AtKeepalive, h, s.now);
  }

  lemma KeepalivePhase(s: Link, ok: bool, ms: nat, f: Frame)
    requires Inv(s) && s.pc == AtKeepalive
    ensures var n := WorkerPhase(s, ok, ms, f).value; Inv(n) && n.answers == s.answers
  {
    hide Inv;
    var h := Listen(s.heard, AtKeepalive, s.deadline, s.now, ok, s.now + ms, f);
    var o := Keepalive(s.w, s.now, ok, s.now + ms);
    if o.log != [] {
      RepliesOne(o.log[0]);
    }
    ObservingPhase(s, o, AtRead, h, s.now + ms);
  }

  lemma ReadPhase(s: Link, ok: bool, ms: nat, f: Frame)
    requires Inv(s) && s.pc == AtRead
    ensures var n := WorkerPhase(s, ok, ms, f).value; Inv(n) && n.answers == s.answers
  {
    hide Inv;
    var h := Listen(s.heard, AtRead, s.deadline, s.now, ok, s.now + ms, f);
    ObservingPhase(s, ReadFrame(s.w, f), AtDeliver, h, s.now);
  }

  lemma ClosingPhases(s: Link, ok: bool, ms: nat, f: Frame)
    requires Inv(s) && (s.pc == AtClose || s.pc == AtDestroy)
    ensures var n := WorkerPhase(s, ok, ms, f).value; Inv(n) && n.answers == s.answers
  {
  }

  lemma WorkerKeepsInv(s: Link, ok: bool, ms: nat, f: Frame)
    requires Inv(s) && WorkerPhase(s, ok, ms, f).Some?
    ensures Inv(WorkerPhase(s, ok, ms, f).value)
    ensures s.answers != [] ==> WorkerPhase(s, ok, ms, f).value.answers == s.answers
  {
    hide Inv, Advance, Listen, ServiceIpc, CheckDeadline, Keepalive, ReadFrame, Deliver;
    match s.pc
    case AtIpc => IpcPhase(s, ok, ms, f);
    case AtDeadline => DeadlinePhase(s, ok, ms, f);
    case AtKeepalive => KeepalivePhase(s, ok, ms, f);
    case AtRead => ReadPhase(s, ok, ms, f);
    case AtDeliver => DeliverPhase(s, ok, ms, f);
    case _ => ClosingPhases(s, ok, ms, f);
  }

  lemma StepKeepsInv(s: Link, a: Action)
    requires Inv(s) && Step(s, a).Some?
    ensures Inv(Step(s, a).value)
    ensures s.answers != [] ==> Step(s, a).value.answers == s.answers
  {
    if a.WorkerStep? {
      WorkerKeepsInv(s, a.pingOk, a.sendMs, a.frame);
    }
  }

  lemma {:induction false} RunKeepsInv(s: Link, trace: seq<Action>)
    requires Inv(s) && Run(s, trace).Some?
    ensures Inv(Run(s, trace).value)
    ensures s.answers != [] ==> Run(s, trace).value.answers == s.answers
  {
    if trace != [] {
      var n := |trace| - 1;
      RunKeepsInv(s, trace[..n]);
      StepKeepsInv(Run(s, trace[..n]).value, trace[n]);
    }
  }

  /**
   A result the page can carry for a cause: the frame byte for byte, or an error if it is over
   64 KiB, and a time-out no earlier than 180 s after the start. No other frame is a cause.
   */
  predicate Faithful(r: WsResult, c: Cause, start: nat) {
    match c
    case Deadline(at) => r == TimedOut && at >= start + 180_000
    case PingFailed => r == Error
    case FromSocket(BinaryFrame(b)) => r == if |b| <= 0x1_0000 then Binary(b) else Error
    case FromSocket(CloseFrame) => r == Closed
    case FromSocket(ReadError) => r == Error
    case FromSocket(_) => false
  }

  /**
   Every interleaving of `Manager::link`'s caller with the worker: the page comes back at most
   once, filled with the first terminal event the environment offered and never with `Cancelled`; the cancel is
   acknowledged at most once, only then does the worker leave its loop and destroy the SID; and
   when the caller is through, both have happened exactly once (the wait only if it was reached).
   */
  lemma LinkProtocol(start: nat, trace: seq<Action>)
    requires Run(Spawned(start), trace).Some?
    ensures var s := Run(Spawned(start), trace).value;
      && |s.answers| <= 1 && s.acks <= 1
      && (forall r :: r in s.answers ==>
            r.Filled? && r.result != Cancelled && s.heard.first.Some? && Faithful(r.result, s.heard.first.value, start))
      && (s.pc.Exited? ==> s.acks == 1)
      && (s.caller.Answered? ==> s.answers == [Filled(s.caller.result)])
      && (s.caller.Finished? ==> s.acks == 1 && |s.answers| == if s.caller.waited.Some? then 1 else 0)
      && (s.caller.Finished? && s.caller.waited.Some? ==> s.answers == [Filled(s.caller.waited.value)])
  {
    RunKeepsInv(Spawned(start), trace);
    DeadlineFixed(Spawned(start), trace);
  }

  // ---- Progress ---------------------------------------------------------------

  function StepsToIpc(pc: Pc): nat {
    match pc
    case AtDeadline => 4
    case AtKeepalive => 3
    case AtRead => 2
    case AtDeliver => 1
    case _ => 0
  }

  /** Worker steps after which a waiting caller has its answer, once the deadline has passed. */
  function AnswerDistance(s: Link): nat {
    if s.answers != [] then 0
    else if s.queue != [] then StepsToIpc(s.pc) + 5
    else
      var rest := if s.pc == AtIpc then 5 else StepsToIpc(s.pc);
      if s.w.pending.Some? || s.pc == AtIpc || s.pc == AtDeadline then rest else rest + 5
  }

  predicate PastDeadline(s: Link) {
    s.now >= s.w.deadline && !s.caller.Modal? && (s.caller.CancelSent? || s.caller.Finished? ==> s.answers != [])
  }

  lemma AnswerGetsCloser(s: Link, a: Action)
    requires Inv(s) && PastDeadline(s) && Step(s, a).Some?
    ensures PastDeadline(Step(s, a).value)
    ensures AnswerDistance(Step(s, a).value) <=
            if a.WorkerStep? && AnswerDistance(s) > 0 then AnswerDistance(s) - 1 else AnswerDistance(s)
  {
    StepKeepsInv(s, a);
    StepKeepsDeadline(s, a);
    if a.WorkerStep? {
      WorkerGetsCloser(s, a.pingOk, a.sendMs, a.frame);
      hide WorkerPhase, AnswerDistance, Inv;
    } else {
      hide WorkerPhase, AnswerInv;
    }
  }

  lemma WorkerGetsCloser(s: Link, ok: bool, ms: nat, f: Frame)
    requires Inv(s) && PastDeadline(s) && WorkerPhase(s, ok, ms, f).Some?
    ensures var n := WorkerPhase(s, ok, ms, f).value;
      && n.now >= s.now && n.caller == s.caller && (s.answers != [] ==> n.answers != [])
      && AnswerDistance(n) <= if AnswerDistance(s) > 0 then AnswerDistance(s) - 1 else AnswerDistance(s)
  {
    if s.answers == [] && s.w.pending.Some? {
      RepliesOne(FillBuf(PAGE, s.w.pending.value));
    }
  }

  function WorkerSteps(trace: seq<Action>): nat {
    if trace == [] then 0
    else WorkerSteps(trace[..|trace| - 1]) + if trace[|trace| - 1].WorkerStep? then 1 else 0
  }

  lemma {:induction false} DistanceOverRun(s: Link, trace: seq<Action>)
    requires Inv(s) && PastDeadline(s) && Run(s, trace).Some?
    ensures Inv(Run(s, trace).value) && PastDeadline(Run(s, trace).value)
    ensures AnswerDistance(Run(s, trace).value) <=
            if WorkerSteps(trace) <= AnswerDistance(s) then AnswerDistance(s) - WorkerSteps(trace) else 0
  {
    if trace != [] {
      var n := |trace| - 1;
      DistanceOverRun(s, trace[..n]);
      StepKeepsInv(Run(s, trace[..n]).value, trace[n]);
      AnswerGetsCloser(Run(s, trace[..n]).value, trace[n]);
    }
  }

  /** A caller blocked in the wait has its answer at the latest nine worker steps (two passes) after the deadline. */
  lemma AnsweredWithinTwoPasses(start: nat, before: seq<Action>, after: seq<Action>)
    requires Run(Spawned(start), before).Some? && Run(Spawned(start), before).value.caller.Waiting?
    requires Run(Spawned(start), before).value.now >= start + 180_000
    requires Run(Run(Spawned(start), before).value, after).Some? && WorkerSteps(after) >= 9
    ensures Run(Run(Spawned(start), before).value, after).value.answers != []
  {
    RunKeepsInv(Spawned(start), before);
    DeadlineFixed(Spawned(start), before);
    DistanceOverRun(Run(Spawned(start), before).value, after);
  }

  lemma {:induction false} DeadlineFixed(s: Link, trace: seq<Action>)
    requires Run(s, trace).Some?
    ensures Run(s, trace).value.w.deadline == s.w.deadline
  {
    if trace != [] {
      DeadlineFixed(s, trace[..|trace| - 1]);
      StepKeepsDeadline(Run(s, trace[..|trace| - 1]).value, trace[|trace| - 1]);
      hide Step;
    }
  }

  lemma StepKeepsDeadline(s: Link, a: Action)
    requires Step(s, a).Some?
    ensures Step(s, a).value.w.deadline == s.w.deadline
  {
    if a.WorkerStep? {
      PhasesKeepDeadline(s, a.pingOk, a.sendMs, a.frame);
      hide WorkerPhase;
    } else {
      hide WorkerPhase;
    }
  }

  lemma PhasesKeepDeadline(s: Link, ok: bool, ms: nat, f: Frame)
    requires WorkerPhase(s, ok, ms, f).Some?
    ensures WorkerPhase(s, ok, ms, f).value.w.deadline == s.w.deadline
  {
    hide Replies, Acks, FillBuf, FrameResult;
  }

  /** Worker steps after which the cancel is acknowledged. */
  function AckDistance(s: Link): nat {
    if s.acks != 0 then 0 else StepsToIpc(s.pc) + 1
  }

  predicate CancelIsOut(s: Link) {
    s.caller.CancelSent? || s.caller.Finished?
  }

  lemma AckGetsCloser(s: Link, a: Action)
    requires Inv(s) && CancelIsOut(s) && Step(s, a).Some?
    ensures CancelIsOut(Step(s, a).value)
    ensures AckDistance(Step(s, a).value) <=
            if a.WorkerStep? && AckDistance(s) > 0 then AckDistance(s) - 1 else AckDistance(s)
  {
  }

  lemma {:induction false} AckDistanceOverRun(s: Link, trace: seq<Action>)
    requires Inv(s) && CancelIsOut(s) && Run(s, trace).Some?
    ensures Inv(Run(s, trace).value) && CancelIsOut(Run(s, trace).value)
    ensures AckDistance(Run(s, trace).value) <=
            if WorkerSteps(trace) <= AckDistance(s) then AckDistance(s) - WorkerSteps(trace) else 0
  {
    if trace != [] {
      var n := |trace| - 1;
      AckDistanceOverRun(s, trace[..n]);
      StepKeepsInv(Run(s, trace[..n]).value, trace[n]);
      AckGetsCloser(Run(s, trace[..n]).value, trace[n]);
    }
  }

  /** A caller blocked in the cancel has its acknowledgement after at most five worker steps (one pass). */
  lemma CancelledWithinOnePass(start: nat, before: seq<Action>, after: seq<Action>)
    requires Run(Spawned(start), before).Some? && CancelIsOut(Run(Spawned(start), before).value)
    requires Run(Run(Spawned(start), before).value, after).Some? && WorkerSteps(after) >= 5
    ensures Run(Run(Spawned(start), before).value, after).value.acks == 1
  {
    RunKeepsInv(Spawned(start), before);
    AckDistanceOverRun(Run(Spawned(start), before).value, after);
  }

  /** No run gets stuck before the caller is through: the caller's next move is enabled, or the worker's is. */
  lemma NeverStuck(start: nat, trace: seq<Action>)
    requires Run(Spawned(start), trace).Some?
    ensures var s := Run(Spawned(start), trace).value;
      || s.caller.Finished?
      || (exists a: Action :: !a.Tick? && !a.WorkerStep? && Step(s, a).Some?)
      || (InLoop(s.pc) && forall ok, ms, f :: Step(s, WorkerStep(ok, ms, f)).Some?)
  {
    RunKeepsInv(Spawned(start), trace);
    var s := Run(Spawned(start), trace).value;
    match s.caller
    case Modal => assert Step(s, ModalClosed).Some?;
    case Waiting =>
      if s.answers != [] {
        assert Step(s, TakeAnswer).Some?;
      }
    case Answered(_) => assert Step(s, SendCancel).Some?;
    case CancelSent(_) =>
      if s.acks != 0 {
        assert Step(s, TakeAck).Some?;
      }
    case Finished(_) =>
  }
}
