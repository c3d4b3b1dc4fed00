/**
 What every run of the provisioning worker keeps, for an arbitrary client: the first event wins,
 every page comes back once, a parked waiter is answered by the deadline, keepalives are spaced.
 */
module WsRuns {
  import opened Base
  import opened WsServer

  /** What a loop head may hold: never a result and a waiter together, and only a result that fits the page. */
  predicate HeadInv(w: Worker) {
    && (w.pending.None? || w.waiter.None?)
    && w.pending != Some(Cancelled)
    && (w.pending.Some? ==> FitsPage(w.pending.value))
  }

  // ---- The first event is the one delivered -----------------------------------

  predicate PingDue(t: Turn, lastSend: nat) {
    t.keepaliveCheck >= lastSend + 25_000
  }

  /** The terminal event a turn offers to whoever has none yet, in the order of the phases. */
  function Offered(t: Turn, deadline: nat, lastSend: nat): Option<PendingResult> {
    if t.deadlineCheck >= deadline then Some(TimedOut)
    else if PingDue(t, lastSend) && !t.pingOk then Some(Error)
    else match t.frame
      case BinaryFrame(b) => if |b| <= 0x1_0000 then Some(Binary(b)) else Some(Error)
      case CloseFrame => Some(Closed)
      case ReadError => Some(Error)
      case PingFrame => None
      case PongFrame => None
      case TextFrame => None
      case RawFrame => None
      case ReadTimeout => None
  }

  /** The time of the last successful Ping after such a turn. */
  function NextSend(t: Turn, deadline: nat, lastSend: nat): nat {
    if t.deadlineCheck < deadline && PingDue(t, lastSend) && t.pingOk then t.pingDone else lastSend
  }

  /**
   What an observer of the environment writes down without looking into the worker's slot: the
   first event offered since the previous delivery, the last Ping, and at every delivery the
   event that was due.
   */
  datatype Ledger = Ledger(first: Option<PendingResult>, lastSend: nat, due: seq<Option<PendingResult>>)

  /** When a pass hands out a result: while it services the message, or at its end. */
  datatype Mark = NoDelivery | AtIpc | AtEnd

  function Offer(l: Ledger, t: Turn, deadline: nat): Ledger {
    if l.first.Some? then l
    else l.(first := Offered(t, deadline, l.lastSend), lastSend := NextSend(t, deadline, l.lastSend))
  }

  function Take(l: Ledger): Ledger {
    l.(first := None, due := l.due + [l.first])
  }

  function Record(l: Ledger, t: Turn, deadline: nat, m: Mark): Ledger {
    match m
    case NoDelivery => Offer(l, t, deadline)
    case AtIpc => Offer(Take(l), t, deadline)
    case AtEnd => Take(Offer(l, t, deadline))
  }

  /** The result an output hands out, a drain by Cancel aside. */
  function HandedOut(o: Output): Option<PendingResult> {
    match o
    case Returned(_, Filled(r)) => if r == Cancelled then None else Some(r)
    case Lost(_, r) => if r == Cancelled then None else Some(r)
    case _ => None
  }

  function Results(log: seq<Output>): seq<PendingResult> {
    if log == [] then []
    else
      var o := HandedOut(log[|log| - 1]);
      Results(log[..|log| - 1]) + if o.Some? then [o.value] else []
  }

  function MarkOf(w: Worker, t: Turn): Mark {
    if Results(ServiceIpc(w, t.ipc).log) != [] then AtIpc
    else if Results(Pass(w, t).log) != [] then AtEnd
    else NoDelivery
  }

  /** The ledger of a run, from the worker's start; a pass that leaves the loop offers nothing any more. */
  function LedgerOf(w: Worker, turns: seq<Turn>): Ledger {
    if turns == [] then Ledger(w.pending, w.lastSendAt, [])
    else
      var n := |turns| - 1;
      var l, o := LedgerOf(w, turns[..n]), Run(w, turns[..n]);
      if o.control != Live || Pass(o.w, turns[n]).control != Live then l
      else Record(l, turns[n], w.deadline, MarkOf(o.w, turns[n]))
  }

  lemma {:induction false} ResultsAppend(a: seq<Output>, b: seq<Output>)
    ensures Results(a + b) == Results(a) + Results(b)
  {
    if b == [] {
      assert a + b == a;
    } else {
      assert (a + b)[..|a + b| - 1] == a + b[..|b| - 1];
      ResultsAppend(a, b[..|b| - 1]);
    }
  }

  lemma ResultsOne(o: Output)
    ensures Results([o]) == if HandedOut(o).Some? then [HandedOut(o).value] else []
  {
    assert [o][..0] == [];
  }

  lemma QuietPhases(w: Worker, t: Turn)
    ensures Results(CheckDeadline(w, t.deadlineCheck).log) == []
    ensures Results(Keepalive(w, t.keepaliveCheck, t.pingOk, t.pingDone).log) == []
    ensures Results(ReadFrame(w, t.frame).log) == []
    ensures Results(Deliver(w).log) ==
              if w.pending.Some? && w.waiter.Some? && w.pending != Some(Cancelled) then [w.pending.value] else []
  {
    forall o: Output ensures Results([o]) == if HandedOut(o).Some? then [HandedOut(o).value] else [] {
      ResultsOne(o);
    }
  }

  /** Phases 2 to 5 on an empty slot: the offer, if any, goes to the waiter or stays pending. */
  lemma DriveOffers(w: Worker, t: Turn)
    requires w.pending.None?
    ensures var d, offer := Drive(w, t), Offered(t, w.deadline, w.lastSendAt);
      && d.w.deadline == w.deadline && d.w.lastSendAt == NextSend(t, w.deadline, w.lastSendAt)
      && (offer.Some? ==> offer != Some(Cancelled) && FitsPage(offer.value))
      && Results(d.log) == (if offer.Some? && w.waiter.Some? then [offer.value] else [])
      && d.w.pending == (if w.waiter.Some? then None else offer)
      && d.w.waiter == (if offer.Some? then None else w.waiter)
  {
    var o2 := CheckDeadline(w, t.deadlineCheck);
    var o3 := Keepalive(o2.w, t.keepaliveCheck, t.pingOk, t.pingDone);
    var o4 := ReadFrame(o3.w, t.frame);
    var o5 := Deliver(o4.w);
    QuietPhases(w, t);
    QuietPhases(o2.w, t);
    QuietPhases(o3.w, t);
    QuietPhases(o4.w, t);
    hide Results;
    ResultsAppend(o2.log + o3.log + o4.log, o5.log);
    ResultsAppend(o2.log + o3.log, o4.log);
    ResultsAppend(o2.log, o3.log);
  }

  /** With a result in the slot nothing is read, timed or sent: phases 2 to 5 only deliver. */
  lemma DriveWithPending(w: Worker, t: Turn)
    requires w.pending.Some? && w.waiter.None?
    ensures Drive(w, t) == Outcome(w, [], Live) && Results([]) == []
  {
  }

  /** Phase 1 hands out the pending result, and only to a wait. */
  lemma ServiceHandsOut(w: Worker, ipc: Ipc)
    requires HeadInv(w)
    ensures var o := ServiceIpc(w, ipc); var given := w.pending.Some? && ipc.Received? && ipc.msg.Wait?;
      && o.w.lastSendAt == w.lastSendAt && o.w.deadline == w.deadline && HeadInv(o.w)
      && Results(o.log) == (if given then [w.pending.value] else [])
      && o.w.pending == (if given then None else w.pending) && (given ==> o.w.waiter == w.waiter)
  {
    hide Results;
    match ipc
    case Received(Wait(envelope)) =>
      if w.pending.Some? {
        ResultsOne(FillBuf(envelope, w.pending.value));
      } else {
        DroppedHandOutNothing(w.waiter);
      }
    case Received(Cancel(envelope)) =>
      var drained := if w.waiter.Some? then [FillBuf(w.waiter.value, Cancelled)] else [];
      DroppedHandOutNothing(Some(envelope));
      DroppedHandOutNothing(None);
      ResultsOne(ScalarReply(envelope.id));
      ResultsAppend(drained + [ScalarReply(envelope.id)], Dropped(envelope));
      ResultsAppend(drained, [ScalarReply(envelope.id)]);
      if w.waiter.Some? {
        ResultsOne(FillBuf(w.waiter.value, Cancelled));
      }
    case Received(Unknown(_, envelope)) => DroppedHandOutNothing(Some(envelope));
    case _ => DroppedHandOutNothing(None);
  }

  lemma DroppedHandOutNothing(waiter: Option<Envelope>)
    ensures Results([]) == [] && Results(Displaced(waiter)) == []
  {
    if waiter.Some? {
      ResultsOne(Returned(waiter.value.id, Unfilled));
    }
  }

  /** One pass does to the worker what its deliveries and the environment do to the ledger. */
  lemma PassRecords(w: Worker, t: Turn, l: Ledger)
    requires HeadInv(w) && l.first == w.pending && l.lastSend == w.lastSendAt
    ensures var p, results := Pass(w, t), Results(Pass(w, t).log);
      && HeadInv(p.w) && p.w.deadline == w.deadline
      && (results == [] || (|results| == 1 && FitsPage(results[0])))
      && (p.control != Live ==> results == [])
      && (p.control == Live ==>
            var l' := Record(l, t, w.deadline, MarkOf(w, t));
            && p.w.pending == l'.first && p.w.lastSendAt == l'.lastSend
            && l'.due == l.due + if results == [] then [] else [Some(results[0])])
  {
    hide Results, ServiceIpc, Drive, Offered, NextSend;
    var s := ServiceIpc(w, t.ipc);
    ServiceHandsOut(w, t.ipc);
    if s.control == Live {
      ResultsAppend(s.log, Drive(s.w, t).log);
      if s.w.pending.None? {
        DriveOffers(s.w, t);
      } else {
        DriveWithPending(s.w, t);
      }
    } else {
      OnlyAWaitGets(w, t.ipc);
    }
  }

  lemma OnlyAWaitGets(w: Worker, ipc: Ipc)
    requires ServiceIpc(w, ipc).control != Live
    ensures !(ipc.Received? && ipc.msg.Wait?)
  {
  }

  /**
   First event wins, at every delivery: whatever a client sends and whenever the worker delivers,
   the k-th result handed out is the first event the environment offered since the delivery
   before it, and what is pending is the first one offered since the last.
   */
  lemma {:induction false} ResultsFollowEvents(w: Worker, turns: seq<Turn>)
    requires HeadInv(w)
    ensures var o, l := Run(w, turns), LedgerOf(w, turns);
      && HeadInv(o.w) && o.w.deadline == w.deadline
      && |l.due| == |Results(o.log)|
      && (forall k :: 0 <= k < |l.due| ==> l.due[k] == Some(Results(o.log)[k]) && FitsPage(Results(o.log)[k]))
      && (o.control == Live ==> o.w.pending == l.first && o.w.lastSendAt == l.lastSend)
  {
    if turns == [] {
      assert Results([]) == [];
    } else {
      hide Pass, Results, Record, MarkOf, HeadInv;
      var n := |turns| - 1;
      var t, o := turns[n], Run(w, turns[..n]);
      ResultsFollowEvents(w, turns[..n]);
      if o.control == Live {
        ResultsAppend(o.log, Pass(o.w, t).log);
        PassRecords(o.w, t, LedgerOf(w, turns[..n]));
      }
    }
  }

  /**
   A pass in which nothing happens does nothing: with no message, the deadline ahead, no Ping due
   and a frame that is neither data nor the end of the connection, such as a read that timed out.
   */
  lemma IdlePass(w: Worker, t: Turn)
    requires HeadInv(w) && t.ipc.Nothing? && t.deadlineCheck < w.deadline && t.keepaliveCheck < w.lastSendAt + 25_000
    requires !t.frame.BinaryFrame? && !t.frame.CloseFrame? && !t.frame.ReadError?
    ensures Pass(w, t) == Outcome(w, [], Live)
  {
  }

  lemma {:induction false} HandedOutIsAResult(log: seq<Output>, o: Output)
    requires o in log && HandedOut(o).Some?
    ensures HandedOut(o).value in Results(log)
  {
    var n := |log| - 1;
    if o != log[n] {
      HandedOutIsAResult(log[..n], o);
    }
  }

  /** Every result written to a page has room in it, so the client decodes it byte for byte. */
  lemma FilledFits(w: Worker, turns: seq<Turn>, id: nat, r: PendingResult)
    requires HeadInv(w) && Returned(id, Filled(r)) in Run(w, turns).log
    ensures FitsPage(r)
  {
    if r != Cancelled {
      HandedOutIsAResult(Run(w, turns).log, Returned(id, Filled(r)));
      ResultsFollowEvents(w, turns);
    }
  }

  // ---- Every page comes back exactly once -------------------------------------

  /** How often page `id` was returned. */
  function ReturnCount(log: seq<Output>, id: nat): nat {
    if log == [] then 0
    else
      var o := log[|log| - 1];
      ReturnCount(log[..|log| - 1], id) + if o.Returned? && o.id == id then 1 else 0
  }

  /** How often the worker took in page `id`, over the turns before it left the loop. */
  function ReceiveCount(w: Worker, turns: seq<Turn>, id: nat): nat {
    if turns == [] then 0
    else
      var n := |turns| - 1;
      ReceiveCount(w, turns[..n], id)
        + if Run(w, turns[..n]).control == Live then TakesIn(turns[n].ipc, id) else 0
  }

  predicate IsPage(envelope: Envelope, id: nat) {
    envelope.memory && envelope.id == id
  }

  /** A message of any opcode may carry a page. */
  function TakesIn(ipc: Ipc, id: nat): nat {
    if ipc.Received? && IsPage(ipc.msg.envelope, id) then 1 else 0
  }

  function Holds(w: Worker, id: nat): nat {
    if w.waiter.Some? && IsPage(w.waiter.value, id) then 1 else 0
  }

  lemma {:induction false} ReturnCountAppend(a: seq<Output>, b: seq<Output>, id: nat)
    ensures ReturnCount(a + b, id) == ReturnCount(a, id) + ReturnCount(b, id)
  {
    if b == [] {
      assert a + b == a;
    } else {
      assert (a + b)[..|a + b| - 1] == a + b[..|b| - 1];
      ReturnCountAppend(a, b[..|b| - 1], id);
    }
  }

  lemma ReturnCountOne(o: Output, id: nat)
    ensures ReturnCount([o], id) == if o.Returned? && o.id == id then 1 else 0
  {
    assert [o][..0] == [];
  }

  lemma DroppedReturns(envelope: Envelope, id: nat)
    ensures ReturnCount(Dropped(envelope), id) == if IsPage(envelope, id) then 1 else 0
  {
    if envelope.memory {
      ReturnCountOne(Returned(envelope.id, Unfilled), id);
    }
  }

  lemma IpcReturns(w: Worker, t: Turn, id: nat)
    ensures var o := ServiceIpc(w, t.ipc); ReturnCount(o.log, id) + Holds(o.w, id) == Holds(w, id) + TakesIn(t.ipc, id)
  {
    assert ReturnCount([], id) == 0;
    hide ReturnCount;
    if w.waiter.Some? {
      DroppedReturns(w.waiter.value, id);
    }
    match t.ipc
    case Received(Wait(envelope)) =>
      if w.pending.Some? {
        ReturnCountOne(FillBuf(envelope, w.pending.value), id);
      }
    case Received(Cancel(envelope)) =>
      var drained := if w.waiter.Some? then [FillBuf(w.waiter.value, Cancelled)] else [];
      DroppedReturns(envelope, id);
      ReturnCountOne(ScalarReply(envelope.id), id);
      ReturnCountAppend(drained + [ScalarReply(envelope.id)], Dropped(envelope), id);
      ReturnCountAppend(drained, [ScalarReply(envelope.id)], id);
      if w.waiter.Some? {
        ReturnCountOne(FillBuf(w.waiter.value, Cancelled), id);
      }
    case Received(Unknown(_, envelope)) => DroppedReturns(envelope, id);
    case _ =>
  }

  lemma PhaseReturns(w: Worker, t: Turn, id: nat)
    ensures ReturnCount(CheckDeadline(w, t.deadlineCheck).log, id) == 0
    ensures ReturnCount(Keepalive(w, t.keepaliveCheck, t.pingOk, t.pingDone).log, id) == 0
    ensures ReturnCount(ReadFrame(w, t.frame).log, id) == 0
    ensures var o := Deliver(w); ReturnCount(o.log, id) + Holds(o.w, id) == Holds(w, id)
  {
    forall o: Output ensures ReturnCount([o], id) == if o.Returned? && o.id == id then 1 else 0 {
      ReturnCountOne(o, id);
    }
  }

  lemma DriveReturns(w: Worker, t: Turn, id: nat)
    ensures ReturnCount(Drive(w, t).log, id) + Holds(Drive(w, t).w, id) == Holds(w, id)
  {
    var o2 := CheckDeadline(w, t.deadlineCheck);
    var o3 := Keepalive(o2.w, t.keepaliveCheck, t.pingOk, t.pingDone);
    var o4 := ReadFrame(o3.w, t.frame);
    var o5 := Deliver(o4.w);
    assert o4.w.waiter == w.waiter;
    PhaseReturns(w, t, id);
    PhaseReturns(o2.w, t, id);
    PhaseReturns(o3.w, t, id);
    PhaseReturns(o4.w, t, id);
    hide ReturnCount, CheckDeadline, Keepalive, ReadFrame, Deliver;
    ReturnCountAppend(o2.log + o3.log + o4.log, o5.log, id);
    ReturnCountAppend(o2.log + o3.log, o4.log, id);
    ReturnCountAppend(o2.log, o3.log, id);
  }

  /** Conservation of pages, at every point of every run: taken in = returned + still parked. */
  lemma {:induction false} PagesConserved(w: Worker, turns: seq<Turn>, id: nat)
    ensures var o := Run(w, turns);
      ReceiveCount(w, turns, id) + Holds(w, id) == ReturnCount(o.log, id) + Holds(o.w, id)
  {
    if turns != [] {
      var n := |turns| - 1;
      var t, o := turns[n], Run(w, turns[..n]);
      PagesConserved(w, turns[..n], id);
      if o.control == Live {
        var s := ServiceIpc(o.w, t.ipc);
        IpcReturns(o.w, t, id);
        hide ReturnCount, ServiceIpc, Drive;
        ReturnCountAppend(o.log, Pass(o.w, t).log, id);
        if s.control == Live {
          DriveReturns(s.w, t, id);
          ReturnCountAppend(s.log, Drive(s.w, t).log, id);
        }
      }
    }
  }

  /** Once the worker has left the loop, every page it took in has been returned exactly as often. */
  lemma ExitReturnsEveryPage(deadline: nat, now: nat, turns: seq<Turn>, id: nat)
    requires Run(Start(deadline, now), turns).control != Live
    ensures var o := Run(Start(deadline, now), turns);
      ReturnCount(o.log + Epilogue(o), id) == ReceiveCount(Start(deadline, now), turns, id)
  {
    var o := Run(Start(deadline, now), turns);
    PagesConserved(Start(deadline, now), turns, id);
    ReturnCountAppend(o.log, Epilogue(o), id);
    ReturnCountAppend([SocketClosed, SidDestroyed], Displaced(o.w.waiter), id);
    assert [SocketClosed, SidDestroyed][..1] == [SocketClosed] && [SocketClosed][..0] == [];
    if o.w.waiter.Some? {
      DroppedReturns(o.w.waiter.value, id);
    }
  }

  lemma DriveNeverUnfilled(w: Worker, t: Turn, id: nat)
    ensures Returned(id, Unfilled) !in Drive(w, t).log
  {
    var o2 := CheckDeadline(w, t.deadlineCheck);
    var o3 := Keepalive(o2.w, t.keepaliveCheck, t.pingOk, t.pingDone);
    var o4 := ReadFrame(o3.w, t.frame);
    var bad := Returned(id, Unfilled);
    assert bad !in o2.log && bad !in o3.log && bad !in o4.log && bad !in Deliver(o4.w).log;
    hide CheckDeadline, Keepalive, ReadFrame, Deliver;
  }

  /** A later wait takes the place of a parked one. */
  predicate Displaces(w: Worker, ipc: Ipc, id: nat) {
    w.waiter.Some? && IsPage(w.waiter.value, id) && ipc.Received? && ipc.msg.Wait?
  }

  /** A page on a message that is not a wait. */
  predicate Stray(ipc: Ipc, id: nat) {
    ipc.Received? && !ipc.msg.Wait? && IsPage(ipc.msg.envelope, id)
  }

  lemma PassUnfilledIff(w: Worker, t: Turn, id: nat)
    requires HeadInv(w)
    ensures Returned(id, Unfilled) in Pass(w, t).log <==> Displaces(w, t.ipc, id) || Stray(t.ipc, id)
  {
    var s := ServiceIpc(w, t.ipc);
    assert Returned(id, Unfilled) in s.log <==> Displaces(w, t.ipc, id) || Stray(t.ipc, id);
    DriveNeverUnfilled(s.w, t, id);
    hide ServiceIpc, Drive;
  }

  /** In turn `i` of the run, page `id` is displaced, or comes in on a message that is not a wait. */
  predicate DropsInTurn(w: Worker, turns: seq<Turn>, id: nat, i: nat)
    requires i < |turns|
  {
    var o := Run(w, turns[..i]);
    o.control == Live && (Displaces(o.w, turns[i].ipc, id) || Stray(turns[i].ipc, id))
  }

  /** An IPC error ended the loop with page `id` parked. */
  predicate DropsAtExit(o: Outcome, id: nat) {
    o.control == IpcFailed && o.w.waiter.Some? && IsPage(o.w.waiter.value, id)
  }

  /**
   Over a whole run and its exit, a page goes back unfilled exactly if a later wait displaced it,
   or it came in on a Cancel or an unknown opcode, or an IPC error ended the loop with it parked.
   */
  lemma UnfilledIff(w: Worker, turns: seq<Turn>, id: nat)
    requires HeadInv(w)
    ensures var o := Run(w, turns);
      Returned(id, Unfilled) in o.log + Epilogue(o) <==>
        (exists i: nat :: i < |turns| && DropsInTurn(w, turns, id, i)) || DropsAtExit(o, id)
  {
    UnfilledInLoopIff(w, turns, id);
    CancelLeavesNoWaiter(w, turns);
    hide Run, DropsInTurn;
  }

  lemma {:induction false} UnfilledInLoopIff(w: Worker, turns: seq<Turn>, id: nat)
    requires HeadInv(w)
    ensures Returned(id, Unfilled) in Run(w, turns).log <==>
            exists i: nat :: i < |turns| && DropsInTurn(w, turns, id, i)
  {
    hide Pass, HeadInv, DropsInTurn;
    if turns != [] {
      var n := |turns| - 1;
      UnfilledInLoopIff(w, turns[..n], id);
      forall i: nat | i < n ensures DropsInTurn(w, turns[..n], id, i) <==> DropsInTurn(w, turns, id, i) {
        DropsInPrefix(w, turns, id, i);
      }
      DropsLast(w, turns, id);
      hide Run;
    }
  }

  lemma DropsInPrefix(w: Worker, turns: seq<Turn>, id: nat, i: nat)
    requires i < |turns| - 1
    ensures DropsInTurn(w, turns[..|turns| - 1], id, i) <==> DropsInTurn(w, turns, id, i)
  {
    assert turns[..|turns| - 1][..i] == turns[..i];
  }

  lemma DropsLast(w: Worker, turns: seq<Turn>, id: nat)
    requires HeadInv(w) && turns != []
    ensures var n := |turns| - 1;
      Returned(id, Unfilled) in Run(w, turns).log <==>
        Returned(id, Unfilled) in Run(w, turns[..n]).log || DropsInTurn(w, turns, id, n)
  {
    var n := |turns| - 1;
    hide Pass, HeadInv, Displaces, Stray;
    ResultsFollowEvents(w, turns[..n]);
    PassUnfilledIff(Run(w, turns[..n]).w, turns[n], id);
  }

  lemma {:induction false} CancelLeavesNoWaiter(w: Worker, turns: seq<Turn>)
    ensures Run(w, turns).control == Cancelling ==> Run(w, turns).w.waiter.None?
  {
    if turns != [] {
      CancelLeavesNoWaiter(w, turns[..|turns| - 1]);
    }
  }

  /** A page lent with an unknown opcode comes back unfilled although no wait displaced it. */
  lemma StrayPageComesBackUnfilled(deadline: nat, now: nat, t: Turn, opcode: nat, id: nat)
    requires t.ipc == Received(Unknown(opcode, Envelope(id, true)))
    ensures Returned(id, Unfilled) in Run(Start(deadline, now), [t]).log
    ensures !Displaces(Start(deadline, now), t.ipc, id)
  {
    var w := Start(deadline, now);
    assert [t][..0] == [];
    PassUnfilledIff(w, t, id);
  }

  // ---- Every Cancel is answered -----------------------------------------------

  /** The messages to which a scalar reply went out, in order. */
  function ScalarReplies(log: seq<Output>): seq<nat> {
    if log == [] then []
    else
      var o := log[|log| - 1];
      ScalarReplies(log[..|log| - 1]) + if o.ScalarReply? then [o.sender] else []
  }

  /** The Cancels a client got through to the worker, in order. */
  function CancelsReceived(w: Worker, turns: seq<Turn>): seq<nat> {
    if turns == [] then []
    else
      var n, ipc := |turns| - 1, turns[|turns| - 1].ipc;
      CancelsReceived(w, turns[..n])
      + if Run(w, turns[..n]).control == Live then CancelIn(ipc) else []
  }

  function CancelIn(ipc: Ipc): seq<nat> {
    if ipc.Received? && ipc.msg.Cancel? then [ipc.msg.envelope.id] else []
  }

  lemma {:induction false} ScalarRepliesAppend(a: seq<Output>, b: seq<Output>)
    ensures ScalarReplies(a + b) == ScalarReplies(a) + ScalarReplies(b)
  {
    if b == [] {
      assert a + b == a;
    } else {
      assert (a + b)[..|a + b| - 1] == a + b[..|b| - 1];
      ScalarRepliesAppend(a, b[..|b| - 1]);
    }
  }

  lemma {:induction false} NoScalarReplies(log: seq<Output>)
    requires forall o :: o in log ==> !o.ScalarReply?
    ensures ScalarReplies(log) == []
  {
    if log != [] {
      NoScalarReplies(log[..|log| - 1]);
    }
  }

  lemma PassRepliesToCancel(w: Worker, t: Turn)
    ensures ScalarReplies(Pass(w, t).log) == CancelIn(t.ipc)
    ensures Pass(w, t).control == Cancelling <==> CancelIn(t.ipc) != []
    ensures SidDestroyed !in Pass(w, t).log
  {
    hide ScalarReplies;
    var s := ServiceIpc(w, t.ipc);
    if CancelIn(t.ipc) != [] {
      var envelope := t.ipc.msg.envelope;
      var drained := if w.waiter.Some? then [FillBuf(w.waiter.value, Cancelled)] else [];
      ScalarRepliesAppend(drained + [ScalarReply(envelope.id)], Dropped(envelope));
      ScalarRepliesAppend(drained, [ScalarReply(envelope.id)]);
      NoScalarReplies(drained);
      NoScalarReplies(Dropped(envelope));
      OneScalarReply(envelope.id);
    } else {
      NoScalarReplies(s.log);
      if s.control == Live {
        DriveIsSilent(s.w, t);
        NoScalarReplies(Drive(s.w, t).log);
        hide Drive;
        ScalarRepliesAppend(s.log, Drive(s.w, t).log);
      }
    }
  }

  lemma OneScalarReply(id: nat)
    ensures ScalarReplies([ScalarReply(id)]) == [id]
  {
    assert [ScalarReply(id)][..0] == [];
  }

  lemma DriveIsSilent(w: Worker, t: Turn)
    ensures forall o :: o in Drive(w, t).log ==> !o.ScalarReply? && !o.SidDestroyed?
  {
    var o2 := CheckDeadline(w, t.deadlineCheck);
    var o3 := Keepalive(o2.w, t.keepaliveCheck, t.pingOk, t.pingDone);
    var o4 := ReadFrame(o3.w, t.frame);
    assert forall o | o in o2.log || o in o3.log || o in o4.log || o in Deliver(o4.w).log ::
      !o.ScalarReply? && !o.SidDestroyed?;
    hide CheckDeadline, Keepalive, ReadFrame, Deliver;
  }

  /**
   Whatever a client sends, each Cancel the worker receives gets one scalar reply and nothing else
   gets one; there is at most one, it ends the loop, and the SID is destroyed only after it.
   */
  lemma {:induction false} CancelsAreAnswered(w: Worker, turns: seq<Turn>)
    ensures var o := Run(w, turns);
      && ScalarReplies(o.log) == ScalarReplies(o.log + Epilogue(o)) == CancelsReceived(w, turns)
      && |CancelsReceived(w, turns)| == (if o.control == Cancelling then 1 else 0)
      && SidDestroyed !in o.log
  {
    hide ScalarReplies, Pass;
    var o := Run(w, turns);
    ScalarRepliesAppend(o.log, Epilogue(o));
    NoScalarReplies(Epilogue(o));
    if turns == [] {
      NoScalarReplies([]);
    } else {
      var n := |turns| - 1;
      var before := Run(w, turns[..n]);
      CancelsAreAnswered(w, turns[..n]);
      if before.control == Live {
        PassRepliesToCancel(before.w, turns[n]);
        ScalarRepliesAppend(before.log, Pass(before.w, turns[n]).log);
      }
    }
  }

  // ---- Time -------------------------------------------------------------------

  /** The clock readings of a turn lie in order between its begin and its end, 1 to `d` ms apart. */
  predicate Timed(t: Turn, d: nat) {
    && t.begin <= t.deadlineCheck <= t.keepaliveCheck <= t.pingDone <= t.end
    && t.begin + 1 <= t.end <= t.begin + d
  }

  /** Timed turns, each beginning when the one before it ends. */
  ghost predicate WellTimed(turns: seq<Turn>, d: nat) {
    && (forall i :: 0 <= i < |turns| ==> Timed(turns[i], d))
    && (forall i :: 0 < i < |turns| ==> turns[i].begin == turns[i - 1].end)
  }

  /** The message `id` was answered with a result, in its page if it has one. */
  ghost predicate Answered(log: seq<Output>, id: nat) {
    exists r: Output :: r in log && ((r.Returned? && r.id == id && r.reply.Filled?) || (r.Lost? && r.id == id))
  }

  /** No client message that answers or drains the parked waiter reaches the worker. */
  predicate LeavesWaiter(ipc: Ipc) {
    ipc.Nothing? || (ipc.Received? && ipc.msg.Unknown?)
  }

  /** The first pass whose deadline check sees the deadline passed answers a parked waiter. */
  lemma PassAtDeadlineAnswers(w: Worker, t: Turn)
    requires HeadInv(w) && w.waiter.Some? && LeavesWaiter(t.ipc) && t.deadlineCheck >= w.deadline
    ensures Pass(w, t).w.waiter.None?
    ensures FillBuf(w.waiter.value, TimedOut) in Pass(w, t).log
  {
    var o2 := CheckDeadline(w, t.deadlineCheck);
    assert o2.w.pending == Some(TimedOut);
  }

  lemma {:induction false} TimePasses(turns: seq<Turn>, d: nat)
    requires turns != [] && WellTimed(turns, d)
    ensures turns[|turns| - 1].begin >= turns[0].begin + |turns| - 1
  {
    if |turns| > 1 {
      TimePasses(turns[..|turns| - 1], d);
    }
  }

  /**
   A parked waiter is answered within `deadline - now + 1` passes, whatever the socket does; the
   measure is the time left, of which every pass uses up at least a millisecond.
   */
  lemma {:induction false} WaiterAnsweredByDeadline(w: Worker, turns: seq<Turn>, d: nat)
    requires HeadInv(w) && w.waiter.Some? && WellTimed(turns, d) && turns != []
    requires forall i :: 0 <= i < |turns| ==> LeavesWaiter(turns[i].ipc)
    requires |turns| > w.deadline - turns[0].begin
    ensures Run(w, turns).w.waiter.None? && Run(w, turns).control == Live
    ensures Answered(Run(w, turns).log, w.waiter.value.id)
  {
    TimePasses(turns, d);
    StillWaitingOrAnswered(w, turns[..|turns| - 1]);
    var o := Run(w, turns[..|turns| - 1]);
    ResultsFollowEvents(w, turns[..|turns| - 1]);
    var t := turns[|turns| - 1];
    if o.w.waiter.Some? {
      PassAtDeadlineAnswers(o.w, t);
      assert FillBuf(w.waiter.value, TimedOut) in Run(w, turns).log;
    } else {
      NobodyParks(o.w, t);
    }
  }

  lemma NobodyParks(w: Worker, t: Turn)
    requires w.waiter.None? && LeavesWaiter(t.ipc)
    ensures Pass(w, t).w.waiter.None? && Pass(w, t).control == Live
  {
  }

  lemma {:induction false} StillWaitingOrAnswered(w: Worker, turns: seq<Turn>)
    requires HeadInv(w) && w.waiter.Some?
    requires forall i :: 0 <= i < |turns| ==> LeavesWaiter(turns[i].ipc)
    ensures var o := Run(w, turns);
      && o.control == Live && o.w.deadline == w.deadline
      && (o.w.waiter.Some? ==> o.w.waiter == w.waiter)
      && (o.w.waiter.None? ==> Answered(o.log, w.waiter.value.id))
  {
    if turns != [] {
      var n := |turns| - 1;
      var o, t := Run(w, turns[..n]), turns[n];
      StillWaitingOrAnswered(w, turns[..n]);
      if o.w.waiter.Some? {
        WaitingPass(o.w, t);
      } else {
        NobodyParks(o.w, t);
      }
      hide Pass;
    }
  }

  lemma WaitingPass(w: Worker, t: Turn)
    requires w.waiter.Some? && LeavesWaiter(t.ipc)
    ensures var p := Pass(w, t);
      && p.control == Live && p.w.deadline == w.deadline
      && (p.w.waiter.Some? ==> p.w.waiter == w.waiter)
      && (p.w.waiter.None? ==> Answered(p.log, w.waiter.value.id))
  {
    var o2 := CheckDeadline(w, t.deadlineCheck);
    var o3 := Keepalive(o2.w, t.keepaliveCheck, t.pingOk, t.pingDone);
    var o4 := ReadFrame(o3.w, t.frame);
    if o4.w.pending.Some? {
      var r := FillBuf(w.waiter.value, o4.w.pending.value);
      assert r in Deliver(o4.w).log;
      assert r in Pass(w, t).log;
    }
  }

  /** The recorded times of the successful Pings in a log. */
  function Pings(log: seq<Output>): seq<nat> {
    if log == [] then []
    else
      var o := log[|log| - 1];
      Pings(log[..|log| - 1]) + if o.PingSent? then [o.at] else []
  }

  lemma {:induction false} PingsAppend(a: seq<Output>, b: seq<Output>)
    ensures Pings(a + b) == Pings(a) + Pings(b)
  {
    if b == [] {
      assert a + b == a;
    } else {
      assert (a + b)[..|a + b| - 1] == a + b[..|b| - 1];
      PingsAppend(a, b[..|b| - 1]);
    }
  }

  lemma PassPings(w: Worker, t: Turn)
    requires HeadInv(w) && w.pending.None? && Pass(w, t).control == Live
    requires Offered(t, w.deadline, w.lastSendAt).None?
    ensures Pings(Pass(w, t).log) == if PingDue(t, w.lastSendAt) then [t.pingDone] else []
  {
    var s := ServiceIpc(w, t.ipc);
    var d := Drive(s.w, t);
    IpcPings(w, t);
    DrivePings(s.w, t);
    PingsAppend(s.log, d.log);
  }

  lemma PingsOne(o: Output)
    ensures Pings([o]) == if o.PingSent? then [o.at] else []
  {
    assert [o][..0] == [];
  }

  lemma IpcPings(w: Worker, t: Turn)
    requires HeadInv(w) && w.pending.None? && ServiceIpc(w, t.ipc).control == Live
    ensures var s := ServiceIpc(w, t.ipc);
      Pings(s.log) == [] && s.w.pending.None? && s.w.deadline == w.deadline && s.w.lastSendAt == w.lastSendAt
  {
    var s := ServiceIpc(w, t.ipc);
    if s.log != [] {
      PingsOne(s.log[0]);
      assert s.log == [s.log[0]];
    }
  }

  lemma DrivePings(w: Worker, t: Turn)
    requires w.pending.None? && Offered(t, w.deadline, w.lastSendAt).None?
    ensures Pings(Drive(w, t).log) == if PingDue(t, w.lastSendAt) then [t.pingDone] else []
  {
    var d := Drive(w, t);
    assert d.log == if PingDue(t, w.lastSendAt) then [PingSent(t.pingDone)] else [];
    if d.log != [] {
      PingsOne(d.log[0]);
    }
  }

  /** Up to the end of the turns, the environment has offered no terminal event. */
  predicate Eventless(w: Worker, turns: seq<Turn>) {
    Run(w, turns).control == Live && LedgerOf(w, turns).first.None? && LedgerOf(w, turns).due == []
  }

  ghost predicate Spaced(times: seq<nat>, least: nat, most: nat) {
    forall i :: 0 < i < |times| ==> times[i - 1] + least <= times[i] < times[i - 1] + most
  }

  lemma SpacedExtend(times: seq<nat>, at: nat, least: nat, most: nat)
    requires times != [] && Spaced(times, least, most)
    requires times[|times| - 1] + least <= at < times[|times| - 1] + most
    ensures Spaced(times + [at], least, most)
  {
  }

  lemma TwoGaps(times: seq<nat>, least: nat, most: nat, i: nat)
    requires Spaced(times, least, most) && i + 2 < |times|
    ensures times[i + 2] < times[i] + 2 * most
  {
    assert times[i + 1] < times[i] + most;
  }

  /** The last turn of an eventless run: at most it sends a Ping. */
  lemma EventlessStep(w: Worker, turns: seq<Turn>)
    requires HeadInv(w) && w.pending.None? && Eventless(w, turns) && turns != []
    ensures var before, t := turns[..|turns| - 1], turns[|turns| - 1];
      var o, o' := Run(w, before), Run(w, turns);
      && Eventless(w, before) && o'.w.pending.None?
      && Pings(o'.log) == Pings(o.log) + (if PingDue(t, o.w.lastSendAt) then [t.pingDone] else [])
      && o'.w.lastSendAt == if PingDue(t, o.w.lastSendAt) then t.pingDone else o.w.lastSendAt
  {
    var n := |turns| - 1;
    var o, t := Run(w, turns[..n]), turns[n];
    ResultsFollowEvents(w, turns[..n]);
    ResultsFollowEvents(w, turns);
    hide Pass, Results, HeadInv, MarkOf;
    assert Eventless(w, turns[..n]) && Offered(t, w.deadline, o.w.lastSendAt).None?;
    PassPings(o.w, t);
    PingsAppend(o.log, Pass(o.w, t).log);
  }

  /** The worker counts from the last Ping, and one pass (of at most `d` ms) may overshoot the cadence. */
  predicate OnCadence(lastSendAt: nat, now: nat, d: nat) {
    lastSendAt <= now < lastSendAt + 25_000 + d
  }

  /** `times` are the Ping times so far, the time the worker started counting from included. */
  ghost predicate PingsSpaced(o: Outcome, times: seq<nat>, d: nat) {
    && times != [] && o.w.pending.None? && o.w.lastSendAt == times[|times| - 1]
    && Spaced(times, 25_000, 25_000 + 2 * d)
  }

  function PingTimes(w: Worker, turns: seq<Turn>): seq<nat> {
    [w.lastSendAt] + Pings(Run(w, turns).log)
  }

  lemma PingSpacingStep(w: Worker, turns: seq<Turn>, d: nat)
    requires HeadInv(w) && w.pending.None? && Eventless(w, turns) && turns != []
    requires var before, t := turns[..|turns| - 1], turns[|turns| - 1];
      && Timed(t, d)
      && PingsSpaced(Run(w, before), PingTimes(w, before), d)
      && OnCadence(Run(w, before).w.lastSendAt, t.begin, d)
    ensures PingsSpaced(Run(w, turns), PingTimes(w, turns), d)
    ensures OnCadence(Run(w, turns).w.lastSendAt, turns[|turns| - 1].end, d)
  {
    hide Pass, HeadInv, Pings, Eventless, Spaced;
    var n := |turns| - 1;
    var o, t := Run(w, turns[..n]), turns[n];
    EventlessStep(w, turns);
    hide Run;
    if PingDue(t, o.w.lastSendAt) {
      assert PingTimes(w, turns) == PingTimes(w, turns[..n]) + [t.pingDone];
      SpacedExtend(PingTimes(w, turns[..n]), t.pingDone, 25_000, 25_000 + 2 * d);
    } else {
      assert PingTimes(w, turns) == PingTimes(w, turns[..n]);
    }
  }

  /**
   While no result is pending, successive successful Pings (the time the worker started counting
   from included) are at least 25 s apart and less than 25 s plus two passes apart, and the last
   one is never older than 25 s plus one pass.
   */
  lemma {:induction false} PingSpacing(w: Worker, turns: seq<Turn>, d: nat)
    requires HeadInv(w) && w.pending.None? && WellTimed(turns, d) && Eventless(w, turns)
    requires turns != [] ==> OnCadence(w.lastSendAt, turns[0].begin, d)
    ensures PingsSpaced(Run(w, turns), PingTimes(w, turns), d)
    ensures turns != [] ==> OnCadence(Run(w, turns).w.lastSendAt, turns[|turns| - 1].end, d)
  {
    if turns != [] {
      var n := |turns| - 1;
      EventlessStep(w, turns);
      PingSpacing(w, turns[..n], d);
      assert n > 0 ==> turns[n].begin == turns[n - 1].end;
      PingSpacingStep(w, turns, d);
    }
  }

  /** With passes of at most 2.5 s, any two successive gaps fit in the server's 60 s idle limit. */
  lemma TwoPingsPerMinute(w: Worker, turns: seq<Turn>, d: nat, i: nat)
    requires d <= 2_500
    requires HeadInv(w) && w.pending.None? && WellTimed(turns, d) && Eventless(w, turns)
    requires turns != [] ==> OnCadence(w.lastSendAt, turns[0].begin, d)
    requires i + 2 < |PingTimes(w, turns)|
    ensures PingTimes(w, turns)[i + 2] < PingTimes(w, turns)[i] + 60_000
  {
    PingSpacing(w, turns, d);
    hide Run, Pings, PingTimes;
    TwoGaps(PingTimes(w, turns), 25_000, 25_000 + 2 * d, i);
  }

  // ---- The end of the loop ----------------------------------------------------

  predicate Leaves(t: Turn) {
    t.ipc.IpcError? || (t.ipc.Received? && t.ipc.msg.Cancel?)
  }

  /** The loop ends at the first Cancel or IPC error, and by nothing else: no result, deadline or frame ends it. */
  lemma {:induction false} LoopEndsIff(w: Worker, turns: seq<Turn>)
    ensures Run(w, turns).control != Live <==> exists i :: 0 <= i < |turns| && Leaves(turns[i])
    ensures forall i :: 0 <= i < |turns| && Leaves(turns[i]) ==> Run(w, turns) == Run(w, turns[..i + 1])
  {
    hide Drive;
    if turns != [] {
      var n := |turns| - 1;
      LoopEndsIff(w, turns[..n]);
      assert forall i :: 0 <= i < n ==> turns[..n][i] == turns[i];
      assert Leaves(turns[n]) <==> Pass(Run(w, turns[..n]).w, turns[n]).control != Live;
      forall i | 0 <= i < |turns| && Leaves(turns[i]) ensures Run(w, turns) == Run(w, turns[..i + 1]) {
        if i == n {
          assert turns[..i + 1] == turns;
        } else {
          assert turns[..n][..i + 1] == turns[..i + 1];
          assert Leaves(turns[..n][i]);
        }
      }
    }
  }
}
