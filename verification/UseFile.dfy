/**
 Double-checked initialisation of the random-device descriptor, as an N-thread step machine.
 A step is one shared-memory access, one system call or one mutex operation of one thread, so
 a trace is an arbitrary interleaving of any number of concurrent calls of `get_rng_fd`.
 */
module UseFile {
  import opened Base

  type Tid = nat

  /** `uninit` is `usize::MAX`; `linux` says whether `wait_until_rng_ready` is compiled in. */
  datatype Config = Config(uninit: nat, linux: bool) {
    predicate Valid() { uninit == TWO_TO_THE_32 - 1 || uninit == TWO_TO_THE_64 - 1 }
  }

  datatype Outcome = Fd(fd: c_int) | Failed(errno: int)

  /** Where a thread stands inside `get_rng_fd`. `Unlocking` is the drop of the mutex guard. */
  datatype Pc =
    | Idle
    | FirstCheck
    | Locking
    | SecondCheck
    | OpeningRandom
    | Polling(random: c_int)
    | ClosingRandom(random: c_int, error: Option<int>)
    | OpeningUrandom
    | Storing(urandom: c_int)
    | Unlocking(result: Outcome)

  /** What the scheduled step does, with the answer of the system call where there is one. */
  datatype Event =
    | Call
    | LoadFd
    | Lock
    | Open(ret: c_int, errno: int)
    | Poll(ret: c_int, errno: int)
    | Close
    | Store
    | Unlock

  const EINTR := 4
  const EAGAIN := 11

  datatype Shared = Shared(
    fd: nat,                        // the atomic FD
    owner: Option<Tid>,             // the pthread mutex
    opens: seq<c_int>,              // descriptors of every successful open of /dev/urandom
    stores: seq<nat>,               // every value written to FD
    randoms: set<c_int>,            // descriptors of /dev/random not yet closed
    results: seq<Outcome>)          // what the calls returned, in order

  /** Threads absent from `pcs` are idle. */
  datatype Sys = Sys(sh: Shared, pcs: map<Tid, Pc>) {
    function Pc(t: Tid): Pc { if t in pcs then pcs[t] else Idle }

    function OwnerPc(): Pc {
      match sh.owner case Some(t) => Pc(t) case None => Idle
    }
  }

  function Init(c: Config): Sys {
    Sys(Shared(c.uninit, None, [], [], {}, []), map[])
  }

  /** `val as libc::c_int`: the low 32 bits, read as two's complement. */
  function AsCInt(v: nat): c_int {
    var low := v % 0x1_0000_0000;
    if low < TWO_TO_THE_31 then low else low - TWO_TO_THE_32
  }

  /** `fd as usize`: sign extension. */
  function AsUsize(c: Config, fd: c_int): nat
    requires c.Valid()
  {
    if fd >= 0 then fd else c.uninit + 1 + fd
  }

  /** `get_fd`. */
  function GetFd(c: Config, sh: Shared): Option<c_int> {
    if sh.fd == c.uninit then None else Some(AsCInt(sh.fd))
  }

  /** The next action of thread `t` at `pc`; `None` when `e` is not that action or has to wait. */
  function Act(c: Config, sh: Shared, t: Tid, pc: Pc, e: Event): Option<(Shared, Pc)>
    requires c.Valid()
  {
    match (pc, e)
    case (Idle, Call) => Some((sh, FirstCheck))
    case (FirstCheck, LoadFd) =>
      (match GetFd(c, sh)
       case Some(fd) => Some((sh.(results := sh.results + [Fd(fd)]), Idle))
       case None => Some((sh, Locking)))
    case (Locking, Lock) =>
      if sh.owner == None then Some((sh.(owner := Some(t)), SecondCheck)) else None
    case (SecondCheck, LoadFd) =>
      (match GetFd(c, sh)
       case Some(fd) => Some((sh, Unlocking(Fd(fd))))
       case None => Some((sh, if c.linux then OpeningRandom else OpeningUrandom)))
    case (OpeningRandom, Open(ret, errno)) =>
      if ret >= 0 then Some((sh.(randoms := sh.randoms + {ret}), Polling(ret)))
      else if errno == EINTR then Some((sh, pc))
      else Some((sh, Unlocking(Failed(errno))))
    case (Polling(random), Poll(ret, errno)) =>
      if ret >= 0 then Some((sh, ClosingRandom(random, None)))
      else if errno == EINTR || errno == EAGAIN then Some((sh, pc))
      else Some((sh, ClosingRandom(random, Some(errno))))
    case (ClosingRandom(random, error), Close) =>
      Some((sh.(randoms := sh.randoms - {random}),
            match error case None => OpeningUrandom case Some(errno) => Unlocking(Failed(errno))))
    case (OpeningUrandom, Open(ret, errno)) =>
      if ret >= 0 then Some((sh.(opens := sh.opens + [ret]), Storing(ret)))
      else if errno == EINTR then Some((sh, pc))
      else Some((sh, Unlocking(Failed(errno))))
    case (Storing(fd), Store) =>
      Some((sh.(fd := AsUsize(c, fd), stores := sh.stores + [AsUsize(c, fd)]), Unlocking(Fd(fd))))
    case (Unlocking(r), Unlock) => Some((sh.(owner := None, results := sh.results + [r]), Idle))
    case _ => None
  }

  function Step(c: Config, s: Sys, t: Tid, e: Event): Option<Sys>
    requires c.Valid()
  {
    match Act(c, s.sh, t, s.Pc(t), e)
    case None => None
    case Some((sh, pc)) => Some(Sys(sh, s.pcs[t := pc]))
  }

  /** A whole run: `None` when some step of the trace is not enabled where it stands. */
  function Run(c: Config, s: Sys, trace: seq<(Tid, Event)>): Option<Sys>
    requires c.Valid()
  {
    if trace == [] then Some(s)
    else match Run(c, s, trace[..|trace| - 1])
      case None => None
      case Some(s') => Step(c, s', trace[|trace| - 1].0, trace[|trace| - 1].1)
  }

  predicate InCriticalSection(pc: Pc) {
    !(pc.Idle? || pc.FirstCheck? || pc.Locking?)
  }

  /** The critical section up to the successful open of the device. */
  predicate BeforeOpen(pc: Pc) {
    pc.OpeningRandom? || pc.Polling? || pc.ClosingRandom? || pc.OpeningUrandom?
  }

  function HeldRandom(pc: Pc): set<c_int> {
    match pc
    case Polling(random) => {random}
    case ClosingRandom(random, _) => {random}
    case _ => {}
  }

  /** A result is the one descriptor ever opened, already published in FD. */
  predicate Published(sh: Shared, r: Outcome) {
    r.Fd? ==> sh.opens == [r.fd] && sh.stores != []
  }

  /** The mutex is held by exactly the thread whose program counter is inside the critical section. */
  ghost predicate Exclusive(s: Sys) {
    forall t: Tid :: InCriticalSection(s.Pc(t)) <==> s.sh.owner == Some(t)
  }

  /** What is open and what is published, read off from where the owner of the mutex stands. */
  ghost predicate Consistent(c: Config, sh: Shared, pc: Pc) {
    && (sh.fd == c.uninit <==> sh.stores == [])
    && (sh.stores != [] ==> |sh.opens| == 1 && sh.opens[0] >= 0 && sh.stores == [sh.fd] && sh.fd == sh.opens[0])
    && (sh.stores == [] ==> sh.opens == (if pc.Storing? then [pc.urandom] else []))
    && (pc.Storing? ==> sh.stores == [] && pc.urandom >= 0)
    && (BeforeOpen(pc) ==> sh.stores == [])
    && (pc.Unlocking? ==> Published(sh, pc.result))
    && sh.randoms == HeldRandom(pc)
  }

  ghost predicate AllPublished(sh: Shared) {
    forall r :: r in sh.results ==> Published(sh, r)
  }

  ghost predicate Inv(c: Config, s: Sys) {
    Exclusive(s) && Consistent(c, s.sh, s.OwnerPc()) && AllPublished(s.sh)
  }

  /** One action of the mutex's owner. */
  lemma OwnerActs(c: Config, sh: Shared, t: Tid, pc: Pc, e: Event)
    requires c.Valid() && InCriticalSection(pc) && Consistent(c, sh, pc) && Act(c, sh, t, pc, e).Some?
    ensures Consistent(c, Act(c, sh, t, pc, e).value.0, Act(c, sh, t, pc, e).value.1)
    ensures sh.stores != [] ==> Act(c, sh, t, pc, e).value.0.fd == sh.fd
  {
    assert pc.OpeningRandom? && e.Open? ==> sh.randoms + {e.ret} == {e.ret};
    assert pc.ClosingRandom? ==> sh.randoms - {pc.random} == {};
  }

  /** One action of any other thread, while the owner (if there is one) stands at `pc`. */
  lemma OutsiderActs(c: Config, sh: Shared, t: Tid, own: Pc, e: Event, pc: Pc)
    requires c.Valid() && !InCriticalSection(own) && Consistent(c, sh, pc) && Act(c, sh, t, own, e).Some?
    requires sh.owner == None ==> pc == Idle
    ensures Consistent(c, Act(c, sh, t, own, e).value.0, if e == Lock then SecondCheck else pc)
    ensures Act(c, sh, t, own, e).value.0.fd == sh.fd
  {
  }

  lemma ActKeepsPublished(c: Config, sh: Shared, t: Tid, own: Pc, e: Event, pc: Pc)
    requires c.Valid() && Consistent(c, sh, pc) && AllPublished(sh) && Act(c, sh, t, own, e).Some?
    requires InCriticalSection(own) ==> own == pc
    ensures AllPublished(Act(c, sh, t, own, e).value.0)
  {
    var sh' := Act(c, sh, t, own, e).value.0;
    assert sh.stores != [] ==> sh'.opens == sh.opens && sh'.stores != [];
    forall r | r in sh'.results
      ensures Published(sh', r)
    {
      if r in sh.results {
        assert Published(sh, r);
      }
    }
  }

  lemma StepKeepsInv(c: Config, s: Sys, t: Tid, e: Event)
    requires c.Valid() && Inv(c, s) && Step(c, s, t, e).Some?
    ensures Inv(c, Step(c, s, t, e).value)
    ensures s.sh.stores != [] ==> Step(c, s, t, e).value.sh.fd == s.sh.fd
  {
    hide AsCInt, AsUsize;
    var s' := Step(c, s, t, e).value;
    assert InCriticalSection(s.Pc(t)) <==> s.sh.owner == Some(t);
    if s.sh.owner == Some(t) {
      OwnerActs(c, s.sh, t, s.Pc(t), e);
    } else {
      OutsiderActs(c, s.sh, t, s.Pc(t), e, s.OwnerPc());
    }
    ActKeepsPublished(c, s.sh, t, s.Pc(t), e, s.OwnerPc());
    forall u: Tid
      ensures InCriticalSection(s'.Pc(u)) <==> s'.sh.owner == Some(u)
    {
      assert InCriticalSection(s.Pc(u)) <==> s.sh.owner == Some(u);
    }
  }

  lemma {:induction false} RunKeepsInv(c: Config, s: Sys, trace: seq<(Tid, Event)>)
    requires c.Valid() && Inv(c, s) && Run(c, s, trace).Some?
    ensures Inv(c, Run(c, s, trace).value)
    ensures s.sh.stores != [] ==> Run(c, s, trace).value.sh.fd == s.sh.fd
  {
    if trace != [] {
      var n := |trace| - 1;
      RunKeepsInv(c, s, trace[..n]);
      StepKeepsInv(c, Run(c, s, trace[..n]).value, trace[n].0, trace[n].1);
    }
  }

  /**
   The promise of the comment on `get_rng_fd`, for every interleaving of every number of calls:
   one thread at most in the critical section and the mutex held only from there, one successful
   open of the device, one write of FD, one descriptor for every successful call.
   */
  lemma OpenedOnceSameFdForAll(c: Config, trace: seq<(Tid, Event)>)
    requires c.Valid() && Run(c, Init(c), trace).Some?
    ensures var s := Run(c, Init(c), trace).value;
      && (forall t: Tid, u: Tid :: InCriticalSection(s.Pc(t)) && InCriticalSection(s.Pc(u)) ==> t == u)
      && (s.sh.owner.Some? ==> InCriticalSection(s.Pc(s.sh.owner.value)))
      && |s.sh.opens| <= 1 && |s.sh.stores| <= 1
      && (forall q, r :: q in s.sh.results && r in s.sh.results && q.Fd? && r.Fd? ==> q == r)
      && (forall r :: r in s.sh.results && r.Fd? ==> s.sh.opens == [r.fd])
  {
    RunKeepsInv(c, Init(c), trace);
    var s := Run(c, Init(c), trace).value;
    assert forall t: Tid :: InCriticalSection(s.Pc(t)) <==> s.sh.owner == Some(t);
    assert forall r :: r in s.sh.results ==> Published(s.sh, r);
  }

  /** Every exit releases: when all calls have returned, the mutex is free and no descriptor of /dev/random is open. */
  lemma QuietMeansReleased(c: Config, trace: seq<(Tid, Event)>)
    requires c.Valid() && Run(c, Init(c), trace).Some?
    requires forall t: Tid :: Run(c, Init(c), trace).value.Pc(t) == Idle
    ensures Run(c, Init(c), trace).value.sh.owner == None
    ensures Run(c, Init(c), trace).value.sh.randoms == {}
  {
    RunKeepsInv(c, Init(c), trace);
  }

  lemma {:induction false} RunAppend(c: Config, s: Sys, before: seq<(Tid, Event)>, after: seq<(Tid, Event)>)
    requires c.Valid()
    ensures Run(c, s, before + after)
         == match Run(c, s, before) case None => None case Some(s') => Run(c, s', after)
  {
    if after == [] {
      assert before + after == before;
    } else {
      var n := |after| - 1;
      assert (before + after)[..|before + after| - 1] == before + after[..n];
      RunAppend(c, s, before, after[..n]);
    }
  }

  /** Once some call has published a descriptor, no later step of any thread changes FD. */
  lemma PublishedFdIsFinal(c: Config, before: seq<(Tid, Event)>, after: seq<(Tid, Event)>)
    requires c.Valid() && Run(c, Init(c), before + after).Some?
    requires Run(c, Init(c), before).Some? && Run(c, Init(c), before).value.sh.fd != c.uninit
    ensures Run(c, Init(c), before + after).value.sh.fd == Run(c, Init(c), before).value.sh.fd
  {
    RunAppend(c, Init(c), before, after);
    RunKeepsInv(c, Init(c), before);
    RunKeepsInv(c, Run(c, Init(c), before).value, after);
  }

  // ---- What the system answered -----------------------------------------------
  // Read off from the trace alone, whatever the threads make of it.

  /** Since its last call began, thread `t` has had a poll of /dev/random succeed. */
  predicate Polled(trace: seq<(Tid, Event)>, t: Tid) {
    if trace == [] then false
    else
      var (u, e) := trace[|trace| - 1];
      if u != t then Polled(trace[..|trace| - 1], t)
      else if e.Call? then false
      else (e.Poll? && e.ret >= 0) || Polled(trace[..|trace| - 1], t)
  }

  /** The error of the last system call that answered thread `t` since its call began, if it failed. */
  function LastError(trace: seq<(Tid, Event)>, t: Tid): Option<int> {
    if trace == [] then None
    else
      var (u, e) := trace[|trace| - 1];
      if u != t then LastError(trace[..|trace| - 1], t)
      else match e
        case Call => None
        case Open(ret, errno) => if ret < 0 then Some(errno) else None
        case Poll(ret, errno) => if ret < 0 then Some(errno) else None
        case _ => LastError(trace[..|trace| - 1], t)
  }

  /** Where a thread stands agrees with what the system answered it. */
  predicate Heeds(c: Config, pc: Pc, polled: bool, error: Option<int>) {
    match pc
    case FirstCheck => error.None?
    case Locking => error.None?
    case SecondCheck => error.None?
    case OpeningRandom => c.linux
    case Polling(_) => c.linux
    case ClosingRandom(_, None) => c.linux && polled && error.None?
    case ClosingRandom(_, Some(errno)) => c.linux && error == Some(errno) && errno != 4 && errno != 11
    case OpeningUrandom => (c.linux ==> polled) && (error.Some? ==> error == Some(4))
    case Storing(_) => (c.linux ==> polled) && error.None?
    case Unlocking(Failed(errno)) => error == Some(errno) && errno != 4
    case Unlocking(Fd(_)) => error.None?
    case _ => true
  }

  lemma {:induction false} ThreadsHeedAnswers(c: Config, trace: seq<(Tid, Event)>, t: Tid)
    requires c.Valid() && Run(c, Init(c), trace).Some?
    ensures Heeds(c, Run(c, Init(c), trace).value.Pc(t), Polled(trace, t), LastError(trace, t))
  {
    hide GetFd, AsUsize;
    if trace != [] {
      ThreadsHeedAnswers(c, trace[..|trace| - 1], t);
    }
  }

  /** At index `j` of the trace the system lets a thread open a device after its poll has succeeded. */
  predicate OpensAfterPoll(trace: seq<(Tid, Event)>, j: nat, fd: c_int)
    requires j < |trace|
  {
    trace[j].1.Open? && trace[j].1.ret == fd >= 0 && Polled(trace[..j], trace[j].0)
  }

  /** Where the kernel may hand out weak randomness, /dev/urandom is opened only after polling /dev/random succeeded. */
  lemma {:induction false} OpenedOnlyAfterPoll(c: Config, trace: seq<(Tid, Event)>)
    requires c.Valid() && c.linux && Run(c, Init(c), trace).Some?
    ensures forall fd :: fd in Run(c, Init(c), trace).value.sh.opens ==>
      exists j: nat :: j < |trace| && OpensAfterPoll(trace, j, fd)
  {
    if trace != [] {
      var n := |trace| - 1;
      var before, after := Run(c, Init(c), trace[..n]).value.sh.opens, Run(c, Init(c), trace).value.sh.opens;
      OpenedOnlyAfterPoll(c, trace[..n]);
      ThreadsHeedAnswers(c, trace[..n], trace[n].0);
      forall fd | fd in after ensures exists j: nat :: j < |trace| && OpensAfterPoll(trace, j, fd) {
        if fd in before {
          var j: nat :| j < n && OpensAfterPoll(trace[..n], j, fd);
          assert trace[..n][..j] == trace[..j];
          assert OpensAfterPoll(trace, j, fd);
        } else {
          assert OpensAfterPoll(trace, n, fd);
        }
      }
    }
  }

  /** At index `j` a call returns whose last system call had failed with `errno`. */
  predicate ReturnsAfterError(trace: seq<(Tid, Event)>, j: nat, errno: int)
    requires j < |trace|
  {
    trace[j].1.Unlock? && LastError(trace[..j], trace[j].0) == Some(errno)
  }

  /** A call fails only with the error that its last system call answered, and never with EINTR. */
  lemma {:induction false} FailuresAreAnswers(c: Config, trace: seq<(Tid, Event)>)
    requires c.Valid() && Run(c, Init(c), trace).Some?
    ensures forall errno :: Failed(errno) in Run(c, Init(c), trace).value.sh.results ==>
      errno != 4 && exists j: nat :: j < |trace| && ReturnsAfterError(trace, j, errno)
  {
    if trace != [] {
      var n := |trace| - 1;
      var before, after := Run(c, Init(c), trace[..n]).value.sh.results, Run(c, Init(c), trace).value.sh.results;
      FailuresAreAnswers(c, trace[..n]);
      ThreadsHeedAnswers(c, trace[..n], trace[n].0);
      forall errno | Failed(errno) in after
        ensures errno != 4 && exists j: nat :: j < |trace| && ReturnsAfterError(trace, j, errno)
      {
        if Failed(errno) in before {
          var j: nat :| j < n && ReturnsAfterError(trace[..n], j, errno);
          assert trace[..n][..j] == trace[..j];
          assert ReturnsAfterError(trace, j, errno);
        } else {
          assert ReturnsAfterError(trace, n, errno);
        }
      }
    }
  }

  /** A call whose last system call failed, other than to be repeated, returns that failure. */
  lemma ErrorsAreReturned(c: Config, trace: seq<(Tid, Event)>, t: Tid)
    requires c.Valid() && Run(c, Init(c), trace + [(t, Unlock)]).Some?
    ensures var before := Run(c, Init(c), trace).value.sh.results;
      var after := Run(c, Init(c), trace + [(t, Unlock)]).value.sh.results;
      && |after| == |before| + 1
      && (LastError(trace, t).Some? ==> after[|before|] == Failed(LastError(trace, t).value))
      && (LastError(trace, t).None? ==> after[|before|].Fd?)
  {
    assert (trace + [(t, Unlock)])[..|trace|] == trace;
    ThreadsHeedAnswers(c, trace, t);
  }

  /** The action a thread at `pc` is about to take, with a successful answer from the system. */
  function NextEvent(pc: Pc): Event {
    match pc
    case Idle => Call
    case FirstCheck => LoadFd
    case SecondCheck => LoadFd
    case Locking => Lock
    case OpeningRandom => Open(0, 0)
    case OpeningUrandom => Open(0, 0)
    case Polling(_) => Poll(1, 0)
    case ClosingRandom(_, _) => Close
    case Storing(_) => Store
    case Unlocking(_) => Unlock
  }

  /** No deadlock: a thread inside a call can move, or the mutex it waits for is held by a thread that can. */
  lemma SomeThreadCanMove(c: Config, trace: seq<(Tid, Event)>, t: Tid)
    requires c.Valid() && Run(c, Init(c), trace).Some?
    ensures var s := Run(c, Init(c), trace).value;
      || Step(c, s, t, NextEvent(s.Pc(t))).Some?
      || (s.sh.owner.Some? && s.sh.owner.value != t && Step(c, s, s.sh.owner.value, NextEvent(s.OwnerPc())).Some?)
  {
    RunKeepsInv(c, Init(c), trace);
    var s := Run(c, Init(c), trace).value;
    if s.sh.owner.Some? {
      assert InCriticalSection(s.Pc(s.sh.owner.value));
    }
  }
}
