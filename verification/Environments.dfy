/**
 The processes outside: a table, descriptors, signals, clocks and locks that may answer anything,
 with a ghost trace of what was asked and answered.
 */
module Environments {
  import opened Common
  import opened ProcessTree

  datatype Signal = STOP | CONT | TERM

  datatype Sent = Delivered | NoProcess | SignalError

  datatype Role = Supervisor | Worker | Child | Descendant

  datatype Identity = Identity(
    role: Role, pid: int, group: int, session: int, birth: string, parent: Option<int>, runId: string, taskId: string)

  /** The supervisor's singleton lock as its backend reports it; `holder` is a run id or empty. */
  datatype Lock = Lock(locked: bool, holder: string)

  /** The verified roots of a run, and whether a lock could not be attributed; or that they cannot be verified. */
  datatype Roots = Roots(ids: seq<Identity>, retained: bool) | Unverifiable

  /** What the environment was asked and what it answered, in order. */
  datatype Event =
    | Opened(pid: int, fd: int)
    | Missing(pid: int)
    | Unopened(pid: int)
    | Inspected(pid: int, node: Option<Node>)
    | Closed(fd: int)
    | Signalled(fd: int, signal: Signal, sent: Sent)
    | Polled(fd: int, exited: bool)
    | TableRead(table: Table)
    | WaitRaised
    | ClockRead(at: int)
    | BackendLate
    | SleepCut
    | Identified(pid: int, group: int, session: int, birth: string)
    | Unidentified(pid: int)
    | RootsRead(answer: Roots)
    | StatusCut(interrupted: bool)
    | LockRead(lock: Lock)
    | Reconciled(clean: bool)

  type Trace = seq<Event>

  function OpenedFds(es: Trace): seq<int> {
    if es == [] then []
    else
      var before, e := OpenedFds(es[..|es| - 1]), es[|es| - 1];
      if e.Opened? then before + [e.fd] else before
  }

  function ClosedFds(es: Trace): seq<int> {
    if es == [] then []
    else
      var before, e := ClosedFds(es[..|es| - 1]), es[|es| - 1];
      if e.Closed? then before + [e.fd] else before
  }

  /** The descriptors SIGTERM was sent to, in order. */
  function TermFds(es: Trace): seq<int> {
    if es == [] then []
    else
      var before, e := TermFds(es[..|es| - 1]), es[|es| - 1];
      if e.Signalled? && e.signal == TERM then before + [e.fd] else before
  }

  /** The process ids looked up by opening a descriptor, in order. */
  function TouchedPids(es: Trace): seq<int> {
    if es == [] then []
    else
      var before, e := TouchedPids(es[..|es| - 1]), es[|es| - 1];
      if e.Opened? || e.Missing? then before + [e.pid] else before
  }

  lemma {:induction false} OpenedAppend(a: Trace, b: Trace)
    ensures OpenedFds(a + b) == OpenedFds(a) + OpenedFds(b)
  {
    if b == [] {
      assert a + b == a;
    } else {
      OpenedAppend(a, b[..|b| - 1]);
      assert (a + b)[..|a + b| - 1] == a + b[..|b| - 1];
    }
  }

  lemma {:induction false} ClosedAppend(a: Trace, b: Trace)
    ensures ClosedFds(a + b) == ClosedFds(a) + ClosedFds(b)
  {
    if b == [] {
      assert a + b == a;
    } else {
      ClosedAppend(a, b[..|b| - 1]);
      assert (a + b)[..|a + b| - 1] == a + b[..|b| - 1];
    }
  }

  lemma {:induction false} TermAppend(a: Trace, b: Trace)
    ensures TermFds(a + b) == TermFds(a) + TermFds(b)
  {
    if b == [] {
      assert a + b == a;
    } else {
      TermAppend(a, b[..|b| - 1]);
      assert (a + b)[..|a + b| - 1] == a + b[..|b| - 1];
    }
  }

  lemma TraceAppend(a: Trace, b: Trace)
    ensures OpenedFds(a + b) == OpenedFds(a) + OpenedFds(b)
    ensures ClosedFds(a + b) == ClosedFds(a) + ClosedFds(b)
    ensures TermFds(a + b) == TermFds(a) + TermFds(b)
  {
    OpenedAppend(a, b);
    ClosedAppend(a, b);
    TermAppend(a, b);
  }

  lemma {:induction false} TouchedAppend(a: Trace, b: Trace)
    ensures TouchedPids(a + b) == TouchedPids(a) + TouchedPids(b)
  {
    if b == [] {
      assert a + b == a;
    } else {
      TouchedAppend(a, b[..|b| - 1]);
      assert (a + b)[..|a + b| - 1] == a + b[..|b| - 1];
    }
  }

  lemma TouchedSnoc(a: Trace, e: Event)
    ensures TouchedPids(a + [e]) == if e.Opened? || e.Missing? then TouchedPids(a) + [e.pid] else TouchedPids(a)
  {
    assert (a + [e])[..|a|] == a;
  }

  lemma NoEvents()
    ensures OpenedFds([]) == [] == ClosedFds([]) && TermFds([]) == [] == TouchedPids([])
  {
  }

  lemma FdsSnocEvent(a: Trace, e: Event)
    ensures OpenedFds(a + [e]) == if e.Opened? then OpenedFds(a) + [e.fd] else OpenedFds(a)
    ensures ClosedFds(a + [e]) == if e.Closed? then ClosedFds(a) + [e.fd] else ClosedFds(a)
    ensures TermFds(a + [e]) == if e.Signalled? && e.signal == TERM then TermFds(a) + [e.fd] else TermFds(a)
  {
    assert (a + [e])[..|a|] == a;
  }

  /** Readings of the clock, a backend deadline found passed, and interrupted sleeps. */
  predicate Timing(e: Event) { e.ClockRead? || e.BackendLate? || e.SleepCut? }

  /** The clock was read at or after the deadline. */
  ghost predicate PastDeadline(es: Trace, deadline: int) { exists e | e in es :: e.ClockRead? && e.at >= deadline }

  lemma PastMore(a: Trace, b: Trace, deadline: int)
    requires PastDeadline(a, deadline) || PastDeadline(b, deadline)
    ensures PastDeadline(a + b, deadline)
  {
    var es := if PastDeadline(a, deadline) then a else b;
    var e :| e in es && e.ClockRead? && e.at >= deadline;
    assert e in a + b;
  }

  /** Only descriptors asked for and processes inspected. */
  predicate Lookups(es: Trace) { forall e | e in es :: e.Opened? || e.Missing? || e.Unopened? || e.Inspected? }

  /** Only signals, polls, inspections, raises and closes: no descriptor was asked for. */
  predicate Untouched(es: Trace) {
    forall e | e in es :: e.Signalled? || e.Polled? || e.Inspected? || e.Closed? || e.WaitRaised? || Timing(e)
  }

  lemma {:induction false} UntouchedPids(es: Trace)
    requires Untouched(es)
    ensures TouchedPids(es) == [] == OpenedFds(es)
  {
    if es != [] {
      assert es[|es| - 1] in es && forall e | e in es[..|es| - 1] :: e in es;
      UntouchedPids(es[..|es| - 1]);
    }
  }

  /** Only polls, inspections, raises and signals other than SIGTERM. */
  predicate Calm(es: Trace) {
    forall e | e in es :: (e.Signalled? && e.signal != TERM) || e.Polled? || e.Inspected? || e.WaitRaised? || Timing(e)
  }

  lemma {:induction false} CalmFds(es: Trace)
    requires Calm(es)
    ensures OpenedFds(es) == [] && ClosedFds(es) == [] && TermFds(es) == []
  {
    if es != [] {
      assert es[|es| - 1] in es && forall e | e in es[..|es| - 1] :: e in es;
      CalmFds(es[..|es| - 1]);
    }
  }

  /** Only polls, inspections and timing. */
  predicate Watching(es: Trace) { forall e | e in es :: e.Polled? || e.Inspected? || Timing(e) }

  lemma WatchingCalm(es: Trace)
    requires Watching(es)
    ensures Calm(es) && OnlyTerms(es)
  {
  }

  /** Descriptors are opened before the first SIGTERM is sent, and closed after the last. */
  predicate Phased(es: Trace) {
    es == [] ||
    (var init, e := es[..|es| - 1], es[|es| - 1];
     && Phased(init)
     && (e.Opened? || e.Missing? ==> TermFds(init) == [] && ClosedFds(init) == [])
     && (e.Signalled? && e.signal == TERM ==> ClosedFds(init) == []))
  }

  lemma {:induction false} PhasedAppend(a: Trace, b: Trace)
    requires Phased(a) && Untouched(b)
    requires TermFds(b) == [] || ClosedFds(a) == ClosedFds(b) == []
    ensures Phased(a + b)
  {
    if b == [] {
      assert a + b == a;
    } else {
      var init, e := b[..|b| - 1], b[|b| - 1];
      assert e in b && forall x | x in init :: x in b;
      assert (a + b)[..|a + b| - 1] == a + init;
      PhasedAppend(a, init);
      TraceAppend(a, init);
    }
  }

  /** Whether `fd` got a SIGSTOP that no SIGCONT has followed; `was` is the answer before `es`. */
  predicate LeftStopped(was: bool, es: Trace, fd: int) {
    if es == [] then was
    else
      var e := es[|es| - 1];
      if e == Signalled(fd, STOP, Delivered) then true
      else if e.Signalled? && e.fd == fd && e.signal == CONT then false
      else LeftStopped(was, es[..|es| - 1], fd)
  }

  lemma {:induction false} LeftStoppedAppend(was: bool, a: Trace, b: Trace, fd: int)
    ensures LeftStopped(was, a + b, fd) == LeftStopped(LeftStopped(was, a, fd), b, fd)
  {
    if b == [] {
      assert a + b == a;
    } else {
      LeftStoppedAppend(was, a, b[..|b| - 1], fd);
      assert (a + b)[..|a + b| - 1] == a + b[..|b| - 1];
    }
  }

  lemma LeftStoppedSnoc(was: bool, a: Trace, e: Event, fd: int)
    ensures LeftStopped(was, a + [e], fd) ==
            (if e == Signalled(fd, STOP, Delivered) then true
             else if e.Signalled? && e.fd == fd && e.signal == CONT then false else LeftStopped(was, a, fd))
  {
    assert (a + [e])[..|a|] == a;
  }

  /** No signal of any kind. */
  predicate Unsignalled(es: Trace) { forall e | e in es :: !e.Signalled? }

  /** No SIGTERM to anyone. */
  predicate NoTerms(es: Trace) { forall e | e in es :: !(e.Signalled? && e.signal == TERM) }

  /** No wait for a suspended supervisor raised. */
  predicate NoRaise(es: Trace) { forall e | e in es :: !e.WaitRaised? }

  /** No signal but SIGTERM was sent, and no wait raised. */
  predicate OnlyTerms(es: Trace) { NoRaise(es) && NoStops(es) }

  predicate NoStops(es: Trace) { forall e | e in es :: e.Signalled? ==> e.signal == TERM }

  lemma {:induction false} OnlyTermsLeave(was: bool, es: Trace, fd: int)
    requires NoStops(es)
    ensures LeftStopped(was, es, fd) == was
  {
    if es != [] {
      assert es[|es| - 1] in es && forall e | e in es[..|es| - 1] :: e in es;
      OnlyTermsLeave(was, es[..|es| - 1], fd);
    }
  }

  datatype OpenResult = Fd(fd: int) | Vanished | Unavailable

  function StatusEvent(s: Status): Event {
    match s
    case Status(lock) => LockRead(lock)
    case StatusInterrupted => StatusCut(true)
    case StatusFailure => StatusCut(false)
  }

  function IdentityEvent(pid: int, r: Option<Identity>): Event {
    if r.Some? then Identified(pid, r.value.group, r.value.session, r.value.birth) else Unidentified(pid)
  }

  datatype Status = Status(lock: Lock) | StatusInterrupted | StatusFailure

  class Environment {
    var clock: int
    var open: set<int>
    ghost var trace: Trace

    constructor ()
      ensures open == {} && trace == []
    {
      clock, open, trace := 0, {}, [];
    }

    method Monotonic() returns (t: int)
      modifies this`clock, this`trace
      ensures t == clock >= old(clock) && trace == old(trace) + [ClockRead(t)]
    {
      t := *;
      if t < clock { t := clock; }
      clock, trace := t, trace + [ClockRead(t)];
    }

    /** Whether the lock backend's own deadline has passed. */
    method BackendExpired() returns (late: bool)
      modifies this`trace
      ensures trace == old(trace) + (if late then [BackendLate] else [])
    {
      late := *;
      trace := trace + (if late then [BackendLate] else []);
    }

    /** A completed sleep of positive length moves the clock forward. */
    method Sleep(d: int) returns (interrupted: bool)
      modifies this`clock, this`trace
      ensures clock >= old(clock) && (d > 0 && !interrupted ==> clock > old(clock))
      ensures trace == old(trace) + (if interrupted then [SleepCut] else [])
    {
      interrupted := *;
      if d > 0 { clock := clock + 1; }
      trace := trace + (if interrupted then [SleepCut] else []);
    }

    method OpenPidfd(pid: int) returns (r: OpenResult)
      modifies this`open, this`trace
      ensures match r
              case Fd(fd) => fd !in old(open) && open == old(open) + {fd} && trace == old(trace) + [Opened(pid, fd)]
              case Vanished => open == old(open) && trace == old(trace) + [Missing(pid)]
              case Unavailable => open == old(open) && trace == old(trace) + [Unopened(pid)]
    {
      r := *;
      if r.Fd? && r.fd in open { r := Unavailable; }
      if r.Fd? {
        open, trace := open + {r.fd}, trace + [Opened(pid, r.fd)];
      } else if r.Vanished? {
        trace := trace + [Missing(pid)];
      } else {
        trace := trace + [Unopened(pid)];
      }
    }

    method CloseFd(fd: int)
      modifies this`open, this`trace
      ensures open == old(open) - {fd} && trace == old(trace) + [Closed(fd)]
    {
      open, trace := open - {fd}, trace + [Closed(fd)];
    }

    method SendSignal(fd: int, signal: Signal) returns (sent: Sent)
      modifies this`trace
      ensures trace == old(trace) + [Signalled(fd, signal, sent)]
    {
      sent := *;
      trace := trace + [Signalled(fd, signal, sent)];
    }

    method Exited(fd: int) returns (exited: bool)
      modifies this`trace
      ensures trace == old(trace) + [Polled(fd, exited)]
    {
      exited := *;
      trace := trace + [Polled(fd, exited)];
    }

    method ReadTable() returns (t: Table)
      modifies this`trace
      ensures Snapshot(t) && trace == old(trace) + [TableRead(t)]
    {
      t := *;
      if !Snapshot(t) { t := []; }
      trace := trace + [TableRead(t)];
    }

    /** Whether a probe of a suspended supervisor raises. */
    method MayRaise() returns (raises: bool)
      modifies this`trace
      ensures trace == old(trace) + (if raises then [WaitRaised] else [])
    {
      raises := *;
      trace := trace + (if raises then [WaitRaised] else []);
    }

    method ReadNode(pid: int) returns (n: Option<Node>)
      modifies this`trace
      ensures trace == old(trace) + [Inspected(pid, n)]
    {
      n := *;
      trace := trace + [Inspected(pid, n)];
    }

    /** The group, session and birth id a live process has now; None when a lookup raises. */
    method Identify(pid: int) returns (r: Option<Identity>)
      modifies this`trace
      ensures trace == old(trace) + [IdentityEvent(pid, r)]
    {
      r := *;
      trace := trace + [IdentityEvent(pid, r)];
    }

    method ReadRoots() returns (r: Roots)
      modifies this`trace
      ensures trace == old(trace) + [RootsRead(r)]
    {
      r := *;
      trace := trace + [RootsRead(r)];
    }

    method ReadLock() returns (s: Status)
      modifies this`trace
      ensures trace == old(trace) + [StatusEvent(s)]
    {
      s := *;
      trace := trace + [StatusEvent(s)];
    }

    /** Records the drained workers' runs as terminated and releases their locks; clean when no blocker was left. */
    method ReconcileWorkers() returns (clean: bool)
      modifies this`trace
      ensures trace == old(trace) + [Reconciled(clean)]
    {
      clean := *;
      trace := trace + [Reconciled(clean)];
    }

    /** A poll that raises instead of answering; None when it answers. */
    method PollCut() returns (cut: Option<bool>)
      modifies this`trace
      ensures trace == old(trace) + (if cut.Some? then [StatusCut(cut.value)] else [])
    {
      cut := *;
      trace := trace + (if cut.Some? then [StatusCut(cut.value)] else []);
    }
  }
}
