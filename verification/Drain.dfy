/**
 Draining an owned process tree: every candidate is pinned and re-verified before any signal is
 sent, then terminated deepest first and waited for. The environment may answer anything.
 */
module Drain {
  import opened Common
  import opened ProcessTree
  import opened Environments

  // ---------------------------------------------------------------- results

  datatype Blocker =
    | Clear
    | BirthMissing(pid: int)
    | PidfdUnavailable(pid: int)
    | IdentityChanged(pid: int)
    | DrainTimeout
    | QuiesceFailed
    | NotQuiet(why: QuietBlocker)
    | SignalFailed(pid: int)
    | Interrupted

  datatype QuietBlocker = StateMissing | StateChanged | QuietTimeout | QuietInterrupted

  datatype DrainResult = DrainResult(drained: seq<Identity>, remaining: seq<Identity>, blocker: Blocker) {
    predicate Complete() { blocker == Clear && remaining == [] }
  }

  /** Blockers found while the candidates were pinned. */
  predicate WhilePinning(b: Blocker) { b.BirthMissing? || b.PidfdUnavailable? || b.IdentityChanged? }

  /** Blockers the caller's hook answered with. */
  predicate FromHook(b: Blocker) { b.QuiesceFailed? || b.NotQuiet? }

  /** Blockers that stop a drain before its first signal. */
  predicate BeforeSignals(b: Blocker) { WhilePinning(b) || FromHook(b) }

  /** How a drain can end once every candidate was signalled. */
  predicate AfterSignals(b: Blocker) { b == Clear || b == DrainTimeout || b == Interrupted }

  function Recorded(roots: seq<Identity>, pid: int): Option<Identity> {
    if roots == [] then None
    else if roots[|roots| - 1].pid == pid then Some(roots[|roots| - 1])
    else Recorded(roots[..|roots| - 1], pid)
  }

  function IdentityFor(roots: seq<Identity>, n: Node): Identity {
    var recorded := Recorded(roots, n.pid);
    Identity(if recorded.Some? then recorded.value.role else Descendant,
             n.pid, n.group, n.session, n.birth, Some(n.parent),
             if recorded.Some? then recorded.value.runId else "", if recorded.Some? then recorded.value.taskId else "")
  }

  function Identities(roots: seq<Identity>, nodes: seq<Node>): seq<Identity> {
    seq(|nodes|, i requires 0 <= i < |nodes| => IdentityFor(roots, nodes[i]))
  }

  function PidsInOrder(nodes: seq<Node>): seq<int> { seq(|nodes|, i requires 0 <= i < |nodes| => nodes[i].pid) }

  function RootBirths(roots: seq<Identity>): map<int, string> {
    if roots == [] then map[] else RootBirths(roots[..|roots| - 1])[roots[|roots| - 1].pid := roots[|roots| - 1].birth]
  }

  // ---------------------------------------------------------------- the supervisor's quiescence

  datatype Quiesce = Quiet | Blocked(why: QuietBlocker) | Failed

  /** The event after which a supervisor counts as quiet: its exit, or a stopped state of the same process. */
  predicate QuietSeen(e: Event, fd: int, identity: Identity) {
    || e == Polled(fd, true)
    || (e.Inspected? && e.pid == identity.pid && e.node.Some? && e.node.value.birth == identity.birth
        && e.node.value.group == identity.group && e.node.value.session == identity.session
        && e.node.value.state in {"T", "t"})
  }

  /** The supervisor a stop is about, pinned by its own descriptor. */
  class SupervisorHandle {
    const fd: int
    const identity: Identity
    var quiesced: bool

    constructor (fd: int, identity: Identity)
      ensures this.fd == fd && this.identity == identity && !quiesced
    {
      this.fd, this.identity, quiesced := fd, identity, false;
    }

    /** Stops the supervisor, then waits until the kernel shows it stopped or gone. */
    method QuiesceSupervisor(env: Environment, deadline: int) returns (q: Quiesce, ghost es: Trace)
      requires !quiesced
      modifies this`quiesced, env`clock, env`trace
      ensures env.trace == old(env.trace) + es && Calm(es)
      ensures quiesced == LeftStopped(false, es, fd) == (Signalled(fd, STOP, Delivered) in es)
      ensures es != [] && es[0].Signalled? && es[0].fd == fd && es[0].signal == STOP
      ensures q == Failed <==> StopFailed(es, fd)
      ensures WaitRaised in es || q != Failed ==> quiesced
      ensures quiesced ==> !StopRefused(es, fd)
      ensures q.Blocked? ==> NotStopped(es, fd, q.why, identity, deadline)
      ensures q == Quiet ==> es != [] && QuietSeen(es[|es| - 1], fd, identity) && QuietFirst(es, fd, identity)
    {
      var answer := env.SendSignal(fd, STOP);
      es := [Signalled(fd, STOP, answer)];
      LeftStoppedSnoc(false, [], es[0], fd);
      assert [] + es == es;
      assert es[0] in es;
      if answer != Delivered { return Failed, es; }
      quiesced := true;
      ghost var waits;
      q, waits := WaitForVerifiedStop(env, fd, identity, deadline);
      StopThenWait(fd, waits, q, identity, deadline);
      es := es + waits;
    }
  }

  /** What a delivered SIGSTOP and the wait for it show. */
  lemma StopThenWait(fd: int, waits: Trace, q: Quiesce, identity: Identity, deadline: int)
    requires Waiting(waits) && (q == Failed <==> WaitRaised in waits)
    requires q.Blocked? ==> WhyNotQuiet(q.why, waits, identity, deadline)
    requires q == Quiet ==> waits != [] && QuietSeen(waits[|waits| - 1], fd, identity)
    ensures var es := [Signalled(fd, STOP, Delivered)] + waits;
            && LeftStopped(false, es, fd) && !StopRefused(es, fd) && (q == Failed <==> StopFailed(es, fd))
            && (q.Blocked? ==> NotStopped(es, fd, q.why, identity, deadline))
            && (q == Quiet ==> QuietSeen(es[|es| - 1], fd, identity) && QuietFirst(es, fd, identity))
  {
    var stop := Signalled(fd, STOP, Delivered);
    var es := [stop] + waits;
    LeftStoppedSnoc(false, [], stop, fd);
    assert [] + [stop] == [stop];
    OnlyTermsLeave(true, waits, fd);
    LeftStoppedAppend(false, [stop], waits, fd);
    assert es[1..] == waits && es[0] == stop && es[..|es|] == es;
    if q.Blocked? { assert NotQuietFrom(es, 0, fd, q.why, identity, deadline); }
    if q == Quiet { assert QuietAt(es, |es| - 1, fd, identity); }
  }

  /**
   Between two looks: the deadline is checked, then a sleep of at most 50 milliseconds. `Some(true)` is
   a passed deadline, `Some(false)` an interrupted sleep.
   */
  method Pause(env: Environment, deadline: int) returns (cut: Option<bool>, ghost es: Trace)
    modifies env`clock, env`trace
    ensures env.trace == old(env.trace) + es && forall e | e in es :: Timing(e)
    ensures cut == Some(true) ==> PastDeadline(es, deadline)
    ensures cut == Some(false) ==> SleepCut in es
    ensures cut.None? ==> old(env.clock) < env.clock && old(env.clock) < deadline
  {
    var now := env.Monotonic();
    es := [ClockRead(now)];
    assert ClockRead(now) in es;
    if now >= deadline { return Some(true), es; }
    var again := env.Monotonic();
    var interrupted := env.Sleep(Shortest(deadline - again));
    es := [ClockRead(now), ClockRead(again)] + (if interrupted then [SleepCut] else []);
    cut := if interrupted then Some(false) else None;
  }

  /** One look at the supervisor: decided, or still running. Any of its probes may raise. */
  method LookOnce(env: Environment, fd: int, identity: Identity) returns (q: Option<Quiesce>, ghost es: Trace)
    modifies env`trace
    ensures Waiting(es) && env.trace == old(env.trace) + es
    ensures q == Some(Failed) <==> WaitRaised in es
    ensures q.Some? && q.value.Blocked? ==>
              (q.value.why == StateMissing && Inspected(identity.pid, None) in es)
              || (q.value.why == StateChanged
                  && exists n :: Inspected(identity.pid, Some(n)) in es && !SameSupervisor(n, identity))
    ensures q == Some(Quiet) ==> es != [] && QuietSeen(es[|es| - 1], fd, identity)
  {
    var raises := env.MayRaise();
    if raises { return Some(Failed), [WaitRaised]; }
    var exited := env.Exited(fd);
    es := [Polled(fd, exited)];
    if exited { return Some(Quiet), es; }
    raises := env.MayRaise();
    if raises { return Some(Failed), es + [WaitRaised]; }
    var current := env.ReadNode(identity.pid);
    es := es + [Inspected(identity.pid, current)];
    assert Inspected(identity.pid, current) in es;
    if current.None? {
      ghost var last;
      q, last := LookAgain(env, fd);
      es := es + last;
      return;
    }
    var n := current.value;
    if !SameSupervisor(n, identity) { return Some(Blocked(StateChanged)), es; }
    q := if n.state == "T" || n.state == "t" then Some(Quiet) else None;
  }

  /** A process without an entry has exited, or its state is missing. */
  method LookAgain(env: Environment, fd: int) returns (q: Option<Quiesce>, ghost es: Trace)
    modifies env`trace
    ensures env.trace == old(env.trace) + es
    ensures match q
            case Some(Failed) => es == [WaitRaised]
            case Some(Quiet) => es == [Polled(fd, true)]
            case Some(Blocked(why)) => why == StateMissing && es == [Polled(fd, false)]
            case None => false
  {
    var raises := env.MayRaise();
    if raises { return Some(Failed), [WaitRaised]; }
    var exited := env.Exited(fd);
    return Some(if exited then Quiet else Blocked(StateMissing)), [Polled(fd, exited)];
  }

  /** Waits until the exact supervisor is seen stopped or exited. */
  method WaitForVerifiedStop(env: Environment, fd: int, identity: Identity, deadline: int)
    returns (q: Quiesce, ghost waits: Trace)
    modifies env`clock, env`trace
    ensures Waiting(waits) && env.trace == old(env.trace) + waits
    ensures q == Failed <==> WaitRaised in waits
    ensures q.Blocked? ==> WhyNotQuiet(q.why, waits, identity, deadline)
    ensures q == Quiet ==> waits != [] && QuietSeen(waits[|waits| - 1], fd, identity)
  {
    waits := [];
    while true
      invariant Waiting(waits) && WaitRaised !in waits && env.trace == old(env.trace) + waits
      decreases if deadline > env.clock then deadline - env.clock else 0
    {
      ghost var look, pause;
      var found, cut;
      found, look := LookOnce(env, fd, identity);
      waits := waits + look;
      if found.Some? { return found.value, waits; }
      cut, pause := Pause(env, deadline);
      PastLater(waits, pause, deadline);
      waits := waits + pause;
      if cut.Some? { return Blocked(if cut.value then QuietTimeout else QuietInterrupted), waits; }
    }
  }

  lemma PastLater(a: Trace, b: Trace, deadline: int)
    ensures PastDeadline(b, deadline) ==> PastDeadline(a + b, deadline)
  {
    if PastDeadline(b, deadline) { PastMore(a, b, deadline); }
  }

  /** Only polls, inspections, raises and timing. */
  predicate Waiting(es: Trace) { forall e | e in es :: e.Polled? || e.Inspected? || e.WaitRaised? || Timing(e) }

  /** A quiet blocker has its cause: no state, another process, a clock past the deadline, or a sleep cut short. */
  ghost predicate WhyNotQuiet(why: QuietBlocker, es: Trace, identity: Identity, deadline: int) {
    match why
    case StateMissing => Inspected(identity.pid, None) in es
    case StateChanged => exists n :: Inspected(identity.pid, Some(n)) in es && !SameSupervisor(n, identity)
    case QuietTimeout => PastDeadline(es, deadline)
    case QuietInterrupted => SleepCut in es
  }

  /** A SIGSTOP was not delivered. */
  predicate StopRefused(es: Trace, fd: int) {
    Signalled(fd, STOP, NoProcess) in es || Signalled(fd, STOP, SignalError) in es
  }

  /** A SIGSTOP was not delivered, or the wait for it raised. */
  predicate StopFailed(es: Trace, fd: int) { StopRefused(es, fd) || WaitRaised in es }

  /** The SIGSTOP at `i` was delivered, and what follows it shows why the supervisor does not count as quiet. */
  ghost predicate NotQuietFrom(es: Trace, i: nat, fd: int, why: QuietBlocker, identity: Identity, deadline: int) {
    i < |es| && es[i] == Signalled(fd, STOP, Delivered) && WhyNotQuiet(why, es[i + 1..], identity, deadline)
  }

  ghost predicate NotStopped(es: Trace, fd: int, why: QuietBlocker, identity: Identity, deadline: int) {
    exists i: nat :: NotQuietFrom(es, i, fd, why, identity, deadline)
  }

  lemma NotStoppedMore(a: Trace, es: Trace, b: Trace, fd: int, why: QuietBlocker, identity: Identity, deadline: int)
    requires NotStopped(es, fd, why, identity, deadline)
    ensures NotStopped(a + es + b, fd, why, identity, deadline)
  {
    var i: nat :| NotQuietFrom(es, i, fd, why, identity, deadline);
    var all, rest := a + es + b, es[i + 1..];
    assert all[|a| + i] == es[i] && all[|a| + i + 1..] == rest + b;
    if PastDeadline(rest, deadline) { PastMore(rest, b, deadline); }
    assert forall e | e in rest :: e in rest + b;
    assert NotQuietFrom(all, |a| + i, fd, why, identity, deadline);
  }

  predicate SameSupervisor(n: Node, identity: Identity) {
    n.birth == identity.birth && n.group == identity.group && n.session == identity.session
  }

  /** A poll interval of at most 50 milliseconds, never negative. */
  function Shortest(left: int): int { if left < 0 then 0 else if left < 50 then left else 50 }

  // ---------------------------------------------------------------- pinning the candidates

  /** A candidate pinned by a descriptor. */
  datatype Handle = Handle(identity: Identity, fd: int)

  function Fds(hs: seq<Handle>): seq<int> { seq(|hs|, i requires 0 <= i < |hs| => hs[i].fd) }

  function FdSet(hs: seq<Handle>): set<int> { set h | h in hs :: h.fd }

  function Pinned(hs: seq<Handle>): seq<Identity> { seq(|hs|, i requires 0 <= i < |hs| => hs[i].identity) }

  /** `log` opened exactly the pinned handles, each on a descriptor not in use before, and missed the vanished. */
  ghost predicate Logged(log: Trace, pinned: seq<Handle>, vanished: seq<Identity>, inUse: set<int>) {
    && OpenedFds(log) == Fds(pinned) && ClosedFds(log) == [] && TermFds(log) == [] && Lookups(log)
    && Distinct(Fds(pinned)) && (forall fd | fd in Fds(pinned) :: fd !in inUse)
    && (forall id | id in vanished :: Missing(id.pid) in log)
    && (forall h | h in pinned :: Opened(h.identity.pid, h.fd) in log)
  }

  /** Pinned and vanished candidates together are exactly those looked at. */
  ghost predicate Accounted(pinned: seq<Handle>, vanished: seq<Identity>, ids: seq<Identity>) {
    multiset(Pinned(pinned)) + multiset(vanished) == multiset(ids)
  }

  predicate SameProcess(a: Node, b: Node) {
    a.birth == b.birth && a.parent == b.parent && a.group == b.group && a.session == b.session
  }

  /** At `i` the candidate was pinned, and right after that seen gone or found unchanged. */
  predicate PinnedAt(es: Trace, i: nat, n: Node) {
    && i + 1 < |es| && es[i].Opened? && es[i].pid == n.pid
    && es[i + 1].Inspected? && es[i + 1].pid == n.pid
    && (es[i + 1].node.Some? ==> SameProcess(es[i + 1].node.value, n))
  }

  /** The candidate has a birth id, and was gone before it could be pinned or was verified after it was. */
  ghost predicate Vetted(es: Trace, n: Node) {
    n.birth != "" && (Missing(n.pid) in es || exists i: nat :: PinnedAt(es, i, n))
  }

  ghost predicate AllVetted(es: Trace, nodes: seq<Node>) {
    nodes == [] || (Vetted(es, nodes[|nodes| - 1]) && AllVetted(es, nodes[..|nodes| - 1]))
  }

  /** Why a candidate stopped the drain: no birth id, no descriptor, or a second look at a different process. */
  ghost predicate Faulted(es: Trace, n: Node, b: Blocker) {
    match b
    case BirthMissing(pid) => pid == n.pid && n.birth == ""
    case PidfdUnavailable(pid) => pid == n.pid && Unopened(pid) in es
    case IdentityChanged(pid) => pid == n.pid && exists c :: Inspected(pid, Some(c)) in es && !SameProcess(c, n)
    case _ => false
  }

  ghost predicate FaultFound(es: Trace, nodes: seq<Node>, b: Blocker) { exists n :: n in nodes && Faulted(es, n, b) }

  lemma FaultMore(es: Trace, more: Trace, nodes: seq<Node>, b: Blocker)
    requires FaultFound(es, nodes, b)
    ensures FaultFound(es + more, nodes, b)
  {
    var n :| n in nodes && Faulted(es, n, b);
    if b.IdentityChanged? {
      var c :| Inspected(b.pid, Some(c)) in es && !SameProcess(c, n);
      assert Inspected(b.pid, Some(c)) in es + more;
    }
    assert Faulted(es + more, n, b);
  }

  lemma {:induction false} VettedMore(es: Trace, more: Trace, nodes: seq<Node>)
    requires AllVetted(es, nodes)
    ensures AllVetted(es + more, nodes)
  {
    if nodes != [] {
      var n := nodes[|nodes| - 1];
      if Missing(n.pid) !in es {
        var i: nat :| PinnedAt(es, i, n);
        assert PinnedAt(es + more, i, n);
      }
      VettedMore(es, more, nodes[..|nodes| - 1]);
    }
  }

  lemma FdsSnoc(pinned: seq<Handle>, h: Handle)
    ensures Fds(pinned + [h]) == Fds(pinned) + [h.fd] && FdSet(pinned + [h]) == FdSet(pinned) + {h.fd}
    ensures Pinned(pinned + [h]) == Pinned(pinned) + [h.identity]
  {
  }

  lemma LogOpened(log: Trace, pinned: seq<Handle>, vanished: seq<Identity>, inUse: set<int>, h: Handle)
    requires Logged(log, pinned, vanished, inUse) && h.fd !in inUse + FdSet(pinned)
    ensures Logged(log + [Opened(h.identity.pid, h.fd)], pinned + [h], vanished, inUse)
    ensures FdSet(pinned + [h]) == FdSet(pinned) + {h.fd}
    ensures TouchedPids(log + [Opened(h.identity.pid, h.fd)]) == TouchedPids(log) + [h.identity.pid]
  {
    hide OpenedFds, ClosedFds, TermFds, TouchedPids;
    FdsSnocEvent(log, Opened(h.identity.pid, h.fd));
    TouchedSnoc(log, Opened(h.identity.pid, h.fd));
    FdsSnoc(pinned, h);
    InFdSet(pinned, h.fd);
  }

  lemma InFdSet(pinned: seq<Handle>, fd: int)
    ensures fd in Fds(pinned) <==> fd in FdSet(pinned)
  {
    if fd in Fds(pinned) {
      var i :| 0 <= i < |pinned| && Fds(pinned)[i] == fd;
      assert pinned[i] in pinned;
    }
    if fd in FdSet(pinned) {
      var i :| 0 <= i < |pinned| && pinned[i].fd == fd;
      assert Fds(pinned)[i] == fd;
    }
  }

  lemma NewFds(log: Trace, pinned: seq<Handle>, vanished: seq<Identity>, inUse: set<int>)
    requires Logged(log, pinned, vanished, inUse)
    ensures inUse + FdSet(pinned) - FdSet(pinned) == inUse
  {
    forall fd | fd in FdSet(pinned) ensures fd !in inUse { InFdSet(pinned, fd); }
  }

  lemma LogMissing(log: Trace, pinned: seq<Handle>, vanished: seq<Identity>, inUse: set<int>, id: Identity)
    requires Logged(log, pinned, vanished, inUse)
    ensures Logged(log + [Missing(id.pid)], pinned, vanished + [id], inUse)
    ensures TouchedPids(log + [Missing(id.pid)]) == TouchedPids(log) + [id.pid]
  {
    FdsSnocEvent(log, Missing(id.pid));
    TouchedSnoc(log, Missing(id.pid));
  }

  lemma LogUnopened(log: Trace, pinned: seq<Handle>, vanished: seq<Identity>, inUse: set<int>, pid: int)
    requires Logged(log, pinned, vanished, inUse)
    ensures Logged(log + [Unopened(pid)], pinned, vanished, inUse)
    ensures TouchedPids(log + [Unopened(pid)]) == TouchedPids(log)
  {
    FdsSnocEvent(log, Unopened(pid));
    TouchedSnoc(log, Unopened(pid));
  }

  lemma LogInspected(log: Trace, pinned: seq<Handle>, vanished: seq<Identity>, inUse: set<int>, pid: int,
                     seen: Option<Node>)
    requires Logged(log, pinned, vanished, inUse)
    ensures Logged(log + [Inspected(pid, seen)], pinned, vanished, inUse)
    ensures TouchedPids(log + [Inspected(pid, seen)]) == TouchedPids(log)
  {
    FdsSnocEvent(log, Inspected(pid, seen));
    TouchedSnoc(log, Inspected(pid, seen));
  }

  /** One candidate went to the vanished or, with some descriptor, to the pinned. */
  predicate LookedAt(id: Identity, pinned: seq<Handle>, vanished: seq<Identity>, pinned': seq<Handle>,
                     vanished': seq<Identity>) {
    || (pinned' == pinned && vanished' == vanished + [id])
    || (vanished' == vanished && pinned' != [] && pinned' == pinned + [Handle(id, pinned'[|pinned'| - 1].fd)])
  }

  /** What looking at one candidate established: it is vetted and counted, or there is a cause to stop. */
  ghost predicate Answered(log: Trace, node: Node, blocker: Blocker) {
    if blocker == Clear then Vetted(log, node) else Faulted(log, node, blocker)
  }

  /** Opens a descriptor for one candidate and checks that the process is still the snapshot's. */
  method PinCandidate(env: Environment, node: Node, identity: Identity, pinned: seq<Handle>, vanished: seq<Identity>,
                      ghost log: Trace, ghost inUse: set<int>)
    returns (pinned': seq<Handle>, vanished': seq<Identity>, blocker: Blocker, ghost part: Trace)
    requires identity.pid == node.pid
    requires Logged(log, pinned, vanished, inUse) && env.open == inUse + FdSet(pinned)
    modifies env`open, env`trace
    ensures env.trace == old(env.trace) + part
    ensures Logged(log + part, pinned', vanished', inUse) && env.open == inUse + FdSet(pinned')
    ensures Answered(log + part, node, blocker)
    ensures TouchedPids(log + part) == TouchedPids(log) + [node.pid]
            || (blocker != Clear && TouchedPids(log + part) == TouchedPids(log))
    ensures blocker == Clear ==> LookedAt(identity, pinned, vanished, pinned', vanished')
  {
    hide OpenedFds, ClosedFds, TermFds, TouchedPids;
    pinned', vanished', blocker, part := pinned, vanished, Clear, [];
    assert log + part == log;
    if node.birth == "" { return pinned, vanished, BirthMissing(node.pid), part; }
    var answer := env.OpenPidfd(node.pid);
    match answer
    case Vanished =>
      LogMissing(log, pinned, vanished, inUse, identity);
      vanished', part := vanished + [identity], [Missing(node.pid)];
    case Unavailable =>
      LogUnopened(log, pinned, vanished, inUse, node.pid);
      blocker, part := PidfdUnavailable(node.pid), [Unopened(node.pid)];
    case Fd(fd) =>
      LogOpened(log, pinned, vanished, inUse, Handle(identity, fd));
      pinned' := pinned + [Handle(identity, fd)];
      ghost var second;
      blocker, second := Reverify(env, node, pinned', vanished, log + [Opened(node.pid, fd)], inUse);
      part := [Opened(node.pid, fd), second];
      assert log + part == log + [Opened(node.pid, fd)] + [second];
  }

  /** Checks a pinned candidate against a second look at its process. */
  method Reverify(env: Environment, node: Node, ghost pinned: seq<Handle>, ghost vanished: seq<Identity>,
                  ghost log: Trace, ghost inUse: set<int>)
    returns (blocker: Blocker, ghost e: Event)
    requires node.birth != "" && Logged(log, pinned, vanished, inUse)
    requires log != [] && log[|log| - 1].Opened? && log[|log| - 1].pid == node.pid
    modifies env`trace
    ensures env.trace == old(env.trace) + [e] && Logged(log + [e], pinned, vanished, inUse)
    ensures TouchedPids(log + [e]) == TouchedPids(log) && Answered(log + [e], node, blocker)
  {
    var current := env.ReadNode(node.pid);
    e := Inspected(node.pid, current);
    LogInspected(log, pinned, vanished, inUse, node.pid, current);
    assert e in log + [e];
    assert (current.Some? ==> SameProcess(current.value, node)) ==> PinnedAt(log + [e], |log| - 1, node);
    blocker := if current.Some? && !SameProcess(current.value, node) then IdentityChanged(node.pid) else Clear;
  }

  /** Pins and re-verifies every candidate, or finds out why one cannot be. */
  method PinCandidates(env: Environment, roots: seq<Identity>, candidates: seq<Node>)
    returns (pinned: seq<Handle>, vanished: seq<Identity>, blocker: Blocker, ghost log: Trace)
    modifies env`open, env`trace
    ensures env.trace == old(env.trace) + log && Logged(log, pinned, vanished, old(env.open))
    ensures env.open == old(env.open) + FdSet(pinned)
    ensures blocker == Clear || (WhilePinning(blocker) && FaultFound(log, candidates, blocker))
    ensures TouchedPids(log) <= PidsInOrder(candidates)
    ensures blocker == Clear ==> Accounted(pinned, vanished, Identities(roots, candidates))
    ensures blocker == Clear ==> TouchedPids(log) == PidsInOrder(candidates) && AllVetted(log, candidates)
  {
    hide Logged, Accounted, AllVetted, FaultFound, Answered, LookedAt, TouchedPids, Identities, PidsInOrder, FdSet;
    pinned, vanished, blocker, log := [], [], Clear, [];
    NothingPinned(roots, candidates, env.open);
    for i := 0 to |candidates|
      invariant env.trace == old(env.trace) + log && Logged(log, pinned, vanished, old(env.open))
      invariant env.open == old(env.open) + FdSet(pinned)
      invariant Accounted(pinned, vanished, Identities(roots, candidates[..i])) && blocker == Clear
      invariant TouchedPids(log) == PidsInOrder(candidates[..i]) && AllVetted(log, candidates[..i])
    {
      var node := candidates[i];
      ghost var before, gone, was := pinned, vanished, log;
      ghost var part;
      pinned, vanished, blocker, part :=
        PinCandidate(env, node, IdentityFor(roots, node), pinned, vanished, log, old(env.open));
      log := was + part;
      LookedOne(candidates, i, was, part, blocker);
      if blocker != Clear { return; }
      AccountOne(roots, candidates, i, before, gone, pinned, vanished);
    }
    assert candidates[..|candidates|] == candidates;
  }

  lemma NothingPinned(roots: seq<Identity>, candidates: seq<Node>, inUse: set<int>)
    ensures Logged([], [], [], inUse) && FdSet([]) == {} && Accounted([], [], Identities(roots, candidates[..0]))
    ensures TouchedPids([]) == PidsInOrder(candidates[..0]) && AllVetted([], candidates[..0])
  {
  }

  lemma LookedOne(candidates: seq<Node>, i: nat, was: Trace, part: Trace, b: Blocker)
    requires i < |candidates| && Answered(was + part, candidates[i], b)
    requires TouchedPids(was) == PidsInOrder(candidates[..i]) && AllVetted(was, candidates[..i])
    requires TouchedPids(was + part) == TouchedPids(was) + [candidates[i].pid]
             || (b != Clear && TouchedPids(was + part) == TouchedPids(was))
    ensures TouchedPids(was + part) <= PidsInOrder(candidates)
    ensures b == Clear ==> TouchedPids(was + part) == PidsInOrder(candidates[..i + 1])
    ensures b == Clear ==> AllVetted(was + part, candidates[..i + 1])
    ensures b != Clear ==> FaultFound(was + part, candidates, b) && WhilePinning(b)
  {
    if b != Clear { assert candidates[i] in candidates; }
    assert PidsInOrder(candidates[..i + 1]) == PidsInOrder(candidates[..i]) + [candidates[i].pid];
    assert PidsInOrder(candidates[..i + 1]) <= PidsInOrder(candidates);
    assert PidsInOrder(candidates[..i]) <= PidsInOrder(candidates);
    VettedMore(was, part, candidates[..i]);
    assert candidates[..i + 1][..i] == candidates[..i];
  }

  lemma AccountOne(roots: seq<Identity>, candidates: seq<Node>, i: nat, before: seq<Handle>, gone: seq<Identity>,
                   pinned: seq<Handle>, vanished: seq<Identity>)
    requires i < |candidates| && Accounted(before, gone, Identities(roots, candidates[..i]))
    requires LookedAt(IdentityFor(roots, candidates[i]), before, gone, pinned, vanished)
    ensures Accounted(pinned, vanished, Identities(roots, candidates[..i + 1]))
  {
    var id := IdentityFor(roots, candidates[i]);
    assert Identities(roots, candidates[..i + 1]) == Identities(roots, candidates[..i]) + [id];
    if pinned != before { FdsSnoc(before, pinned[|pinned| - 1]); }
  }

  // ---------------------------------------------------------------- signalling and waiting

  /** SIGTERM went to exactly `fds`, in order; nothing was opened or closed. */
  predicate TermLog(terms: Trace, fds: seq<int>) {
    Untouched(terms) && OpenedFds(terms) == [] && ClosedFds(terms) == [] && TermFds(terms) == fds
  }

  lemma TermOne(terms: Trace, fds: seq<int>, fd: int, sent: Sent)
    requires TermLog(terms, fds)
    ensures TermLog(terms + [Signalled(fd, TERM, sent)], fds + [fd])
  {
    FdsSnocEvent(terms, Signalled(fd, TERM, sent));
  }

  lemma CalmAfter(terms: Trace, fds: seq<int>, calm: Trace)
    requires TermLog(terms, fds) && Calm(calm)
    ensures TermLog(terms + calm, fds)
  {
    TraceAppend(terms, calm);
    CalmFds(calm);
  }

  lemma CalmBefore(calm: Trace, terms: Trace, fds: seq<int>)
    requires TermLog(terms, fds) && Calm(calm)
    ensures TermLog(calm + terms, fds)
  {
    TraceAppend(calm, terms);
    CalmFds(calm);
  }

  /** Each of `ids` is a pinned process whose poll answered `exited`. */
  ghost predicate PolledAs(ids: seq<Identity>, pinned: seq<Handle>, es: Trace, exited: bool) {
    forall id | id in ids :: exists h :: h in pinned && h.identity == id && Polled(h.fd, exited) in es
  }

  /** Every drained identity was seen exited on its own descriptor, or had vanished before it was pinned. */
  ghost predicate SeenGone(drained: seq<Identity>, vanished: seq<Identity>, pinned: seq<Handle>, polls: Trace) {
    forall id | id in drained ::
      id in vanished || exists h :: h in pinned && h.identity == id && Polled(h.fd, true) in polls
  }

  /** Nothing pinned is left out: it was seen exited or is in `ids`. */
  ghost predicate NoneMissed(ids: seq<Identity>, pinned: seq<Handle>, es: Trace) {
    forall h | h in pinned :: h.identity in ids || Polled(h.fd, true) in es
  }

  /** The pinned processes that have not exited yet. */
  method StillAlive(env: Environment, pinned: seq<Handle>) returns (alive: seq<Identity>, ghost polls: Trace)
    modifies env`trace
    ensures Watching(polls) && env.trace == old(env.trace) + polls
    ensures PolledAs(alive, pinned, polls, false) && NoneMissed(alive, pinned, polls)
  {
    alive, polls := [], [];
    for i := 0 to |pinned|
      invariant Watching(polls) && env.trace == old(env.trace) + polls
      invariant PolledAs(alive, pinned, polls, false) && NoneMissed(alive, pinned[..i], polls)
    {
      var h := pinned[i];
      assert h in pinned && pinned[..i + 1] == pinned[..i] + [h];
      var exited := env.Exited(h.fd);
      ghost var was, before := polls, alive;
      polls := polls + [Polled(h.fd, exited)];
      if !exited { alive := alive + [h.identity]; }
      AlivePoll(before, alive, pinned, pinned[..i], h, was, exited);
    }
    assert pinned[..|pinned|] == pinned;
  }

  lemma AlivePoll(before: seq<Identity>, alive: seq<Identity>, pinned: seq<Handle>, done: seq<Handle>, h: Handle,
                  was: Trace, exited: bool)
    requires PolledAs(before, pinned, was, false) && NoneMissed(before, done, was) && h in pinned
    requires alive == if exited then before else before + [h.identity]
    ensures PolledAs(alive, pinned, was + [Polled(h.fd, exited)], false)
    ensures NoneMissed(alive, done + [h], was + [Polled(h.fd, exited)])
  {
    var now := was + [Polled(h.fd, exited)];
    forall id | id in alive ensures exists g :: g in pinned && g.identity == id && Polled(g.fd, false) in now {
      if id in before {
        var g :| g in pinned && g.identity == id && Polled(g.fd, false) in was;
        assert Polled(g.fd, false) in now;
      } else {
        assert Polled(h.fd, false) in now;
      }
    }
  }

  /** A SIGTERM to the pinned process `pid` could not be sent. */
  ghost predicate Failing(pid: int, pinned: seq<Handle>, es: Trace) {
    exists h :: h in pinned && h.identity.pid == pid && Signalled(h.fd, TERM, SignalError) in es
  }

  lemma FailingMore(pid: int, pinned: seq<Handle>, a: Trace, b: Trace)
    requires Failing(pid, pinned, a) || Failing(pid, pinned, b)
    ensures Failing(pid, pinned, a + b)
  {
    var es := if Failing(pid, pinned, a) then a else b;
    var h :| h in pinned && h.identity.pid == pid && Signalled(h.fd, TERM, SignalError) in es;
    assert Signalled(h.fd, TERM, SignalError) in a + b;
  }

  /** What a failed signal leaves: those still alive are reported, and none is reported drained. */
  ghost predicate FailureShown(r: DrainResult, pinned: seq<Handle>, es: Trace) {
    && r.blocker.SignalFailed? && r.drained == [] && Failing(r.blocker.pid, pinned, es)
    && PolledAs(r.remaining, pinned, es, false) && NoneMissed(r.remaining, pinned, es)
  }

  /** A SIGTERM could not be sent: only what is still alive is reported. */
  method ReportFailure(env: Environment, pinned: seq<Handle>, h: Handle, ghost terms: Trace)
    returns (r: DrainResult, ghost polls: Trace)
    requires h in pinned && Signalled(h.fd, TERM, SignalError) in terms
    modifies env`trace
    ensures env.trace == old(env.trace) + polls && Watching(polls) && FailureShown(r, pinned, terms + polls)
  {
    var alive;
    alive, polls := StillAlive(env, pinned);
    FailureLater(alive, pinned, terms, polls);
    assert Failing(h.identity.pid, pinned, terms);
    FailingMore(h.identity.pid, pinned, terms, polls);
    r := DrainResult([], alive, SignalFailed(h.identity.pid));
  }

  /** Sends SIGTERM to the pinned processes in order; a process that is gone is passed over. */
  method SignalAll(env: Environment, pinned: seq<Handle>)
    returns (failure: Option<DrainResult>, ghost terms: Trace, ghost n: nat)
    modifies env`trace
    ensures env.trace == old(env.trace) + terms && n <= |pinned| && TermLog(terms, Fds(pinned)[..n]) && OnlyTerms(terms)
    ensures if failure.None? then n == |pinned| else FailureShown(failure.value, pinned, terms)
  {
    hide OpenedFds, ClosedFds, TermFds;
    NoEvents();
    failure, terms, n := None, [], 0;
    for i := 0 to |pinned|
      invariant env.trace == old(env.trace) + terms && TermLog(terms, Fds(pinned)[..i]) && OnlyTerms(terms)
    {
      var h := pinned[i];
      var sent := env.SendSignal(h.fd, TERM);
      TermOne(terms, Fds(pinned)[..i], h.fd, sent);
      assert Fds(pinned)[..i + 1] == Fds(pinned)[..i] + [h.fd];
      terms, n := terms + [Signalled(h.fd, TERM, sent)], i + 1;
      if sent == SignalError {
        var r;
        ghost var polls;
        r, polls := ReportFailure(env, pinned, h, terms);
        WatchingCalm(polls);
        CalmAfter(terms, Fds(pinned)[..n], polls);
        return Some(r), terms + polls, n;
      }
    }
    n := |pinned|;
  }

  lemma FailureLater(alive: seq<Identity>, pinned: seq<Handle>, terms: Trace, polls: Trace)
    requires PolledAs(alive, pinned, polls, false) && NoneMissed(alive, pinned, polls)
    ensures PolledAs(alive, pinned, terms + polls, false) && NoneMissed(alive, pinned, terms + polls)
  {
    PolledMore(alive, pinned, terms, polls);
  }

  ghost predicate Split(drained: seq<Identity>, pending: seq<Handle>, vanished: seq<Identity>, pinned: seq<Handle>) {
    multiset(drained) + multiset(Pinned(pending)) == multiset(vanished) + multiset(Pinned(pinned))
  }

  ghost predicate PendingPolled(pending: seq<Handle>, pinned: seq<Handle>, polls: Trace) {
    forall h | h in pending :: h in pinned && Polled(h.fd, false) in polls
  }

  /** One round of polls over the pending processes. */
  method PollPending(env: Environment, pending: seq<Handle>, drained: seq<Identity>, vanished: seq<Identity>,
                     ghost pinned: seq<Handle>, ghost polls: Trace)
    returns (pending': seq<Handle>, drained': seq<Identity>, ghost polls': Trace)
    requires Watching(polls) && SeenGone(drained, vanished, pinned, polls) && Split(drained, pending, vanished, pinned)
    requires forall h | h in pending :: h in pinned
    modifies env`trace
    ensures polls <= polls' && env.trace == old(env.trace) + polls'[|polls|..]
    ensures Watching(polls') && SeenGone(drained', vanished, pinned, polls')
    ensures Split(drained', pending', vanished, pinned)
    ensures PendingPolled(pending', pinned, polls')
  {
    pending', drained', polls' := [], drained, polls;
    assert pending' + pending[0..] == pending;
    for i := 0 to |pending|
      invariant polls <= polls' && env.trace == old(env.trace) + polls'[|polls|..]
      invariant Watching(polls') && SeenGone(drained', vanished, pinned, polls')
      invariant Split(drained', pending' + pending[i..], vanished, pinned)
      invariant PendingPolled(pending', pinned, polls')
    {
      var h := pending[i];
      assert h in pending && pending[i..] == [h] + pending[i + 1..];
      var exited := env.Exited(h.fd);
      ghost var was := polls';
      polls' := polls' + [Polled(h.fd, exited)];
      SeenLater(drained', vanished, pinned, was, h, exited);
      PollSplit(drained', pending', h, pending[i + 1..], vanished, pinned);
      if exited {
        drained' := drained' + [h.identity];
      } else {
        pending' := pending' + [h];
      }
    }
    assert pending' + pending[|pending|..] == pending';
  }

  lemma SeenLater(drained: seq<Identity>, vanished: seq<Identity>, pinned: seq<Handle>, was: Trace, h: Handle,
                  exited: bool)
    requires SeenGone(drained, vanished, pinned, was) && h in pinned
    ensures SeenGone(drained, vanished, pinned, was + [Polled(h.fd, exited)])
    ensures exited ==> SeenGone(drained + [h.identity], vanished, pinned, was + [Polled(h.fd, exited)])
  {
    var now := was + [Polled(h.fd, exited)];
    forall id | id in drained && id !in vanished
      ensures exists g :: g in pinned && g.identity == id && Polled(g.fd, true) in now
    {
      var g :| g in pinned && g.identity == id && Polled(g.fd, true) in was;
      assert Polled(g.fd, true) in now;
    }
    if exited { assert Polled(h.fd, true) in now; }
  }

  lemma PollSplit(drained: seq<Identity>, pending: seq<Handle>, h: Handle, rest: seq<Handle>, vanished: seq<Identity>,
                  pinned: seq<Handle>)
    requires Split(drained, pending + ([h] + rest), vanished, pinned)
    ensures Split(drained + [h.identity], pending + rest, vanished, pinned)
    ensures Split(drained, pending + [h] + rest, vanished, pinned)
  {
    assert Pinned(pending + ([h] + rest)) == Pinned(pending) + [h.identity] + Pinned(rest);
    assert Pinned(pending + rest) == Pinned(pending) + Pinned(rest);
    assert pending + [h] + rest == pending + ([h] + rest);
  }

  /** How a wait ends: nobody is lost, the drained were seen gone, and those left were seen alive. */
  ghost predicate WaitShown(r: DrainResult, pinned: seq<Handle>, vanished: seq<Identity>, es: Trace) {
    && AfterSignals(r.blocker) && (r.blocker == Clear ==> r.remaining == [])
    && multiset(r.drained) + multiset(r.remaining) == multiset(vanished) + multiset(Pinned(pinned))
    && SeenGone(r.drained, vanished, pinned, es) && PolledAs(r.remaining, pinned, es, false)
  }

  /** A timeout follows a reading of the clock past the deadline, and an interruption a sleep cut short. */
  ghost predicate Timed(es: Trace, r: DrainResult, deadline: int) {
    (r.blocker == DrainTimeout ==> PastDeadline(es, deadline)) && (r.blocker == Interrupted ==> SleepCut in es)
  }

  lemma TimedMore(a: Trace, b: Trace, r: DrainResult, deadline: int)
    requires Timed(a, r, deadline) || Timed(b, r, deadline)
    ensures Timed(a + b, r, deadline)
  {
    if r.blocker == DrainTimeout { PastMore(a, b, deadline); }
  }

  lemma SeenMore(drained: seq<Identity>, vanished: seq<Identity>, pinned: seq<Handle>, a: Trace, b: Trace)
    requires SeenGone(drained, vanished, pinned, a) || SeenGone(drained, vanished, pinned, b)
    ensures SeenGone(drained, vanished, pinned, a + b)
  {
    var es := if SeenGone(drained, vanished, pinned, a) then a else b;
    forall id | id in drained && id !in vanished
      ensures exists h :: h in pinned && h.identity == id && Polled(h.fd, true) in a + b
    {
      var h :| h in pinned && h.identity == id && Polled(h.fd, true) in es;
      assert Polled(h.fd, true) in a + b;
    }
  }

  lemma PolledMore(ids: seq<Identity>, pinned: seq<Handle>, a: Trace, b: Trace)
    requires PolledAs(ids, pinned, a, false) || PolledAs(ids, pinned, b, false)
    ensures PolledAs(ids, pinned, a + b, false)
  {
    var es := if PolledAs(ids, pinned, a, false) then a else b;
    forall id | id in ids ensures exists h :: h in pinned && h.identity == id && Polled(h.fd, false) in a + b {
      var h :| h in pinned && h.identity == id && Polled(h.fd, false) in es;
      assert Polled(h.fd, false) in a + b;
    }
  }

  lemma WaitMore(r: DrainResult, pinned: seq<Handle>, vanished: seq<Identity>, a: Trace, b: Trace)
    requires WaitShown(r, pinned, vanished, a) || WaitShown(r, pinned, vanished, b)
    ensures WaitShown(r, pinned, vanished, a + b)
  {
    SeenMore(r.drained, vanished, pinned, a, b);
    PolledMore(r.remaining, pinned, a, b);
  }

  /** Waits for the signalled processes until all are gone, the deadline passes, or the wait is interrupted. */
  method AwaitExit(env: Environment, pinned: seq<Handle>, vanished: seq<Identity>, deadline: int)
    returns (r: DrainResult, ghost polls: Trace)
    modifies env`trace, env`clock
    ensures Watching(polls) && env.trace == old(env.trace) + polls
    ensures WaitShown(r, pinned, vanished, polls) && Timed(polls, r, deadline)
  {
    var pending, drained := pinned, vanished;
    polls := [];
    while true
      invariant Watching(polls) && env.trace == old(env.trace) + polls
      invariant SeenGone(drained, vanished, pinned, polls) && Split(drained, pending, vanished, pinned)
      invariant forall h | h in pending :: h in pinned
      decreases if deadline > env.clock then deadline - env.clock else 0
    {
      pending, drained, polls := PollPending(env, pending, drained, vanished, pinned, polls);
      if pending == [] { return DrainResult(drained, [], Clear), polls; }
      PendingAlive(pending, pinned, polls);
      ghost var before, pause := polls, [];
      var cut;
      cut, pause := Pause(env, deadline);
      polls := before + pause;
      if cut.Some? {
        r := DrainResult(drained, Pinned(pending), if cut.value then DrainTimeout else Interrupted);
        TimedMore(before, pause, r, deadline);
        WaitMore(r, pinned, vanished, before, pause);
        return;
      }
      SeenMore(drained, vanished, pinned, before, pause);
    }
  }

  lemma PendingAlive(pending: seq<Handle>, pinned: seq<Handle>, polls: Trace)
    requires PendingPolled(pending, pinned, polls)
    ensures PolledAs(Pinned(pending), pinned, polls, false)
  {
    forall id | id in Pinned(pending)
      ensures exists h :: h in pinned && h.identity == id && Polled(h.fd, false) in polls
    {
      var i :| 0 <= i < |pending| && Pinned(pending)[i] == id;
      assert pending[i] in pending;
    }
  }

  predicate CloseLog(closes: Trace, pinned: seq<Handle>) {
    && ClosedFds(closes) == Fds(pinned) && OpenedFds(closes) == [] && TermFds(closes) == []
    && OnlyTerms(closes) && Untouched(closes) && Unsignalled(closes)
  }

  method CloseAll(env: Environment, pinned: seq<Handle>) returns (ghost closes: Trace)
    modifies env`open, env`trace
    ensures env.trace == old(env.trace) + closes
    ensures CloseLog(closes, pinned)
    ensures env.open == old(env.open) - FdSet(pinned)
  {
    closes := [];
    for i := 0 to |pinned|
      invariant env.trace == old(env.trace) + closes && CloseLog(closes, pinned[..i])
      invariant env.open == old(env.open) - FdSet(pinned[..i])
    {
      env.CloseFd(pinned[i].fd);
      assert pinned[..i + 1] == pinned[..i] + [pinned[i]];
      FdsSnoc(pinned[..i], pinned[i]);
      FdsSnocEvent(closes, Closed(pinned[i].fd));
      closes := closes + [Closed(pinned[i].fd)];
    }
    assert pinned[..|pinned|] == pinned;
  }

  /** The deadline checks and the caller's hook, before any SIGTERM. */
  method RunHook(env: Environment, deadline: int, before: SupervisorHandle?)
    returns (early: Option<DrainResult>, ghost quiet: Trace)
    requires before != null ==> !before.quiesced
    modifies env`clock, env`trace, before
    ensures env.trace == old(env.trace) + quiet && Calm(quiet) && HookShown(quiet, before)
    ensures early.None? && before != null ==> before.quiesced && QuietFirst(quiet, before.fd, before.identity)
    ensures early.Some? ==> early.value.drained == early.value.remaining == [] && Timed(quiet, early.value, deadline)
    ensures early.Some? && early.value.blocker != DrainTimeout ==> before != null && FromHook(early.value.blocker)
    ensures HookAnswered(quiet, if early.Some? then early.value.blocker else Clear, before, deadline)
  {
    hide QuietFirst, HookShown, HookAnswered;
    early, quiet := None, [];
    var now := env.Monotonic();
    quiet := [ClockRead(now)];
    assert ClockRead(now) in quiet;
    FirstClock(now, before, deadline);
    if now >= deadline { return Some(DrainResult([], [], DrainTimeout)), quiet; }
    if before == null { return; }
    ghost var hook, last;
    early, hook := AskHook(env, deadline, before, quiet);
    quiet := quiet + hook;
    if early.Some? { return; }
    early, last := CheckAgain(env, deadline, before, quiet);
    quiet := quiet + last;
  }

  /** The deadline once more, after the hook. */
  method CheckAgain(env: Environment, deadline: int, before: SupervisorHandle, ghost quiet: Trace)
    returns (early: Option<DrainResult>, ghost last: Trace)
    requires Calm(quiet) && HookShown(quiet, before) && HookAnswered(quiet, Clear, before, deadline)
    requires QuietFirst(quiet, before.fd, before.identity)
    modifies env`clock, env`trace
    ensures env.trace == old(env.trace) + last && Calm(quiet + last) && HookShown(quiet + last, before)
    ensures QuietFirst(quiet + last, before.fd, before.identity)
    ensures early.Some? ==> early == Some(DrainResult([], [], DrainTimeout)) && PastDeadline(quiet + last, deadline)
    ensures HookAnswered(quiet + last, if early.Some? then early.value.blocker else Clear, before, deadline)
  {
    hide QuietFirst, NotStopped, LeftStopped;
    early := None;
    var now := env.Monotonic();
    last := [ClockRead(now)];
    HookAfterClock(quiet, now, before);
    QuietFirstMore([], quiet, last, before.fd, before.identity);
    assert [] + quiet + last == quiet + last;
    assert ClockRead(now) in quiet + last;
    if now >= deadline { early := Some(DrainResult([], [], DrainTimeout)); }
  }

  /** Runs the hook: `first` is what came before it. */
  method AskHook(env: Environment, deadline: int, before: SupervisorHandle, ghost first: Trace)
    returns (early: Option<DrainResult>, ghost hook: Trace)
    requires !before.quiesced && |first| == 1 && first[0].ClockRead?
    modifies env`clock, env`trace, before
    ensures env.trace == old(env.trace) + hook && Calm(first + hook) && HookShown(first + hook, before)
    ensures early.None? ==> before.quiesced && QuietFirst(first + hook, before.fd, before.identity)
    ensures early.Some? ==> early.value.drained == early.value.remaining == [] && FromHook(early.value.blocker)
    ensures HookAnswered(first + hook, if early.Some? then early.value.blocker else Clear, before, deadline)
  {
    hide QuietFirst, NotStopped, LeftStopped;
    var q;
    early := None;
    q, hook := before.QuiesceSupervisor(env, deadline);
    HookBeforeClock(first[0].at, hook, before);
    assert first == [ClockRead(first[0].at)] && first + hook + [] == first + hook;
    match q {
      case Failed => early := Some(DrainResult([], [], QuiesceFailed));
      case Blocked(why) =>
        NotStoppedMore(first, hook, [], before.fd, why, before.identity, deadline);
        early := Some(DrainResult([], [], NotQuiet(why)));
      case Quiet => QuietFirstMore(first, hook, [], before.fd, before.identity);
    }
  }

  lemma FirstClock(now: int, before: SupervisorHandle?, deadline: int)
    requires before != null ==> !before.quiesced
    ensures HookShown([ClockRead(now)], before) && HookAnswered([ClockRead(now)], Clear, before, deadline)
    ensures HookAnswered([ClockRead(now)], DrainTimeout, before, deadline)
  {
    HookAfterClock([], now, before);
    assert [] + [ClockRead(now)] == [ClockRead(now)];
  }

  lemma HookAfterClock(quiet: Trace, now: int, before: SupervisorHandle?)
    requires HookShown(quiet, before)
    ensures HookShown(quiet + [ClockRead(now)], before)
  {
    if before != null { LeftStoppedSnoc(false, quiet, ClockRead(now), before.fd); }
  }

  lemma HookBeforeClock(now: int, quiet: Trace, before: SupervisorHandle?)
    requires HookShown(quiet, before)
    ensures HookShown([ClockRead(now)] + quiet, before)
  {
    if before != null {
      LeftStoppedSnoc(false, [], ClockRead(now), before.fd);
      assert [] + [ClockRead(now)] == [ClockRead(now)];
      LeftStoppedAppend(false, [ClockRead(now)], quiet, before.fd);
    }
  }

  /**
   What a hook's answer says about the trace: it failed exactly when the SIGSTOP was not delivered or the
   wait for it raised, and answered a blocker only for a cause that came after the SIGSTOP.
   */
  ghost predicate HookTold(es: Trace, b: Blocker, fd: int, identity: Identity, deadline: int) {
    && (b == QuiesceFailed <==> StopFailed(es, fd))
    && (b.NotQuiet? ==> NotStopped(es, fd, b.why, identity, deadline))
  }

  ghost predicate HookAnswered(es: Trace, b: Blocker, before: SupervisorHandle?, deadline: int)
    reads before
  {
    if before == null then !FromHook(b)
    else
      && HookTold(es, b, before.fd, before.identity, deadline)
      && (before.quiesced ==> !StopRefused(es, before.fd))
  }

  /** At `n` the supervisor was seen quiet, after a SIGSTOP that was delivered and before any SIGTERM. */
  predicate QuietAt(es: Trace, n: nat, fd: int, identity: Identity) {
    && n < |es| && Signalled(fd, STOP, Delivered) in es[..n + 1] && QuietSeen(es[n], fd, identity)
    && NoTerms(es[..n + 1])
  }

  ghost predicate QuietFirst(es: Trace, fd: int, identity: Identity) { exists n: nat :: QuietAt(es, n, fd, identity) }

  lemma QuietFirstMore(a: Trace, es: Trace, c: Trace, fd: int, identity: Identity)
    requires NoTerms(a) && QuietFirst(es, fd, identity)
    ensures QuietFirst(a + es + c, fd, identity)
  {
    var n: nat :| QuietAt(es, n, fd, identity);
    assert (a + es + c)[..|a| + n + 1] == a + es[..n + 1];
    assert QuietAt(a + es + c, |a| + n, fd, identity);
  }

  /** With a hook no SIGTERM precedes the supervisor's quiescence, which a drain that succeeds has seen. */
  ghost predicate QuietBefore(es: Trace, b: Blocker, before: SupervisorHandle?)
    reads before
  {
    before == null || QuietFirst(es, before.fd, before.identity)
    || (NoTerms(es) && (b == Clear ==> !before.quiesced))
  }

  lemma QuietWithin(a: Trace, es: Trace, c: Trace, b: Blocker, before: SupervisorHandle?)
    requires NoTerms(a) && NoTerms(c) && QuietBefore(es, b, before)
    ensures QuietBefore(a + es + c, b, before)
  {
    if before != null && QuietFirst(es, before.fd, before.identity) {
      QuietFirstMore(a, es, c, before.fd, before.identity);
    }
  }

  /** Events around the hook's that neither suspend nor raise leave its answer. */
  lemma AnsweredWithin(a: Trace, es: Trace, c: Trace, b: Blocker, before: SupervisorHandle?, deadline: int)
    requires OnlyTerms(a) && OnlyTerms(c) && HookAnswered(es, b, before, deadline)
    ensures HookAnswered(a + es + c, b, before, deadline)
  {
    if before != null && b.NotQuiet? { NotStoppedMore(a, es, c, before.fd, b.why, before.identity, deadline); }
  }

  /** Without a hook's answer there is nothing to show. */
  lemma NothingAnswered(es: Trace, b: Blocker, before: SupervisorHandle?, deadline: int)
    requires OnlyTerms(es) && !FromHook(b)
    ensures HookAnswered(es, b, before, deadline)
  {
  }

  /** What a drain does to the supervisor: nothing without a hook, and at most the hook's SIGSTOP with one. */
  ghost predicate HookShown(es: Trace, before: SupervisorHandle?)
    reads before
  {
    if before == null then OnlyTerms(es) else before.quiesced == LeftStopped(false, es, before.fd)
  }

  /** The signals and the wait. */
  method SignalAndWait(env: Environment, pinned: seq<Handle>, vanished: seq<Identity>, deadline: int)
    returns (r: DrainResult, ghost es: Trace, ghost n: nat)
    modifies env`clock, env`trace
    ensures env.trace == old(env.trace) + es && n <= |pinned| && TermLog(es, Fds(pinned)[..n]) && OnlyTerms(es)
    ensures if r.blocker.SignalFailed? then FailureShown(r, pinned, es)
            else n == |pinned| && WaitShown(r, pinned, vanished, es) && Timed(es, r, deadline)
  {
    ghost var polls;
    var failure;
    failure, es, n := SignalAll(env, pinned);
    if failure.Some? { return failure.value, es, n; }
    r, polls := AwaitExit(env, pinned, vanished, deadline);
    WatchingCalm(polls);
    CalmAfter(es, Fds(pinned)[..n], polls);
    WaitMore(r, pinned, vanished, es, polls);
    TimedMore(es, polls, r, deadline);
    es := es + polls;
  }

  /** How the part between pinning and closing ends: before any signal, with a failed one, or after the wait. */
  ghost predicate Outcome(r: DrainResult, pinned: seq<Handle>, vanished: seq<Identity>, n: nat, es: Trace) {
    || (n == 0 && r.drained == r.remaining == [] && (r.blocker == DrainTimeout || FromHook(r.blocker)))
    || FailureShown(r, pinned, es)
    || (n == |pinned| && WaitShown(r, pinned, vanished, es))
  }

  lemma OutcomeLater(r: DrainResult, pinned: seq<Handle>, vanished: seq<Identity>, n: nat, quiet: Trace, rest: Trace)
    requires if r.blocker.SignalFailed? then FailureShown(r, pinned, rest)
             else n == |pinned| && WaitShown(r, pinned, vanished, rest)
    ensures Outcome(r, pinned, vanished, n, quiet + rest)
  {
    if r.blocker.SignalFailed? {
      FailureLater(r.remaining, pinned, quiet, rest);
      FailingMore(r.blocker.pid, pinned, quiet, rest);
    } else {
      WaitMore(r, pinned, vanished, quiet, rest);
    }
  }

  /** What the part between pinning and closing shows. */
  ghost predicate MiddleShown(middle: Trace, r: DrainResult, pinned: seq<Handle>, vanished: seq<Identity>, n: nat,
                              deadline: int) {
    && n <= |pinned| && TermLog(middle, Fds(pinned)[..n])
    && Outcome(r, pinned, vanished, n, middle) && Timed(middle, r, deadline)
  }

  lemma EarlyMiddle(quiet: Trace, r: DrainResult, pinned: seq<Handle>, vanished: seq<Identity>, deadline: int)
    requires Calm(quiet) && Timed(quiet, r, deadline) && r.drained == r.remaining == []
    requires r.blocker == DrainTimeout || FromHook(r.blocker)
    ensures MiddleShown(quiet, r, pinned, vanished, 0, deadline)
  {
    CalmFds(quiet);
    assert Fds(pinned)[..0] == [];
  }

  lemma LateMiddle(quiet: Trace, rest: Trace, r: DrainResult, pinned: seq<Handle>, vanished: seq<Identity>, n: nat,
                   deadline: int)
    requires Calm(quiet) && n <= |pinned| && TermLog(rest, Fds(pinned)[..n])
    requires if r.blocker.SignalFailed? then FailureShown(r, pinned, rest)
             else n == |pinned| && WaitShown(r, pinned, vanished, rest) && Timed(rest, r, deadline)
    ensures MiddleShown(quiet + rest, r, pinned, vanished, n, deadline)
  {
    CalmBefore(quiet, rest, Fds(pinned)[..n]);
    OutcomeLater(r, pinned, vanished, n, quiet, rest);
    TimedMore(quiet, rest, r, deadline);
  }

  method DrainPinned(env: Environment, pinned: seq<Handle>, vanished: seq<Identity>, deadline: int,
                     before: SupervisorHandle?)
    returns (r: DrainResult, ghost middle: Trace, ghost n: nat)
    requires before != null ==> !before.quiesced
    modifies env`clock, env`trace, before
    ensures env.trace == old(env.trace) + middle && MiddleShown(middle, r, pinned, vanished, n, deadline)
    ensures HookShown(middle, before) && HookAnswered(middle, r.blocker, before, deadline)
    ensures QuietBefore(middle, r.blocker, before)
    ensures before != null && r.blocker == Clear ==> before.quiesced
  {
    var early;
    ghost var rest;
    early, middle := RunHook(env, deadline, before);
    n := 0;
    if early.Some? {
      EarlyMiddle(middle, early.value, pinned, vanished, deadline);
      return early.value, middle, n;
    }
    r, rest, n := SignalAndWait(env, pinned, vanished, deadline);
    LateMiddle(middle, rest, r, pinned, vanished, n, deadline);
    HookThenTerms(middle, rest, before);
    AnsweredWithin([], middle, rest, Clear, before, deadline);
    if before != null { QuietFirstMore([], middle, rest, before.fd, before.identity); }
    assert [] + middle + rest == middle + rest;
    middle := middle + rest;
  }

  lemma HookThenTerms(quiet: Trace, rest: Trace, before: SupervisorHandle?)
    requires HookShown(quiet, before) && OnlyTerms(rest)
    ensures HookShown(quiet + rest, before)
  {
    if before != null {
      LeftStoppedAppend(false, quiet, rest, before.fd);
      OnlyTermsLeave(before.quiesced, rest, before.fd);
    }
  }

  lemma HookAround(log: Trace, middle: Trace, closes: Trace, before: SupervisorHandle?)
    requires OnlyTerms(log) && OnlyTerms(closes) && HookShown(middle, before)
    ensures HookShown(log + middle + closes, before)
  {
    if before != null {
      LeftStoppedAppend(false, log, middle, before.fd);
      OnlyTermsLeave(false, log, before.fd);
    }
    HookThenTerms(log + middle, closes, before);
  }

  // ---------------------------------------------------------------- the whole drain

  /** The process was seen gone: no descriptor could be opened for it, or the one opened showed its exit. */
  ghost predicate Gone(es: Trace, id: Identity) {
    Missing(id.pid) in es || exists fd :: Opened(id.pid, fd) in es && Polled(fd, true) in es
  }

  /** SIGTERM was sent to the process on its own descriptor, and failed. */
  ghost predicate Unsignallable(es: Trace, pid: int) {
    exists fd :: Opened(pid, fd) in es && Signalled(fd, TERM, SignalError) in es
  }

  /** The process was seen alive on its own descriptor. */
  ghost predicate Alive(es: Trace, id: Identity) { exists fd :: Opened(id.pid, fd) in es && Polled(fd, false) in es }

  /** Every descriptor opened is closed exactly once, and none was in use before. */
  ghost predicate Balanced(es: Trace, inUse: set<int>) {
    OpenedFds(es) == ClosedFds(es) && Distinct(OpenedFds(es)) && forall fd | fd in OpenedFds(es) :: fd !in inUse
  }

  /**
   SIGTERM goes to candidates only, each at most once and in the candidates' order; to none when an
   identity blocker or the hook came first, and to all when the drain succeeded or was waiting.
   */
  ghost predicate TermsFit(es: Trace, r: DrainResult) {
    && Phased(es) && TermFds(es) <= OpenedFds(es)
    && (BeforeSignals(r.blocker) ==> TermFds(es) == [])
    && ((r.blocker == Clear || r.blocker == Interrupted || (r.blocker == DrainTimeout && r.remaining != []))
        ==> TermFds(es) == OpenedFds(es))
  }

  /**
   The candidates were looked up in order; all of them, and each vetted, before any signal; a blocker
   has its cause.
   */
  ghost predicate Examined(es: Trace, r: DrainResult, nodes: seq<Node>) {
    && (WhilePinning(r.blocker) ==> FaultFound(es, nodes, r.blocker))
    && TouchedPids(es) <= PidsInOrder(nodes)
    && (!Unsignalled(es) || r.blocker == Clear ==> TouchedPids(es) == PidsInOrder(nodes) && VettedFirst(es, nodes))
  }

  /** The first `n` events vet every candidate, and signal nobody. */
  ghost predicate VettedIn(es: Trace, n: nat, nodes: seq<Node>) {
    n <= |es| && Unsignalled(es[..n]) && AllVetted(es[..n], nodes)
  }

  ghost predicate VettedFirst(es: Trace, nodes: seq<Node>) { exists n: nat :: VettedIn(es, n, nodes) }

  /** The result accounts for the candidates: all drained on success, none lost or invented once signals were sent. */
  ghost predicate AccountFits(r: DrainResult, all: seq<Identity>, es: Trace) {
    && (r.blocker == Clear ==> r.remaining == [] && multiset(r.drained) == multiset(all))
    && (AfterSignals(r.blocker) ==>
          (r == DrainResult([], [], DrainTimeout) && TermFds(es) == [])
          || multiset(r.drained) + multiset(r.remaining) == multiset(all))
    && (BeforeSignals(r.blocker) ==> r.drained == r.remaining == [])
    && (r.blocker.SignalFailed? ==> Unsignallable(es, r.blocker.pid))
    && (r.blocker.SignalFailed? ==> r.drained == [] && forall id | id in all :: id in r.remaining || Gone(es, id))
    && (forall id | id in r.drained :: Gone(es, id)) && (forall id | id in r.remaining :: Alive(es, id))
  }

  lemma WholeFds(log: Trace, middle: Trace, closes: Trace, pinned: seq<Handle>, vanished: seq<Identity>,
                 inUse: set<int>, terms: seq<int>)
    requires Logged(log, pinned, vanished, inUse) && TermLog(middle, terms) && CloseLog(closes, pinned)
    ensures var es := log + middle + closes;
            Balanced(es, inUse) && Phased(es) && OpenedFds(es) == Fds(pinned) && TermFds(es) == terms && Local(es)
  {
    hide OpenedFds, ClosedFds, TermFds, Phased;
    TraceAppend(log, middle);
    TraceAppend(log + middle, closes);
    LogPhased(log);
    PhasedAppend(log, middle);
    PhasedAppend(log + middle, closes);
  }

  lemma WholeTouched(log: Trace, middle: Trace, closes: Trace)
    requires Untouched(middle) && Untouched(closes)
    ensures TouchedPids(log + middle + closes) == TouchedPids(log)
  {
    TouchedAppend(log, middle);
    TouchedAppend(log + middle, closes);
    UntouchedPids(middle);
    UntouchedPids(closes);
  }

  lemma {:induction false} LogPhased(log: Trace)
    requires TermFds(log) == [] && ClosedFds(log) == []
    ensures Phased(log)
  {
    if log != [] { LogPhased(log[..|log| - 1]); }
  }

  lemma GoneInTrace(log: Trace, middle: Trace, closes: Trace, pinned: seq<Handle>, vanished: seq<Identity>,
                    inUse: set<int>, id: Identity)
    requires Logged(log, pinned, vanished, inUse)
    requires id in vanished || exists h :: h in pinned && h.identity == id && Polled(h.fd, true) in middle
    ensures Gone(log + middle + closes, id)
  {
    var es := log + middle + closes;
    if id in vanished {
      assert Missing(id.pid) in es;
    } else {
      var h :| h in pinned && h.identity == id && Polled(h.fd, true) in middle;
      assert Opened(id.pid, h.fd) in es && Polled(h.fd, true) in es;
    }
  }

  lemma AliveInTrace(log: Trace, middle: Trace, closes: Trace, pinned: seq<Handle>, vanished: seq<Identity>,
                     inUse: set<int>, ids: seq<Identity>)
    requires Logged(log, pinned, vanished, inUse) && PolledAs(ids, pinned, middle, false)
    ensures forall id | id in ids :: Alive(log + middle + closes, id)
  {
    var es := log + middle + closes;
    forall id | id in ids ensures Alive(es, id) {
      var h :| h in pinned && h.identity == id && Polled(h.fd, false) in middle;
      assert Opened(id.pid, h.fd) in es && Polled(h.fd, false) in es;
    }
  }

  lemma FailedInTrace(log: Trace, middle: Trace, closes: Trace, pinned: seq<Handle>, vanished: seq<Identity>,
                      inUse: set<int>, pid: int)
    requires Logged(log, pinned, vanished, inUse) && Failing(pid, pinned, middle)
    ensures Unsignallable(log + middle + closes, pid)
  {
    var h :| h in pinned && h.identity.pid == pid && Signalled(h.fd, TERM, SignalError) in middle;
    var es := log + middle + closes;
    assert Opened(pid, h.fd) in es && Signalled(h.fd, TERM, SignalError) in es;
  }

  lemma LostNone(log: Trace, middle: Trace, closes: Trace, pinned: seq<Handle>, vanished: seq<Identity>,
                 inUse: set<int>, all: seq<Identity>, remaining: seq<Identity>)
    requires Logged(log, pinned, vanished, inUse) && Accounted(pinned, vanished, all)
    requires NoneMissed(remaining, pinned, middle)
    ensures forall id | id in all :: id in remaining || Gone(log + middle + closes, id)
  {
    forall id | id in all && id !in remaining ensures Gone(log + middle + closes, id) {
      assert id in multiset(Pinned(pinned)) + multiset(vanished);
      if id !in vanished {
        var i :| 0 <= i < |pinned| && Pinned(pinned)[i] == id;
        assert pinned[i] in pinned;
      }
      GoneInTrace(log, middle, closes, pinned, vanished, inUse, id);
    }
  }

  lemma WholeAccount(r: DrainResult, log: Trace, middle: Trace, closes: Trace, pinned: seq<Handle>,
                     vanished: seq<Identity>, inUse: set<int>, n: nat, all: seq<Identity>)
    requires Logged(log, pinned, vanished, inUse) && Outcome(r, pinned, vanished, n, middle)
    requires Accounted(pinned, vanished, all)
    requires n == 0 ==> TermFds(log + middle + closes) == []
    ensures AccountFits(r, all, log + middle + closes)
  {
    if r.blocker.SignalFailed? {
      LostNone(log, middle, closes, pinned, vanished, inUse, all, r.remaining);
      FailedInTrace(log, middle, closes, pinned, vanished, inUse, r.blocker.pid);
      AliveInTrace(log, middle, closes, pinned, vanished, inUse, r.remaining);
    } else if WaitShown(r, pinned, vanished, middle) {
      AliveInTrace(log, middle, closes, pinned, vanished, inUse, r.remaining);
      assert r.remaining == [] ==> multiset(r.drained) + multiset(r.remaining) == multiset(r.drained);
      forall id | id in r.drained ensures Gone(log + middle + closes, id) {
        GoneInTrace(log, middle, closes, pinned, vanished, inUse, id);
      }
    }
  }

  /** Nothing but process lookups, signals, polls and closes. */
  predicate Local(es: Trace) {
    forall e | e in es :: !e.TableRead? && !e.Identified? && !e.RootsRead? && !e.LockRead? && !e.Reconciled?
  }

  /** What a drain promises of its own part of the trace and of its result. */
  ghost predicate Shown(es: Trace, r: DrainResult, roots: seq<Identity>, nodes: seq<Node>, inUse: set<int>) {
    && Local(es) && Balanced(es, inUse) && TermsFit(es, r) && Examined(es, r, nodes)
    && AccountFits(r, Identities(roots, nodes), es)
  }

  lemma TermsOfOutcome(es: Trace, r: DrainResult, pinned: seq<Handle>, vanished: seq<Identity>, n: nat, middle: Trace)
    requires n <= |pinned| && Outcome(r, pinned, vanished, n, middle)
    requires Phased(es) && OpenedFds(es) == Fds(pinned) && TermFds(es) == Fds(pinned)[..n]
    ensures TermsFit(es, r) && (n == 0 ==> TermFds(es) == []) && !WhilePinning(r.blocker)
  {
    assert Fds(pinned)[..n] <= Fds(pinned);
    assert n == |pinned| ==> Fds(pinned)[..n] == Fds(pinned);
  }

  lemma WholeDrain(r: DrainResult, log: Trace, middle: Trace, closes: Trace, pinned: seq<Handle>,
                   vanished: seq<Identity>, inUse: set<int>, n: nat, roots: seq<Identity>, nodes: seq<Node>)
    requires Logged(log, pinned, vanished, inUse) && CloseLog(closes, pinned)
    requires Accounted(pinned, vanished, Identities(roots, nodes))
    requires TouchedPids(log) == PidsInOrder(nodes) && AllVetted(log, nodes)
    requires n <= |pinned| && TermLog(middle, Fds(pinned)[..n]) && Outcome(r, pinned, vanished, n, middle)
    ensures Shown(log + middle + closes, r, roots, nodes, inUse)
  {
    hide OpenedFds, ClosedFds, TermFds, TouchedPids, Phased;
    var es := log + middle + closes;
    WholeFds(log, middle, closes, pinned, vanished, inUse, Fds(pinned)[..n]);
    WholeTouched(log, middle, closes);
    TermsOfOutcome(es, r, pinned, vanished, n, middle);
    assert es[..|log|] == log;
    assert VettedIn(es, |log|, nodes);
    WholeAccount(r, log, middle, closes, pinned, vanished, inUse, n, Identities(roots, nodes));
  }

  lemma RefusedDrain(r: DrainResult, log: Trace, closes: Trace, pinned: seq<Handle>, vanished: seq<Identity>,
                     inUse: set<int>, roots: seq<Identity>, nodes: seq<Node>)
    requires Logged(log, pinned, vanished, inUse) && r.drained == [] && r.remaining == []
    requires WhilePinning(r.blocker) && TouchedPids(log) <= PidsInOrder(nodes) && FaultFound(log, nodes, r.blocker)
    requires CloseLog(closes, pinned)
    ensures Shown(log + [] + closes, r, roots, nodes, inUse)
  {
    WholeFds(log, [], closes, pinned, vanished, inUse, []);
    WholeTouched(log, [], closes);
    assert log + [] == log;
    FaultMore(log, closes, nodes, r.blocker);
  }

  /** Signals, waits for and closes pinned candidates that were all vetted. */
  method DrainVetted(env: Environment, roots: seq<Identity>, nodes: seq<Node>, deadline: int, before: SupervisorHandle?,
                     pinned: seq<Handle>, vanished: seq<Identity>, ghost log: Trace, ghost inUse: set<int>)
    returns (r: DrainResult, ghost rest: Trace)
    requires before != null ==> !before.quiesced
    requires Logged(log, pinned, vanished, inUse) && Accounted(pinned, vanished, Identities(roots, nodes))
    requires TouchedPids(log) == PidsInOrder(nodes) && AllVetted(log, nodes)
    modifies env, before
    ensures env.trace == old(env.trace) + rest && env.open == old(env.open) - FdSet(pinned)
    ensures Shown(log + rest, r, roots, nodes, inUse) && HookShown(log + rest, before)
    ensures HookAnswered(log + rest, r.blocker, before, deadline) && QuietBefore(log + rest, r.blocker, before)
    ensures before != null && r.blocker == Clear ==> before.quiesced
    ensures Timed(log + rest, r, deadline)
  {
    hide Outcome, Timed, Shown, Accounted, AllVetted;
    ghost var middle, closes, n;
    r, middle, n := DrainPinned(env, pinned, vanished, deadline, before);
    closes := CloseAll(env, pinned);
    rest := middle + closes;
    assert log + rest == log + middle + closes;
    WholeDrain(r, log, middle, closes, pinned, vanished, inUse, n, roots, nodes);
    TimedMore(log, middle, r, deadline);
    TimedMore(log + middle, closes, r, deadline);
    HookAround(log, middle, closes, before);
    AnsweredWithin(log, middle, closes, r.blocker, before, deadline);
    QuietWithin(log, middle, closes, r.blocker, before);
  }

  method DrainCandidates(env: Environment, roots: seq<Identity>, nodes: seq<Node>, deadline: int,
                         before: SupervisorHandle?)
    returns (r: DrainResult, ghost es: Trace)
    requires before != null ==> !before.quiesced
    modifies env, before
    ensures env.trace == old(env.trace) + es && env.open == old(env.open)
    ensures Shown(es, r, roots, nodes, old(env.open)) && HookShown(es, before)
    ensures HookAnswered(es, r.blocker, before, deadline) && QuietBefore(es, r.blocker, before)
    ensures before != null && r.blocker == Clear ==> before.quiesced
    ensures Timed(es, r, deadline)
  {
    hide Shown, Accounted, AllVetted, FaultFound;
    var pinned, vanished, blocker;
    ghost var log, rest;
    pinned, vanished, blocker, log := PinCandidates(env, roots, nodes);
    NewFds(log, pinned, vanished, old(env.open));
    if blocker == Clear {
      r, rest := DrainVetted(env, roots, nodes, deadline, before, pinned, vanished, log, old(env.open));
      es := log + rest;
    } else {
      r := DrainResult([], [], blocker);
      rest := CloseAll(env, pinned);
      RefusedDrain(r, log, rest, pinned, vanished, old(env.open), roots, nodes);
      HookAround(log, [], rest, before);
      NothingAnswered(log + [] + rest, blocker, before, deadline);
      es := log + [] + rest;
    }
  }

  /** The candidates of a drain: exactly the processes a snapshot shows as owned, each once, children first. */
  ghost predicate OwnedCandidates(nodes: seq<Node>, table: Table, roots: seq<Identity>) {
    && Snapshot(table) && (forall n :: n in nodes <==> Owned(table, RootBirths(roots), n))
    && (forall i, j | 0 <= i < j < |nodes| :: nodes[i].pid != nodes[j].pid)
    && (Acyclic(table) ==> ChildrenFirst(nodes))
  }

  /** A drain's snapshot, the candidates it holds, and the drain's result. */
  datatype DrainRun = DrainRun(table: Table, nodes: seq<Node>, result: DrainResult)

  const UNDRAINED := DrainRun([], [], DrainResult([], [], Clear))

  /**
   What a whole drain did. It read one process table, which is in the trace, and the candidates are
   those that this table shows as owned; with none of them nothing else happened.
   */
  ghost predicate Drained(es: Trace, roots: seq<Identity>, d: DrainRun, inUse: set<int>) {
    match d
    case DrainRun(table, nodes, result) =>
      if roots == [] then es == [] && nodes == [] && result == DrainResult([], [], Clear)
      else
        && es != [] && es[0] == TableRead(table) && OwnedCandidates(nodes, table, roots)
        && (nodes == [] ==> es[1..] == [] && result == DrainResult([], [], Clear))
        && Shown(es[1..], result, roots, nodes, inUse)
  }

  /** A drain of nothing. */
  lemma NothingShown(roots: seq<Identity>, inUse: set<int>, deadline: int)
    ensures Shown([], DrainResult([], [], Clear), roots, [], inUse) && Timed([], DrainResult([], [], Clear), deadline)
  {
    assert VettedIn([], 0, []);
  }

  lemma HookAfterTable(e: Event, rest: Trace, before: SupervisorHandle?)
    requires e.TableRead? && HookShown(rest, before)
    ensures HookShown([e] + rest, before)
  {
    if before != null {
      LeftStoppedSnoc(false, [], e, before.fd);
      assert [] + [e] == [e];
      LeftStoppedAppend(false, [e], rest, before.fd);
    }
  }

  /**
   Terminates the exact recorded process tree. Every candidate is looked up and verified before the
   first signal, and with a hook the supervisor was seen quiet before the first SIGTERM; an identity
   blocker or a refusing hook means none was sent; success means every candidate is gone; a timeout or
   an interruption while waiting loses none; and every descriptor opened is closed exactly once on
   every path. With no candidates the hook does not run. A refusal has its cause in the trace.
   */
  method DrainOwnedProcessTree(env: Environment, roots: seq<Identity>, deadline: int, before: SupervisorHandle?)
    returns (r: DrainResult, ghost d: DrainRun, ghost es: Trace)
    requires before != null ==> !before.quiesced
    modifies env, before
    ensures env.trace == old(env.trace) + es && env.open == old(env.open)
    ensures Drained(es, roots, d, old(env.open)) && d.result == r && HookShown(es, before)
    ensures HookAnswered(es, r.blocker, before, deadline) && QuietBefore(es, r.blocker, before)
    ensures Timed(es, r, deadline)
    ensures before != null && r.blocker == Clear ==> (before.quiesced <==> d.nodes != [])
  {
    hide Shown;
    r, d, es := DrainResult([], [], Clear), UNDRAINED, [];
    NothingShown(roots, env.open, deadline);
    if roots == [] { return; }
    var table := env.ReadTable();
    var candidates := CollectOwnedDescendants(table, RootBirths(roots));
    d, es := DrainRun(table, candidates, r), [TableRead(table)];
    ghost var rest := [];
    if candidates != [] {
      r, rest := DrainCandidates(env, roots, candidates, deadline, before);
      d, es := DrainRun(table, candidates, r), [TableRead(table)] + rest;
      TimedMore([TableRead(table)], rest, r, deadline);
    } else {
      TimedMore([], [TableRead(table)], r, deadline);
    }
    assert es == [TableRead(table)] + rest && es[1..] == rest;
    HookAfterTable(TableRead(table), rest, before);
    AnsweredWithin([TableRead(table)], rest, [], r.blocker, before, deadline);
    QuietWithin([TableRead(table)], rest, [], r.blocker, before);
    assert [TableRead(table)] + rest + [] == es;
  }
}
