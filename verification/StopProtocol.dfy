/**
 Stopping a verified detached supervisor: its workers are drained while it is suspended, a second
 look catches those started meanwhile, and only then is the supervisor itself terminated.
 */
module StopProtocol {
  import opened Common
  import opened ProcessTree
  import opened Environments
  import opened Drain

  datatype StopBlocker =
    | NoBlocker
    | LockStale
    | SupervisorUnpinned
    | SupervisorMismatch
    | RootsUnverifiable
    | DeadlineExceeded
    | Refused(why: Blocker)
    | ResumeFailed
    | TerminateFailed
    | BackendReleaseFailed
    | ExitTimeout
    | StopTimeout
    | StatusFailed
    | StopInterrupted
    | NotReconciled

  datatype StopResult = StopResult(
    stopped: bool, exited: bool, released: bool, drained: seq<Identity>, remaining: seq<Identity>, blocker: StopBlocker)

  function BlockedBy(b: StopBlocker, drained: seq<Identity>): StopResult {
    StopResult(false, false, false, drained, [], b)
  }

  /** The recorded supervisor leads its own group and session, and a birth id is known. */
  predicate Leads(id: Identity) { id.group == id.pid && id.session == id.pid && id.birth != "" }

  function SupervisorLockReleased(lock: Lock, runId: string): bool {
    !lock.locked || (lock.holder != "" && lock.holder != runId)
  }

  // ---------------------------------------------------------------- reading traces

  predicate Retains(e: Event) { e.RootsRead? && e.answer.Roots? && e.answer.retained }

  /** For each reading of the roots, whether it retained a lock it could not attribute. */
  function Reads(es: Trace): seq<bool> {
    if es == [] then []
    else
      var before, e := Reads(es[..|es| - 1]), es[|es| - 1];
      if e.RootsRead? then before + [Retains(e)] else before
  }

  lemma {:induction false} ReadsAppend(a: Trace, b: Trace)
    ensures Reads(a + b) == Reads(a) + Reads(b)
  {
    if b == [] {
      assert a + b == a;
    } else {
      ReadsAppend(a, b[..|b| - 1]);
      assert (a + b)[..|a + b| - 1] == a + b[..|b| - 1];
    }
  }

  lemma {:induction false} NoReads(es: Trace)
    requires forall e | e in es :: !e.RootsRead?
    ensures Reads(es) == []
  {
    if es != [] {
      assert es[|es| - 1] in es && forall e | e in es[..|es| - 1] :: e in es;
      NoReads(es[..|es| - 1]);
    }
  }

  predicate NoVerdict(es: Trace) { forall e | e in es :: !e.Reconciled? }

  /**
   A part of a stop that balances its descriptors, leaves the supervisor's alone and does not
   terminate it; `was` and `now` say whether it is suspended before and after, `looks` what the
   roots read.
   */
  ghost predicate Part(es: Trace, s: int, was: bool, now: bool, looks: seq<bool>) {
    && multiset(OpenedFds(es)) == multiset(ClosedFds(es)) && s !in OpenedFds(es)
    && s !in TermFds(es) && LeftStopped(was, es, s) == now && Reads(es) == looks && NoVerdict(es)
  }

  lemma PartAppend(a: Trace, b: Trace, s: int, was: bool, mid: bool, now: bool, ra: seq<bool>, rb: seq<bool>)
    requires Part(a, s, was, mid, ra) && Part(b, s, mid, now, rb)
    ensures Part(a + b, s, was, now, ra + rb)
  {
    TraceAppend(a, b);
    ReadsAppend(a, b);
    LeftStoppedAppend(was, a, b, s);
  }

  /** One reading, or one attempt to resume the supervisor. */
  lemma PartOne(e: Event, s: int, was: bool)
    requires e.Identified? || e.Unidentified? || e.RootsRead? || e.TableRead?
             || (e.Signalled? && e.fd == s && e.signal == CONT)
    ensures Part([e], s, was, was && !e.Signalled?, if e.RootsRead? then [Retains(e)] else [])
  {
    FdsSnocEvent([], e);
    LeftStoppedSnoc(was, [], e, s);
    assert [] + [e] == [e] && [e][..0] == [];
  }

  lemma PartNone(s: int, was: bool)
    ensures Part([], s, was, was, [])
  {
  }

  lemma CalmPart(es: Trace, s: int, was: bool)
    requires Calm(es)
    ensures Part(es, s, was, LeftStopped(was, es, s), [])
  {
    CalmFds(es);
    NoReads(es);
  }

  lemma TimingPart(es: Trace, s: int, was: bool)
    requires forall e | e in es :: Timing(e)
    ensures Part(es, s, was, was, []) && Smooth(es, s) && Unsignalled(es)
  {
    CalmPart(es, s, was);
    OnlyTermsLeave(was, es, s);
  }

  /** A drain is such a part: its SIGTERMs go to descriptors it opened itself. */
  lemma DrainPart(es: Trace, roots: seq<Identity>, d: DrainRun, inUse: set<int>, s: int, was: bool)
    requires Drained(es, roots, d, inUse) && s in inUse
    ensures Part(es, s, was, LeftStopped(was, es, s), []) && AllGone(es, d.result.drained)
    ensures AllAlive(es, d.result.remaining)
  {
    if roots == [] {
      PartNone(s, was);
    } else {
      var rest := es[1..];
      assert es == [es[0]] + rest;
      ShownPart(rest, d.result, roots, d.nodes, inUse, s, was);
      PartOne(es[0], s, was);
      PartAppend([es[0]], rest, s, was, was, LeftStopped(was, rest, s), [], []);
      GoneMore([es[0]], rest, d.result.drained);
      AliveMore([es[0]], rest, [], d.result.remaining);
      assert [es[0]] + rest + [] == es;
    }
  }

  lemma ShownPart(es: Trace, r: DrainResult, roots: seq<Identity>, nodes: seq<Node>, inUse: set<int>, s: int, was: bool)
    requires Shown(es, r, roots, nodes, inUse) && s in inUse
    ensures Part(es, s, was, LeftStopped(was, es, s), []) && AllGone(es, r.drained) && AllAlive(es, r.remaining)
  {
    NoReads(es);
    assert forall fd | fd in TermFds(es) :: fd in OpenedFds(es);
  }

  ghost predicate AllAlive(es: Trace, ids: seq<Identity>) { forall id | id in ids :: Alive(es, id) }

  lemma AliveMore(a: Trace, es: Trace, c: Trace, ids: seq<Identity>)
    requires AllAlive(es, ids)
    ensures AllAlive(a + es + c, ids)
  {
    forall id | id in ids ensures Alive(a + es + c, id) {
      var fd :| Opened(id.pid, fd) in es && Polled(fd, false) in es;
      assert Opened(id.pid, fd) in a + es + c && Polled(fd, false) in a + es + c;
    }
  }

  ghost predicate AllGone(es: Trace, ids: seq<Identity>) { forall id | id in ids :: Gone(es, id) }

  lemma GoneMore(a: Trace, b: Trace, ids: seq<Identity>)
    requires AllGone(a, ids) || AllGone(b, ids)
    ensures AllGone(a + b, ids)
  {
    forall id | id in ids ensures Gone(a + b, id) {
      var es := if AllGone(a, ids) then a else b;
      assert Gone(es, id);
      if Missing(id.pid) in es {
        assert Missing(id.pid) in a + b;
      } else {
        var fd :| Opened(id.pid, fd) in es && Polled(fd, true) in es;
        assert Opened(id.pid, fd) in a + b && Polled(fd, true) in a + b;
      }
    }
  }

  // ---------------------------------------------------------------- why a stop was refused

  /** A deadline was seen to have passed: the stop's own, or the lock backend's. */
  ghost predicate Overdue(es: Trace, deadline: int) { PastDeadline(es, deadline) || BackendLate in es }

  /** Neither a SIGSTOP to the supervisor nor the wait for it failed. */
  predicate Smooth(es: Trace, s: int) { !StopFailed(es, s) }

  /** The candidate `n` has the fault, and a logged table shows it as owned by roots that a reading found. */
  ghost predicate FaultOf(es: Trace, b: Blocker, t: Table, roots: seq<Identity>, read: Roots, n: Node) {
    && TableRead(t) in es && RootsRead(read) in es && read.Roots? && (forall r | r in roots :: r in read.ids)
    && Owned(t, RootBirths(roots), n) && Faulted(es, n, b)
  }

  ghost predicate FaultLogged(es: Trace, b: Blocker) { exists t, roots, read, n :: FaultOf(es, b, t, roots, read, n) }

  /** What the trace holds for each blocker of a drain or of the supervisor's suspension. */
  ghost predicate DrainCause(b: Blocker, es: Trace, s: int, id: Identity, deadline: int) {
    match b
    case Clear => false
    case DrainTimeout => PastDeadline(es, deadline)
    case Interrupted => SleepCut in es
    case QuiesceFailed => StopFailed(es, s)
    case NotQuiet(why) => NotStopped(es, s, why, id, deadline)
    case SignalFailed(pid) => Unsignallable(es, pid)
    case _ => FaultLogged(es, b)
  }

  /** A failed suspension is what refuses the stop, unless the attempt to resume fails too. */
  predicate SuspensionTold(b: StopBlocker, es: Trace, s: int) {
    StopFailed(es, s) <==> b == Refused(QuiesceFailed) || (b == ResumeFailed && WaitRaised in es)
  }

  /** What the trace holds for each reason to refuse a stop. */
  ghost predicate Cause(b: StopBlocker, es: Trace, s: int, id: Identity, deadline: int) {
    Grounds(b, es, s, id, deadline) && SuspensionTold(b, es, s)
  }

  ghost predicate Grounds(b: StopBlocker, es: Trace, s: int, id: Identity, deadline: int) {
    match b
    case LockStale => Unidentified(id.pid) in es
    case SupervisorMismatch => !Leads(id) || exists e | e in es :: e.Identified? && !Matches(e, id)
    case RootsUnverifiable => RootsRead(Unverifiable) in es
    case DeadlineExceeded => Overdue(es, deadline)
    case StopTimeout => Overdue(es, deadline)
    case BackendReleaseFailed => Overdue(es, deadline) && Polled(s, true) in es
    case ExitTimeout => Overdue(es, deadline) && exists e | e in es :: Releases(e, id)
    case Refused(why) => DrainCause(why, es, s, id, deadline)
    case ResumeFailed => Signalled(s, CONT, SignalError) in es
    case TerminateFailed => Signalled(s, TERM, SignalError) in es
    case StatusFailed => StatusCut(false) in es
    case StopInterrupted => SleepCut in es || StatusCut(true) in es
    case NotReconciled => Reconciled(false) in es || exists e | e in es :: Retains(e)
    case SupervisorUnpinned => false
    case NoBlocker => true
  }

  predicate Matches(e: Event, id: Identity) {
    e.Identified? && e.group == id.group && e.session == id.session && e.birth == id.birth
  }

  predicate Releases(e: Event, id: Identity) { e.LockRead? && SupervisorLockReleased(e.lock, id.runId) }

  lemma FaultKept(a: Trace, es: Trace, c: Trace, b: Blocker)
    requires FaultLogged(es, b)
    ensures FaultLogged(a + es + c, b)
  {
    var t, roots, read, n :| FaultOf(es, b, t, roots, read, n);
    var all := a + es + c;
    assert forall e | e in es :: e in all;
    assert FaultOf(all, b, t, roots, read, n);
  }

  lemma DrainCauseMore(a: Trace, es: Trace, c: Trace, b: Blocker, s: int, id: Identity, deadline: int)
    requires DrainCause(b, es, s, id, deadline)
    ensures DrainCause(b, a + es + c, s, id, deadline)
  {
    var all := a + es + c;
    assert forall e | e in es :: e in all;
    match b {
      case DrainTimeout =>
        var e :| e in es && e.ClockRead? && e.at >= deadline;
        assert e in all;
      case NotQuiet(why) => NotStoppedMore(a, es, c, s, why, id, deadline);
      case BirthMissing(_) => FaultKept(a, es, c, b);
      case PidfdUnavailable(_) => FaultKept(a, es, c, b);
      case IdentityChanged(_) => FaultKept(a, es, c, b);
      case _ =>
    }
  }

  lemma GroundsMore(a: Trace, es: Trace, c: Trace, b: StopBlocker, s: int, id: Identity, deadline: int)
    requires Grounds(b, es, s, id, deadline)
    ensures Grounds(b, a + es + c, s, id, deadline)
  {
    hide DrainCause;
    var all := a + es + c;
    assert forall e | e in es :: e in all;
    if b.Refused? { DrainCauseMore(a, es, c, b.why, s, id, deadline); }
    if PastDeadline(es, deadline) {
      var e :| e in es && e.ClockRead? && e.at >= deadline;
      assert e in all;
    }
  }

  /** What a refused stop says of the processes was seen: the exit, the release, and who remains. */
  ghost predicate Reported(r: StopResult, es: Trace, s: int, id: Identity) {
    && (r.exited ==> Unidentified(id.pid) in es || Polled(s, true) in es)
    && (r.released ==> exists e | e in es :: Releases(e, id))
    && (forall x | x in r.remaining :: Alive(es, x) || x in SupervisorRemains(id))
  }

  lemma ReportedMore(r: StopResult, a: Trace, es: Trace, c: Trace, s: int, id: Identity)
    requires Reported(r, es, s, id)
    ensures Reported(r, a + es + c, s, id)
  {
    var all := a + es + c;
    assert forall e | e in es :: e in all;
    forall x | x in r.remaining ensures Alive(all, x) || x in SupervisorRemains(id) {
      if x !in SupervisorRemains(id) {
        var fd :| Opened(x.pid, fd) in es && Polled(fd, false) in es;
        assert Opened(x.pid, fd) in all && Polled(fd, false) in all;
      }
    }
  }

  /** A refused stop has its cause in the trace, and reports what was seen. */
  ghost predicate Told(r: StopResult, es: Trace, s: int, id: Identity, deadline: int) {
    Cause(r.blocker, es, s, id, deadline) && Reported(r, es, s, id)
  }

  lemma ToldMore(r: StopResult, x: Trace, y: Trace, s: int, id: Identity, deadline: int)
    requires (Told(r, x, s, id, deadline) && Smooth(y, s)) || (Told(r, y, s, id, deadline) && Smooth(x, s))
    ensures Told(r, x + y, s, id, deadline)
  {
    hide Cause, Reported;
    CauseMore(r.blocker, x, y, s, id, deadline);
    assert [] + x + y == x + y && x + y + [] == x + y;
    if Reported(r, x, s, id) { ReportedMore(r, [], x, y, s, id); } else { ReportedMore(r, x, y, [], s, id); }
  }

  lemma CauseMore(b: StopBlocker, x: Trace, y: Trace, s: int, id: Identity, deadline: int)
    requires (Cause(b, x, s, id, deadline) && Smooth(y, s)) || (Cause(b, y, s, id, deadline) && Smooth(x, s))
    ensures Cause(b, x + y, s, id, deadline)
  {
    hide Grounds;
    if Cause(b, x, s, id, deadline) && Smooth(y, s) {
      GroundsMore([], x, y, b, s, id, deadline);
      assert [] + x + y == x + y;
    } else {
      GroundsMore(x, y, [], b, s, id, deadline);
      assert x + y + [] == x + y;
    }
  }

  // ---------------------------------------------------------------- the steps

  /** A clock reading before the deadline. */
  predicate InTime(e: Event, deadline: int) { e.ClockRead? && e.at < deadline }

  method Expired(env: Environment, deadline: int) returns (expired: bool, ghost es: Trace)
    modifies env`clock, env`trace
    ensures env.trace == old(env.trace) + es && env.clock >= old(env.clock) && forall e | e in es :: Timing(e)
    ensures if expired then Overdue(es, deadline) else env.clock < deadline && |es| == 1 && InTime(es[0], deadline)
  {
    var now := env.Monotonic();
    es := [ClockRead(now)];
    assert ClockRead(now) in es;
    if now >= deadline { return true, es; }
    expired := env.BackendExpired();
    es := es + (if expired then [BackendLate] else []);
  }

  /** What admission leaves in the trace: the supervisor recognised, its roots, and the deadline not reached. */
  predicate AdmittedAs(es: Trace, id: Identity, roots: seq<Identity>, retained: bool, deadline: int) {
    && |es| == 3 && es[0] == Identified(id.pid, id.group, id.session, id.birth) && Leads(id)
    && es[1] == RootsRead(Roots(roots, retained)) && InTime(es[2], deadline)
  }

  /** Checks that the pinned process is the recorded supervisor, then reads the roots of its run. */
  method Admit(env: Environment, id: Identity, deadline: int, ghost s: int)
    returns (roots: seq<Identity>, retained: bool, refused: Option<StopResult>, ghost es: Trace)
    modifies env`clock, env`trace
    ensures env.trace == old(env.trace) + es && Unsignalled(es) && Smooth(es, s)
    ensures refused.None? ==> AdmittedAs(es, id, roots, retained, deadline) && Part(es, s, false, false, [retained])
    ensures refused.Some? ==>
              !refused.value.stopped && refused.value.drained == [] && Part(es, s, false, false, Reads(es))
              && Told(refused.value, es, s, id, deadline)
  {
    roots, retained, refused := [], false, None;
    var actual := env.Identify(id.pid);
    ghost var e := IdentityEvent(id.pid, actual);
    es := [e];
    PartOne(e, s, false);
    if actual.None? { return roots, retained, Some(BlockedBy(LockStale, []).(exited := true)), es; }
    var a := actual.value;
    assert e in es;
    if id.group != id.pid || id.session != id.pid || a.group != id.group || a.session != id.session
       || a.birth == "" || a.birth != id.birth {
      return roots, retained, Some(BlockedBy(SupervisorMismatch, [])), es;
    }
    ghost var rest;
    roots, retained, refused, rest := AdmitRoots(env, id, deadline, s, es);
    es := es + rest;
  }

  /** A refusal that reports nobody needs only its cause. */
  lemma NothingReported(b: StopBlocker, es: Trace, s: int, id: Identity, deadline: int)
    requires Cause(b, es, s, id, deadline)
    ensures Told(BlockedBy(b, []), es, s, id, deadline)
  {
  }

  lemma UnverifiableTold(es: Trace, s: int, id: Identity, deadline: int)
    requires RootsRead(Unverifiable) in es && Smooth(es, s)
    ensures Told(BlockedBy(RootsUnverifiable, []), es, s, id, deadline)
  {
  }

  /** The rest of the admission: the roots, and the deadline. */
  method AdmitRoots(env: Environment, id: Identity, deadline: int, ghost s: int, ghost before: Trace)
    returns (roots: seq<Identity>, retained: bool, refused: Option<StopResult>, ghost es: Trace)
    requires before == [Identified(id.pid, id.group, id.session, id.birth)] && Leads(id)
    requires Part(before, s, false, false, [])
    modifies env`clock, env`trace
    ensures env.trace == old(env.trace) + es && Unsignalled(es) && Smooth(es, s)
    ensures refused.None? ==>
              AdmittedAs(before + es, id, roots, retained, deadline) && Part(before + es, s, false, false, [retained])
    ensures refused.Some? ==>
              && !refused.value.stopped && refused.value.drained == []
              && Part(before + es, s, false, false, Reads(before + es))
              && Told(refused.value, before + es, s, id, deadline)
  {
    hide OpenedFds, ClosedFds, TermFds, LeftStopped, Cause, Told, Leads;
    roots, retained, refused := [], false, None;
    var answer := env.ReadRoots();
    ghost var e := RootsRead(answer);
    PartOne(e, s, false);
    PartAppend(before, [e], s, false, false, false, [], [Retains(e)]);
    es := [e];
    if answer.Unverifiable? {
      UnverifiableTold(before + es, s, id, deadline);
      return roots, retained, Some(BlockedBy(RootsUnverifiable, [])), es;
    }
    roots, retained := answer.ids, answer.retained;
    var late;
    ghost var timing;
    late, timing := CheckDeadline(env, s, deadline, id, false, before + es, [retained]);
    assert before + (es + timing) == before + es + timing;
    es := es + timing;
    if late != NoBlocker {
      NothingReported(late, before + es, s, id, deadline);
      refused := Some(BlockedBy(late, []));
    }
  }

  /** It ends with an attempt to let the supervisor run again. */
  predicate Resumed(es: Trace, s: int) {
    es != [] && es[|es| - 1].Signalled? && es[|es| - 1].fd == s && es[|es| - 1].signal == CONT
  }

  /** Lets the supervisor run again. */
  method Resume(env: Environment, s: int) returns (sent: Sent, ghost es: Trace)
    modifies env`trace
    ensures env.trace == old(env.trace) + es && es == [Signalled(s, CONT, sent)] && Part(es, s, true, false, [])
    ensures Part(es, s, false, false, [])
  {
    sent := env.SendSignal(s, CONT);
    es := [Signalled(s, CONT, sent)];
    PartOne(es[0], s, true);
    PartOne(es[0], s, false);
  }

  /** A delivered SIGSTOP and a wait that raised: the one way a suspension is forgotten. */
  predicate StopThenRaise(es: Trace, s: int) { Signalled(s, STOP, Delivered) in es && WaitRaised in es }

  /** With no roots there is nothing to drain: the supervisor is suspended directly. */
  method SuspendAlone(env: Environment, sup: SupervisorHandle, deadline: int)
    returns (refused: Option<StopResult>, ghost es: Trace)
    requires !sup.quiesced
    modifies env`clock, env`trace, sup
    ensures env.trace == old(env.trace) + es
    ensures NoTerms(es)
    ensures refused.None? ==> sup.quiesced && Calm(es) && Smooth(es, sup.fd) && Part(es, sup.fd, false, true, [])
                              && QuietFirst(es, sup.fd, sup.identity)
    ensures refused.Some? ==> !refused.value.stopped && refused.value.drained == []
                              && Told(refused.value, es, sup.fd, sup.identity, deadline)
    ensures refused.Some? ==> Part(es, sup.fd, false, StopThenRaise(es, sup.fd), [])
  {
    hide QuietFirst, NotStopped, OpenedFds, ClosedFds, TermFds, Reads;
    refused := None;
    var q;
    q, es := sup.QuiesceSupervisor(env, deadline);
    CalmPart(es, sup.fd, false);
    if q == Failed { return Some(BlockedBy(Refused(QuiesceFailed), [])), es; }
    if q.Blocked? {
      ghost var resume;
      var sent;
      sent, resume := Resume(env, sup.fd);
      PartAppend(es, resume, sup.fd, false, true, false, [], []);
      CauseMore(Refused(NotQuiet(q.why)), es, resume, sup.fd, sup.identity, deadline);
      es := es + resume;
      refused := Some(BlockedBy(Refused(NotQuiet(q.why)), []));
    }
  }

  /** Gives up an incomplete drain: a suspended supervisor is resumed. */
  method GiveUp(env: Environment, s: int, resume: bool, r: DrainResult, ghost suspended: bool)
    returns (refused: StopResult, ghost es: Trace)
    requires !r.Complete() && (suspended ==> resume)
    modifies env`trace
    ensures env.trace == old(env.trace) + es && Part(es, s, suspended, false, []) && Smooth(es, s) && NoTerms(es)
    ensures refused == BlockedBy(refused.blocker, r.drained).(remaining := r.remaining)
    ensures resume ==> Resumed(es, s)
    ensures refused.blocker == Refused(r.blocker)
            || (resume && refused.blocker == ResumeFailed && Signalled(s, CONT, SignalError) in es)
  {
    var blocker := Refused(r.blocker);
    es := [];
    PartNone(s, false);
    if resume {
      var sent;
      sent, es := Resume(env, s);
      if sent == SignalError {
        assert es[0] in es;
        blocker := ResumeFailed;
      }
    }
    refused := BlockedBy(blocker, r.drained).(remaining := r.remaining);
  }

  /** After a drain: an incomplete one is given up. */
  method Settle(env: Environment, s: int, resume: bool, r: DrainResult, deadline: int, ghost id: Identity,
                ghost before: Trace, ghost es: Trace, ghost was: bool, ghost suspended: bool)
    returns (refused: Option<StopResult>, ghost part: Trace)
    requires Part(es, s, was, suspended, []) && (suspended ==> resume) && AllGone(es, r.drained)
    requires !r.Complete() ==> Cause(Refused(r.blocker), before + es, s, id, deadline)
    requires (resume ==> !StopRefused(before + es, s)) && AllAlive(es, r.remaining)
    modifies env`trace
    ensures env.trace == old(env.trace) + part && AllGone(es + part, r.drained) && Smooth(part, s) && NoTerms(part)
    ensures Part(es + part, s, was, if refused.None? then suspended else false, [])
    ensures if r.Complete() then refused.None? && part == [] else
              && refused.Some? && !refused.value.stopped && refused.value.drained == r.drained
              && Told(refused.value, before + (es + part), s, id, deadline) && (resume ==> Resumed(part, s))
  {
    refused, part := None, [];
    if !r.Complete() {
      var given;
      given, part := GiveUp(env, s, resume, r, suspended);
      PartAppend(es, part, s, was, suspended, false, [], []);
      refused := Some(given);
      assert before + (es + part) == before + es + part;
      AliveMore(before, es, part, r.remaining);
      if given.blocker != ResumeFailed { CauseMore(Refused(r.blocker), before + es, part, s, id, deadline); }
    }
    GoneMore(es, part, r.drained);
    assert part == [] ==> es + part == es;
  }

  /** The first drain's part of the trace: a whole drain of the roots, or with none of them only the suspension. */
  ghost predicate FirstDone(es: Trace, roots: seq<Identity>, d: DrainRun, inUse: set<int>) {
    if roots == [] then Calm(es) && NoRaise(es) && d == UNDRAINED else Drained(es, roots, d, inUse)
  }

  lemma NothingDrained(es: Trace, d: DrainRun, inUse: set<int>)
    requires Drained(es, [], d, inUse)
    ensures es == [] && d.result == DrainResult([], [], Clear)
  {
  }

  /** An incomplete drain has its cause in the trace, and a complete one no failed suspension. */
  lemma CauseOfDrain(before: Trace, es: Trace, read: Roots, roots: seq<Identity>, d: DrainRun, inUse: set<int>, s: int,
                     id: Identity, deadline: int)
    requires Drained(es, roots, d, inUse) && Timed(es, d.result, deadline)
    requires HookTold(es, d.result.blocker, s, id, deadline)
    requires RootsRead(read) in before && read.Roots? && (forall r | r in roots :: r in read.ids) && Smooth(before, s)
    ensures d.result.Complete() ==> Smooth(es, s)
    ensures !d.result.Complete() ==> Cause(Refused(d.result.blocker), before + es, s, id, deadline)
  {
    hide Drained;
    var b := d.result.blocker;
    if !d.result.Complete() {
      if WhilePinning(b) {
        FaultOfDrain(before, es, read, roots, d, inUse);
      } else {
        DrainCauseOf(es, roots, d, inUse, s, id, deadline);
        DrainCauseMore(before, es, [], b, s, id, deadline);
        assert before + es + [] == before + es;
      }
    }
  }

  lemma FaultOfDrain(before: Trace, es: Trace, read: Roots, roots: seq<Identity>, d: DrainRun, inUse: set<int>)
    requires Drained(es, roots, d, inUse) && WhilePinning(d.result.blocker)
    requires RootsRead(read) in before && read.Roots? && forall r | r in roots :: r in read.ids
    ensures FaultLogged(before + es, d.result.blocker)
  {
    var b, rest := d.result.blocker, es[1..];
    assert FaultFound(rest, d.nodes, b);
    var n :| n in d.nodes && Faulted(rest, n, b);
    assert forall e | e in rest :: e in before + es;
    assert es[0] in es;
    assert FaultOf(before + es, b, d.table, roots, read, n);
  }

  lemma DrainCauseOf(es: Trace, roots: seq<Identity>, d: DrainRun, inUse: set<int>, s: int, id: Identity, deadline: int)
    requires Drained(es, roots, d, inUse) && Timed(es, d.result, deadline)
    requires HookTold(es, d.result.blocker, s, id, deadline)
    requires !d.result.Complete() && !WhilePinning(d.result.blocker)
    ensures DrainCause(d.result.blocker, es, s, id, deadline)
  {
    assert forall e | e in es[1..] :: e in es;
  }

  /** The first drain, with the supervisor suspended before its first SIGTERM. */
  method DrainFirst(env: Environment, sup: SupervisorHandle, roots: seq<Identity>, deadline: int,
                    ghost before: Trace, ghost retained: bool)
    returns (r: DrainResult, refused: Option<StopResult>, ghost d: DrainRun, ghost es: Trace)
    requires !sup.quiesced && sup.fd in env.open
    requires RootsRead(Roots(roots, retained)) in before && Smooth(before, sup.fd)
    modifies env, sup
    ensures env.trace == old(env.trace) + es && env.open == old(env.open) && AllGone(es, r.drained)
    ensures refused.None? ==>
              && r.Complete() && FirstDone(es, roots, d, old(env.open)) && d.result == r && Smooth(es, sup.fd)
              && Part(es, sup.fd, false, sup.quiesced, []) && (sup.quiesced <==> roots == [] || d.nodes != [])
    ensures refused.Some? ==> !refused.value.stopped && refused.value.drained == r.drained
                              && Told(refused.value, before + es, sup.fd, sup.identity, deadline)
    ensures refused.Some? ==> Part(es, sup.fd, false, roots == [] && StopThenRaise(es, sup.fd), [])
    ensures QuietFirst(es, sup.fd, sup.identity) || (NoTerms(es) && (refused.None? ==> !sup.quiesced))
  {
    hide Drained, Cause, HookTold, QuietFirst, Reported;
    refused := None;
    var hook: SupervisorHandle? := if roots != [] then sup else null;
    ghost var rest;
    r, d, es := DrainOwnedProcessTree(env, roots, deadline, hook);
    if roots == [] {
      NothingDrained(es, d, env.open);
      refused, es := SuspendAlone(env, sup, deadline);
      if refused.Some? { ToldMore(refused.value, before, es, sup.fd, sup.identity, deadline); }
      d := UNDRAINED;
      return;
    }
    DrainPart(es, roots, d, old(env.open), sup.fd, false);
    CauseOfDrain(before, es, Roots(roots, retained), roots, d, old(env.open), sup.fd, sup.identity, deadline);
    refused, rest := Settle(env, sup.fd, sup.quiesced, r, deadline, sup.identity, before, es, false, sup.quiesced);
    assert rest == [] ==> es + rest == es;
    QuietWithin([], es, rest, r.blocker, sup);
    assert [] + es + rest == es + rest;
    es := es + rest;
  }

  /** Refuses to go on, after an attempt to resume the supervisor. */
  method Abandon(env: Environment, s: int, b: StopBlocker, drained: seq<Identity>, ghost suspended: bool)
    returns (refused: StopResult, ghost es: Trace)
    modifies env`trace
    ensures env.trace == old(env.trace) + es && Part(es, s, suspended, false, []) && Smooth(es, s)
    ensures refused == BlockedBy(b, drained) && Resumed(es, s)
  {
    var sent;
    sent, es := Resume(env, s);
    refused := BlockedBy(b, drained);
  }

  predicate NotAmong(drained: seq<Identity>, id: Identity) { forall d | d in drained :: d.pid != id.pid }

  /** The roots of the second reading that the first drain did not already drain. */
  function Late(ids: seq<Identity>, drained: seq<Identity>): seq<Identity> { Filter(ids, id => NotAmong(drained, id)) }

  /** Reads the roots again between two deadline checks. */
  method LookAgain(env: Environment, s: int, deadline: int, ghost id: Identity, ghost was: bool)
    returns (b: StopBlocker, answer: Roots, ghost es: Trace)
    modifies env`clock, env`trace
    ensures env.trace == old(env.trace) + es && Smooth(es, s) && Part(es, s, was, was, Reads(es))
    ensures if b == NoBlocker
            then LookedAgain(es, deadline) && es[1] == RootsRead(answer) && Reads(es) == [answer.retained]
            else Cause(b, es, s, id, deadline) && b in {DeadlineExceeded, RootsUnverifiable}
  {
    hide OpenedFds, ClosedFds, TermFds, LeftStopped, DrainCause, Releases;
    answer := Unverifiable;
    var late;
    late, es := Expired(env, deadline);
    TimingPart(es, s, was);
    if late { return DeadlineExceeded, answer, es; }
    answer := env.ReadRoots();
    ghost var e := RootsRead(answer);
    ReadAfterTiming(es, e, s, was);
    es := es + [e];
    if answer.Unverifiable? { return RootsUnverifiable, answer, es; }
    ghost var timing;
    b, timing := CheckDeadline(env, s, deadline, id, was, es, [Retains(e)]);
    es := es + timing;
  }

  lemma ReadAfterTiming(timing: Trace, e: Event, s: int, was: bool)
    requires e.RootsRead? && Part(timing, s, was, was, [])
    ensures Part(timing + [e], s, was, was, [Retains(e)]) && e in timing + [e]
  {
    PartOne(e, s, was);
    PartAppend(timing, [e], s, was, was, was, [], [Retains(e)]);
  }

  /** The deadline, once more. */
  method CheckDeadline(env: Environment, ghost s: int, deadline: int, ghost id: Identity, ghost was: bool,
                       ghost before: Trace, ghost looks: seq<bool>)
    returns (b: StopBlocker, ghost timing: Trace)
    requires Part(before, s, was, was, looks) && Smooth(before, s)
    modifies env`clock, env`trace
    ensures env.trace == old(env.trace) + timing && Smooth(timing, s) && Unsignalled(timing)
    ensures Part(before + timing, s, was, was, looks)
    ensures if b == NoBlocker then |timing| == 1 && InTime(timing[0], deadline)
            else b == DeadlineExceeded && Cause(b, before + timing, s, id, deadline)
  {
    var late;
    late, timing := Expired(env, deadline);
    TimingPart(timing, s, was);
    PartAppend(before, timing, s, was, was, was, looks, []);
    b := if late then DeadlineExceeded else NoBlocker;
    if late { CauseMore(b, before, timing, s, id, deadline); }
  }

  /** A second look at the roots, between two clocks in time. */
  ghost predicate LookedAgain(look: Trace, deadline: int) {
    && |look| == 3 && InTime(look[0], deadline) && InTime(look[2], deadline)
    && look[1].RootsRead? && look[1].answer.Roots?
  }

  /** The second look at the roots, and the drain of those that started before the supervisor was suspended. */
  method DrainLate(env: Environment, sup: SupervisorHandle, drained: seq<Identity>, deadline: int)
    returns (more: seq<Identity>, retained: bool, refused: Option<StopResult>,
             ghost d: DrainRun, ghost look: Trace, ghost rest: Trace)
    requires sup.fd in env.open
    modifies env
    ensures env.trace == old(env.trace) + (look + rest) && env.open == old(env.open)
    ensures AllGone(look + rest, more) && Smooth(look + rest, sup.fd)
    ensures refused.None? ==>
              && LookedAgain(look, deadline) && Drained(rest, Late(look[1].answer.ids, drained), d, old(env.open))
              && d.result.Complete() && d.result.drained == more
    ensures Part(look + rest, sup.fd, sup.quiesced, if refused.None? then sup.quiesced else false,
                 if refused.None? then [retained] else Reads(look + rest))
    ensures refused.Some? ==> !refused.value.stopped && refused.value.drained == drained + more && Resumed(rest, sup.fd)
                              && Told(refused.value, look + rest, sup.fd, sup.identity, deadline)
  {
    hide Drained;
    more, retained, refused, d := [], false, None, UNDRAINED;
    var b, answer;
    b, answer, look := LookAgain(env, sup.fd, deadline, sup.identity, sup.quiesced);
    if b != NoBlocker {
      var given;
      given, rest := AbandonLook(env, sup.fd, b, drained, sup.quiesced, look, sup.identity, deadline);
      refused := Some(given);
      return;
    }
    retained := answer.retained;
    LateRoots(answer.ids, drained);
    more, refused, d, rest := DrainSecond(env, sup, Late(answer.ids, drained), drained, deadline, look, answer);
    LookThenDrain(look, rest, sup.fd, sup.quiesced, retained, more, refused);
  }

  method AbandonLook(env: Environment, s: int, b: StopBlocker, drained: seq<Identity>, ghost suspended: bool,
                     ghost look: Trace, ghost id: Identity, ghost deadline: int)
    returns (refused: StopResult, ghost rest: Trace)
    requires Part(look, s, suspended, suspended, Reads(look)) && Cause(b, look, s, id, deadline)
    modifies env`trace
    ensures env.trace == old(env.trace) + rest && Smooth(rest, s) && Resumed(rest, s)
    ensures refused == BlockedBy(b, drained)
    ensures Part(look + rest, s, suspended, false, Reads(look + rest)) && Cause(b, look + rest, s, id, deadline)
  {
    refused, rest := Abandon(env, s, b, drained, suspended);
    PartAppend(look, rest, s, suspended, suspended, false, Reads(look), []);
    CauseMore(b, look, rest, s, id, deadline);
  }

  lemma LookThenDrain(look: Trace, rest: Trace, s: int, suspended: bool, retained: bool, more: seq<Identity>,
                      refused: Option<StopResult>)
    requires Part(look, s, suspended, suspended, [retained]) && AllGone(rest, more)
    requires Part(rest, s, suspended, if refused.None? then suspended else false, [])
    ensures Part(look + rest, s, suspended, if refused.None? then suspended else false, [retained])
    ensures AllGone(look + rest, more)
  {
    PartAppend(look, rest, s, suspended, suspended, if refused.None? then suspended else false, [retained], []);
    GoneMore(look, rest, more);
  }

  lemma NoHookTold(es: Trace, b: Blocker, s: int, id: Identity, deadline: int)
    requires OnlyTerms(es) && !FromHook(b)
    ensures HookTold(es, b, s, id, deadline) && Smooth(es, s)
  {
  }

  lemma LateRoots(ids: seq<Identity>, drained: seq<Identity>)
    ensures forall r | r in Late(ids, drained) :: r in ids
  {
    FilterMembers(ids, id => NotAmong(drained, id));
  }

  /** The second drain, without a hook. */
  method DrainSecond(env: Environment, sup: SupervisorHandle, late: seq<Identity>, drained: seq<Identity>,
                     deadline: int, ghost look: Trace, ghost answer: Roots)
    returns (more: seq<Identity>, refused: Option<StopResult>, ghost d: DrainRun, ghost es: Trace)
    requires sup.fd in env.open
    requires RootsRead(answer) in look && answer.Roots? && (forall r | r in late :: r in answer.ids)
    requires Smooth(look, sup.fd)
    modifies env
    ensures env.trace == old(env.trace) + es && env.open == old(env.open) && AllGone(es, more) && Smooth(es, sup.fd)
    ensures refused.None? ==> Drained(es, late, d, old(env.open)) && d.result.Complete() && d.result.drained == more
    ensures Part(es, sup.fd, sup.quiesced, if refused.None? then sup.quiesced else false, [])
    ensures refused.Some? ==> !refused.value.stopped && refused.value.drained == drained + more
                              && Told(refused.value, look + es, sup.fd, sup.identity, deadline)
                              && Resumed(es, sup.fd)
  {
    hide Drained, Cause, HookTold;
    ghost var rest;
    var r;
    r, d, es := DrainOwnedProcessTree(env, late, deadline, null);
    more := r.drained;
    DrainPart(es, late, d, old(env.open), sup.fd, sup.quiesced);
    OnlyTermsLeave(sup.quiesced, es, sup.fd);
    NoHookTold(es, r.blocker, sup.fd, sup.identity, deadline);
    CauseOfDrain(look, es, answer, late, d, old(env.open), sup.fd, sup.identity, deadline);
    refused, rest := Settle(env, sup.fd, true, r, deadline, sup.identity, look, es, sup.quiesced, sup.quiesced);
    assert rest == [] ==> es + rest == es;
    es := es + rest;
    if refused.Some? { refused := Some(refused.value.(drained := drained + more)); }
  }

  function SupervisorRemains(id: Identity): seq<Identity> {
    [Identity(Supervisor, id.pid, id.group, id.session, id.birth, None, id.runId, "")]
  }

  /** The supervisor's SIGTERM, and the attempt to resume it when it is suspended. */
  ghost predicate Terminated(es: Trace, s: int, suspended: bool) {
    && |es| == (if suspended then 2 else 1)
    && es[0].Signalled? && es[0].fd == s && es[0].signal == TERM
    && (suspended ==> es[1].Signalled? && es[1].fd == s && es[1].signal == CONT)
  }

  method Terminate(env: Environment, s: int, id: Identity, suspended: bool, drained: seq<Identity>)
    returns (refused: Option<StopResult>, ghost es: Trace)
    modifies env`trace
    ensures env.trace == old(env.trace) + es && Terminated(es, s, suspended)
    ensures refused.Some? <==> es[0].sent == SignalError || (suspended && es[1].sent == SignalError)
    ensures refused.Some? ==> !refused.value.stopped && refused.value.drained == drained
                              && (refused.value.blocker == TerminateFailed || refused.value.blocker == ResumeFailed)
                              && forall deadline :: Told(refused.value, es, s, id, deadline)
  {
    refused := None;
    var blocker := NoBlocker;
    var sent := env.SendSignal(s, TERM);
    es := [Signalled(s, TERM, sent)];
    assert es[0] in es;
    if sent == SignalError { blocker := TerminateFailed; }
    if suspended {
      sent := env.SendSignal(s, CONT);
      es := es + [Signalled(s, CONT, sent)];
      assert es[0] in es && es[1] in es;
      if sent == SignalError { blocker := ResumeFailed; }
    }
    if blocker != NoBlocker {
      refused := Some(BlockedBy(blocker, drained).(remaining := SupervisorRemains(id)));
    }
  }

  /** Polls of the supervisor, readings of its lock, the reconciliation, and timing. */
  predicate Winding(es: Trace) {
    forall e | e in es :: e.Polled? || e.LockRead? || e.Reconciled? || e.StatusCut? || Timing(e)
  }

  /** The last three answers of a stop that succeeded: exited, lock released, and workers reconciled. */
  ghost predicate SeenStopped(es: Trace, s: int, runId: string) {
    && |es| >= 3 && es[|es| - 3] == Polled(s, true)
    && es[|es| - 2].LockRead? && SupervisorLockReleased(es[|es| - 2].lock, runId)
    && es[|es| - 1] == Reconciled(true)
  }

  function TimeoutOf(exited: bool, released: bool): StopBlocker {
    if exited && !released then BackendReleaseFailed else if !exited && released then ExitTimeout else StopTimeout
  }

  function TimedOut(id: Identity, exited: bool, released: bool, drained: seq<Identity>): StopResult {
    StopResult(false, exited, released, drained, if exited then [] else SupervisorRemains(id),
               TimeoutOf(exited, released))
  }

  /** What was seen of the supervisor so far: an exit only when polled, a release only when read. */
  ghost predicate Seen(es: Trace, s: int, id: Identity, exited: bool, released: bool) {
    (exited ==> Polled(s, true) in es) && (released ==> exists e | e in es :: Releases(e, id))
  }

  lemma TimedOutCause(es: Trace, s: int, id: Identity, exited: bool, released: bool, drained: seq<Identity>,
                      timing: Trace, deadline: int)
    requires Seen(es, s, id, exited, released) && Overdue(timing, deadline) && Winding(es + timing)
    ensures Cause(TimeoutOf(exited, released), es + timing, s, id, deadline)
  {
    assert forall e | e in es :: e in es + timing;
    if PastDeadline(timing, deadline) { PastMore(es, timing, deadline); }
  }

  /** One look at the supervisor and its lock; None when both answered. */
  method LookAtSupervisor(env: Environment, s: int)
    returns (failure: Option<StopBlocker>, exited: bool, lock: Lock, ghost es: Trace)
    modifies env`trace
    ensures env.trace == old(env.trace) + es && Winding(es) && NoVerdict(es)
    ensures if failure.None? then es == [Polled(s, exited), LockRead(lock)]
            else (exists b :: StatusCut(b) in es)
                 && failure == Some(if StatusCut(true) in es then StopInterrupted else StatusFailed)
  {
    failure, exited, lock, es := None, false, Lock(true, ""), [];
    var cut := env.PollCut();
    if cut.Some? {
      es := [StatusCut(cut.value)];
      assert es[0] in es;
      return Some(if cut.value then StopInterrupted else StatusFailed), exited, lock, es;
    }
    exited := env.Exited(s);
    var status := env.ReadLock();
    es := [Polled(s, exited), StatusEvent(status)];
    assert es[1] in es;
    match status {
      case Status(l) => lock := l;
      case StatusInterrupted => failure := Some(StopInterrupted);
      case StatusFailure => failure := Some(StatusFailed);
    }
  }

  /** How the wait for the supervisor's end concludes. */
  ghost predicate WaitEnds(r: StopResult, es: Trace, s: int, id: Identity, drained: seq<Identity>, retained: bool,
                           deadline: int) {
    && Winding(es) && (r.stopped <==> !retained && Reconciled(true) in es)
    && (r.stopped ==> SeenStopped(es, s, id.runId) && r == StopResult(true, true, true, drained, [], NoBlocker))
    && (r.drained == drained || r.drained == [])
    && (r.stopped || (retained && r.blocker == NotReconciled) || Cause(r.blocker, es, s, id, deadline))
    && Reported(r, es, s, id)
  }

  /** What a wait that goes on has logged so far. */
  ghost predicate StillWaiting(es: Trace, s: int, id: Identity, exited: bool, released: bool) {
    Winding(es) && NoVerdict(es) && Seen(es, s, id, exited, released)
  }

  /** Looks at the supervisor, and once it has exited and released its lock reconciles the drained workers. */
  method LookAndConclude(env: Environment, s: int, id: Identity, drained: seq<Identity>, retained: bool,
                         ghost deadline: int, ghost before: Trace)
    returns (done: Option<StopResult>, exited: bool, released: bool, ghost es: Trace)
    requires Winding(before) && NoVerdict(before)
    modifies env`trace
    ensures env.trace == old(env.trace) + es
    ensures if done.Some? then WaitEnds(done.value, before + es, s, id, drained, retained, deadline)
            else StillWaiting(before + es, s, id, exited, released)
  {
    var failure, lock;
    released := false;
    failure, exited, lock, es := LookAtSupervisor(env, s);
    if failure.Some? {
      FailureEnds(failure.value, before, es, s, id, drained, retained, deadline);
      return Some(BlockedBy(failure.value, [])), exited, released, es;
    }
    released := SupervisorLockReleased(lock, id.runId);
    LookSeen(before, s, id, exited, lock);
    done := None;
    if exited && released {
      var clean := env.ReconcileWorkers();
      VerdictEnds(before, lock, clean, retained, drained, s, id, deadline);
      assert before + (es + [Reconciled(clean)]) == before + es + [Reconciled(clean)];
      return Some(Verdict(retained, clean, drained)), exited, released, es + [Reconciled(clean)];
    }
  }

  lemma FailureEnds(b: StopBlocker, before: Trace, look: Trace, s: int, id: Identity, drained: seq<Identity>,
                    retained: bool, deadline: int)
    requires Winding(before + look) && NoVerdict(before + look)
    requires b == (if StatusCut(true) in look then StopInterrupted else StatusFailed)
    requires exists c :: StatusCut(c) in look
    ensures WaitEnds(BlockedBy(b, []), before + look, s, id, drained, retained, deadline)
  {
    assert (forall e | e in before :: e in before + look) && (forall e | e in look :: e in before + look);
    CauseMore(b, before, look, s, id, deadline);
  }

  lemma TimeoutEnds(es: Trace, timing: Trace, s: int, id: Identity, exited: bool, released: bool,
                    drained: seq<Identity>, retained: bool, deadline: int)
    requires StillWaiting(es, s, id, exited, released) && Overdue(timing, deadline)
    requires forall e | e in timing :: Timing(e)
    ensures WaitEnds(TimedOut(id, exited, released, drained), es + timing, s, id, drained, retained, deadline)
  {
    TimedOutCause(es, s, id, exited, released, drained, timing, deadline);
  }

  lemma WaitingOn(es: Trace, timing: Trace, s: int, id: Identity, exited: bool, released: bool)
    requires StillWaiting(es, s, id, exited, released) && forall e | e in timing :: Timing(e)
    ensures StillWaiting(es + timing, s, id, exited, released)
  {
    assert forall e | e in es :: e in es + timing;
  }

  /** Sleeps between two looks, unless the deadline has passed or the sleep is interrupted. */
  method PauseBetween(env: Environment, s: int, id: Identity, exited: bool, released: bool, drained: seq<Identity>,
                      ghost retained: bool, deadline: int, ghost before: Trace)
    returns (done: Option<StopResult>, ghost es: Trace)
    requires StillWaiting(before, s, id, exited, released)
    modifies env`trace, env`clock
    ensures env.trace == old(env.trace) + es
    ensures if done.Some? then WaitEnds(done.value, before + es, s, id, drained, retained, deadline)
            else StillWaiting(before + es, s, id, exited, released)
                 && old(env.clock) < env.clock && old(env.clock) < deadline
  {
    var cut;
    done := None;
    cut, es := Pause(env, deadline);
    WaitingOn(before, es, s, id, exited, released);
    if cut.Some? {
      if cut.value {
        TimeoutEnds(before, es, s, id, exited, released, drained, retained, deadline);
        done := Some(TimedOut(id, exited, released, drained));
      } else {
        assert SleepCut in before + es;
        done := Some(BlockedBy(StopInterrupted, []));
      }
    }
  }

  /** Waits until the supervisor has exited and released its lock, then reconciles the drained workers. */
  method AwaitStop(env: Environment, s: int, id: Identity, drained: seq<Identity>, retained: bool, deadline: int)
    returns (r: StopResult, ghost es: Trace)
    modifies env`trace, env`clock
    ensures env.trace == old(env.trace) + es && WaitEnds(r, es, s, id, drained, retained, deadline)
  {
    var exited, released := false, false;
    es := [];
    while true
      invariant env.trace == old(env.trace) + es && StillWaiting(es, s, id, exited, released)
      decreases if deadline > env.clock then deadline - env.clock else 0
    {
      var expired, done;
      ghost var part;
      expired, part := Expired(env, deadline);
      if expired {
        TimeoutEnds(es, part, s, id, exited, released, drained, retained, deadline);
        return TimedOut(id, exited, released, drained), es + part;
      }
      WaitingOn(es, part, s, id, exited, released);
      es := es + part;
      done, exited, released, part := LookAndConclude(env, s, id, drained, retained, deadline, es);
      es := es + part;
      if done.Some? { return done.value, es; }
      done, part := PauseBetween(env, s, id, exited, released, drained, retained, deadline, es);
      es := es + part;
      if done.Some? { return done.value, es; }
    }
  }

  function Verdict(retained: bool, clean: bool, drained: seq<Identity>): StopResult {
    if retained || !clean then StopResult(false, true, true, drained, [], NotReconciled)
    else StopResult(true, true, true, drained, [], NoBlocker)
  }

  lemma LookSeen(before: Trace, s: int, id: Identity, exited: bool, lock: Lock)
    ensures Seen(before + [Polled(s, exited), LockRead(lock)], s, id, exited, SupervisorLockReleased(lock, id.runId))
  {
    var es := before + [Polled(s, exited), LockRead(lock)];
    assert Polled(s, exited) in es && LockRead(lock) in es;
  }

  lemma VerdictEnds(before: Trace, lock: Lock, clean: bool, retained: bool, drained: seq<Identity>, s: int,
                    id: Identity, deadline: int)
    requires Winding(before) && NoVerdict(before) && SupervisorLockReleased(lock, id.runId)
    ensures var es := before + [Polled(s, true), LockRead(lock)] + [Reconciled(clean)];
            WaitEnds(Verdict(retained, clean, drained), es, s, id, drained, retained, deadline)
  {
    var es := before + [Polled(s, true), LockRead(lock)] + [Reconciled(clean)];
    assert Reconciled(clean) in es && LockRead(lock) in es && Releases(LockRead(lock), id);
  }

  // ---------------------------------------------------------------- the whole stop

  /**
   What a stop that reached its SIGTERM did: the supervisor's descriptor, the first roots and their
   drain, where in the trace that drain ended, the drain of the late roots, and where the SIGTERM is.
   */
  datatype StopRun = StopRun(
    fd: Option<int>, roots: seq<Identity>, first: DrainRun, end: nat, second: DrainRun, term: nat)

  const NOTHING := StopRun(None, [], UNDRAINED, 0, UNDRAINED, 0)

  function AllDrained(run: StopRun): seq<Identity> { run.first.result.drained + run.second.result.drained }

  /** The pinned process was found to be the recorded supervisor. */
  predicate Recognised(es: Trace, id: Identity) {
    |es| > 1 && es[1] == Identified(id.pid, id.group, id.session, id.birth) && Leads(id)
  }

  /** The first reading of the roots found none, SIGSTOP was delivered, and the wait for it raised. */
  predicate Forgotten(es: Trace, s: int) {
    |es| > 2 && es[2].RootsRead? && es[2].answer.Roots? && es[2].answer.ids == [] && StopThenRaise(es, s)
  }

  /** No descriptor is asked for and no SIGTERM is sent. */
  predicate NothingAfter(es: Trace) {
    forall e | e in es :: !e.Opened? && !e.Missing? && !e.Unopened? && !(e.Signalled? && e.signal == TERM)
  }

  /** The supervisor's one SIGTERM is at `at`, and afterwards nothing is opened or terminated. */
  ghost predicate TermAt(es: Trace, s: int, at: nat) {
    && at < |es| && es[at].Signalled? && es[at].fd == s && es[at].signal == TERM
    && s !in TermFds(es[..at]) && NothingAfter(es[at + 1..])
  }

  /**
   What comes before the supervisor's SIGTERM, read off the trace. The roots were read first, and their
   drain, from the process table logged in it, completed; the roots were then read again, and the
   late ones drained completely; and each time the clock was before the deadline. The supervisor was
   suspended from the end of the first drain on, unless there were roots and the logged table owns no
   process of theirs.
   */
  ghost predicate Ordered(es: Trace, s: int, run: StopRun, inUse: set<int>, deadline: int) {
    match run
    case StopRun(_, roots, first, end, second, term) =>
      && 4 <= end && end + 3 <= term && TermAt(es, s, term)
      && es[2].RootsRead? && es[2].answer.Roots? && es[2].answer.ids == roots && InTime(es[3], deadline)
      && FirstDone(es[4..end], roots, first, inUse) && first.result.Complete()
      && LookedAgain(es[end..end + 3], deadline)
      && Drained(es[end + 3..term], Late(es[end + 1].answer.ids, first.result.drained), second, inUse)
      && second.result.Complete()
      && LeftStopped(false, es[..end], s) == LeftStopped(false, es[..term], s)
      && (LeftStopped(false, es[..term], s) <==> roots == [] || OwnsAny(first.table, roots))
  }

  /** The process table shows some process as owned by the roots. */
  ghost predicate OwnsAny(table: Table, roots: seq<Identity>) { exists n :: Owned(table, RootBirths(roots), n) }

  /** The first reading found roots, but the table logged right after shows no process of theirs. */
  ghost predicate NothingOwned(es: Trace) {
    && |es| > 4 && es[2].RootsRead? && es[2].answer.Roots? && es[2].answer.ids != []
    && es[4].TableRead? && !OwnsAny(es[4].table, es[2].answer.ids)
  }

  /** Nobody is terminated before the supervisor was suspended and seen quiet, unless there was nothing to drain. */
  ghost predicate Guarded(es: Trace, s: int, id: Identity) {
    NoTerms(es) || QuietFirst(es, s, id) || NothingOwned(es)
  }

  lemma StartedGuards(pid: int, s: int, adm: Trace, first: Trace, tail: Trace, q: bool, id: Identity,
                      roots: seq<Identity>, d: DrainRun, retained: bool, inUse: set<int>, deadline: int)
    requires Started(adm, first, s, q, id, roots, d, retained, inUse, deadline)
    ensures Guarded([Opened(pid, s)] + adm + first + tail, s, id)
  {
    hide Part, AllGone, Drained, Smooth, QuietFirst, NoTerms;
    var es := [Opened(pid, s)] + adm + first + tail;
    if QuietFirst(first, s, id) {
      QuietFirstMore([Opened(pid, s)] + adm, first, tail, s, id);
    } else {
      OwnsWhenNodes(first, roots, d, inUse);
      StartsWithTable(first, roots, d, inUse);
      assert es[2] == adm[1] && es[4] == first[0];
    }
  }

  /** What a stop shows of its trace; `left` are the descriptors still open, `inUse` those open when it drained. */
  ghost predicate StopShown(es: Trace, r: StopResult, run: StopRun, id: Identity, left: multiset<int>,
                            inUse: set<int>, deadline: int) {
    match run.fd
    case None => false
    case Some(s) =>
      && multiset(OpenedFds(es)) == multiset(ClosedFds(es)) + left
      && (LeftStopped(false, es, s) <==> Forgotten(es, s))
      && (s in TermFds(es) ==> Ordered(es, s, run, inUse, deadline))
      && (r.stopped <==> Reconciled(true) in es && true !in Reads(es))
      && (r.stopped ==> s in TermFds(es) && r == StopResult(true, true, true, AllDrained(run), [], NoBlocker))
      && (Unsignalled(es) || Recognised(es, id)) && Guarded(es, s, id)
      && AllGone(es, r.drained) && Told(r, es, s, id, deadline)
  }

  /** The trace up to the supervisor's SIGTERM: only its own descriptor is still open. */
  ghost predicate Opening(es: Trace, s: int, now: bool, looks: seq<bool>) {
    && multiset(OpenedFds(es)) == multiset(ClosedFds(es)) + multiset{s}
    && s !in TermFds(es) && LeftStopped(false, es, s) == now && Reads(es) == looks && NoVerdict(es)
  }

  lemma OpeningOf(pid: int, s: int, part: Trace, now: bool, looks: seq<bool>)
    requires Part(part, s, false, now, looks)
    ensures Opening([Opened(pid, s)] + part, s, now, looks)
  {
    var base := [Opened(pid, s)];
    FdsSnocEvent([], Opened(pid, s));
    LeftStoppedSnoc(false, [], Opened(pid, s), s);
    assert [] + base == base;
    TraceAppend(base, part);
    ReadsAppend(base, part);
    LeftStoppedAppend(false, base, part, s);
  }

  /** A stop refused before its SIGTERM. */
  lemma ShownEarly(es: Trace, pid: int, s: int, part: Trace, r: StopResult, run: StopRun, id: Identity,
                   inUse: set<int>, deadline: int)
    requires run.fd == Some(s)
    requires es == [Opened(pid, s)] + part && Part(part, s, false, Forgotten(es, s), Reads(part)) && !r.stopped
    requires (Unsignalled(part) || Recognised(es, id)) && Guarded(es, s, id)
    requires AllGone(part, r.drained) && Told(r, part, s, id, deadline)
    ensures StopShown(es, r, run, id, multiset{s}, inUse, deadline)
  {
    OpeningOf(pid, s, part, Forgotten(es, s), Reads(part));
    GoneMore([Opened(pid, s)], part, r.drained);
    ToldMore(r, [Opened(pid, s)], part, s, id, deadline);
  }

  // ---------------------------------------------------------------- the SIGTERM and the wait

  /** How a stop ends from its SIGTERM on. */
  ghost predicate EndsAs(r: StopResult, t: Trace, w: Trace, s: int, suspended: bool, drained: seq<Identity>,
                         retained: bool, id: Identity, deadline: int) {
    && Terminated(t, s, suspended) && Winding(w) && (r.stopped <==> Reconciled(true) in w && !retained)
    && (r.stopped ==> SeenStopped(w, s, id.runId) && r == StopResult(true, true, true, drained, [], NoBlocker))
    && (r.drained == drained || r.drained == [])
    && (r.stopped || (retained && r.blocker == NotReconciled) || Cause(r.blocker, t + w, s, id, deadline))
    && Reported(r, t + w, s, id)
  }

  /** The supervisor's SIGTERM, and the wait for its end. */
  method TerminateAndWait(env: Environment, s: int, id: Identity, suspended: bool, drained: seq<Identity>,
                          retained: bool, deadline: int)
    returns (r: StopResult, ghost t: Trace, ghost w: Trace)
    modifies env`trace, env`clock
    ensures env.trace == old(env.trace) + (t + w) && EndsAs(r, t, w, s, suspended, drained, retained, id, deadline)
  {
    var refused;
    refused, t := Terminate(env, s, id, suspended, drained);
    if refused.Some? {
      ToldMore(refused.value, t, [], s, id, deadline);
      return refused.value, t, [];
    }
    r, w := AwaitStop(env, s, id, drained, retained, deadline);
    if Cause(r.blocker, w, s, id, deadline) { CauseMore(r.blocker, t, w, s, id, deadline); }
  }

  /** The SIGTERM and the wait add no descriptors, and leave the supervisor running. */
  lemma TermAndWait(t: Trace, w: Trace, s: int, q: bool)
    requires Terminated(t, s, q) && Winding(w)
    ensures OpenedFds(t + w) == [] == ClosedFds(t + w) && TermFds(t + w) == [s] && !LeftStopped(q, t + w, s)
    ensures Reads(t + w) == []
  {
    TraceAppend(t, w);
    LeftStoppedAppend(q, t, w, s);
    WindingFds(w);
    OnlyTermsLeave(LeftStopped(q, t, s), w, s);
    TermEvents(t, s, q);
    NoReads(t + w);
  }

  lemma NothingAfterTerm(t: Trace, w: Trace, s: int, q: bool)
    requires Terminated(t, s, q) && Winding(w)
    ensures NothingAfter((t + w)[1..])
  {
    assert (t + w)[1..] == t[1..] + w;
  }

  lemma {:induction false} WindingFds(w: Trace)
    requires Winding(w)
    ensures OpenedFds(w) == ClosedFds(w) == TermFds(w) == []
  {
    if w != [] {
      assert w[|w| - 1] in w && forall e | e in w[..|w| - 1] :: e in w;
      WindingFds(w[..|w| - 1]);
    }
  }

  lemma TermEvents(t: Trace, s: int, q: bool)
    requires Terminated(t, s, q)
    ensures OpenedFds(t) == [] == ClosedFds(t) && TermFds(t) == [s] && !LeftStopped(q, t, s)
  {
    FdsSnocEvent([], t[0]);
    LeftStoppedSnoc(q, [], t[0], s);
    assert [] + [t[0]] == [t[0]];
    if q {
      FdsSnocEvent([t[0]], t[1]);
      LeftStoppedSnoc(q, [t[0]], t[1], s);
      assert t == [t[0]] + [t[1]];
    } else {
      assert t == [t[0]];
    }
  }

  // ---------------------------------------------------------------- putting the parts together

  /** The parts of a stop up to the first drain's end. */
  ghost predicate Started(adm: Trace, first: Trace, s: int, q: bool, id: Identity, roots: seq<Identity>, d: DrainRun,
                          retained: bool, inUse: set<int>, deadline: int) {
    && AdmittedAs(adm, id, roots, retained, deadline) && Smooth(adm, s) && Part(adm, s, false, false, [retained])
    && FirstDone(first, roots, d, inUse) && d.result.Complete() && AllGone(first, d.result.drained) && Smooth(first, s)
    && Part(first, s, false, q, []) && (q <==> roots == [] || d.nodes != [])
    && (QuietFirst(first, s, id) || (NoTerms(first) && !q))
  }

  /** The parts of a stop between the first drain and the SIGTERM. */
  ghost predicate Continued(look: Trace, rest: Trace, s: int, q: bool, drained: seq<Identity>, d: DrainRun, again: bool,
                            inUse: set<int>, deadline: int) {
    && LookedAgain(look, deadline) && Drained(rest, Late(look[1].answer.ids, drained), d, inUse) && d.result.Complete()
    && AllGone(look + rest, d.result.drained) && Smooth(look + rest, s) && Part(look + rest, s, q, q, [again])
  }

  lemma OwnsWhenNodes(es: Trace, roots: seq<Identity>, d: DrainRun, inUse: set<int>)
    requires roots != [] && Drained(es, roots, d, inUse)
    ensures d.nodes != [] <==> OwnsAny(d.table, roots)
  {
    CandidatesOwned(d.nodes, d.table, roots);
  }

  lemma CandidatesOwned(nodes: seq<Node>, table: Table, roots: seq<Identity>)
    requires OwnedCandidates(nodes, table, roots)
    ensures nodes != [] <==> OwnsAny(table, roots)
  {
    if nodes != [] { assert nodes[0] in nodes && Owned(table, RootBirths(roots), nodes[0]); }
    if OwnsAny(table, roots) {
      var n :| Owned(table, RootBirths(roots), n);
      assert n in nodes;
    }
  }

  lemma StartsWithTable(es: Trace, roots: seq<Identity>, d: DrainRun, inUse: set<int>)
    requires roots != [] && Drained(es, roots, d, inUse)
    ensures es != [] && es[0] == TableRead(d.table)
  {
  }

  /** All the parts before the SIGTERM. */
  function Before(pid: int, s: int, adm: Trace, first: Trace, look: Trace, rest: Trace): Trace {
    [Opened(pid, s)] + (adm + first + (look + rest))
  }

  lemma BeforeTerm(pid: int, s: int, adm: Trace, first: Trace, look: Trace, rest: Trace, q: bool, id: Identity,
                   run: StopRun, retained: bool, again: bool, inUse: set<int>, deadline: int)
    requires Started(adm, first, s, q, id, run.roots, run.first, retained, inUse, deadline)
    requires Continued(look, rest, s, q, run.first.result.drained, run.second, again, inUse, deadline)
    ensures var p := Before(pid, s, adm, first, look, rest);
            && Opening(p, s, q, [retained, again]) && AllGone(p, AllDrained(run)) && Smooth(p, s)
            && LeftStopped(false, [Opened(pid, s)] + (adm + first), s) == q
  {
    hide Drained;
    PartAppend(adm, first, s, false, false, q, [retained], []);
    PartAppend(adm + first, look + rest, s, false, q, q, [retained], [again]);
    OpeningOf(pid, s, adm + first, q, [retained]);
    OpeningOf(pid, s, adm + first + (look + rest), q, [retained, again]);
    GoneParts([Opened(pid, s)], adm, first, look + rest, run.first.result.drained, run.second.result.drained);
  }

  lemma GoneParts(base: Trace, adm: Trace, first: Trace, late: Trace, a: seq<Identity>, b: seq<Identity>)
    requires AllGone(first, a) && AllGone(late, b)
    ensures AllGone(base + (adm + first + late), a + b)
  {
    GoneMore(adm, first, a);
    GoneMore(adm + first, late, a);
    GoneMore(adm + first, late, b);
    GoneMore(base, adm + first + late, a);
    GoneMore(base, adm + first + late, b);
  }

  lemma Slices(pid: int, s: int, adm: Trace, first: Trace, look: Trace, rest: Trace, tw: Trace)
    requires |adm| == 3 && |look| == 3
    ensures var es, end := Before(pid, s, adm, first, look, rest) + tw, 4 + |first|;
            var term := end + 3 + |rest|;
            && es[1] == adm[0] && es[2] == adm[1] && es[3] == adm[2] && es[4..end] == first && es[end..end + 3] == look
            && es[end + 1] == look[1] && es[end + 3..term] == rest
            && es[..term] == Before(pid, s, adm, first, look, rest)
            && es[..end] == [Opened(pid, s)] + (adm + first) && es[term..] == tw
  {
    var es := [Opened(pid, s)] + adm + first + look + rest + tw;
    assert Before(pid, s, adm, first, look, rest) + tw == es;
  }

  lemma PlaceOrdered(es: Trace, pid: int, s: int, adm: Trace, first: Trace, look: Trace, rest: Trace, tw: Trace,
                     q: bool, id: Identity, run: StopRun, retained: bool, again: bool, inUse: set<int>, deadline: int)
    requires es == Before(pid, s, adm, first, look, rest) + tw
    requires Started(adm, first, s, q, id, run.roots, run.first, retained, inUse, deadline)
    requires Continued(look, rest, s, q, run.first.result.drained, run.second, again, inUse, deadline)
    requires tw != [] && tw[0].Signalled? && tw[0].fd == s && tw[0].signal == TERM && NothingAfter(tw[1..])
    requires run.end == 4 + |first| && run.term == run.end + 3 + |rest|
    ensures Ordered(es, s, run, inUse, deadline) && Recognised(es, id) && es[2] == adm[1]
  {
    hide Drained;
    Slices(pid, s, adm, first, look, rest, tw);
    BeforeTerm(pid, s, adm, first, look, rest, q, id, run, retained, again, inUse, deadline);
    assert es[run.term] == tw[0] && es[run.term + 1..] == tw[1..];
    if run.roots != [] { OwnsWhenNodes(first, run.roots, run.first, inUse); }
  }

  lemma NotForgotten(es: Trace, pid: int, s: int, adm: Trace, first: Trace, late: Trace, tw: Trace,
                     roots: seq<Identity>, d: DrainRun, inUse: set<int>)
    requires es == [Opened(pid, s)] + (adm + first + late) + tw && |adm| == 3
    requires adm[1].RootsRead? && adm[1].answer.Roots? && adm[1].answer.ids == roots
    requires Smooth(adm, s) && FirstDone(first, roots, d, inUse) && Smooth(late, s) && Smooth(tw, s)
    ensures !Forgotten(es, s)
  {
    assert es == [Opened(pid, s)] + adm + first + late + tw;
    assert es[2] == adm[1];
    assert roots == [] ==> WaitRaised !in es;
  }

  lemma TermSmooth(t: Trace, w: Trace, s: int, q: bool)
    requires Terminated(t, s, q) && Winding(w)
    ensures Smooth(t + w, s)
  {
  }

  /** Descriptors, signals and readings of a trace that goes on to the SIGTERM and the wait. */
  lemma LateFds(p: Trace, t: Trace, w: Trace, s: int, q: bool, looks: seq<bool>)
    requires Opening(p, s, q, looks) && Terminated(t, s, q) && Winding(w)
    ensures multiset(OpenedFds(p + (t + w))) == multiset(ClosedFds(p + (t + w))) + multiset{s}
    ensures s in TermFds(p + (t + w)) && !LeftStopped(false, p + (t + w), s) && Reads(p + (t + w)) == looks
  {
    TermAndWait(t, w, s, q);
    TraceAppend(p, t + w);
    ReadsAppend(p, t + w);
    LeftStoppedAppend(false, p, t + w, s);
  }

  /** A stop that reached its SIGTERM. */
  lemma ShownLate(es: Trace, p: Trace, t: Trace, w: Trace, s: int, q: bool, r: StopResult, run: StopRun, id: Identity,
                  looks: seq<bool>, inUse: set<int>, deadline: int)
    requires run.fd == Some(s)
    requires es == p + (t + w) && Opening(p, s, q, looks) && Ordered(es, s, run, inUse, deadline) && Recognised(es, id)
    requires EndsAs(r, t, w, s, q, AllDrained(run), true in looks, id, deadline)
    requires AllGone(p, AllDrained(run)) && !Forgotten(es, s) && Smooth(p, s) && Smooth(t + w, s) && Guarded(es, s, id)
    ensures StopShown(es, r, run, id, multiset{s}, inUse, deadline)
  {
    hide OpenedFds, ClosedFds, TermFds, LeftStopped, Ordered;
    LateFds(p, t, w, s, q, looks);
    GoneMore(p, t + w, r.drained);
    LateCause(es, p, t + w, s, r.blocker, looks, id, deadline);
    LateVerdict(p, t, w, s, q);
  }

  lemma LateVerdict(p: Trace, t: Trace, w: Trace, s: int, q: bool)
    requires NoVerdict(p) && Terminated(t, s, q)
    ensures Reconciled(true) in p + (t + w) <==> Reconciled(true) in w
  {
  }

  lemma LateCause(es: Trace, p: Trace, tw: Trace, s: int, b: StopBlocker, looks: seq<bool>, id: Identity, deadline: int)
    requires es == p + tw && Reads(p) == looks && Smooth(p, s) && Smooth(tw, s)
    requires b == NoBlocker || (true in looks && b == NotReconciled) || Cause(b, tw, s, id, deadline)
    ensures Cause(b, es, s, id, deadline)
  {
    if Cause(b, tw, s, id, deadline) {
      CauseMore(b, p, tw, s, id, deadline);
    } else if b == NotReconciled {
      RetainedRead(p);
      var e :| e in p && Retains(e);
      assert e in es;
    }
  }

  lemma {:induction false} RetainedRead(es: Trace)
    requires true in Reads(es)
    ensures exists e | e in es :: Retains(e)
  {
    var init, last := es[..|es| - 1], es[|es| - 1];
    if last.RootsRead? && Retains(last) {
      assert last in es;
    } else {
      RetainedRead(init);
      var e :| e in init && Retains(e);
      assert e in es;
    }
  }

  lemma LateStop(es: Trace, pid: int, s: int, adm: Trace, first: Trace, look: Trace, rest: Trace, t: Trace, w: Trace,
                 q: bool, r: StopResult, id: Identity, run: StopRun, retained: bool, again: bool, inUse: set<int>,
                 deadline: int)
    requires run.fd == Some(s)
    requires es == Before(pid, s, adm, first, look, rest) + (t + w)
    requires Started(adm, first, s, q, id, run.roots, run.first, retained, inUse, deadline)
    requires Continued(look, rest, s, q, run.first.result.drained, run.second, again, inUse, deadline)
    requires run.end == 4 + |first| && run.term == run.end + 3 + |rest|
    requires EndsAs(r, t, w, s, q, AllDrained(run), retained || again, id, deadline)
    ensures StopShown(es, r, run, id, multiset{s}, inUse, deadline)
  {
    hide Drained, Grounds, QuietFirst, Part, AllGone, StopShown, Reported, Ordered, Forgotten, Recognised;
    NothingAfterTerm(t, w, s, q);
    PlaceOrdered(es, pid, s, adm, first, look, rest, t + w, q, id, run, retained, again, inUse, deadline);
    BeforeTerm(pid, s, adm, first, look, rest, q, id, run, retained, again, inUse, deadline);
    TermSmooth(t, w, s, q);
    NotForgotten(es, pid, s, adm, first, look + rest, t + w, run.roots, run.first, inUse);
    StartedGuards(pid, s, adm, first, look + rest + (t + w), q, id, run.roots, run.first, retained, inUse, deadline);
    assert es == [Opened(pid, s)] + adm + first + (look + rest + (t + w));
    ShownLate(es, Before(pid, s, adm, first, look, rest), t, w, s, q, r, run, id, [retained, again], inUse, deadline);
  }

  lemma LateRefused(es: Trace, pid: int, s: int, adm: Trace, first: Trace, late: Trace, q: bool, r: StopResult,
                    id: Identity, run: StopRun, roots: seq<Identity>, d: DrainRun, retained: bool,
                    more: seq<Identity>, inUse: set<int>, deadline: int)
    requires run.fd == Some(s)
    requires es == [Opened(pid, s)] + (adm + first + late)
    requires Started(adm, first, s, q, id, roots, d, retained, inUse, deadline)
    requires AllGone(late, more) && Smooth(late, s) && Part(late, s, q, false, Reads(late))
    requires !r.stopped && r.drained == d.result.drained + more && Told(r, late, s, id, deadline)
    ensures StopShown(es, r, run, id, multiset{s}, inUse, deadline)
  {
    hide Drained, Grounds, Reported, QuietFirst, NothingOwned, StopShown, FirstDone;
    var part := adm + first + late;
    PartAppend(adm, first, s, false, false, q, [retained], []);
    PartAppend(adm + first, late, s, false, q, false, [retained], Reads(late));
    NotForgotten(es, pid, s, adm, first, late, [], roots, d, inUse);
    StartedGuards(pid, s, adm, first, late, q, id, roots, d, retained, inUse, deadline);
    assert es == [Opened(pid, s)] + adm + first + late;
    GoneMore(adm, first, d.result.drained);
    GoneMore(adm + first, late, d.result.drained);
    GoneMore(adm + first, late, more);
    ToldMore(r, adm + first, late, s, id, deadline);
    assert es[1] == adm[0];
    ShownEarly(es, pid, s, part, r, run, id, inUse, deadline);
  }

  /** After the second look: the SIGTERM, and the wait. */
  method FinishStop(env: Environment, s: int, id: Identity, suspended: bool, drained: seq<Identity>, retained: bool,
                    deadline: int, ghost run: StopRun, ghost adm: Trace, ghost first: Trace, ghost look: Trace,
                    ghost rest: Trace, ghost before: bool, ghost again: bool, ghost inUse: set<int>)
    returns (r: StopResult, ghost tw: Trace)
    requires Started(adm, first, s, suspended, id, run.roots, run.first, before, inUse, deadline)
    requires Continued(look, rest, s, suspended, run.first.result.drained, run.second, again, inUse, deadline)
    requires run.fd == Some(s) && run.end == 4 + |first| && run.term == run.end + 3 + |rest|
    requires drained == AllDrained(run) && retained == (before || again)
    modifies env`trace, env`clock
    ensures env.trace == old(env.trace) + tw
    ensures StopShown(Before(id.pid, s, adm, first, look, rest) + tw, r, run, id, multiset{s}, inUse, deadline)
    ensures r.stopped ==> SeenStopped(tw, s, id.runId)
  {
    hide Drained;
    ghost var t, w;
    r, t, w := TerminateAndWait(env, s, id, suspended, drained, retained, deadline);
    tw := t + w;
    LateStop(Before(id.pid, s, adm, first, look, rest) + tw, id.pid, s, adm, first, look, rest, t, w, suspended, r, id,
             run, before, again, inUse, deadline);
    if r.stopped { SeenAfter(t, w, s, id.runId); }
  }

  /** After the first drain: the second look, the SIGTERM, and the wait. */
  method StopDrained(env: Environment, sup: SupervisorHandle, drained: seq<Identity>, retained: bool, deadline: int,
                     ghost roots: seq<Identity>, ghost d: DrainRun, ghost adm: Trace, ghost first: Trace)
    returns (r: StopResult, ghost run: StopRun, ghost es: Trace)
    requires sup.fd in env.open && d.result.drained == drained
    requires Started(adm, first, sup.fd, sup.quiesced, sup.identity, roots, d, retained, env.open, deadline)
    modifies env
    ensures env.trace == old(env.trace) + es && env.open == old(env.open) && run.fd == Some(sup.fd)
    ensures StopShown([Opened(sup.identity.pid, sup.fd)] + (adm + first + es), r, run, sup.identity, multiset{sup.fd},
                      old(env.open), deadline)
    ensures r.stopped ==> SeenStopped(es, sup.fd, sup.identity.runId)
  {
    hide Drained, FirstDone, AdmittedAs, LookedAgain, Started, Part, Cause, AllGone, StopShown, SeenStopped;
    var more, again, refused;
    ghost var second, look, rest, tw;
    ghost var inUse, pid, s, id := env.open, sup.identity.pid, sup.fd, sup.identity;
    run := StopRun(Some(s), roots, d, 4 + |first|, UNDRAINED, 0);
    more, again, refused, second, look, rest := DrainLate(env, sup, drained, deadline);
    if refused.Some? {
      r, es := refused.value, look + rest;
      LateRefused([Opened(pid, s)] + (adm + first + es), pid, s, adm, first, es, sup.quiesced, r, id, run, roots, d,
                  retained, more, inUse, deadline);
      return;
    }
    run := StopRun(Some(s), roots, d, 4 + |first|, second, 4 + |first| + 3 + |rest|);
    r, tw := FinishStop(env, sup.fd, sup.identity, sup.quiesced, drained + more, retained || again, deadline,
                        run, adm, first, look, rest, retained, again, inUse);
    es := look + rest + tw;
    Regroup([Opened(pid, s)], adm, first, look, rest, tw);
    if r.stopped { SeenAfter(look + rest, tw, s, id.runId); }
  }

  lemma Regroup(base: Trace, adm: Trace, first: Trace, look: Trace, rest: Trace, tw: Trace)
    ensures base + (adm + first + (look + rest + tw)) == base + (adm + first + (look + rest)) + tw
  {
  }

  lemma RefusedAtOnce(es: Trace, pid: int, s: int, adm: Trace, r: StopResult, run: StopRun, id: Identity,
                      inUse: set<int>, deadline: int)
    requires run.fd == Some(s)
    requires es == [Opened(pid, s)] + adm && Unsignalled(adm) && Part(adm, s, false, false, Reads(adm))
    requires !r.stopped && r.drained == [] && Told(r, adm, s, id, deadline)
    ensures StopShown(es, r, run, id, multiset{s}, inUse, deadline)
  {
    assert !StopThenRaise(es, s);
    ShownEarly(es, pid, s, adm, r, run, id, inUse, deadline);
  }

  lemma RefusedFirst(es: Trace, pid: int, s: int, adm: Trace, first: Trace, r: StopResult, run: StopRun, id: Identity,
                     roots: seq<Identity>, retained: bool, inUse: set<int>, deadline: int)
    requires run.fd == Some(s)
    requires es == [Opened(pid, s)] + (adm + first)
    requires AdmittedAs(adm, id, roots, retained, deadline) && Part(adm, s, false, false, [retained])
    requires Unsignalled(adm) && Smooth(adm, s)
    requires Part(first, s, false, roots == [] && StopThenRaise(first, s), []) && AllGone(first, r.drained)
    requires !r.stopped && Told(r, adm + first, s, id, deadline) && (NoTerms(first) || QuietFirst(first, s, id))
    ensures StopShown(es, r, run, id, multiset{s}, inUse, deadline)
  {
    PartAppend(adm, first, s, false, false, roots == [] && StopThenRaise(first, s), [retained], []);
    GoneMore(adm, first, r.drained);
    assert es[1] == adm[0] && es[2] == adm[1];
    assert StopThenRaise(es, s) <==> StopThenRaise(first, s);
    if QuietFirst(first, s, id) { QuietFirstMore([Opened(pid, s)] + adm, first, [], s, id); }
    assert [Opened(pid, s)] + adm + first + [] == es;
    ShownEarly(es, pid, s, adm + first, r, run, id, inUse, deadline);
  }

  method StopPinned(env: Environment, sup: SupervisorHandle, deadline: int)
    returns (r: StopResult, ghost run: StopRun, ghost es: Trace)
    requires !sup.quiesced && sup.fd in env.open
    modifies env, sup
    ensures env.trace == old(env.trace) + es && env.open == old(env.open) && run.fd == Some(sup.fd)
    ensures StopShown([Opened(sup.identity.pid, sup.fd)] + es, r, run, sup.identity, multiset{sup.fd},
                      old(env.open), deadline)
    ensures r.stopped ==> SeenStopped(es, sup.fd, sup.identity.runId)
  {
    hide Drained, FirstDone, AdmittedAs, Part, Cause, AllGone, StopShown, SeenStopped;
    var roots, retained, refused, drain;
    ghost var adm, first, rest, d;
    ghost var inUse, pid, s, id := env.open, sup.identity.pid, sup.fd, sup.identity;
    run := NOTHING.(fd := Some(s));
    roots, retained, refused, adm := Admit(env, sup.identity, deadline, s);
    if refused.Some? {
      r, es := refused.value, adm;
      RefusedAtOnce([Opened(pid, s)] + es, pid, s, adm, r, run, id, inUse, deadline);
      return;
    }
    drain, refused, d, first := DrainFirst(env, sup, roots, deadline, adm, retained);
    if refused.Some? {
      r, es := refused.value, adm + first;
      RefusedFirst([Opened(pid, s)] + es, pid, s, adm, first, r, run, id, roots, retained, inUse, deadline);
      return;
    }
    r, run, rest := StopDrained(env, sup, drain.drained, retained, deadline, roots, d, adm, first);
    es := adm + first + rest;
    if r.stopped { SeenAfter(adm + first, rest, s, id.runId); }
  }

  lemma SeenAfter(a: Trace, b: Trace, s: int, runId: string)
    requires SeenStopped(b, s, runId)
    ensures SeenStopped(a + b, s, runId)
  {
    var n := |b|;
    assert (a + b)[|a| + n - 3] == b[n - 3] && (a + b)[|a| + n - 2] == b[n - 2] && (a + b)[|a| + n - 1] == b[n - 1];
  }

  // ---------------------------------------------------------------- opening and closing the supervisor's descriptor

  /** Closing the supervisor's descriptor changes nothing else. */
  lemma ShownClosed(all: Trace, es: Trace, s: int, r: StopResult, run: StopRun, id: Identity, inUse: set<int>,
                    deadline: int)
    requires run.fd == Some(s)
    requires StopShown(es, r, run, id, multiset{s}, inUse, deadline) && all == es + [Closed(s)]
    ensures StopShown(all, r, run, id, multiset{}, inUse, deadline)
  {
    hide OpenedFds, ClosedFds, TermFds, LeftStopped, Ordered, Cause, Reported, AllGone, Forgotten, Guarded, Reads;
    FdsSnocEvent(es, Closed(s));
    LeftStoppedSnoc(false, es, Closed(s), s);
    ReadsAppend(es, [Closed(s)]);
    NoReads([Closed(s)]);
    GoneMore(es, [Closed(s)], r.drained);
    ToldMore(r, es, [Closed(s)], s, id, deadline);
    ForgottenClosed(all, es, s);
    GuardedClosed(all, es, s, id);
    if s in TermFds(es) { OrderedClosed(all, es, s, run, inUse, deadline); }
  }

  lemma GuardedClosed(all: Trace, es: Trace, s: int, id: Identity)
    requires all == es + [Closed(s)] && Guarded(es, s, id)
    ensures Guarded(all, s, id)
  {
    if QuietFirst(es, s, id) { QuietFirstMore([], es, [Closed(s)], s, id); }
    assert [] + es + [Closed(s)] == all;
  }

  lemma ForgottenClosed(all: Trace, es: Trace, s: int)
    requires all == es + [Closed(s)]
    ensures Forgotten(all, s) <==> Forgotten(es, s)
  {
  }

  lemma OrderedClosed(all: Trace, es: Trace, s: int, run: StopRun, inUse: set<int>, deadline: int)
    requires Ordered(es, s, run, inUse, deadline) && all == es + [Closed(s)]
    ensures Ordered(all, s, run, inUse, deadline)
  {
    SameSlices(all, es, s, run.end, run.term);
  }

  lemma SameSlices(all: Trace, es: Trace, s: int, end: nat, term: nat)
    requires all == es + [Closed(s)] && 4 <= end && end + 3 <= term < |es|
    ensures all[..term] == es[..term] && all[term + 1..] == es[term + 1..] + [Closed(s)] && all[..end] == es[..end]
    ensures all[4..end] == es[4..end] && all[end..end + 3] == es[end..end + 3]
    ensures all[end + 3..term] == es[end + 3..term]
  {
  }

  /** The whole trace of a stop: a supervisor that could not be pinned, or one pinned and closed again. */
  ghost predicate WholeStop(es: Trace, r: StopResult, run: StopRun, id: Identity, inUse: set<int>, deadline: int) {
    match run.fd
    case None =>
      && !r.stopped && r.drained == []
      && ((es == [Missing(id.pid)] && r.blocker == LockStale)
          || (es == [Unopened(id.pid)] && r.blocker == SupervisorUnpinned))
    case Some(s) =>
      && |es| >= 2 && es[0] == Opened(id.pid, s) && es[|es| - 1] == Closed(s) && s !in inUse
      && StopShown(es, r, run, id, multiset{}, inUse + {s}, deadline)
      && (r.stopped ==> SeenStopped(es[..|es| - 1], s, id.runId))
  }

  lemma ClosedStop(es: Trace, pinned: Trace, body: Trace, s: int, r: StopResult, run: StopRun, id: Identity,
                   inUse: set<int>, deadline: int)
    requires pinned == [Opened(id.pid, s)] + body && es == pinned + [Closed(s)]
    requires StopShown(pinned, r, run, id, multiset{s}, inUse + {s}, deadline) && s !in inUse && run.fd == Some(s)
    requires r.stopped ==> SeenStopped(body, s, id.runId)
    ensures WholeStop(es, r, run, id, inUse, deadline)
  {
    ShownClosed(es, pinned, s, r, run, id, inUse + {s}, deadline);
    assert es[..|es| - 1] == pinned;
    if r.stopped { SeenAfter([Opened(id.pid, s)], body, s, id.runId); }
  }

  /**
   Stops the recorded supervisor. Every descriptor opened is closed exactly once on every path, and
   nothing is signalled before the pinned process is recognised. SIGTERM reaches the supervisor at
   most once, and only after the roots were read, drained, read again and the late ones drained, each
   drain being shown in the trace; nothing is opened or terminated after it. Success is reported
   exactly when the reconciliation left no blocker, after its exit and its released lock were both
   seen. A SIGSTOP that was delivered is followed by an attempt to resume, unless the first reading
   found no roots and the wait for the suspension raised. Nobody is terminated before the supervisor was
   seen quiet, unless there were roots of which the process table showed no process. Every refusal has
   its cause in the trace, and what it reports as exited, released or remaining was seen to be so.
   */
  method StopVerifiedDetachedAutopilot(env: Environment, id: Identity, deadline: int)
    returns (r: StopResult, ghost run: StopRun, ghost es: Trace)
    modifies env
    ensures env.trace == old(env.trace) + es && env.open == old(env.open)
    ensures WholeStop(es, r, run, id, old(env.open), deadline)
  {
    hide StopShown, Cause, SeenStopped;
    run := NOTHING;
    var answer := env.OpenPidfd(id.pid);
    match answer {
      case Vanished =>
        r, es := BlockedBy(LockStale, []).(exited := true), [Missing(id.pid)];
      case Unavailable =>
        r, es := BlockedBy(SupervisorUnpinned, []), [Unopened(id.pid)];
      case Fd(s) =>
        var sup := new SupervisorHandle(s, id);
        ghost var body;
        r, run, body := StopPinned(env, sup, deadline);
        env.CloseFd(s);
        es := [Opened(id.pid, s)] + body + [Closed(s)];
        ClosedStop(es, [Opened(id.pid, s)] + body, body, s, r, run, id, old(env.open), deadline);
    }
  }
}
