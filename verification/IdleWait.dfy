/**
 The idle waiter: a trusted wake adapter with an exponential-backoff fallback, under one real
 time budget. Times are whole milliseconds.
 */
module IdleWait {
  import opened Common

  const MIN_POLL := 100

  function Min(a: int, b: int): int { if a < b then a else b }

  function Max(a: int, b: int): int { if a < b then b else a }

  /** A probe answers a bare runnable count, or a queue status with its error and fingerprint. */
  datatype Probe = Count(runnable: int) | Status(runnable: int, error: bool, fingerprint: string)

  predicate Failed(p: Probe) { p.Status? && p.error }

  predicate Changed(p: Probe, baseline: string) {
    p.Status? && baseline != "" && !p.error && p.fingerprint != baseline
  }

  /** The probe is evidence of work: error free, and runnable enough or on a changed board. */
  predicate Wakes(p: Probe, baseline: string, wakeOnRunnable: bool, threshold: int) {
    !Failed(p) && ((wakeOnRunnable && p.runnable >= threshold) || Changed(p, baseline))
  }

  datatype Event = NoEvent | AdapterError | Woken(kind: string)

  datatype WakeReason = Reload | Stopped | Deadline | TaskChange | Adapter(kind: string)

  datatype WaitResult = WaitResult(
    reason: WakeReason, polls: nat, adapterCalls: nat, sourceErrors: nat, adapterErrors: nat, runnable: int)

  /** What the waiter asked for, and what it was told. */
  datatype Seen =
    | Clock(at: int)
    | Slept(d: int)
    | ReloadAsked(yes: bool)
    | StopAsked(yes: bool)
    | Answered(event: Event)
    | Probed(probe: Probe)

  type Trace = seq<Seen>

  /** Everything the waiter calls out to. A `steady` clock advances at least as much as each sleep. */
  class Environment {
    const steady: bool
    var floor: int
    ghost var slept: int
    ghost var trace: Trace

    constructor (steady: bool)
      ensures this.steady == steady && slept == 0 && trace == []
    {
      this.steady, floor, slept, trace := steady, 0, 0, [];
    }

    method ReadClock() returns (t: int)
      modifies this`floor, this`trace
      ensures floor == t && (steady ==> t >= old(floor)) && trace == old(trace) + [Clock(t)]
    {
      t := *;
      if steady && t < floor { t := floor; }
      floor, trace := t, trace + [Clock(t)];
    }

    method Sleep(d: int)
      requires d > 0
      modifies this`floor, this`slept, this`trace
      ensures slept == old(slept) + d && floor == old(floor) + d && trace == old(trace) + [Slept(d)]
    {
      slept, floor, trace := slept + d, floor + d, trace + [Slept(d)];
    }

    method CallAdapter(budget: int) returns (e: Event)
      modifies this`trace
      ensures trace == old(trace) + [Answered(e)]
    {
      e := *;
      trace := trace + [Answered(e)];
    }

    method ShouldReload() returns (b: bool)
      modifies this`trace
      ensures trace == old(trace) + [ReloadAsked(b)]
    {
      b := *;
      trace := trace + [ReloadAsked(b)];
    }

    method ShouldStop() returns (b: bool)
      modifies this`trace
      ensures trace == old(trace) + [StopAsked(b)]
    {
      b := *;
      trace := trace + [StopAsked(b)];
    }

    method ProbeQueue(timeout: int) returns (p: Probe)
      modifies this`trace
      ensures trace == old(trace) + [Probed(p)]
    {
      p := *;
      trace := trace + [Probed(p)];
    }
  }

  // ---------------------------------------------------------------- what calls for a return

  /** What the waiter was set up with; `at` is its deadline on the clock. */
  datatype Goal = Goal(at: int, baseline: string, wakeOnRunnable: bool, threshold: int)

  predicate ClockBefore(es: Trace, i: nat, at: int) { i < |es| && es[i].Clock? && es[i].at < at }

  /**
   The reason the `i`-th event gives to return: a reload or a stop, a waking probe with the next clock
   before the deadline, or an adapter's event with the second clock after it before the deadline.
   */
  function Calls(es: Trace, i: nat, g: Goal): Option<WakeReason>
    requires i < |es|
  {
    match es[i]
    case ReloadAsked(yes) => if yes then Some(Reload) else None
    case StopAsked(yes) => if yes then Some(Stopped) else None
    case Probed(p) =>
      if Wakes(p, g.baseline, g.wakeOnRunnable, g.threshold) && ClockBefore(es, i + 1, g.at) then Some(TaskChange)
      else None
    case Answered(e) => if e.Woken? && ClockBefore(es, i + 2, g.at) then Some(Adapter(e.kind)) else None
    case _ => None
  }

  /** Nothing in `es` calls for a return. */
  ghost predicate NothingCalls(es: Trace, g: Goal) { forall i | 0 <= i < |es| :: Calls(es, i, g).None? }

  /** What calls for a return is at the very end, and is the reason given. */
  ghost predicate OnlyLastCalls(es: Trace, g: Goal, reason: WakeReason) {
    forall i | 0 <= i < |es| && Calls(es, i, g).Some? :: Calls(es, i, g).value == reason && i >= |es| - 3
  }

  /** A trace in which no probe and no adapter event still waits for its clock. */
  ghost predicate Settled(es: Trace) {
    && (|es| > 0 ==> !es[|es| - 1].Probed? && !es[|es| - 1].Answered?)
    && (|es| > 1 ==> !(es[|es| - 2].Answered? && es[|es| - 2].event.Woken?))
  }

  lemma CallsLater(a: Trace, b: Trace, i: nat, g: Goal)
    requires i < |b|
    ensures Calls(a + b, |a| + i, g) == Calls(b, i, g)
  {
  }

  lemma CallsEarlier(a: Trace, b: Trace, i: nat, g: Goal)
    requires i < |a| && Settled(a)
    ensures Calls(a + b, i, g) == Calls(a, i, g)
  {
  }

  lemma NothingMore(a: Trace, b: Trace, g: Goal)
    requires NothingCalls(a, g) && Settled(a) && NothingCalls(b, g)
    ensures NothingCalls(a + b, g)
  {
    forall i | 0 <= i < |a + b| ensures Calls(a + b, i, g).None? {
      if i < |a| { CallsEarlier(a, b, i, g); } else { CallsLater(a, b, i - |a|, g); }
    }
  }

  lemma LastMore(a: Trace, b: Trace, g: Goal, reason: WakeReason)
    requires NothingCalls(a, g) && Settled(a) && OnlyLastCalls(b, g, reason)
    ensures OnlyLastCalls(a + b, g, reason)
  {
    forall i | 0 <= i < |a + b| && Calls(a + b, i, g).Some?
      ensures Calls(a + b, i, g).value == reason && i >= |a + b| - 3
    {
      if i < |a| { CallsEarlier(a, b, i, g); } else { CallsLater(a, b, i - |a|, g); }
    }
  }

  /** The end of the trace that each reason needs; a deadline also holds when the whole budget was spent. */
  ghost predicate Justified(es: Trace, g: Goal, r: WaitResult, spent: bool) {
    var n := |es|;
    match r.reason
    case Reload => n > 0 && es[n - 1] == ReloadAsked(true)
    case Stopped => n > 0 && es[n - 1] == StopAsked(true)
    case TaskChange =>
      && n > 1 && es[n - 2].Probed? && Wakes(es[n - 2].probe, g.baseline, g.wakeOnRunnable, g.threshold)
      && r.runnable == es[n - 2].probe.runnable && ClockBefore(es, n - 1, g.at)
    case Adapter(kind) => n > 2 && es[n - 3] == Answered(Woken(kind)) && ClockBefore(es, n - 1, g.at)
    case Deadline => spent || (n > 0 && es[n - 1].Clock? && es[n - 1].at >= g.at)
  }

  lemma JustifiedMore(a: Trace, b: Trace, g: Goal, r: WaitResult, spent: bool)
    requires Justified(b, g, r, spent)
    ensures Justified(a + b, g, r, spent)
  {
    var n, m := |a + b|, |b|;
    assert m > 0 ==> (a + b)[n - 1] == b[m - 1];
    assert m > 1 ==> (a + b)[n - 2] == b[m - 2];
    assert m > 2 ==> (a + b)[n - 3] == b[m - 3];
  }

  function Probes(es: Trace): seq<Probe> {
    if es == [] then []
    else
      var before, e := Probes(es[..|es| - 1]), es[|es| - 1];
      if e.Probed? then before + [e.probe] else before
  }

  lemma {:induction false} ProbesAppend(a: Trace, b: Trace)
    ensures Probes(a + b) == Probes(a) + Probes(b)
  {
    if b == [] {
      assert a + b == a;
    } else {
      assert (a + b)[..|a + b| - 1] == a + b[..|b| - 1];
      ProbesAppend(a, b[..|b| - 1]);
    }
  }

  // ---------------------------------------------------------------- delays

  /** The delay before the poll after `k` polls: doubled each time up to the maximum. */
  function DelayAt(first: int, maximum: int, k: nat): int {
    if k == 0 then first else Min(2 * DelayAt(first, maximum, k - 1), maximum)
  }

  function DelaySum(first: int, maximum: int, k: nat): int {
    if k == 0 then 0 else DelaySum(first, maximum, k - 1) + DelayAt(first, maximum, k - 1)
  }

  /** Whether the waiter has consumed its budget by full delays only, `polls` of them. */
  ghost predicate OnSchedule(first: int, maximum: int, polls: nat, interval: int, remaining: int, start: int,
                             floor: int) {
    remaining == interval - DelaySum(first, maximum, polls) && floor >= start + DelaySum(first, maximum, polls)
  }

  /** What the wait promises about its polls: every one followed a full delay inside the interval. */
  ghost predicate PollsWithin(first: int, maximum: int, polls: nat, interval: int) {
    polls == 0 || DelaySum(first, maximum, polls) < interval
  }

  // ---------------------------------------------------------------- one round

  /** What a part of the wait leaves when it goes on. */
  ghost predicate GoesOn(part: Trace, g: Goal) { NothingCalls(part, g) && Settled(part) && Probes(part) == [] }

  /** What a part leaves when it returns. */
  ghost predicate Returns(part: Trace, g: Goal, r: WaitResult) {
    && OnlyLastCalls(part, g, r.reason) && Justified(part, g, r, false) && Probes(part) == []
    && r.reason != Deadline && r.reason != TaskChange
  }

  /** The adapter's turn: its event, when it is in time, and the time it is credited with. */
  method AskAdapter(env: Environment, budget: int, g: Goal)
    returns (elapsed: int, woken: Option<string>, failed: bool, ghost part: Trace)
    requires budget > 0
    modifies env`floor, env`trace
    ensures 0 <= elapsed <= budget && env.trace == old(env.trace) + part && Probes(part) == []
    ensures env.steady ==> env.floor >= old(env.floor) + elapsed
    ensures match woken
            case None => GoesOn(part, g)
            case Some(kind) => forall r: WaitResult | r.reason == Adapter(kind) :: Returns(part, g, r)
  {
    var started := env.ReadClock();
    var event := env.CallAdapter(budget);
    var ended := env.ReadClock();
    failed := event == AdapterError;
    elapsed := Min(Max(ended - started, 0), budget);
    part := [Clock(started), Answered(event), Clock(ended)];
    woken := None;
    FewProbes(part);
    if event.Woken? {
      var now := env.ReadClock();
      part := part + [Clock(now)];
      FewProbes(part);
      if now < g.at { woken := Some(event.kind); }
    }
  }

  lemma FewProbes(part: Trace)
    requires |part| <= 4 && forall e | e in part :: !e.Probed?
    ensures Probes(part) == []
  {
    if part != [] { FewProbes(part[..|part| - 1]); }
  }

  /** One wait of `budget`: the adapter first, then sleep for whatever time it is not credited with. */
  method WaitOut(env: Environment, hasAdapter: bool, budget: int, g: Goal)
    returns (elapsed: int, woken: Option<string>, failed: bool, ghost part: Trace)
    requires budget > 0
    modifies env`floor, env`slept, env`trace
    ensures 0 <= elapsed <= budget && (!hasAdapter ==> !failed && woken.None?) && env.trace == old(env.trace) + part
    ensures woken.Some? ==> env.slept == old(env.slept)
    ensures woken.None? ==> env.slept + elapsed == old(env.slept) + budget && GoesOn(part, g)
    ensures woken.None? && env.steady ==> env.floor >= old(env.floor) + budget
    ensures woken.Some? ==> forall r: WaitResult | r.reason == Adapter(woken.value) :: Returns(part, g, r)
  {
    elapsed, woken, failed, part := 0, None, false, [];
    if hasAdapter {
      elapsed, woken, failed, part := AskAdapter(env, budget, g);
      if woken.Some? { return; }
    }
    if budget - elapsed > 0 {
      env.Sleep(budget - elapsed);
      Quietly(part, [Slept(budget - elapsed)], g);
      part := part + [Slept(budget - elapsed)];
    }
  }

  /** One more event that calls for nothing. */
  lemma Quietly(part: Trace, more: Trace, g: Goal)
    requires GoesOn(part, g) && |more| == 1 && Calls(more, 0, g).None? && !more[0].Probed? && !more[0].Answered?
    ensures GoesOn(part + more, g)
  {
    NothingMore(part, more, g);
    ProbesAppend(part, more);
    FewProbes(more);
  }

  method AskReload(env: Environment, ghost g: Goal) returns (reload: bool, ghost part: Trace)
    modifies env`trace
    ensures env.trace == old(env.trace) + part
    ensures if reload then forall r: WaitResult | r.reason == Reload :: Returns(part, g, r) else GoesOn(part, g)
  {
    reload := env.ShouldReload();
    part := [ReloadAsked(reload)];
    FewProbes(part);
  }

  /** A reload request, or failing that a stop request, seen after a wait. */
  method Interruption(env: Environment, ghost g: Goal) returns (reason: Option<WakeReason>, ghost part: Trace)
    modifies env`trace
    ensures env.trace == old(env.trace) + part && (reason.None? ==> GoesOn(part, g))
    ensures reason.Some? ==> reason.value == Reload || reason.value == Stopped
    ensures reason.Some? ==> forall r: WaitResult | r.reason == reason.value :: Returns(part, g, r)
  {
    var reload := env.ShouldReload();
    part := [ReloadAsked(reload)];
    FewProbes(part);
    if reload { return Some(Reload), part; }
    var stop := env.ShouldStop();
    part := [ReloadAsked(reload), StopAsked(stop)];
    FewProbes(part);
    reason := if stop then Some(Stopped) else None;
  }

  /** Time left on both the budget and the clock. */
  method TimeLeft(env: Environment, budget: int, ghost g: Goal, at: int) returns (left: int, ghost part: Trace)
    requires g.at == at
    modifies env`floor, env`trace
    ensures env.trace == old(env.trace) + part && GoesOn(part, g) && (env.steady ==> env.floor >= old(env.floor))
    ensures |part| == 1 && part[0] == Clock(env.floor) && left == Min(budget, Max(at - env.floor, 0))
  {
    var now := env.ReadClock();
    part := [Clock(now)];
    FewProbes(part);
    left := Min(budget, Max(at - now, 0));
  }

  // ---------------------------------------------------------------- the wait

  /** The trace of a wait that goes on. */
  ghost predicate Quiet(es: Trace, g: Goal, polls: nat, sourceErrors: nat) {
    NothingCalls(es, g) && Settled(es) && |Probes(es)| == polls && Failures(Probes(es)) == sourceErrors
  }

  /** How many probes reported a source error. */
  function Failures(probes: seq<Probe>): nat {
    if probes == [] then 0 else Failures(probes[..|probes| - 1]) + (if Failed(probes[|probes| - 1]) then 1 else 0)
  }

  lemma GoOn(es: Trace, part: Trace, g: Goal, polls: nat, sourceErrors: nat)
    requires Quiet(es, g, polls, sourceErrors) && GoesOn(part, g)
    ensures Quiet(es + part, g, polls, sourceErrors)
  {
    NothingMore(es, part, g);
    ProbesAppend(es, part);
    assert Probes(es) + [] == Probes(es);
  }

  /** How a whole wait ends: why it returned, and what it counted. */
  ghost predicate Ended(es: Trace, g: Goal, r: WaitResult, spent: bool) {
    && OnlyLastCalls(es, g, r.reason) && Justified(es, g, r, spent)
    && r.polls == |Probes(es)| && r.sourceErrors == Failures(Probes(es))
  }

  lemma EndWith(es: Trace, part: Trace, g: Goal, r: WaitResult, spent: bool)
    requires Quiet(es, g, r.polls, r.sourceErrors) && Returns(part, g, r)
    ensures Ended(es + part, g, r, spent)
  {
    LastMore(es, part, g, r.reason);
    JustifiedMore(es, part, g, r, spent);
    ProbesAppend(es, part);
    assert Probes(es) + [] == Probes(es);
  }

  /** A spent budget does not unmake a reason. */
  lemma EndedAnyway(es: Trace, g: Goal, r: WaitResult, spent: bool)
    requires Ended(es, g, r, false)
    ensures Ended(es, g, r, spent)
  {
  }

  lemma StartQuiet(started: int, g: Goal)
    ensures Quiet([Clock(started)], g, 0, 0)
  {
    FewProbes([Clock(started)]);
  }

  lemma EndNow(es: Trace, g: Goal, r: WaitResult, spent: bool)
    requires Quiet(es, g, r.polls, r.sourceErrors) && r.reason == Deadline
    requires spent || (es != [] && es[|es| - 1].Clock? && es[|es| - 1].at >= g.at)
    ensures Ended(es, g, r, spent)
  {
  }

  /** The answer to a waking probe. */
  predicate TaskFound(r: WaitResult, p: Probe, polls: nat, sourceErrors: nat) {
    r.reason == TaskChange && r.runnable == p.runnable && r.polls == polls + 1
    && r.sourceErrors == sourceErrors + (if Failed(p) then 1 else 0)
  }

  lemma ProbeCounts(es: Trace, p: Probe, now: int)
    ensures Probes(es + [Probed(p), Clock(now)]) == Probes(es) + [p]
    ensures Failures(Probes(es) + [p]) == Failures(Probes(es)) + (if Failed(p) then 1 else 0)
  {
    var part := [Probed(p), Clock(now)];
    assert part[..1] == [Probed(p)] && [Probed(p)][..0] == [];
    assert Probes([Probed(p)]) == [] + [p];
    ProbesAppend(es, part);
    assert (Probes(es) + [p])[..|Probes(es)|] == Probes(es);
  }

  /** A waking probe in time ends the wait. */
  lemma ProbeWakes(es: Trace, p: Probe, now: int, g: Goal, polls: nat, sourceErrors: nat, r: WaitResult)
    requires Quiet(es, g, polls, sourceErrors) && TaskFound(r, p, polls, sourceErrors)
    requires Wakes(p, g.baseline, g.wakeOnRunnable, g.threshold) && now < g.at
    ensures Ended(es + [Probed(p), Clock(now)], g, r, false)
  {
    var part := [Probed(p), Clock(now)];
    ProbeCounts(es, p, now);
    LastMore(es, part, g, TaskChange);
    JustifiedMore(es, part, g, r, false);
  }

  /** Any other probe leaves the wait going on. */
  lemma ProbePasses(es: Trace, p: Probe, now: int, g: Goal, polls: nat, sourceErrors: nat)
    requires Quiet(es, g, polls, sourceErrors)
    requires !(Wakes(p, g.baseline, g.wakeOnRunnable, g.threshold) && now < g.at)
    ensures Quiet(es + [Probed(p), Clock(now)], g, polls + 1, sourceErrors + (if Failed(p) then 1 else 0))
  {
    ProbeCounts(es, p, now);
    NothingMore(es, [Probed(p), Clock(now)], g);
  }

  /** Spending `wait` more, at most one delay, stays within one delay more. */
  lemma OneDelay(first: int, maximum: int, k: nat, spent: int, wait: int)
    requires spent <= DelaySum(first, maximum, k) && wait <= DelayAt(first, maximum, k)
    ensures spent + wait <= DelaySum(first, maximum, k + 1)
    ensures DelayAt(first, maximum, k + 1) == Min(2 * DelayAt(first, maximum, k), maximum)
  {
  }

  lemma {:induction false} DelaysGrow(first: int, maximum: int, k: nat)
    requires 0 < first <= maximum
    ensures 0 < DelayAt(first, maximum, k) <= maximum && DelaySum(first, maximum, k) <= DelaySum(first, maximum, k + 1)
  {
    if k > 0 { DelaysGrow(first, maximum, k - 1); }
  }

  datatype Counters = Counters(polls: nat, adapterCalls: nat, sourceErrors: nat, adapterErrors: nat)

  function ResultOf(reason: WakeReason, c: Counters, runnable: int): WaitResult {
    WaitResult(reason, c.polls, c.adapterCalls, c.sourceErrors, c.adapterErrors, runnable)
  }

  /** The clock has reached the deadline. */
  ghost predicate ClockOver(es: Trace, g: Goal) { es != [] && es[|es| - 1].Clock? && es[|es| - 1].at >= g.at }

  /** A reload request, then the time that is left: none of it, or something to wait for. */
  method BeginRound(env: Environment, g: Goal, budget: int, c: Counters, ghost es: Trace)
    returns (r: Option<WaitResult>, left: int, ghost part: Trace)
    requires budget > 0 && Quiet(es, g, c.polls, c.sourceErrors)
    modifies env`floor, env`trace
    ensures env.trace == old(env.trace) + part && (env.steady ==> env.floor >= old(env.floor))
    ensures r.Some? ==> r.value == ResultOf(Reload, c, 0) && Ended(es + part, g, r.value, false)
    ensures r.None? ==> Quiet(es + part, g, c.polls, c.sourceErrors) && left == Min(budget, Max(g.at - env.floor, 0))
    ensures r.None? && left <= 0 ==> ClockOver(es + part, g)
  {
    hide Quiet, Ended, GoesOn, Returns;
    var reload;
    left := 0;
    reload, part := AskReload(env, g);
    if reload {
      r := Some(ResultOf(Reload, c, 0));
      EndWith(es, part, g, r.value, false);
      return;
    }
    r := None;
    ghost var asked, clock := part, [];
    GoOn(es, asked, g, c.polls, c.sourceErrors);
    left, clock := TimeLeft(env, budget, g, g.at);
    GoOn(es + asked, clock, g, c.polls, c.sourceErrors);
    part := asked + clock;
    assert es + part == es + asked + clock;
  }

  /** An interruption after a wait, then the time that is left for a probe. */
  method EndRound(env: Environment, g: Goal, budget: int, c: Counters, ghost es: Trace)
    returns (r: Option<WaitResult>, left: int, ghost part: Trace)
    requires budget >= 0 && Quiet(es, g, c.polls, c.sourceErrors)
    modifies env`floor, env`trace
    ensures env.trace == old(env.trace) + part && (env.steady ==> env.floor >= old(env.floor))
    ensures r.Some? ==> Ended(es + part, g, r.value, false)
    ensures r.Some? ==> !r.value.reason.Adapter? && r.value == ResultOf(r.value.reason, c, 0)
    ensures r.None? ==> Quiet(es + part, g, c.polls, c.sourceErrors) && left == Min(budget, Max(g.at - env.floor, 0))
    ensures r.None? && left <= 0 ==> budget == 0 || ClockOver(es + part, g)
  {
    hide Quiet, Ended, GoesOn, Returns;
    var interrupt;
    left := 0;
    interrupt, part := Interruption(env, g);
    if interrupt.Some? {
      r := Some(ResultOf(interrupt.value, c, 0));
      EndWith(es, part, g, r.value, false);
      return;
    }
    r := None;
    ghost var asked, clock := part, [];
    GoOn(es, asked, g, c.polls, c.sourceErrors);
    left, clock := TimeLeft(env, budget, g, g.at);
    GoOn(es + asked, clock, g, c.polls, c.sourceErrors);
    part := asked + clock;
    assert es + part == es + asked + clock;
  }

  /** One wait: `waited` of the budget is slept or credited; then the time that is left for a probe. */
  method WaitRound(env: Environment, g: Goal, hasAdapter: bool, budget: int, delay: int, c: Counters, ghost es: Trace)
    returns (r: Option<WaitResult>, left: int, waited: int, credit: int, c': Counters, ghost part: Trace)
    requires budget > 0 && delay > 0 && Quiet(es, g, c.polls, c.sourceErrors) && c.adapterErrors <= c.adapterCalls
    modifies env`floor, env`slept, env`trace
    ensures env.trace == old(env.trace) + part && env.slept - old(env.slept) + credit == waited
    ensures 0 <= credit && 0 <= waited <= budget && waited <= delay
    ensures c'.polls == c.polls && c'.sourceErrors == c.sourceErrors && c'.adapterErrors <= c'.adapterCalls
    ensures r.Some? ==> Ended(es + part, g, r.value, false) && (r.value.reason.Adapter? ==> hasAdapter)
                        && r.value == ResultOf(r.value.reason, c', 0)
    ensures r.None? ==> Quiet(es + part, g, c.polls, c.sourceErrors) && left <= budget - waited
    ensures r.None? && left <= 0 ==> budget == waited || ClockOver(es + part, g)
    ensures r.None? && left > 0 ==> waited > 0
    ensures r.None? && left > 0 && env.steady ==> waited == delay && env.floor >= old(env.floor) + waited
  {
    hide Quiet, Ended, GoesOn, Returns;
    ghost var rest;
    waited, credit, c' := 0, 0, c;
    r, left, part := BeginRound(env, g, budget, c, es);
    if r.Some? || left <= 0 { return; }
    ghost var now, first := env.floor, left;
    var wait := Min(delay, left);
    var woken, failed;
    credit, woken, failed, rest := WaitOut(env, hasAdapter, wait, g);
    c' := c.(adapterCalls := c.adapterCalls + (if hasAdapter then 1 else 0),
             adapterErrors := c.adapterErrors + (if failed then 1 else 0));
    assert es + (part + rest) == es + part + rest;
    if woken.Some? {
      credit := 0;
      r := Some(ResultOf(Adapter(woken.value), c', 0));
      EndWith(es + part, rest, g, r.value, false);
      part := part + rest;
      return;
    }
    waited := wait;
    GoOn(es + part, rest, g, c.polls, c.sourceErrors);
    part := part + rest;
    r, left, rest := EndRound(env, g, budget - waited, c', es + part);
    assert es + (part + rest) == es + part + rest;
    part := part + rest;
  }

  /** A probe, and whether it wakes the waiter in time. */
  method ProbeRound(env: Environment, g: Goal, left: int, c: Counters, ghost es: Trace)
    returns (r: Option<WaitResult>, over: bool, c': Counters, ghost part: Trace)
    requires Quiet(es, g, c.polls, c.sourceErrors)
    modifies env`floor, env`trace
    ensures env.trace == old(env.trace) + part && (env.steady ==> env.floor >= old(env.floor))
    ensures c' == c.(polls := c.polls + 1, sourceErrors := c'.sourceErrors)
    ensures r.Some? ==> Ended(es + part, g, r.value, false) && r.value == ResultOf(TaskChange, c', r.value.runnable)
    ensures r.None? ==> Quiet(es + part, g, c'.polls, c'.sourceErrors) && (over ==> ClockOver(es + part, g))
  {
    hide Quiet, Ended;
    var p := env.ProbeQueue(left);
    c' := c.(polls := c.polls + 1, sourceErrors := c.sourceErrors + (if Failed(p) then 1 else 0));
    var after := env.ReadClock();
    part := [Probed(p), Clock(after)];
    over, r := after >= g.at, None;
    if !over && !Failed(p) && ((g.wakeOnRunnable && p.runnable >= g.threshold) || Changed(p, g.baseline)) {
      r := Some(ResultOf(TaskChange, c', p.runnable));
      ProbeWakes(es, p, after, g, c.polls, c.sourceErrors, r.value);
    } else {
      ProbePasses(es, p, after, g, c.polls, c.sourceErrors);
    }
    assert over ==> (es + part)[|es + part| - 1] == Clock(after);
  }

  lemma StartSchedule(first: int, maximum: int, budget: int, start: int)
    ensures OnSchedule(first, maximum, 0, budget, budget, start, start) && PollsWithin(first, maximum, 0, budget)
    ensures DelayAt(first, maximum, 0) == first && DelaySum(first, maximum, 0) == 0
  {
  }

  /** One full delay more, with budget left: the waiter stays on schedule, and the next poll is inside the interval. */
  lemma Scheduled(first: int, maximum: int, k: nat, budget: int, remaining: int, start: int, floor: int, waited: int,
                  floor': int)
    requires OnSchedule(first, maximum, k, budget, remaining, start, floor)
    requires waited == DelayAt(first, maximum, k) && floor' >= floor + waited && remaining - waited > 0
    ensures OnSchedule(first, maximum, k + 1, budget, remaining - waited, start, floor')
    ensures PollsWithin(first, maximum, k + 1, budget)
  {
  }

  lemma StillScheduled(first: int, maximum: int, k: nat, budget: int, remaining: int, start: int, floor: int,
                       floor': int)
    requires OnSchedule(first, maximum, k, budget, remaining, start, floor) && floor' >= floor
    ensures OnSchedule(first, maximum, k, budget, remaining, start, floor')
  {
  }

  /**
   Waits for work. The whole trace justifies the answer: a reload, a stop, a waking probe or an adapter
   event in time is answered at once, nothing else is, and the deadline is answered only once the
   whole budget is spent or the clock has reached it. Sleeping plus credited adapter time never
   exceeds the budget, for any clock; and at most one delay passes before each poll.
   */
  method WaitForIdleChange(env: Environment, interval: int, initialPoll: int, maxPoll: int, threshold: int,
                           hasAdapter: bool, baseline: string, wakeOnRunnable: bool)
    returns (r: WaitResult, ghost credited: int, ghost es: Trace)
    modifies env
    ensures env.trace == old(env.trace) + es && es != [] && es[0].Clock?
    ensures var budget, spent := Max(interval, 0), env.slept - old(env.slept) + credited;
            && 0 <= credited && spent <= budget
            && Ended(es, Goal(es[0].at + budget, baseline, wakeOnRunnable, threshold), r, spent == budget)
    ensures r.reason.Adapter? ==> hasAdapter
    ensures r.adapterErrors <= r.adapterCalls
    ensures var maximum := Max(maxPoll, MIN_POLL);
            var first := Min(Max(initialPoll, MIN_POLL), maximum);
            && env.slept - old(env.slept) + credited <= DelaySum(first, maximum, r.polls + 1)
            && (env.steady ==> PollsWithin(first, maximum, r.polls, Max(interval, 0)))
  {
    hide Quiet, Ended, OnSchedule, PollsWithin, DelayAt, DelaySum;
    var remainingBudget := Max(interval, 0);
    var started := env.ReadClock();
    var maximum := Max(maxPoll, MIN_POLL);
    var delay := Min(Max(initialPoll, MIN_POLL), maximum);
    var g := Goal(started + remainingBudget, baseline, wakeOnRunnable, threshold);
    ghost var first, budget := delay, remainingBudget;
    var c := Counters(0, 0, 0, 0);
    credited, es := 0, [Clock(started)];
    StartQuiet(started, g);
    StartSchedule(first, maximum, budget, started);
    while remainingBudget > 0
      invariant 0 <= remainingBudget <= budget && 0 <= credited
      invariant env.slept - old(env.slept) + credited == budget - remainingBudget <= DelaySum(first, maximum, c.polls)
      invariant env.trace == old(env.trace) + es && es != [] && es[0] == Clock(started)
      invariant Quiet(es, g, c.polls, c.sourceErrors)
      invariant c.adapterErrors <= c.adapterCalls
      invariant delay == DelayAt(first, maximum, c.polls) && 0 < delay <= maximum
      invariant env.steady ==> PollsWithin(first, maximum, c.polls, budget)
      invariant env.steady ==> OnSchedule(first, maximum, c.polls, budget, remainingBudget, started, env.floor)
      decreases remainingBudget
    {
      ghost var part, k, floor := [], c.polls, env.floor;
      var answer, left, waited, credit, over;
      answer, left, waited, credit, c, part := WaitRound(env, g, hasAdapter, remainingBudget, delay, c, es);
      OneDelay(first, maximum, k, budget - remainingBudget, waited);
      es, credited, remainingBudget := es + part, credited + credit, remainingBudget - waited;
      if answer.Some? {
        EndedAnyway(es, g, answer.value, remainingBudget == 0);
        return answer.value, credited, es;
      }
      if left <= 0 { break; }
      if env.steady {
        Scheduled(first, maximum, k, budget, remainingBudget + waited, started, floor, waited, env.floor);
      }
      ghost var floor' := env.floor;
      answer, over, c, part := ProbeRound(env, g, left, c, es);
      es := es + part;
      DelaysGrow(first, maximum, c.polls);
      if answer.Some? {
        EndedAnyway(es, g, answer.value, remainingBudget == 0);
        return answer.value, credited, es;
      }
      if over { break; }
      if env.steady { StillScheduled(first, maximum, c.polls, budget, remainingBudget, started, floor', env.floor); }
      delay := Min(delay * 2, maximum);
    }
    r := ResultOf(Deadline, c, 0);
    DelaysGrow(first, maximum, c.polls);
    EndNow(es, g, r, remainingBudget == 0);
  }

  // ---------------------------------------------------------------- how many polls that allows

  /** Doublings needed to bring `d` up to the maximum. */
  function Doublings(d: int, maximum: int): nat
    requires d > 0
    decreases Max(maximum - d, 0)
  {
    if d >= maximum then 0 else 1 + Doublings(2 * d, maximum)
  }

  function Pow2(n: nat): nat { if n == 0 then 1 else 2 * Pow2(n - 1) }

  /** The number of doublings is the base-2 logarithm of the ratio, rounded up. */
  lemma {:induction false} DoublingsAreLog(d: int, maximum: int)
    requires d > 0
    ensures maximum <= d * Pow2(Doublings(d, maximum))
    ensures Doublings(d, maximum) > 0 ==> d * Pow2(Doublings(d, maximum) - 1) < maximum
    decreases Max(maximum - d, 0)
  {
    if d < maximum {
      DoublingsAreLog(2 * d, maximum);
      var n := Doublings(2 * d, maximum);
      assert d * Pow2(n + 1) == 2 * d * Pow2(n);
      if n > 0 { assert d * Pow2(n) == 2 * d * Pow2(n - 1); }
    }
  }

  lemma {:induction false} ShiftDelay(d: int, maximum: int, k: nat)
    requires 0 < d <= maximum
    ensures DelayAt(d, maximum, k + 1) == DelayAt(Min(2 * d, maximum), maximum, k)
  {
    if k > 0 { ShiftDelay(d, maximum, k - 1); }
  }

  lemma {:induction false} ShiftSum(d: int, maximum: int, k: nat)
    requires 0 < d <= maximum
    ensures DelaySum(d, maximum, k + 1) == d + DelaySum(Min(2 * d, maximum), maximum, k)
  {
    if k > 0 {
      ShiftSum(d, maximum, k - 1);
      ShiftDelay(d, maximum, k - 1);
    }
  }

  lemma {:induction false} FullDelays(maximum: int, k: nat)
    requires maximum > 0
    ensures DelayAt(maximum, maximum, k) == maximum && DelaySum(maximum, maximum, k) == k * maximum
  {
    if k > 0 { FullDelays(maximum, k - 1); }
  }

  /** All but the first doublings wait the full maximum. */
  lemma {:induction false} SumAtLeast(d: int, maximum: int, k: nat)
    requires 0 < d <= maximum
    ensures DelaySum(d, maximum, k) >= (k - Doublings(d, maximum)) * maximum
    decreases k
  {
    if d == maximum {
      FullDelays(maximum, k);
    } else if k > 0 {
      ShiftSum(d, maximum, k - 1);
      var d' := Min(2 * d, maximum);
      SumAtLeast(d', maximum, k - 1);
      assert Doublings(d, maximum) == 1 + Doublings(d', maximum);
    }
  }

  /** With a steady clock: at most one poll per doubling, and less than one per full maximum of the interval. */
  lemma PollBound(first: int, maximum: int, polls: nat, interval: nat)
    requires 0 < first <= maximum && PollsWithin(first, maximum, polls, interval)
    ensures polls > 0 ==> (polls - Doublings(first, maximum)) * maximum < interval
  {
    SumAtLeast(first, maximum, polls);
  }
}
