/** Runs from the empty ledger in which a call reports success and the reservation stays live. */
module Failures {
  import opened Common
  import opened Ledger
  import opened Replaying
  import opened Operations
  import opened Admission
  import opened Runs
  import opened Settlement
  import opened Visibility

  /** A launch of `id` for a run that may have no name. */
  function LaunchFor(lim: Limit, run: string, now: int): Op {
    DoReserve(Request("a", run, ScopeOf(lim)), now, At(now))
  }

  /** The ledger holds one live reservation, made for `run`. */
  ghost predicate HoldsLaunch(b: Book, run: string, t: int) {
    && b.Coherent() && b.order == ["a"] && b.Live("a")
    && b.reserved["a"].runId == run == b.reserved["a"].ownerRunId
    && b.reserved["a"].host == "h" && b.reserved["a"].at == Some(t)
  }

  lemma Launched(lim: Limit, run: string, t: int)
    ensures var cfg, op := OneCap(lim, 0), LaunchFor(lim, run, t);
            var (d, reply) := Step(cfg, EMPTY_DISK, op, true);
            reply.Admitted? && Inv(d) && HoldsLaunch(Load(d).value.book, run, t)
  {
    var cfg, b, op := OneCap(lim, 0), BookOf([], []), LaunchFor(lim, run, t);
    EmptyInv();
    EmptyRoom(lim, 0, op.req, t);
    AdmissionExact(cfg, b, op.req, t, op.at);
    SmallStep(cfg, EMPTY_DISK, op, true);
    FirstRows(b, PlanOf(cfg, b, op).rows, NewReservation(cfg, b, op.req, op.at));
  }

  /** A reconcile or a release that names another run, or a reconcile with an unknown reason. */
  predicate Misnamed(op: Op, run: string) {
    match op
    case DoReconcile(id, runId, _, reason, _) => id == "a" && !(runId == run && reason in RECONCILE_REASONS)
    case DoRelease(id, runId, _, _) => id == "a" && runId != run
    case _ => false
  }

  /** Launch, then settle wrongly: both calls report success, and the reservation is as live as before. */
  lemma MisnamedSettlementShows(lim: Limit, t: int, op: Op)
    requires Misnamed(op, "r")
    ensures var (d, replies) := Run(OneCap(lim, 0), EMPTY_DISK, [LaunchFor(lim, "r", t), op], true);
            && |replies| == 2 && replies[0].Admitted? && replies[1] == Settlement(true)
            && Inv(d) && HoldsLaunch(Load(d).value.book, "r", t)
  {
    var cfg, first := OneCap(lim, 0), LaunchFor(lim, "r", t);
    var d := Step(cfg, EMPTY_DISK, first, true).0;
    Launched(lim, "r", t);
    if op.DoReconcile? { ReconcileClosesIff(cfg, d, op); } else { ReleaseClosesIff(cfg, d, op); }
    LiveOrClosed(Load(d).value.book, Load(Step(cfg, d, op, true).0).value.book, cfg, d, op);
    RunTwo(cfg, EMPTY_DISK, first, op, true);
  }

  lemma OneTerminal(cfg: Config, b: Book, op: Op)
    requires cfg.enabled && b.Coherent() && Misnamed(op, "r") && b.Live("a")
    ensures Early(cfg, op).None? && !op.DoReserve? && !op.DoCompact? && !op.DoNoise?
    ensures |PlanOf(cfg, b, op).rows| == 1 && PlanOf(cfg, b, op).rows[0].Close?
  {
  }

  lemma StaysReserved(b: Book, t: Terminal)
    requires b.Coherent() && b.Live("a")
    ensures Settled(b, t).Live("a") || Settled(b, t).Closed("a")
  {
  }

  /** A settlement leaves its id reserved. */
  lemma LiveOrClosed(b: Book, b': Book, cfg: Config, d: Disk, op: Op)
    requires cfg.Valid() && cfg.enabled && Inv(d) && Misnamed(op, "r") && b == Load(d).value.book && b.Live("a")
    requires b' == Load(Step(cfg, d, op, true).0).value.book
    ensures b'.Live("a") || b'.Closed("a")
  {
    hide PlanOf, Settled, Misnamed, Early, GenerationsBounded, DecisionsKnown;
    OneTerminal(cfg, b, op);
    var plan := PlanOf(cfg, b, op);
    PlanFits(cfg, b, op);
    WrittenRowsReplay(d, plan.rows);
    assert AfterRows(cfg, AppendAll(d, plan.rows), op, plan.reply) == Ok(AppendAll(d, plan.rows));
    assert plan.rows[1..] == [];
    assert ApplyAll(b, plan.rows) == Settled(b, plan.rows[0].terminal);
    StaysReserved(b, plan.rows[0].terminal);
  }

  /** A sweep that learns nothing: the owner is dead, on this host, and old enough. */
  function DeadSweep(now: int, grace: int): Sweep {
    Sweep(id => Probe(None, false, ""), "h", now, grace, id => now)
  }

  /** The ledger after a nameless launch, whatever has been swept since. */
  ghost predicate Nameless(d: Disk, t: int) { Inv(d) && HoldsLaunch(Load(d).value.book, "", t) }

  lemma SweptInVain(cfg: Config, d: Disk, t: int, now: int, grace: int)
    requires cfg.Valid() && cfg.enabled && Nameless(d, t) && now - t >= grace
    ensures var (d', reply) := Step(cfg, d, DoRecover(DeadSweep(now, grace)), true);
            reply == Recovered(1) && Nameless(d', t)
  {
    hide GenerationsBounded, DecisionsKnown, Accepts, TerminalIntegrity, Load;
    var b, s := Load(d).value.book, DeadSweep(now, grace);
    SweepReplays(cfg, d, s);
    assert b.order == [] + ["a"];
    SnocInit([], "a");
    assert Filter([], id => Swept(b, id, s)) == [];
    FilterSnoc([], "a", id => Swept(b, id, s));
    assert SweptIds(b, b.order, s) == ["a"];
    var rows := RowsFor(cfg, b, ["a"], s);
    assert rows[1..] == [];
    SweptAccepted(cfg, b.reserved["a"], s);
  }

  lemma RunCons(cfg: Config, d: Disk, op: Op, ops: seq<Op>)
    ensures var (d1, reply) := Step(cfg, d, op, true);
            var (d2, replies) := Run(cfg, d1, ops, true);
            Run(cfg, d, [op] + ops, true) == (d2, [reply] + replies)
  {
    assert ([op] + ops)[1..] == ops;
  }

  lemma RunNone(cfg: Config, d: Disk)
    ensures Run(cfg, d, [], true) == (d, [])
  {
  }

  function Sweepings(n: nat, now: int, grace: int): seq<Op> {
    if n == 0 then [] else [DoRecover(DeadSweep(now, grace))] + Sweepings(n - 1, now, grace)
  }

  lemma {:induction false} SweptInVainAgain(cfg: Config, d: Disk, n: nat, t: int, now: int, grace: int)
    requires cfg.Valid() && cfg.enabled && Nameless(d, t) && now - t >= grace
    ensures var (d', replies) := Run(cfg, d, Sweepings(n, now, grace), true);
            |replies| == n && (forall i | 0 <= i < n :: replies[i] == Recovered(1)) && Nameless(d', t)
    decreases n
  {
    hide Step, Nameless, Run;
    if n == 0 {
      RunNone(cfg, d);
    } else {
      var op := DoRecover(DeadSweep(now, grace));
      var d1 := Step(cfg, d, op, true).0;
      SweptInVain(cfg, d, t, now, grace);
      SweptInVainAgain(cfg, d1, n - 1, t, now, grace);
      RunCons(cfg, d, op, Sweepings(n - 1, now, grace));
    }
  }

  /** A launch without a run id, then any number of sweeps: each reports it recovered, and none closes it. */
  lemma NamelessRunShows(lim: Limit, n: nat, t: int, now: int, grace: int)
    requires now - t >= grace
    ensures var (d, replies) := Run(OneCap(lim, 0), EMPTY_DISK,
                                    [LaunchFor(lim, "", t)] + Sweepings(n, now, grace), true);
            && |replies| == n + 1 && replies[0].Admitted? && (forall i | 1 <= i <= n :: replies[i] == Recovered(1))
            && Inv(d) && HoldsLaunch(Load(d).value.book, "", t)
  {
    var cfg, first := OneCap(lim, 0), LaunchFor(lim, "", t);
    Launched(lim, "", t);
    RunCons(cfg, EMPTY_DISK, first, Sweepings(n, now, grace));
    SweptInVainAgain(cfg, Step(cfg, EMPTY_DISK, first, true).0, n, t, now, grace);
  }
}
