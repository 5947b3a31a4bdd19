/**
 Where folding shows: runs from the empty ledger that a compacting and a plain ledger answer
 differently, and exactly which clocks read a folded charge as missing.
 */
module Visibility {
  import opened Common
  import opened Ledger
  import opened Replaying
  import opened Compacting
  import opened Operations
  import opened Admission
  import opened Runs
  import opened Settlement
  import opened Invisibility

  // ---------------------------------------------------------------- small runs, call by call

  lemma {:induction false} RunSnoc(cfg: Config, d: Disk, ops: seq<Op>, op: Op, compacts: bool)
    ensures var (d', replies) := Run(cfg, d, ops, compacts);
            Run(cfg, d, ops + [op], compacts)
            == (Step(cfg, d', op, compacts).0, replies + [Step(cfg, d', op, compacts).1])
    decreases |ops|
  {
    var all := ops + [op];
    if ops == [] {
      assert all[0] == op && all[1..] == [];
      var reply := Step(cfg, d, op, compacts).1;
      assert [reply] + [] == [] + [reply];
    } else {
      assert all[0] == ops[0] && all[1..] == ops[1..] + [op];
      var (d1, reply) := Step(cfg, d, ops[0], compacts);
      RunSnoc(cfg, d1, ops[1..], op, compacts);
      var (d', replies) := Run(cfg, d1, ops[1..], compacts);
      var last := [Step(cfg, d', op, compacts).1];
      assert [reply] + (replies + last) == [reply] + replies + last;
    }
  }

  /** A call on a journal far below the threshold only appends its rows. */
  lemma SmallStep(cfg: Config, d: Disk, op: Op, compacts: bool)
    requires cfg.Valid() && Inv(d) && Early(cfg, op).None? && !op.DoNoise? && !op.DoCompact?
    requires |RowsOf(d)| + |PlanOf(cfg, Load(d).value.book, op).rows| < COMPACTION_THRESHOLD
    ensures var plan := PlanOf(cfg, Load(d).value.book, op);
            var d' := AppendAll(d, plan.rows);
            && Step(cfg, d, op, compacts) == (d', plan.reply)
            && Inv(d') && Load(d').value.book == ApplyAll(Load(d).value.book, plan.rows)
            && RowsOf(d') == RowsOf(d) + plan.rows
  {
    PlanFits(cfg, Load(d).value.book, op);
    WrittenRowsReplay(d, PlanOf(cfg, Load(d).value.book, op).rows);
  }

  // ---------------------------------------------------------------- one charge, then closed

  function ScopeOf(lim: Limit): Scope {
    var pick := (x: Option<string>) => if x.Some? then x.value else "";
    Scope(pick(lim.project), pick(lim.provider), pick(lim.phase), pick(lim.model), pick(lim.effort))
  }

  /** The only cap is `lim`, and every launch declares the same allowance. */
  function OneCap(lim: Limit, declared: nat): Config { Config(true, "m", "", None, declared, [], "block", [lim]) }

  function At(now: int): Stamps { Stamps("h", 1, "b", now, now, now) }

  function Launch(lim: Limit, id: string, now: int): Op { DoReserve(Request(id, "r", ScopeOf(lim)), now, At(now)) }

  /** Reports one unit. */
  function Finish1(id: string, at: int): Op {
    DoReconcile(id, "r", Usage(map["m" := 1], true, None), "terminal_usage", at)
  }

  /** A launch that is charged one unit at time `at`. */
  function ChargedOnce(lim: Limit, at: int): seq<Op> { [Launch(lim, "a", at), Finish1("a", at)] }

  /** The book after such a launch: one closed reservation that `lim` counts as one unit, charged at `at`. */
  ghost predicate HoldsUnit(b: Book, lim: Limit, at: int) {
    && b.Coherent() && b.order == ["a"] && b.Closed("a") && b.cumulative == []
    && lim.Matches(b.reserved["a"].scope)
    && b.terminal["a"].kind == Reconciled && b.terminal["a"].charge == Some(1) && b.terminal["a"].at == Some(at)
  }

  lemma EmptyRoom(lim: Limit, declared: nat, req: Request, now: int)
    requires declared <= lim.cap
    ensures Room(OneCap(lim, declared), BookOf([], []), req, now)
  {
  }

  /** The launch is admitted, and nothing is folded. */
  lemma Admitted1(lim: Limit, declared: nat, at: int, compacts: bool)
    requires declared <= lim.cap
    ensures var cfg, b, op := OneCap(lim, declared), BookOf([], []), Launch(lim, "a", at);
            var plan := PlanOf(cfg, b, op);
            && Early(cfg, op).None? && |plan.rows| == 2
            && Step(cfg, EMPTY_DISK, op, compacts) == (AppendAll(EMPTY_DISK, plan.rows), plan.reply)
  {
    var cfg, b, op := OneCap(lim, declared), BookOf([], []), Launch(lim, "a", at);
    EmptyInv();
    EmptyRoom(lim, declared, op.req, at);
    AdmissionExact(cfg, b, op.req, at, op.at);
    SmallStep(cfg, EMPTY_DISK, op, compacts);
  }

  /** What a fresh reservation of the launch looks like. */
  ghost predicate IsFirst(r: Reservation, lim: Limit) {
    r.id == "a" && r.runId == "r" && r.ownerRunId == "r" && r.generation == 1 && r.metric == "m" && lim.Matches(r.scope)
  }

  lemma Reserved1(lim: Limit, declared: nat, at: int) returns (r: Reservation)
    requires declared <= lim.cap
    ensures var d := Step(OneCap(lim, declared), EMPTY_DISK, Launch(lim, "a", at), true).0;
            && Inv(d) && |RowsOf(d)| == 2 && IsFirst(r, lim) && r.declared == declared
            && Load(d).value.book == AddReservation(BookOf([], []), r)
  {
    var cfg, b, op := OneCap(lim, declared), BookOf([], []), Launch(lim, "a", at);
    r := NewReservation(cfg, b, op.req, op.at);
    EmptyInv();
    EmptyRoom(lim, declared, op.req, at);
    AdmissionExact(cfg, b, op.req, at, op.at);
    SmallStep(cfg, EMPTY_DISK, op, true);
    FirstRows(b, PlanOf(cfg, b, op).rows, r);
  }

  lemma FirstRows(b: Book, rows: seq<Row>, r: Reservation)
    requires |rows| == 2 && rows[0] == Reserve(r) && rows[1].Decided?
    ensures ApplyAll(b, rows) == AddReservation(b, r)
  {
    assert rows[1..] == [rows[1]] && rows[1..][1..] == [];
    assert ApplyAll(Apply(b, rows[0]), rows[1..]) == ApplyAll(Apply(Apply(b, rows[0]), rows[1]), []);
  }

  lemma Accepted1(cfg: Config, r: Reservation, at: int)
    requires r.runId == "r"
    ensures Accepts(Reconciliation(cfg, r, "r", Usage(map["m" := 1], true, None), "terminal_usage", at), r)
  {
    ReconciliationAccepted(cfg, r, "r", Usage(map["m" := 1], true, None), "terminal_usage", at);
  }

  /** Closing it leaves the unit on the book. */
  lemma Settled1(cfg: Config, d: Disk, r: Reservation, lim: Limit, at: int, compacts: bool)
    requires cfg.Valid() && Inv(d) && |RowsOf(d)| == 2
    requires IsFirst(r, lim) && Load(d).value.book == AddReservation(BookOf([], []), r)
    ensures var d' := Step(cfg, d, Finish1("a", at), compacts).0;
            Inv(d') && HoldsUnit(Load(d').value.book, lim, at)
    ensures Step(cfg, d, Finish1("a", at), compacts) == Step(cfg, d, Finish1("a", at), !compacts)
  {
    var b, op := Load(d).value.book, Finish1("a", at);
    var t := Reconciliation(cfg, r, "r", Usage(map["m" := 1], true, None), "terminal_usage", at);
    assert PlanOf(cfg, b, op).rows == [Close(t)];
    SmallStep(cfg, d, op, compacts);
    SmallStep(cfg, d, op, !compacts);
    assert [Close(t)][1..] == [];
    Accepted1(cfg, r, at);
  }

  lemma RunTwo(cfg: Config, d: Disk, first: Op, second: Op, compacts: bool)
    ensures var (d1, r1) := Step(cfg, d, first, compacts);
            var (d2, r2) := Step(cfg, d1, second, compacts);
            Run(cfg, d, [first, second], compacts) == (d2, [r1, r2])
  {
    assert [first, second][1..] == [second] && [second][1..] == [];
    var (d1, r1) := Step(cfg, d, first, compacts);
    var (d2, r2) := Step(cfg, d1, second, compacts);
    assert Run(cfg, d1, [second], compacts) == (d2, [r2] + []);
    assert [r1] + ([r2] + []) == [r1, r2];
  }

  lemma ChargedFrom(cfg: Config, first: Op, d1: Disk, r: Reservation, lim: Limit, at: int)
    requires cfg.Valid() && Inv(d1) && |RowsOf(d1)| == 2
    requires Step(cfg, EMPTY_DISK, first, true) == Step(cfg, EMPTY_DISK, first, false)
    requires Step(cfg, EMPTY_DISK, first, true).0 == d1
    requires IsFirst(r, lim) && Load(d1).value.book == AddReservation(BookOf([], []), r)
    ensures var d := Run(cfg, EMPTY_DISK, [first, Finish1("a", at)], true);
            && Inv(d.0) && HoldsUnit(Load(d.0).value.book, lim, at)
            && d == Run(cfg, EMPTY_DISK, [first, Finish1("a", at)], false)
  {
    Settled1(cfg, d1, r, lim, at, true);
    RunTwo(cfg, EMPTY_DISK, first, Finish1("a", at), true);
    RunTwo(cfg, EMPTY_DISK, first, Finish1("a", at), false);
  }

  /** After the two calls: one unit on the book, and nothing folded. */
  lemma Charged(lim: Limit, declared: nat, at: int)
    requires declared <= lim.cap
    ensures var cfg := OneCap(lim, declared);
            var d := Run(cfg, EMPTY_DISK, ChargedOnce(lim, at), true);
            && Inv(d.0) && HoldsUnit(Load(d.0).value.book, lim, at)
            && d == Run(cfg, EMPTY_DISK, ChargedOnce(lim, at), false)
  {
    var cfg, first := OneCap(lim, declared), Launch(lim, "a", at);
    var r := Reserved1(lim, declared, at);
    Admitted1(lim, declared, at, true);
    Admitted1(lim, declared, at, false);
    ChargedFrom(cfg, first, Step(cfg, EMPTY_DISK, first, true).0, r, lim, at);
  }

  lemma UnitConsumption(b: Book, lim: Limit, at: int, now: int)
    requires lim.window > 0 && HoldsUnit(b, lim, at)
    ensures Consumption(b, lim, now) == if at >= now - lim.window then 1 else 0
  {
    assert b.order[..0] == [];
    assert Shares(b, b.order[..0], lim, now) == 0;
  }

  /** A horizon after the charge folds it away: the cap reads nothing. */
  lemma UnitFolds(b: Book, lim: Limit, at: int, before: int, now: int)
    requires lim.window > 0 && HoldsUnit(b, lim, at) && at < before
    ensures "a" in FoldSet(b, before) && "a" !in FoldedBook(b, before).reserved
    ensures Consumption(FoldedBook(b, before), lim, now) == 0
  {
    var f := FoldedBook(b, before);
    assert "a" in FoldSet(b, before);
    FilterNone(b.order, id => id !in FoldSet(b, before));
    assert f.order == [];
  }

  lemma {:induction false} FilterNone(ids: seq<string>, keep: string -> bool)
    requires forall id | id in ids :: !keep(id)
    ensures Filter(ids, keep) == []
  {
    if ids != [] { FilterNone(ids[..|ids| - 1], keep); }
  }

  // ---------------------------------------------------------------- which clocks see a fold

  /** Folding at `before` is not seen by `lim` at `now`, in any ledger a run of calls can reach. */
  ghost predicate Foldproof(before: int, lim: Limit, now: int) {
    forall cfg: Config, ops: seq<Op> | cfg.Valid() && lim in cfg.limits && AllLegal(ops) ::
      FoldUnseen(Load(Run(cfg, EMPTY_DISK, ops, true).0), before, lim, now)
  }

  ghost predicate AllLegal(ops: seq<Op>) { forall op | op in ops :: LegalOp(op) }

  ghost predicate FoldUnseen(loaded: Result<LedgerState, Error>, before: int, lim: Limit, now: int) {
    loaded.Ok? && loaded.value.book.Coherent()
    && Consumption(FoldedBook(loaded.value.book, before), lim, now) == Consumption(loaded.value.book, lim, now)
  }

  lemma {:induction false} RunKeepsInv(cfg: Config, d: Disk, ops: seq<Op>, compacts: bool)
    requires cfg.Valid() && Inv(d) && AllLegal(ops)
    ensures Inv(Run(cfg, d, ops, compacts).0)
    decreases |ops|
  {
    if ops != [] {
      assert ops[0] in ops && forall op | op in ops[1..] :: op in ops;
      StepKeepsInv(cfg, d, ops[0], compacts);
      RunKeepsInv(cfg, Step(cfg, d, ops[0], compacts).0, ops[1..], compacts);
    }
  }

  /**
   A cap reads the same in every reachable ledger after folding at horizon `before` if and only if it
   clears that horizon: it is cumulative, or its window, seen from `now`, starts no earlier. So a store
   that read its clock before another store's later compaction can miss a charge that is still in its
   window.
   */
  lemma FoldHorizonExact(before: int, lim: Limit, now: int)
    ensures Foldproof(before, lim, now) <==> Clears(lim, now, Some(before))
  {
    if Clears(lim, now, Some(before)) {
      forall cfg: Config, ops: seq<Op> | cfg.Valid() && lim in cfg.limits && AllLegal(ops)
        ensures FoldUnseen(Load(Run(cfg, EMPTY_DISK, ops, true).0), before, lim, now)
      {
        EmptyInv();
        RunKeepsInv(cfg, EMPTY_DISK, ops, true);
        LoadedParts(Run(cfg, EMPTY_DISK, ops, true).0);
        FoldKeepsConsumption(Load(Run(cfg, EMPTY_DISK, ops, true).0).value.book, before, lim, now);
      }
    } else {
      FoldSeen(before, lim, now);
    }
  }

  lemma FoldSeen(before: int, lim: Limit, now: int)
    requires lim.window > 0 && now - lim.window < before
    ensures !Foldproof(before, lim, now)
  {
    var cfg, at := OneCap(lim, 0), now - lim.window;
    Charged(lim, 0, at);
    var d := Run(cfg, EMPTY_DISK, ChargedOnce(lim, at), true).0;
    UnitConsumption(Load(d).value.book, lim, at, now);
    UnitFolds(Load(d).value.book, lim, at, before, now);
    assert cfg.Valid() && lim in cfg.limits && AllLegal(ChargedOnce(lim, at)) && !FoldUnseen(Load(d), before, lim, now);
  }

  // ---------------------------------------------------------------- two runs that show a fold

  /** A unit charged at `at`, then a compaction at `now`. */
  function FoldedRun(lim: Limit, at: int, now: int): seq<Op> { ChargedOnce(lim, at) + [DoCompact(now, now)] }

  /** After that run the compacting ledger has folded the unit; the plain one still holds it. */
  ghost predicate UnitFolded(c: Disk, p: Disk, lim: Limit, at: int, now: int) {
    && Inv(c) && Inv(p) && HoldsUnit(Load(p).value.book, lim, at)
    && Load(c).value.book == FoldedBook(Load(p).value.book, now - lim.window)
  }

  /** A run that both ledgers answer alike, and after which they differ by the folded unit. */
  ghost predicate FoldsTheUnit(cfg: Config, ops: seq<Op>, lim: Limit, at: int, now: int) {
    var c, p := Run(cfg, EMPTY_DISK, ops, true), Run(cfg, EMPTY_DISK, ops, false);
    UnitFolded(c.0, p.0, lim, at, now) && c.1 == p.1
  }

  /** After `ops`, the last call `op` tells the compacting ledger from the plain one. */
  ghost predicate ShownBy(cfg: Config, ops: seq<Op>, op: Op) {
    Run(cfg, EMPTY_DISK, ops + [op], true).1 != Run(cfg, EMPTY_DISK, ops + [op], false).1
  }

  lemma FoldsUnitBook(d: Disk, limits: seq<Limit>, at: int, now: int)
    requires Inv(d) && limits != [] && limits[0].window > 0 && HoldsUnit(Load(d).value.book, limits[0], at)
    requires at < FoldBefore(limits, now)
    ensures var after := CompactDisk(d, limits, now, now);
            && after.Ok? && Inv(after.value)
            && Load(after.value).value.book == FoldedBook(Load(d).value.book, FoldBefore(limits, now))
  {
    UnitFolds(Load(d).value.book, limits[0], at, FoldBefore(limits, now), now);
    CompactionKeepsInv(d, limits, now, now);
    CompactionReloads(d, limits, now, now);
  }

  lemma FoldsUnit(d: Disk, lim: Limit, at: int, now: int)
    requires Inv(d) && HoldsUnit(Load(d).value.book, lim, at) && lim.window > 0 && at < now - lim.window
    ensures CompactDisk(d, [lim], now, now).Ok? && UnitFolded(CompactDisk(d, [lim], now, now).value, d, lim, at, now)
  {
    hide CompactDisk, HoldsUnit, FoldedBook;
    assert FoldBefore([lim], now) == now - lim.window;
    FoldsUnitBook(d, [lim], at, now);
  }

  lemma UnitSim(c: Book, p: Book, lim: Limit, at: int, now: int)
    requires HoldsUnit(p, lim, at) && lim.window > 0 && c == FoldedBook(p, now - lim.window)
    ensures Sim(c, p, Some(now - lim.window))
  {
    SimSelf(p, None);
    SimFold(p, p, now - lim.window, None);
  }

  lemma SimSelf(b: Book, h: Option<int>)
    requires b.Coherent()
    ensures Sim(b, b, h)
  {
    FilterAll(b.order, id => id in b.reserved);
  }

  lemma {:induction false} FilterAll(ids: seq<string>, keep: string -> bool)
    requires forall id | id in ids :: keep(id)
    ensures Filter(ids, keep) == ids
  {
    if ids != [] {
      FilterAll(ids[..|ids| - 1], keep);
      assert ids == ids[..|ids| - 1] + [ids[|ids| - 1]];
    }
  }

  lemma CompactCall(cfg: Config, d: Disk, now: int)
    requires cfg.enabled && Load(d).Ok? && CompactDisk(d, cfg.limits, now, now).Ok?
    ensures Step(cfg, d, DoCompact(now, now), true) == (CompactDisk(d, cfg.limits, now, now).value, Silent)
    ensures Step(cfg, d, DoCompact(now, now), false) == (d, Silent)
  {
    assert AppendAll(d, []) == d;
    assert Step(cfg, d, DoCompact(now, now), true) == Finish(cfg, d, DoCompact(now, now), Silent, true);
  }

  lemma FoldedRunIs(lim: Limit, declared: nat, at: int, now: int)
    requires declared <= lim.cap && lim.window > 0 && at < now - lim.window
    ensures FoldsTheUnit(OneCap(lim, declared), FoldedRun(lim, at, now), lim, at, now)
  {
    Charged(lim, declared, at);
    FoldedFrom(OneCap(lim, declared), ChargedOnce(lim, at), lim, at, now);
  }

  lemma FoldedFrom(cfg: Config, ops: seq<Op>, lim: Limit, at: int, now: int)
    requires cfg.enabled && cfg.limits == [lim] && lim.window > 0 && at < now - lim.window
    requires Run(cfg, EMPTY_DISK, ops, true) == Run(cfg, EMPTY_DISK, ops, false)
    requires Inv(Run(cfg, EMPTY_DISK, ops, true).0)
    requires HoldsUnit(Load(Run(cfg, EMPTY_DISK, ops, true).0).value.book, lim, at)
    ensures FoldsTheUnit(cfg, ops + [DoCompact(now, now)], lim, at, now)
  {
    var d := Run(cfg, EMPTY_DISK, ops, true).0;
    FoldsUnit(d, lim, at, now);
    CompactCall(cfg, d, now);
    RunSnoc(cfg, EMPTY_DISK, ops, DoCompact(now, now), true);
    RunSnoc(cfg, EMPTY_DISK, ops, DoCompact(now, now), false);
  }

  /** Two ledgers in the same standing, answering one more call differently. */
  lemma LastReplyShows(cfg: Config, ops: seq<Op>, op: Op)
    requires Run(cfg, EMPTY_DISK, ops, true).1 == Run(cfg, EMPTY_DISK, ops, false).1
    requires Step(cfg, Run(cfg, EMPTY_DISK, ops, true).0, op, true).1
             != Step(cfg, Run(cfg, EMPTY_DISK, ops, false).0, op, false).1
    ensures ShownBy(cfg, ops, op)
  {
    RunSnoc(cfg, EMPTY_DISK, ops, op, true);
    RunSnoc(cfg, EMPTY_DISK, ops, op, false);
    var same := Run(cfg, EMPTY_DISK, ops, true).1;
    var c := Step(cfg, Run(cfg, EMPTY_DISK, ops, true).0, op, true).1;
    var p := Step(cfg, Run(cfg, EMPTY_DISK, ops, false).0, op, false).1;
    assert (same + [c])[|same|] != (same + [p])[|same|];
  }

  /**
   Reusing a folded id shows, under every windowed cap: launch, settle, compact, launch the same id
   again. The compacting ledger answers generation one, the plain one a later generation.
   */
  lemma FoldedReuseShows(lim: Limit, at: int, now: int)
    requires lim.window > 0 && at < now - lim.window
    ensures ShownBy(OneCap(lim, lim.cap), FoldedRun(lim, at, now), Launch(lim, "a", now))
  {
    FoldedRunIs(lim, lim.cap, at, now);
    ReusedFrom(OneCap(lim, lim.cap), FoldedRun(lim, at, now), lim, at, now);
  }

  lemma ReusedFrom(cfg: Config, ops: seq<Op>, lim: Limit, at: int, now: int)
    requires lim.window > 0 && at < now - lim.window && cfg == OneCap(lim, lim.cap)
    requires FoldsTheUnit(cfg, ops, lim, at, now)
    ensures ShownBy(cfg, ops, Launch(lim, "a", now))
  {
    ReusedDisks(Run(cfg, EMPTY_DISK, ops, true).0, Run(cfg, EMPTY_DISK, ops, false).0, lim, at, now);
    LastReplyShows(cfg, ops, Launch(lim, "a", now));
  }

  /**
   A stale clock shows, under every windowed cap and for every pair of clocks: a unit that is just
   inside the window at `stale` is folded by a compaction at the later `now`, and a reserve that
   checks the cap at `stale` is then admitted where the plain ledger denies it.
   */
  lemma StaleClockShows(lim: Limit, at: int, stale: int, now: int)
    requires lim.window > 0 && stale < now && at == stale - lim.window
    ensures ShownBy(OneCap(lim, lim.cap), FoldedRun(lim, at, now), Launch(lim, "b", stale))
  {
    FoldedRunIs(lim, lim.cap, at, now);
    StaleFrom(OneCap(lim, lim.cap), FoldedRun(lim, at, now), lim, at, stale, now);
  }

  lemma StaleFrom(cfg: Config, ops: seq<Op>, lim: Limit, at: int, stale: int, now: int)
    requires lim.window > 0 && stale < now && at == stale - lim.window
    requires cfg == OneCap(lim, lim.cap) && FoldsTheUnit(cfg, ops, lim, at, now)
    ensures ShownBy(cfg, ops, Launch(lim, "b", stale))
  {
    StaleDisks(Run(cfg, EMPTY_DISK, ops, true).0, Run(cfg, EMPTY_DISK, ops, false).0, lim, at, stale, now);
    LastReplyShows(cfg, ops, Launch(lim, "b", stale));
  }

  lemma ReusedDisks(c: Disk, p: Disk, lim: Limit, at: int, now: int)
    requires lim.window > 0 && at < now - lim.window && UnitFolded(c, p, lim, at, now)
    ensures var cfg, op := OneCap(lim, lim.cap), Launch(lim, "a", now);
            Step(cfg, c, op, true).1 != Step(cfg, p, op, false).1
  {
    var cfg, op, b := OneCap(lim, lim.cap), Launch(lim, "a", now), Load(p).value.book;
    UnitFolds(b, lim, at, now - lim.window, now);
    UnitConsumption(b, lim, at, now);
    assert Room(cfg, b, op.req, now);
    UnitSim(Load(c).value.book, b, lim, at, now);
    ReuseShows(cfg, c, p, op, Some(now - lim.window));
  }

  lemma StaleDisks(c: Disk, p: Disk, lim: Limit, at: int, stale: int, now: int)
    requires lim.window > 0 && stale < now && at == stale - lim.window && UnitFolded(c, p, lim, at, now)
    ensures var cfg, op := OneCap(lim, lim.cap), Launch(lim, "b", stale);
            Step(cfg, c, op, true).1 != Step(cfg, p, op, false).1
  {
    StaleAdmission(Load(c).value.book, Load(p).value.book, lim, at, stale, now);
    StaleReplies(OneCap(lim, lim.cap), c, p, Launch(lim, "b", stale));
  }

  lemma StaleAdmission(c: Book, p: Book, lim: Limit, at: int, stale: int, now: int)
    requires lim.window > 0 && stale < now && at == stale - lim.window
    requires HoldsUnit(p, lim, at) && c == FoldedBook(p, now - lim.window)
    ensures var cfg, op := OneCap(lim, lim.cap), Launch(lim, "b", stale);
            && PlanReserve(cfg, c, op.req, stale, op.at).reply.Admitted?
            && !PlanReserve(cfg, p, op.req, stale, op.at).reply.Admitted?
  {
    var cfg, op := OneCap(lim, lim.cap), Launch(lim, "b", stale);
    UnitFolds(p, lim, at, now - lim.window, stale);
    UnitConsumption(p, lim, at, stale);
    assert "b" !in p.reserved && "b" !in c.reserved by { assert "b" !in p.order; }
    AdmissionExact(cfg, c, op.req, stale, op.at);
    AdmissionExact(cfg, p, op.req, stale, op.at);
    assert lim in cfg.limits && lim.Matches(op.req.scope);
  }

  lemma StaleReplies(cfg: Config, c: Disk, p: Disk, op: Op)
    requires cfg.Valid() && Inv(c) && Inv(p) && op.DoReserve? && Early(cfg, op).None?
    requires PlanReserve(cfg, Load(c).value.book, op.req, op.now, op.at).reply.Admitted?
    requires !PlanReserve(cfg, Load(p).value.book, op.req, op.now, op.at).reply.Admitted?
    ensures Step(cfg, c, op, true).1 != Step(cfg, p, op, false).1
  {
    var plan := PlanOf(cfg, Load(c).value.book, op);
    PlanFits(cfg, Load(c).value.book, op);
    WrittenRowsReplay(c, plan.rows);
    AfterRowsKeepsInv(cfg, AppendAll(c, plan.rows), op, plan.reply);
  }
}
