/**
 Compaction is invisible: a ledger that compacts answers every call exactly as one that never
 compacts, until a reserve is admitted under an id that was folded away.
 */
module Invisibility {
  import opened Common
  import opened Ledger
  import opened Replaying
  import opened Consuming
  import opened Compacting
  import opened Operations
  import opened Admission
  import opened Runs

  /** The cap, seen from `now`, reaches no charge from before the horizon `h`; with none nothing was folded. */
  predicate Clears(lim: Limit, now: int, h: Option<int>) {
    lim.window <= 0 || h.None? || now - lim.window >= h.value
  }

  /** Every cap reads the same in both books at every clock from which it clears the horizon. */
  ghost predicate SameConsumption(c: Book, p: Book, h: Option<int>) {
    forall lim, now | Clears(lim, now, h) :: Consumption(c, lim, now) == Consumption(p, lim, now)
  }

  /** The compacting book `c` is the plain book `p` without some closed reservations, folded before `h`. */
  ghost predicate Sim(c: Book, p: Book, h: Option<int>) {
    && c.Coherent() && p.Coherent()
    && c.order == Filter(p.order, id => id in c.reserved)
    && (forall id | id in c.reserved :: ViewOf(c, id) == ViewOf(p, id))
    && (forall id | id in p.reserved && id !in c.reserved :: id in p.terminal)
    && (forall id | id in c.reserved :: id in p.reserved)
    && SameConsumption(c, p, h)
  }

  lemma SimLive(c: Book, p: Book, h: Option<int>, id: string)
    requires Sim(c, p, h)
    ensures c.Live(id) <==> p.Live(id)
    ensures p.Live(id) ==> c.reserved[id] == p.reserved[id]
  {
    if id in c.reserved { assert ViewOf(c, id) == ViewOf(p, id); }
  }

  /** The later of a horizon and one more. */
  function Later(h: Option<int>, before: int): Option<int> {
    if h.Some? && h.value >= before then h else Some(before)
  }

  // ---------------------------------------------------------------- equal plans

  /** Every cap that matches the scope clears the horizon. */
  ghost predicate AllClear(limits: seq<Limit>, scope: Scope, now: int, h: Option<int>) {
    forall lim | lim in limits && lim.Matches(scope) :: Clears(lim, now, h)
  }

  lemma {:induction false} SameItems(c: Book, p: Book, limits: seq<Limit>, n: nat, scope: Scope, declared: nat,
                                     now: int, h: Option<int>)
    requires n <= |limits| && AllClear(limits, scope, now, h) && SameConsumption(c, p, h)
    ensures Items(c, limits, n, scope, declared, now) == Items(p, limits, n, scope, declared, now)
  {
    if n > 0 {
      SameItems(c, p, limits, n - 1, scope, declared, now, h);
      assert limits[n - 1] in limits;
    }
  }

  /** Only live reservations are swept, and both books hold the same ones in the same order. */
  lemma {:induction false} SameSweeps(cfg: Config, c: Book, p: Book, ids: seq<string>, s: Sweep, h: Option<int>)
    requires Sim(c, p, h) && forall id | id in ids :: id in p.reserved
    requires forall id | id in Filter(ids, id => id in c.reserved) :: id in c.reserved
    ensures Sweeps(cfg, c, Filter(ids, id => id in c.reserved), s) == Sweeps(cfg, p, ids, s)
  {
    hide SameConsumption, ViewOf;
    if ids != [] {
      var init, id := ids[..|ids| - 1], ids[|ids| - 1];
      FilterMembers(init, x => x in c.reserved);
      SameSweeps(cfg, c, p, init, s, h);
      SimLive(c, p, h, id);
      if id in c.reserved { SnocInit(Filter(init, x => x in c.reserved), id); }
    }
  }

  /** A reserve of an id that the plain ledger has closed and the compacting one has folded away. */
  ghost predicate FoldedReuse(c: Book, p: Book, op: Op) {
    op.DoReserve? && p.Closed(op.req.id) && op.req.id !in c.reserved
  }

  /** Such a reserve, while there is room under every matching cap. */
  ghost predicate AdmittedReuse(cfg: Config, c: Book, p: Book, op: Op) {
    Early(cfg, op).None? && FoldedReuse(c, p, op) && Room(cfg, p, op.req, op.now)
  }

  /** The call gets to check caps: a reserve, enabled, of an id that is not live. */
  predicate ChecksCaps(cfg: Config, b: Book, op: Op) {
    op.DoReserve? && Early(cfg, op).None? && !b.Live(op.req.id)
  }

  /** Every cap the call checks clears the horizon. */
  ghost predicate Timely(cfg: Config, b: Book, op: Op, h: Option<int>) {
    ChecksCaps(cfg, b, op) ==> AllClear(cfg.limits, op.req.scope, op.now, h)
  }

  /** Reserves: equal items, and an equal generation whenever the launch is admitted. */
  lemma SameReserve(cfg: Config, c: Book, p: Book, req: Request, now: int, at: Stamps, h: Option<int>)
    requires Sim(c, p, h) && (!c.Live(req.id) ==> AllClear(cfg.limits, req.scope, now, h))
    requires !(p.Closed(req.id) && req.id !in c.reserved && Room(cfg, p, req, now))
    ensures PlanReserve(cfg, c, req, now, at) == PlanReserve(cfg, p, req, now, at)
  {
    hide Consumption, Items, SameConsumption, Room;
    SimLive(c, p, h, req.id);
    if !p.Live(req.id) {
      SameItems(c, p, cfg.limits, |cfg.limits|, req.scope,
                DeclaredFor(cfg.declared, req.scope.phase, cfg.defaultDeclared), now, h);
      AdmissionExact(cfg, p, req, now, at);
      if req.id in c.reserved { assert ViewOf(c, req.id) == ViewOf(p, req.id); }
    }
  }

  lemma SamePlan(cfg: Config, c: Book, p: Book, op: Op, h: Option<int>)
    requires Sim(c, p, h) && Timely(cfg, c, op, h) && Early(cfg, op).None? && !AdmittedReuse(cfg, c, p, op)
    ensures PlanOf(cfg, c, op) == PlanOf(cfg, p, op)
  {
    match op
    case DoReserve(req, now, at) => SameReserve(cfg, c, p, req, now, at, h);
    case DoReconcile(id, _, _, _, _) => SimLive(c, p, h, id);
    case DoRelease(id, _, _, _) => SimLive(c, p, h, id);
    case DoRecover(sweep) =>
      FilterMembers(p.order, id => id in c.reserved);
      SameSweeps(cfg, c, p, p.order, sweep, h);
    case _ =>
  }

  // ---------------------------------------------------------------- rows preserve the simulation

  lemma ReserveOrder(c: Book, p: Book, r: Reservation)
    requires c.Coherent() && p.Coherent() && c.order == Filter(p.order, id => id in c.reserved)
    requires r.id in c.reserved <==> r.id in p.reserved
    ensures AddReservation(c, r).order == Filter(AddReservation(p, r).order, id => id in AddReservation(c, r).reserved)
  {
    var keep := id => id in AddReservation(c, r).reserved;
    FilterCongruence(p.order, keep, id => id in c.reserved);
    if r.id !in p.reserved { FilterSnoc(p.order, r.id, keep); }
  }

  lemma ReserveViews(c: Book, p: Book, h: Option<int>, r: Reservation, id: string)
    requires Sim(c, p, h) && (r.id in c.reserved <==> r.id in p.reserved)
    ensures id in AddReservation(c, r).reserved ==> ViewOf(AddReservation(c, r), id) == ViewOf(AddReservation(p, r), id)
    ensures id in AddReservation(p, r).reserved && id !in AddReservation(c, r).reserved ==>
              id in AddReservation(p, r).terminal
  {
    hide AddReservation, SameConsumption;
    AddedView(c, r, id);
    AddedView(p, r, id);
    if id in c.reserved { assert ViewOf(c, id) == ViewOf(p, id); }
  }

  lemma SimReserve(c: Book, p: Book, h: Option<int>, r: Reservation)
    requires Sim(c, p, h) && (r.id in c.reserved <==> r.id in p.reserved)
    ensures Sim(AddReservation(c, r), AddReservation(p, r), h)
  {
    hide AddReservation, SameConsumption;
    ReservedCoherent(c, r);
    ReservedCoherent(p, r);
    ReserveOrder(c, p, r);
    ReserveIds(c, p, h, r);
    SameIncrements(c, p, r, h);
  }

  lemma ReservedCoherent(b: Book, r: Reservation)
    requires b.Coherent()
    ensures AddReservation(b, r).Coherent()
  {
    ApplyCoherent(b, Reserve(r));
  }

  /** The ids of the two ledgers keep in step with one more reservation. */
  lemma ReserveIds(c: Book, p: Book, h: Option<int>, r: Reservation)
    requires Sim(c, p, h) && (r.id in c.reserved <==> r.id in p.reserved)
    ensures var c', p' := AddReservation(c, r), AddReservation(p, r);
            && (forall id | id in c'.reserved :: ViewOf(c', id) == ViewOf(p', id))
            && (forall id | id in p'.reserved && id !in c'.reserved :: id in p'.terminal)
            && (forall id | id in c'.reserved :: id in p'.reserved)
  {
    hide AddReservation, SameConsumption;
    var c', p' := AddReservation(c, r), AddReservation(p, r);
    forall id
      ensures id in c'.reserved ==> ViewOf(c', id) == ViewOf(p', id)
      ensures id in p'.reserved && id !in c'.reserved ==> id in p'.terminal
    {
      ReserveViews(c, p, h, r, id);
    }
    forall id | id in c'.reserved ensures id in p'.reserved { assert ViewOf(c', id) == ViewOf(p', id); }
  }

  lemma SameIncrements(c: Book, p: Book, r: Reservation, h: Option<int>)
    requires c.Coherent() && p.Coherent() && ViewOf(c, r.id) == ViewOf(p, r.id)
    requires SameConsumption(c, p, h)
    ensures SameConsumption(AddReservation(c, r), AddReservation(p, r), h)
  {
    forall lim, now | Clears(lim, now, h)
      ensures Consumption(AddReservation(c, r), lim, now) == Consumption(AddReservation(p, r), lim, now)
    {
      ConsumptionAfterReserve(c, r, lim, now);
      ConsumptionAfterReserve(p, r, lim, now);
      ShareOfView(c, p, r.id, lim, now);
    }
  }

  lemma SameSettlement(c: Book, p: Book, terminal: Terminal, lim: Limit, now: int)
    requires c.Coherent() && p.Coherent() && c.Live(terminal.id) && p.Live(terminal.id)
    requires ViewOf(c, terminal.id) == ViewOf(p, terminal.id)
    requires Consumption(c, lim, now) == Consumption(p, lim, now)
    ensures Consumption(AddTerminal(c, terminal), lim, now) == Consumption(AddTerminal(p, terminal), lim, now)
  {
    ConsumptionAfterClose(c, terminal, lim, now);
    ConsumptionAfterClose(p, terminal, lim, now);
    ShareOfView(c, p, terminal.id, lim, now);
    ShareOfView(AddTerminal(c, terminal), AddTerminal(p, terminal), terminal.id, lim, now);
  }

  lemma SameSettlements(c: Book, p: Book, terminal: Terminal, h: Option<int>)
    requires c.Coherent() && p.Coherent() && c.Live(terminal.id) && p.Live(terminal.id)
    requires ViewOf(c, terminal.id) == ViewOf(p, terminal.id)
    requires SameConsumption(c, p, h)
    ensures SameConsumption(AddTerminal(c, terminal), AddTerminal(p, terminal), h)
  {
    forall lim, now | Clears(lim, now, h)
      ensures Consumption(AddTerminal(c, terminal), lim, now) == Consumption(AddTerminal(p, terminal), lim, now)
    {
      SameSettlement(c, p, terminal, lim, now);
    }
  }

  lemma SimClose(c: Book, p: Book, h: Option<int>, terminal: Terminal)
    requires Sim(c, p, h)
    ensures Sim(Settled(c, terminal), Settled(p, terminal), h)
  {
    var id := terminal.id;
    SimLive(c, p, h, id);
    if p.Live(id) && Accepts(terminal, p.reserved[id]) {
      assert ViewOf(c, id) == ViewOf(p, id);
      SameSettlements(c, p, terminal, h);
      SettledViews(c, p, terminal);
    }
  }

  lemma SettledViews(c: Book, p: Book, terminal: Terminal)
    requires c.Coherent() && p.Coherent()
    requires forall id | id in c.reserved :: ViewOf(c, id) == ViewOf(p, id)
    ensures forall id | id in c.reserved :: ViewOf(Settled(c, terminal), id) == ViewOf(Settled(p, terminal), id)
  {
    forall id | id in c.reserved ensures ViewOf(Settled(c, terminal), id) == ViewOf(Settled(p, terminal), id) {
      SettledView(c, terminal, id);
      SettledView(p, terminal, id);
    }
  }

  lemma {:induction false} SimRows(c: Book, p: Book, h: Option<int>, rows: seq<Row>)
    requires Sim(c, p, h)
    requires forall k | 0 <= k < |rows| && rows[k].Reserve? ::
               k == 0 && (rows[k].reservation.id in c.reserved <==> rows[k].reservation.id in p.reserved)
    ensures Sim(ApplyAll(c, rows), ApplyAll(p, rows), h)
    decreases |rows|
  {
    if rows != [] {
      match rows[0] {
        case Reserve(r) => SimReserve(c, p, h, r);
        case Close(terminal) => SimClose(c, p, h, terminal);
        case Decided(_) =>
      }
      SimRows(Apply(c, rows[0]), Apply(p, rows[0]), h, rows[1..]);
    }
  }

  lemma FoldOrder(c: Book, order: seq<string>, before: int)
    requires c.Coherent() && c.order == Filter(order, id => id in c.reserved)
    ensures FoldedBook(c, before).order == Filter(order, id => id in FoldedBook(c, before).reserved)
  {
    var f, folded := FoldedBook(c, before), FoldSet(c, before);
    FilterTwice(order, c.reserved.Keys, folded);
    FilterCongruence(order, id => id in f.reserved, id => id in c.reserved.Keys && id !in folded);
    FilterCongruence(order, id => id in c.reserved, id => id in c.reserved.Keys);
  }

  lemma FoldedCoherent(b: Book, before: int)
    requires b.Coherent()
    ensures FoldedBook(b, before).Coherent()
  {
    FilterMembers(b.order, id => id !in FoldSet(b, before));
  }

  lemma SimFold(c: Book, p: Book, before: int, h: Option<int>)
    requires Sim(c, p, h) && forall e | e in c.cumulative :: e.charge >= 0
    ensures Sim(FoldedBook(c, before), p, Later(h, before))
  {
    var f := FoldedBook(c, before);
    FoldedCoherent(c, before);
    FoldOrder(c, p.order, before);
    forall id
      ensures id in f.reserved ==> id in p.reserved && ViewOf(f, id) == ViewOf(p, id)
      ensures id in p.reserved && id !in f.reserved ==> id in p.terminal
    {
      FoldedView(c, before, id);
      if id in c.reserved { assert ViewOf(c, id) == ViewOf(p, id); }
    }
    forall lim, at | Clears(lim, at, Later(h, before)) ensures Consumption(f, lim, at) == Consumption(p, lim, at) {
      FoldKeepsConsumption(c, before, lim, at);
    }
  }

  lemma {:induction false} FilterTwice(ids: seq<string>, keys: set<string>, folded: set<string>)
    ensures Filter(Filter(ids, id => id in keys), id => id !in folded) == Filter(ids, id => id in keys && id !in folded)
  {
    if ids != [] {
      FilterTwice(ids[..|ids| - 1], keys, folded);
      if ids[|ids| - 1] in keys {
        FilterSnoc(Filter(ids[..|ids| - 1], id => id in keys), ids[|ids| - 1], id => id !in folded);
      }
    }
  }

  // ---------------------------------------------------------------- steps and runs

  ghost predicate SimDisk(c: Disk, p: Disk, h: Option<int>) {
    Inv(c) && Inv(p) && Sim(Load(c).value.book, Load(p).value.book, h)
  }

  /** The newest horizon of any compaction: the one at `now` joins `h` when the disk changed. */
  function Folding(before: Disk, after: Disk, limits: seq<Limit>, now: int, h: Option<int>): Option<int> {
    if after == before then h else Later(h, FoldBefore(limits, now))
  }

  lemma SimCompact(c: Disk, p: Disk, limits: seq<Limit>, now: int, stamp: int, h: Option<int>)
    requires SimDisk(c, p, h)
    ensures CompactDisk(c, limits, now, stamp).Ok?
    ensures var c' := CompactDisk(c, limits, now, stamp).value; SimDisk(c', p, Folding(c, c', limits, now, h))
  {
    CompactionKeepsInv(c, limits, now, stamp);
    CompactionReloads(c, limits, now, stamp);
    LoadedParts(c);
    SimFold(Load(c).value.book, Load(p).value.book, FoldBefore(limits, now), h);
  }

  /** The clock a call would compact at. */
  function CompactionClock(op: Op): int {
    match op
    case DoReserve(_, now, _) => now
    case DoCompact(now, _) => now
    case _ => 0
  }

  lemma SimAfterRows(cfg: Config, c: Disk, p: Disk, op: Op, reply: Reply, h: Option<int>)
    requires SimDisk(c, p, h)
    ensures AfterRows(cfg, c, op, reply).Ok?
    ensures var c' := AfterRows(cfg, c, op, reply).value;
            SimDisk(c', p, Folding(c, c', cfg.limits, CompactionClock(op), h))
  {
    hide SimDisk;
    match op
    case DoReserve(_, now, at) => SimCompact(c, p, cfg.limits, now, at.foldedAt, h);
    case DoCompact(now, stamp) => SimCompact(c, p, cfg.limits, now, stamp, h);
    case _ =>
  }

  /** A plan reserves first, and only an id that both ledgers hold or neither does. */
  lemma ReservesAlike(cfg: Config, c: Book, p: Book, op: Op, h: Option<int>)
    requires Sim(c, p, h) && Early(cfg, op).None? && !AdmittedReuse(cfg, c, p, op)
    ensures var rows := PlanOf(cfg, p, op).rows;
            forall k | 0 <= k < |rows| && rows[k].Reserve? ::
              k == 0 && (rows[k].reservation.id in c.reserved <==> rows[k].reservation.id in p.reserved)
  {
    if op.DoRecover? { SweepsTerminals(cfg, p, p.order, op.sweep); }
    if op.DoReserve? && !p.Live(op.req.id) { AdmissionExact(cfg, p, op.req, op.now, op.at); }
  }

  lemma SimWritten(cfg: Config, c: Disk, p: Disk, op: Op, rows: seq<Row>, n: nat, h: Option<int>)
    requires cfg.Valid() && SimDisk(c, p, h) && Early(cfg, op).None? && Timely(cfg, Load(c).value.book, op, h)
    requires !AdmittedReuse(cfg, Load(c).value.book, Load(p).value.book, op)
    requires rows == PlanOf(cfg, Load(p).value.book, op).rows && n <= |rows|
    ensures PlanOf(cfg, Load(c).value.book, op) == PlanOf(cfg, Load(p).value.book, op)
    ensures SimDisk(AppendAll(c, rows[..n]), AppendAll(p, rows[..n]), h)
  {
    var bc, bp := Load(c).value.book, Load(p).value.book;
    SamePlan(cfg, bc, bp, op, h);
    PlanFits(cfg, bc, op);
    PlanFits(cfg, bp, op);
    AllFitPrefix(bc, rows, n);
    AllFitPrefix(bp, rows, n);
    WrittenRowsReplay(c, rows[..n]);
    WrittenRowsReplay(p, rows[..n]);
    ReservesAlike(cfg, bc, bp, op, h);
    SimRows(bc, bp, h, rows[..n]);
  }

  /** The disk a call has written its rows to, before it may compact. */
  function Written(cfg: Config, d: Disk, op: Op): Disk {
    if op.DoNoise? then d.(lines := d.lines + [op.line])
    else if Early(cfg, op).Some? || Load(d).Raise? then d
    else AppendAll(d, PlanOf(cfg, Load(d).value.book, op).rows)
  }

  /** The newest horizon of any compaction of the ledger `d`, once `op` is done. */
  function NewestFold(cfg: Config, d: Disk, op: Op, h: Option<int>): Option<int> {
    Folding(Written(cfg, d, op), Step(cfg, d, op, true).0, cfg.limits, CompactionClock(op), h)
  }

  /**
   One call: equal answers, and the two ledgers stay in step, unless the call is admitted under an
   id that was folded away. The caps a reserve checks must clear the newest horizon; the clocks of
   every other call are free.
   */
  lemma SimStep(cfg: Config, c: Disk, p: Disk, op: Op, h: Option<int>)
    requires cfg.Valid() && SimDisk(c, p, h) && LegalOp(op) && Timely(cfg, Load(c).value.book, op, h)
    requires !AdmittedReuse(cfg, Load(c).value.book, Load(p).value.book, op)
    ensures Step(cfg, c, op, true).1 == Step(cfg, p, op, false).1
    ensures SimDisk(Step(cfg, c, op, true).0, Step(cfg, p, op, false).0, NewestFold(cfg, c, op, h))
  {
    if Early(cfg, op).None? {
      if op.DoNoise? {
        NoiseLoads(c, op.line);
        NoiseLoads(p, op.line);
      } else {
        SimCall(cfg, c, p, op, h);
      }
    }
  }

  lemma SimCall(cfg: Config, c: Disk, p: Disk, op: Op, h: Option<int>)
    requires cfg.Valid() && SimDisk(c, p, h) && Early(cfg, op).None? && !op.DoNoise?
    requires Timely(cfg, Load(c).value.book, op, h)
    requires !AdmittedReuse(cfg, Load(c).value.book, Load(p).value.book, op)
    ensures Step(cfg, c, op, true).1 == Step(cfg, p, op, false).1
    ensures SimDisk(Step(cfg, c, op, true).0, Step(cfg, p, op, false).0, NewestFold(cfg, c, op, h))
  {
    var plan := PlanOf(cfg, Load(p).value.book, op);
    assert plan.rows[..|plan.rows|] == plan.rows;
    SimWritten(cfg, c, p, op, plan.rows, |plan.rows|, h);
    SimAfterRows(cfg, AppendAll(c, plan.rows), AppendAll(p, plan.rows), op, plan.reply, h);
  }

  /** The call that shows: a folded id is admitted again at generation one instead of a later one. */
  lemma ReuseShows(cfg: Config, c: Disk, p: Disk, op: Op, h: Option<int>)
    requires cfg.Valid() && SimDisk(c, p, h) && Timely(cfg, Load(c).value.book, op, h)
    requires AdmittedReuse(cfg, Load(c).value.book, Load(p).value.book, op)
    ensures Step(cfg, c, op, true).1 != Step(cfg, p, op, false).1
  {
    var bc, bp, req := Load(c).value.book, Load(p).value.book, op.req;
    SimLive(bc, bp, h, req.id);
    SameItems(bc, bp, cfg.limits, |cfg.limits|, req.scope,
              DeclaredFor(cfg.declared, req.scope.phase, cfg.defaultDeclared), op.now, h);
    AdmissionExact(cfg, bp, req, op.now, op.at);
    assert bp.counts[req.id] > 0 by {
      LoadedParts(p);
      CountPositive(RowsOf(p), req.id);
    }
    assert req.id !in bc.counts;
    var plan := PlanOf(cfg, bc, op);
    PlanFits(cfg, bc, op);
    WrittenRowsReplay(c, plan.rows);
    AfterRowsKeepsInv(cfg, AppendAll(c, plan.rows), op, plan.reply);
  }

  // ---------------------------------------------------------------- runs of calls: exactly when folding shows

  /** Along a run every cap that a reserve checks clears the newest horizon of the compacting ledger. */
  ghost predicate TimelyRun(cfg: Config, c: Disk, ops: seq<Op>, h: Option<int>)
    decreases |ops|
  {
    ops == [] ||
    (&& LegalOp(ops[0]) && (Load(c).Ok? ==> Timely(cfg, Load(c).value.book, ops[0], h))
     && TimelyRun(cfg, Step(cfg, c, ops[0], true).0, ops[1..], NewestFold(cfg, c, ops[0], h)))
  }

  /** Along a run no reserve is admitted under an id that was folded away. */
  ghost predicate NoAdmittedReuse(cfg: Config, c: Disk, p: Disk, ops: seq<Op>)
    decreases |ops|
  {
    ops == [] ||
    (&& (Load(c).Ok? && Load(p).Ok? ==> !AdmittedReuse(cfg, Load(c).value.book, Load(p).value.book, ops[0]))
     && NoAdmittedReuse(cfg, Step(cfg, c, ops[0], true).0, Step(cfg, p, ops[0], false).0, ops[1..]))
  }

  lemma {:induction false} RunsAgree(cfg: Config, c: Disk, p: Disk, ops: seq<Op>, h: Option<int>)
    requires cfg.Valid() && SimDisk(c, p, h) && TimelyRun(cfg, c, ops, h)
    ensures Run(cfg, c, ops, true).1 == Run(cfg, p, ops, false).1 <==> NoAdmittedReuse(cfg, c, p, ops)
    decreases |ops|
  {
    if ops != [] {
      if AdmittedReuse(cfg, Load(c).value.book, Load(p).value.book, ops[0]) {
        ReuseShows(cfg, c, p, ops[0], h);
        assert Run(cfg, c, ops, true).1[0] != Run(cfg, p, ops, false).1[0];
      } else {
        var c', p' := Step(cfg, c, ops[0], true).0, Step(cfg, p, ops[0], false).0;
        SimStep(cfg, c, p, ops[0], h);
        RunsAgree(cfg, c', p', ops[1..], NewestFold(cfg, c, ops[0], h));
        SameTails(Step(cfg, c, ops[0], true).1, Run(cfg, c', ops[1..], true).1, Run(cfg, p', ops[1..], false).1);
      }
    }
  }

  lemma SameTails(first: Reply, a: seq<Reply>, b: seq<Reply>)
    ensures [first] + a == [first] + b <==> a == b
  {
    if [first] + a == [first] + b { assert a == ([first] + a)[1..] && b == ([first] + b)[1..]; }
  }

  /**
   From the empty ledger, over every run whose reserves only check caps that clear the newest folding
   horizon, with compactions at arbitrary points: every call is answered as if nothing were ever
   folded if and only if no reserve is admitted under an id that was folded away.
   */
  lemma CompactionInvisible(cfg: Config, ops: seq<Op>)
    requires cfg.Valid() && TimelyRun(cfg, EMPTY_DISK, ops, None)
    ensures Run(cfg, EMPTY_DISK, ops, true).1 == Run(cfg, EMPTY_DISK, ops, false).1
            <==> NoAdmittedReuse(cfg, EMPTY_DISK, EMPTY_DISK, ops)
  {
    EmptyInv();
    RunsAgree(cfg, EMPTY_DISK, EMPTY_DISK, ops, None);
  }

  // ---------------------------------------------------------------- histories with crashes

  /** What the caller of an act is told, when it is still there to hear it. */
  function Answer(cfg: Config, d: Disk, a: Act, compacts: bool): Option<Reply> {
    if a.Call? then Some(Step(cfg, d, a.op, compacts).1) else None
  }

  function Answers(cfg: Config, d: Disk, acts: seq<Act>, compacts: bool): seq<Option<Reply>>
    decreases |acts|
  {
    if acts == [] then []
    else [Answer(cfg, d, acts[0], compacts)] + Answers(cfg, ActOn(cfg, d, acts[0], compacts), acts[1..], compacts)
  }

  function NewestFoldOf(cfg: Config, d: Disk, a: Act, h: Option<int>): Option<int> {
    match a
    case Call(op) => NewestFold(cfg, d, op, h)
    case CrashedCall(_, _) => h
    case CrashedCompaction(now, _, _) => Folding(d, ActOn(cfg, d, a, true), cfg.limits, now, h)
  }

  ghost predicate OrderlyAct(cfg: Config, c: Disk, p: Disk, a: Act, h: Option<int>) {
    && LegalAct(a)
    && (!a.CrashedCompaction? && Load(c).Ok? && Load(p).Ok? ==>
          Timely(cfg, Load(c).value.book, a.op, h) && !AdmittedReuse(cfg, Load(c).value.book, Load(p).value.book, a.op))
  }

  /** Along a history no reserve is admitted under a folded id, or checks a cap that reaches past the newest horizon. */
  ghost predicate Orderly(cfg: Config, c: Disk, p: Disk, acts: seq<Act>, h: Option<int>)
    decreases |acts|
  {
    acts == [] ||
    (&& OrderlyAct(cfg, c, p, acts[0], h)
     && Orderly(cfg, ActOn(cfg, c, acts[0], true), ActOn(cfg, p, acts[0], false), acts[1..],
                NewestFoldOf(cfg, c, acts[0], h)))
  }

  lemma SimCrashedCall(cfg: Config, c: Disk, p: Disk, op: Op, written: nat, h: Option<int>)
    requires cfg.Valid() && SimDisk(c, p, h) && Timely(cfg, Load(c).value.book, op, h)
    requires !AdmittedReuse(cfg, Load(c).value.book, Load(p).value.book, op)
    ensures SimDisk(AppendAll(c, RowsWritten(cfg, c, op, written)), AppendAll(p, RowsWritten(cfg, p, op, written)),
                    h)
  {
    hide Sim, AdmittedReuse, PlanOf;
    if Early(cfg, op).Some? {
      assert AppendAll(c, []) == c && AppendAll(p, []) == p;
    } else {
      var rows := PlanOf(cfg, Load(p).value.book, op).rows;
      SimWritten(cfg, c, p, op, rows, CutAt(written, |rows|), h);
    }
  }

  lemma SimCrash(cfg: Config, c: Disk, p: Disk, a: Act, h: Option<int>)
    requires SimDisk(c, p, h) && a.CrashedCompaction?
    ensures var c' := ActOn(cfg, c, a, true);
            Load(c').Raise? || SimDisk(c', p, NewestFoldOf(cfg, c, a, h))
  {
    CrashOutcome(c, cfg.limits, a.now, a.stamp, a.point);
    SimCompact(c, p, cfg.limits, a.now, a.stamp, h);
  }

  /** One act: the compacting ledger fails closed, or the answers agree and the two stay in step. */
  lemma SimAct(cfg: Config, c: Disk, p: Disk, a: Act, h: Option<int>)
    requires cfg.Valid() && SimDisk(c, p, h) && OrderlyAct(cfg, c, p, a, h)
    ensures var c', p' := ActOn(cfg, c, a, true), ActOn(cfg, p, a, false);
            && Answer(cfg, c, a, true) == Answer(cfg, p, a, false)
            && (Load(c').Raise? || SimDisk(c', p', NewestFoldOf(cfg, c, a, h)))
  {
    match a
    case Call(op) => SimStep(cfg, c, p, op, h);
    case CrashedCall(op, written) => SimCrashedCall(cfg, c, p, op, written, h);
    case CrashedCompaction(_, _, _) => SimCrash(cfg, c, p, a, h);
  }

  function NewestFoldIn(cfg: Config, d: Disk, acts: seq<Act>, h: Option<int>): Option<int>
    decreases |acts|
  {
    if acts == [] then h
    else NewestFoldIn(cfg, ActOn(cfg, d, acts[0], true), acts[1..], NewestFoldOf(cfg, d, acts[0], h))
  }

  lemma {:induction false} SimHistory(cfg: Config, c: Disk, p: Disk, acts: seq<Act>, h: Option<int>)
    requires cfg.Valid() && SimDisk(c, p, h) && Orderly(cfg, c, p, acts, h)
    ensures var c', p' := History(cfg, c, acts, true), History(cfg, p, acts, false);
            Load(c').Raise?
            || (SimDisk(c', p', NewestFoldIn(cfg, c, acts, h))
                && Answers(cfg, c, acts, true) == Answers(cfg, p, acts, false))
    decreases |acts|
  {
    if acts != [] {
      var c', p' := ActOn(cfg, c, acts[0], true), ActOn(cfg, p, acts[0], false);
      SimAct(cfg, c, p, acts[0], h);
      if Load(c').Raise? {
        StaysTorn(cfg, c', acts[1..], p', NewestFoldOf(cfg, c, acts[0], h));
      } else {
        SimHistory(cfg, c', p', acts[1..], NewestFoldOf(cfg, c, acts[0], h));
      }
    }
  }

  lemma {:induction false} StaysTorn(cfg: Config, c: Disk, acts: seq<Act>, p: Disk, h: Option<int>)
    requires Load(c).Raise? && Orderly(cfg, c, p, acts, h)
    ensures Load(History(cfg, c, acts, true)).Raise?
    decreases |acts|
  {
    if acts != [] {
      TornStays(cfg, c, acts[0], true);
      StaysTorn(cfg, ActOn(cfg, c, acts[0], true), acts[1..], ActOn(cfg, p, acts[0], false),
                NewestFoldOf(cfg, c, acts[0], h));
    }
  }

  /**
   Crash safety along whole histories: wherever calls and compactions die, the ledger fails closed, or
   every completed call was answered as by a ledger that never compacts, the live reservations are
   the same, and every cap reads the same at every clock from which it clears the newest horizon.
   */
  lemma HistoryCrashSafety(cfg: Config, acts: seq<Act>)
    requires cfg.Valid() && Orderly(cfg, EMPTY_DISK, EMPTY_DISK, acts, None)
    ensures var c, p := History(cfg, EMPTY_DISK, acts, true), History(cfg, EMPTY_DISK, acts, false);
            Load(c).Raise? ||
            (&& Load(p).Ok? && Answers(cfg, EMPTY_DISK, acts, true) == Answers(cfg, EMPTY_DISK, acts, false)
             && (forall id :: Load(c).value.book.Live(id) <==> Load(p).value.book.Live(id))
             && SameConsumption(Load(c).value.book, Load(p).value.book, NewestFoldIn(cfg, EMPTY_DISK, acts, None)))
  {
    EmptyInv();
    SimHistory(cfg, EMPTY_DISK, EMPTY_DISK, acts, None);
    var c, p := History(cfg, EMPTY_DISK, acts, true), History(cfg, EMPTY_DISK, acts, false);
    if Load(c).Ok? {
      forall id ensures Load(c).value.book.Live(id) <==> Load(p).value.book.Live(id) {
        SimLive(Load(c).value.book, Load(p).value.book, NewestFoldIn(cfg, EMPTY_DISK, acts, None), id);
      }
    }
  }
}
