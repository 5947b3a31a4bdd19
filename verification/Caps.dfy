/** No cap is oversubscribed, over every history of calls and crashes. */
module Caps {
  import opened Ledger
  import opened Replaying
  import opened Consuming
  import opened Compacting
  import opened Operations
  import opened Admission
  import opened Runs

  // ---------------------------------------------------------------- caps hold along runs

  /** The terminal, where it is accepted, charges at most what its reservation declared. */
  predicate ChargeWithin(b: Book, t: Terminal) {
    t.id in b.reserved && Accepts(t, b.reserved[t.id]) ==> ChargeIn(t) <= Number(b.reserved[t.id].declared)
  }

  ghost predicate ChargesWithin(b: Book, rows: seq<Row>) {
    forall k | 0 <= k < |rows| && rows[k].Close? :: ChargeWithin(b, rows[k].terminal)
  }

  lemma ReserveWithinCaps(b: Book, r: Reservation, lim: Limit, now: int)
    requires b.Coherent()
    requires Consumption(b, lim, now) + (if lim.Matches(r.scope) then Number(r.declared) else 0) <= lim.cap
    ensures Consumption(AddReservation(b, r), lim, now) <= lim.cap
  {
    ConsumptionAfterReserve(b, r, lim, now);
  }

  lemma CloseWithinCaps(b: Book, t: Terminal, lim: Limit, now: int)
    requires b.Coherent() && Consumption(b, lim, now) <= lim.cap
    requires ChargeWithin(b, t)
    ensures Consumption(Settled(b, t), lim, now) <= lim.cap
  {
    if b.Live(t.id) && Accepts(t, b.reserved[t.id]) { ConsumptionAfterClose(b, t, lim, now); }
  }

  lemma {:induction false} TerminalsWithinCaps(b: Book, rows: seq<Row>, lim: Limit, now: int)
    requires b.Coherent() && Terminals(b, rows) && ChargesWithin(b, rows)
    requires Consumption(b, lim, now) <= lim.cap
    ensures Consumption(ApplyAll(b, rows), lim, now) <= lim.cap
    decreases |rows|
  {
    if rows != [] {
      CloseWithinCaps(b, rows[0].terminal, lim, now);
      TerminalsWithinCaps(Apply(b, rows[0]), rows[1..], lim, now);
    }
  }

  lemma AdmittedBook(b: Book, rows: seq<Row>)
    requires |rows| == 2 && rows[0].Reserve? && rows[1].Decided?
    ensures ApplyAll(b, rows) == AddReservation(b, rows[0].reservation)
  {
    var rest := rows[1..];
    assert rest[0] == rows[1] && rest[1..] == [];
    assert ApplyAll(Apply(b, rows[0]), rest) == ApplyAll(Apply(Apply(b, rows[0]), rest[0]), rest[1..]);
  }

  /** An admission at `now` fits under the cap then, and so at every later clock `at`. */
  lemma AdmissionStaysWithin(cfg: Config, b: Book, req: Request, now: int, stamps: Stamps, lim: Limit, at: int)
    requires b.Coherent() && lim in cfg.limits && now <= at && Consumption(b, lim, at) <= lim.cap
    requires PlanReserve(cfg, b, req, now, stamps).reply.Admitted?
    ensures Consumption(AddReservation(b, NewReservation(cfg, b, req, stamps)), lim, at) <= lim.cap
  {
    AdmissionExact(cfg, b, req, now, stamps);
    ConsumptionShrinks(b, lim, now, at);
    ReserveWithinCaps(b, NewReservation(cfg, b, req, stamps), lim, at);
  }

  /** The book after the rows of a reserve, or after only the first of them. */
  lemma ReservedBook(cfg: Config, b: Book, req: Request, now: int, stamps: Stamps, n: nat)
    requires n <= |PlanReserve(cfg, b, req, now, stamps).rows|
    ensures var plan := PlanReserve(cfg, b, req, now, stamps);
            ApplyAll(b, plan.rows[..n]) ==
            if n > 0 && plan.reply.Admitted? then AddReservation(b, NewReservation(cfg, b, req, stamps)) else b
  {
    var plan := PlanReserve(cfg, b, req, now, stamps);
    var rows := plan.rows[..n];
    if n == 1 {
      assert rows[1..] == [];
    } else if n == 2 {
      assert rows == plan.rows;
      AdmittedBook(b, rows);
    }
  }

  /** The rows reserve a launch: the call was admitted, and at least its first row reached the journal. */
  predicate Admits(rows: seq<Row>) { rows != [] && rows[0].Reserve? }

  /** The first `n` rows of a plan keep a cap, at any clock no earlier than the one the plan was made at. */
  lemma RowsWithinCap(cfg: Config, b: Book, op: Op, n: nat, lim: Limit, at: int)
    requires b.Coherent() && Early(cfg, op).None? && lim in cfg.limits && n <= |PlanOf(cfg, b, op).rows|
    requires Consumption(b, lim, at) <= lim.cap && ChargesWithin(b, PlanOf(cfg, b, op).rows[..n])
    requires op.DoReserve? && Admits(PlanOf(cfg, b, op).rows[..n]) ==> op.now <= at
    ensures Consumption(ApplyAll(b, PlanOf(cfg, b, op).rows[..n]), lim, at) <= lim.cap
  {
    var rows := PlanOf(cfg, b, op).rows;
    if op.DoReserve? {
      ReservedBook(cfg, b, op.req, op.now, op.at, n);
      if n > 0 && PlanReserve(cfg, b, op.req, op.now, op.at).reply.Admitted? {
        AdmissionStaysWithin(cfg, b, op.req, op.now, op.at, lim, at);
      }
    } else {
      if op.DoRecover? { SweepsTerminals(cfg, b, b.order, op.sweep); }
      TerminalsWithinCaps(b, rows[..n], lim, at);
    }
  }

  lemma AfterRowsNeverAdds(cfg: Config, d: Disk, op: Op, reply: Reply, lim: Limit, at: int)
    requires Inv(d)
    ensures AfterRows(cfg, d, op, reply).Ok? && Inv(AfterRows(cfg, d, op, reply).value)
    ensures Consumption(Load(AfterRows(cfg, d, op, reply).value).value.book, lim, at)
            <= Consumption(Load(d).value.book, lim, at)
  {
    AfterRowsKeepsInv(cfg, d, op, reply);
    match op
    case DoReserve(_, t, stamps) =>
      CompactionKeepsInv(d, cfg.limits, t, stamps.foldedAt);
      CompactionNeverAdds(d, cfg.limits, t, stamps.foldedAt, lim, at);
    case DoCompact(t, stamp) =>
      CompactionKeepsInv(d, cfg.limits, t, stamp);
      CompactionNeverAdds(d, cfg.limits, t, stamp, lim, at);
    case _ =>
  }

  /**
   No terminal of the act is accepted with more than was declared, and no launch is admitted at a clock
   after `at`.
   */
  ghost predicate HonestAct(cfg: Config, d: Disk, a: Act, at: int) {
    Load(d).Ok? ==>
      && ChargesWithin(Load(d).value.book, ActRows(cfg, d, a))
      && (!a.CrashedCompaction? && a.op.DoReserve? && Admits(ActRows(cfg, d, a)) ==> a.op.now <= at)
  }

  /** The rows an act appends keep the cap, before any compaction. */
  lemma AppendedWithinCap(cfg: Config, d: Disk, a: Act, lim: Limit, at: int)
    requires cfg.Valid() && Inv(d) && lim in cfg.limits && !a.CrashedCompaction?
    requires Consumption(Load(d).value.book, lim, at) <= lim.cap && HonestAct(cfg, d, a, at)
    ensures var d' := AppendAll(d, ActRows(cfg, d, a));
            Inv(d') && Consumption(Load(d').value.book, lim, at) <= lim.cap
  {
    hide Consumption, PlanOf, ChargesWithin;
    var n := if a.Call? then RowCount(cfg, d, a.op) else a.written;
    WrittenFits(cfg, d, a.op, n);
    WrittenRowsReplay(d, ActRows(cfg, d, a));
    if Early(cfg, a.op).None? {
      var rows := PlanOf(cfg, Load(d).value.book, a.op).rows;
      RowsWithinCap(cfg, Load(d).value.book, a.op, CutAt(n, |rows|), lim, at);
    }
  }

  lemma StepWithinCap(cfg: Config, d: Disk, op: Op, lim: Limit, at: int, compacts: bool)
    requires cfg.Valid() && Inv(d) && LegalOp(op) && lim in cfg.limits
    requires Consumption(Load(d).value.book, lim, at) <= lim.cap && HonestAct(cfg, d, Call(op), at)
    ensures Inv(Step(cfg, d, op, compacts).0)
    ensures Consumption(Load(Step(cfg, d, op, compacts).0).value.book, lim, at) <= lim.cap
  {
    hide Consumption, HonestAct, PlanOf, AfterRows;
    if Early(cfg, op).None? {
      if op.DoNoise? {
        NoiseLoads(d, op.line);
      } else {
        var plan := PlanOf(cfg, Load(d).value.book, op);
        AppendedWithinCap(cfg, d, Call(op), lim, at);
        assert ActRows(cfg, d, Call(op)) == plan.rows;
        AfterRowsNeverAdds(cfg, AppendAll(d, plan.rows), op, plan.reply, lim, at);
      }
    }
  }

  lemma CrashWithinCap(cfg: Config, d: Disk, now: int, stamp: int, point: CrashPoint, lim: Limit, at: int)
    requires Inv(d) && Consumption(Load(d).value.book, lim, at) <= lim.cap
    ensures CompactionOf(d, cfg.limits, now, stamp).Ok?
    ensures var torn := CrashedDisk(d, CompactionOf(d, cfg.limits, now, stamp).value, point);
            Load(torn).Raise? || (Inv(torn) && Consumption(Load(torn).value.book, lim, at) <= lim.cap)
  {
    CrashKeepsInv(d, cfg.limits, now, stamp, point);
    CrashOutcome(d, cfg.limits, now, stamp, point);
    CompactionKeepsInv(d, cfg.limits, now, stamp);
    CompactionNeverAdds(d, cfg.limits, now, stamp, lim, at);
  }

  lemma ActWithinCap(cfg: Config, d: Disk, a: Act, lim: Limit, at: int, compacts: bool)
    requires cfg.Valid() && Inv(d) && LegalAct(a) && lim in cfg.limits && HonestAct(cfg, d, a, at)
    requires Consumption(Load(d).value.book, lim, at) <= lim.cap
    ensures var d' := ActOn(cfg, d, a, compacts);
            Load(d').Raise? || (Inv(d') && Consumption(Load(d').value.book, lim, at) <= lim.cap)
  {
    match a
    case Call(op) => StepWithinCap(cfg, d, op, lim, at, compacts);
    case CrashedCall(_, _) => AppendedWithinCap(cfg, d, a, lim, at);
    case CrashedCompaction(now, stamp, point) => CrashWithinCap(cfg, d, now, stamp, point, lim, at);
  }

  /**
   Along a history every act is legal, no accepted terminal charges more than was declared, and every
   admission that reached the journal was checked no later than `at`.
   */
  ghost predicate HonestHistory(cfg: Config, d: Disk, acts: seq<Act>, at: int, compacts: bool)
    decreases |acts|
  {
    acts == [] ||
    (LegalAct(acts[0]) && HonestAct(cfg, d, acts[0], at)
     && HonestHistory(cfg, ActOn(cfg, d, acts[0], compacts), acts[1..], at, compacts))
  }

  lemma {:induction false} HistoryWithinCap(cfg: Config, d: Disk, acts: seq<Act>, lim: Limit, at: int, compacts: bool)
    requires cfg.Valid() && lim in cfg.limits && HonestHistory(cfg, d, acts, at, compacts)
    requires Load(d).Raise? || (Inv(d) && Consumption(Load(d).value.book, lim, at) <= lim.cap)
    ensures var d' := History(cfg, d, acts, compacts);
            Load(d').Raise? || Consumption(Load(d').value.book, lim, at) <= lim.cap
    decreases |acts|
  {
    if acts != [] {
      if Load(d).Raise? {
        TornStays(cfg, d, acts[0], compacts);
      } else {
        ActWithinCap(cfg, d, acts[0], lim, at, compacts);
      }
      HistoryWithinCap(cfg, ActOn(cfg, d, acts[0], compacts), acts[1..], lim, at, compacts);
    }
  }

  /**
   No oversubscription: whatever the interleaving of calls from however many stores, in whatever
   order their clocks were read, whether or not the ledger compacts, and wherever calls and
   compactions die, the ledger either fails closed or shows every configured cap as kept at every clock
   no earlier than the newest admission, as long as no accepted charge exceeds its declared allowance.
   */
  lemma NoOversubscription(cfg: Config, acts: seq<Act>, lim: Limit, at: int, compacts: bool)
    requires cfg.Valid() && lim in cfg.limits && HonestHistory(cfg, EMPTY_DISK, acts, at, compacts)
    ensures var d := History(cfg, EMPTY_DISK, acts, compacts);
            Load(d).Raise? || Consumption(Load(d).value.book, lim, at) <= lim.cap
  {
    EmptyInv();
    HistoryWithinCap(cfg, EMPTY_DISK, acts, lim, at, compacts);
  }

  /** Right after an admission every matching cap holds, whatever was charged before. */
  lemma AdmitWithinCap(cfg: Config, d: Disk, op: Op, lim: Limit, compacts: bool)
    requires cfg.Valid() && Inv(d) && op.DoReserve? && Step(cfg, d, op, compacts).1.Admitted?
    requires lim in cfg.limits && lim.Matches(op.req.scope)
    ensures Inv(Step(cfg, d, op, compacts).0)
    ensures Consumption(Load(Step(cfg, d, op, compacts).0).value.book, lim, op.now) <= lim.cap
  {
    hide Consumption, CompactDisk, GenerationsBounded, DecisionsKnown;
    var b := Load(d).value.book;
    var plan := PlanOf(cfg, b, op);
    PlanFits(cfg, b, op);
    WrittenRowsReplay(d, plan.rows);
    AfterRowsNeverAdds(cfg, AppendAll(d, plan.rows), op, plan.reply, lim, op.now);
    AdmissionExact(cfg, b, op.req, op.now, op.at);
    AdmittedBook(b, plan.rows);
    ReserveWithinCaps(b, plan.rows[0].reservation, lim, op.now);
  }
}
