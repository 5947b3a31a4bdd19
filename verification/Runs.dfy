/**
 Whole runs of the ledger, with and without crashes: the rows a step writes replay to the state it
 holds, and every step keeps the invariant.
 */
module Runs {
  import opened Common
  import opened Ledger
  import opened Replaying
  import opened Compacting
  import opened Operations

  // ---------------------------------------------------------------- rows act on books

  function Apply(b: Book, row: Row): Book {
    match row
    case Reserve(r) => AddReservation(b, r)
    case Close(t) => Settled(b, t)
    case Decided(_) => b
  }

  function ApplyAll(b: Book, rows: seq<Row>): Book
    decreases |rows|
  {
    if rows == [] then b else ApplyAll(Apply(b, rows[0]), rows[1..])
  }

  /** A row the store may write next: the next generation of an id, or a terminal of the current one. */
  ghost predicate Fits(b: Book, row: Row) {
    match row
    case Reserve(r) => r.id != "" && r.generation == (if r.id in b.counts then b.counts[r.id] else 0) + 1
    case Close(t) => t.id in b.reserved && t.generation == Some(b.reserved[t.id].generation)
    case Decided(d) => d.decision in DECISIONS && d.warnings >= 0
  }

  ghost predicate AllFit(b: Book, rows: seq<Row>)
    decreases |rows|
  {
    rows == [] || (Fits(b, rows[0]) && AllFit(Apply(b, rows[0]), rows[1..]))
  }

  lemma ApplyCoherent(b: Book, row: Row)
    requires b.Coherent()
    ensures Apply(b, row).Coherent()
  {
    if row.Reserve? {
      var b' := AddReservation(b, row.reservation);
      forall id | id in b'.reserved ensures b'.reserved[id].id == id {
        AddedView(b, row.reservation, id);
      }
    }
  }

  ghost predicate DecisionsKnown(rows: seq<Row>) {
    forall row | row in rows :: row.Decided? ==> row.decision.decision in DECISIONS && row.decision.warnings >= 0
  }

  /** What every reachable disk satisfies. */
  ghost predicate Inv(d: Disk) {
    Load(d).Ok? && GenerationsBounded(RowsOf(d)) && DecisionsKnown(RowsOf(d))
  }

  lemma {:induction false} ReservedMember(rows: seq<Row>, id: string)
    ensures ReservedIn(rows, id).Some? ==> Reserve(ReservedIn(rows, id).value) in rows
  {
    if rows != [] {
      ReservedMember(rows[..|rows| - 1], id);
    }
  }

  lemma GenerationsSnoc(rows: seq<Row>, row: Row)
    requires GenerationsBounded(rows)
    requires row.Reserve? ==> row.reservation.generation <= ReservedCount(rows, row.reservation.id) + 1
    requires row.Close? && row.terminal.generation.Some? ==>
               row.terminal.generation.value <= ReservedCount(rows, row.terminal.id)
    ensures GenerationsBounded(rows + [row])
  {
    var after := rows + [row];
    forall k | 0 <= k < |after|
      ensures after[k].Reserve? ==> after[k].reservation.generation <= ReservedCount(after, after[k].reservation.id)
      ensures after[k].Close? && after[k].terminal.generation.Some? ==>
                after[k].terminal.generation.value <= ReservedCount(after, after[k].terminal.id)
    {
      if after[k].Reserve? { ReservedSnoc(rows, row, after[k].reservation.id); }
      if after[k].Close? { ReservedSnoc(rows, row, after[k].terminal.id); }
    }
  }

  lemma FittingRow(rows: seq<Row>, cumulative: seq<Entry>, row: Row)
    requires GenerationsBounded(rows) && Fits(BookOf(rows, cumulative), row)
    ensures BookOf(rows + [row], cumulative) == Apply(BookOf(rows, cumulative), row)
    ensures GenerationsBounded(rows + [row])
  {
    match row
    case Reserve(r) =>
      BookView(rows, cumulative, r.id);
      if r.id !in Order(rows) { NoCount(rows, r.id); }
      ReplayAfterReserve(rows, r, cumulative);
      GenerationsSnoc(rows, row);
    case Close(t) =>
      ReplayAfterClose(rows, t, cumulative);
      BookView(rows, cumulative, t.id);
      ReservedMember(rows, t.id);
      GenerationsSnoc(rows, row);
    case Decided(d) =>
      ReplayAfterDecision(rows, d, cumulative);
      GenerationsSnoc(rows, row);
  }

  lemma AppendAllCons(d: Disk, rows: seq<Row>)
    requires rows != []
    ensures AppendAll(d, rows) == AppendAll(Append(d, rows[0]), rows[1..])
  {
    assert Records(rows) == [Record(rows[0])] + Records(rows[1..]);
  }

  lemma WrittenRowReplays(d: Disk, row: Row)
    requires Inv(d) && Fits(Load(d).value.book, row)
    ensures Inv(Append(d, row))
    ensures Load(Append(d, row)).value.book == Apply(Load(d).value.book, row)
    ensures RowsOf(Append(d, row)) == RowsOf(d) + [row]
  {
    LoadAfterAppend(d, row);
    FittingRow(RowsOf(d), Load(d).value.book.cumulative, row);
  }

  /** The writer and the validator agree: replaying what a step wrote gives the book it meant. */
  lemma {:induction false} WrittenRowsReplay(d: Disk, rows: seq<Row>)
    requires Inv(d) && AllFit(Load(d).value.book, rows)
    ensures Inv(AppendAll(d, rows))
    ensures Load(AppendAll(d, rows)).value.book == ApplyAll(Load(d).value.book, rows)
    ensures RowsOf(AppendAll(d, rows)) == RowsOf(d) + rows
    decreases |rows|
  {
    if rows == [] {
      assert AppendAll(d, rows) == d;
    } else {
      var d1 := Append(d, rows[0]);
      WrittenRowReplays(d, rows[0]);
      AppendAllCons(d, rows);
      WrittenRowsReplay(d1, rows[1..]);
      SplitRows(RowsOf(d), rows);
    }
  }

  lemma SplitRows(xs: seq<Row>, rows: seq<Row>)
    requires rows != []
    ensures xs + [rows[0]] + rows[1..] == xs + rows
  {
  }

  // ---------------------------------------------------------------- plans only write fitting rows

  /** Terminals of distinct ids, each of its reservation's own generation. */
  ghost predicate Terminals(b: Book, rows: seq<Row>) {
    forall k | 0 <= k < |rows| ::
      rows[k].Close? && rows[k].terminal.id in b.reserved
      && rows[k].terminal.generation == Some(b.reserved[rows[k].terminal.id].generation)
  }

  lemma {:induction false} TerminalsFit(b: Book, rows: seq<Row>)
    requires Terminals(b, rows)
    ensures AllFit(b, rows)
    decreases |rows|
  {
    if rows != [] {
      TerminalsFit(Apply(b, rows[0]), rows[1..]);
    }
  }

  lemma {:induction false} SweepsTerminals(cfg: Config, b: Book, ids: seq<string>, s: Sweep)
    requires b.Coherent() && forall id | id in ids :: id in b.reserved
    ensures Terminals(b, Sweeps(cfg, b, ids, s))
  {
    if ids != [] {
      SweepsTerminals(cfg, b, ids[..|ids| - 1], s);
    }
  }

  lemma PlanFits(cfg: Config, b: Book, op: Op)
    requires cfg.Valid() && b.Coherent() && Early(cfg, op).None?
    ensures AllFit(b, PlanOf(cfg, b, op).rows)
  {
    var rows := PlanOf(cfg, b, op).rows;
    match op
    case DoReserve(req, now, at) =>
      if |rows| == 1 {
        assert AllFit(b, rows[1..]);
      } else if |rows| == 2 {
        var b' := Apply(b, rows[0]);
        assert rows[1..] == [rows[1]];
        assert Fits(b', rows[1]);
        assert rows[1..][1..] == [];
        assert AllFit(b', rows[1..]);
      }
    case DoRecover(sweep) =>
      SweepsTerminals(cfg, b, b.order, sweep);
      TerminalsFit(b, rows);
    case DoReconcile(_, _, _, _, _) => TerminalsFit(b, rows);
    case DoRelease(_, _, _, _) => TerminalsFit(b, rows);
    case _ =>
  }

  lemma {:induction false} NoiseLoads(d: Disk, line: Line)
    requires Inv(d) && (line.Malformed? || line.UnknownType?)
    ensures Inv(d.(lines := d.lines + [line]))
    ensures Load(d.(lines := d.lines + [line])).value.book == Load(d).value.book
    ensures RowsOf(d.(lines := d.lines + [line])) == RowsOf(d)
  {
    SnocInit(d.lines, line);
  }

  // ---------------------------------------------------------------- every step keeps the invariant

  ghost predicate LegalOp(op: Op) {
    op.DoNoise? ==> op.line.Malformed? || op.line.UnknownType?
  }

  lemma {:induction false} AgedWarningsNonnegative(rows: seq<Row>, before: int)
    requires DecisionsKnown(rows)
    ensures AgedDecisionsKnown(rows, before) && AgedWarnings(rows, before) >= 0
  {
    if rows != [] {
      var init, last := rows[..|rows| - 1], rows[|rows| - 1];
      assert last in rows && forall row | row in init :: row in rows;
      AgedWarningsNonnegative(init, before);
    }
  }

  lemma CompactionKeepsInv(d: Disk, limits: seq<Limit>, now: int, stamp: int)
    requires Inv(d)
    ensures CompactDisk(d, limits, now, stamp).Ok? && Inv(CompactDisk(d, limits, now, stamp).value)
  {
    var s, rows, before := Load(d).value, RowsOf(d), FoldBefore(limits, now);
    CompactionReloads(d, limits, now, stamp);
    if !NothingToFold(s, rows, before) {
      LoadedParts(d);
      AgedWarningsNonnegative(rows, before);
      var folded := FoldSet(s.book, before);
      KeptGenerations(rows, folded, before);
      FilterMembers(rows, (row: Row) => KeepRow(row, folded, before));
    }
  }

  lemma AfterRowsKeepsInv(cfg: Config, d: Disk, op: Op, reply: Reply)
    requires Inv(d)
    ensures AfterRows(cfg, d, op, reply).Ok? && Inv(AfterRows(cfg, d, op, reply).value)
  {
    match op
    case DoReserve(_, now, at) => CompactionKeepsInv(d, cfg.limits, now, at.foldedAt);
    case DoCompact(now, stamp) => CompactionKeepsInv(d, cfg.limits, now, stamp);
    case _ =>
  }

  /** No step corrupts the ledger: every disk a run reaches loads, with or without compaction. */
  lemma StepKeepsInv(cfg: Config, d: Disk, op: Op, compacts: bool)
    requires cfg.Valid() && Inv(d) && LegalOp(op)
    ensures Inv(Step(cfg, d, op, compacts).0)
    ensures Step(cfg, d, op, compacts).1 != Raised(LedgerCorruption)
  {
    if Early(cfg, op).None? {
      if op.DoNoise? {
        NoiseLoads(d, op.line);
      } else {
        var plan := PlanOf(cfg, Load(d).value.book, op);
        PlanFits(cfg, Load(d).value.book, op);
        WrittenRowsReplay(d, plan.rows);
        AfterRowsKeepsInv(cfg, AppendAll(d, plan.rows), op, plan.reply);
      }
    }
  }

  lemma EmptyInv()
    ensures Inv(EMPTY_DISK) && Load(EMPTY_DISK).value.book == BookOf([], [])
  {
  }

  // ---------------------------------------------------------------- crashes along a run

  /**
   What can happen to a ledger: a call that completes, a call that dies after some of its rows (and
   before any compaction), or a compaction that dies at one of its crash points.
   */
  datatype Act =
    | Call(op: Op)
    | CrashedCall(op: Op, written: nat)
    | CrashedCompaction(now: int, stamp: int, point: CrashPoint)

  ghost predicate LegalAct(a: Act) { a.Call? ==> LegalOp(a.op) }

  function CutAt(written: nat, n: nat): (k: nat)
    ensures k <= n && k <= written
  {
    if written < n then written else n
  }

  /** The rows that reached the journal before the call died. */
  function RowsWritten(cfg: Config, d: Disk, op: Op, written: nat): seq<Row> {
    if Early(cfg, op).Some? || Load(d).Raise? then []
    else
      var rows := PlanOf(cfg, Load(d).value.book, op).rows;
      rows[..CutAt(written, |rows|)]
  }

  /** How many rows a call writes when it completes. */
  function RowCount(cfg: Config, d: Disk, op: Op): nat {
    if Early(cfg, op).Some? || Load(d).Raise? then 0 else |PlanOf(cfg, Load(d).value.book, op).rows|
  }

  /** The rows an act appends to the journal. */
  function ActRows(cfg: Config, d: Disk, a: Act): seq<Row> {
    match a
    case Call(op) => RowsWritten(cfg, d, op, RowCount(cfg, d, op))
    case CrashedCall(op, written) => RowsWritten(cfg, d, op, written)
    case CrashedCompaction(_, _, _) => []
  }

  function ActOn(cfg: Config, d: Disk, a: Act, compacts: bool): Disk {
    match a
    case Call(op) => Step(cfg, d, op, compacts).0
    case CrashedCall(op, written) => AppendAll(d, RowsWritten(cfg, d, op, written))
    case CrashedCompaction(now, stamp, point) =>
      var c := CompactionOf(d, cfg.limits, now, stamp);
      if !compacts || !cfg.enabled || c.Raise? then d else CrashedDisk(d, c.value, point)
  }

  /** The ledger after some acts; with `compacts` off nothing is ever folded, by a call or by a crash. */
  function History(cfg: Config, d: Disk, acts: seq<Act>, compacts: bool): Disk
    decreases |acts|
  {
    if acts == [] then d else History(cfg, ActOn(cfg, d, acts[0], compacts), acts[1..], compacts)
  }

  lemma {:induction false} AllFitPrefix(b: Book, rows: seq<Row>, n: nat)
    requires AllFit(b, rows) && n <= |rows|
    ensures AllFit(b, rows[..n])
    decreases |rows|
  {
    if n > 0 {
      AllFitPrefix(Apply(b, rows[0]), rows[1..], n - 1);
      assert rows[..n][1..] == rows[1..][..n - 1];
    }
  }

  lemma WrittenFits(cfg: Config, d: Disk, op: Op, written: nat)
    requires cfg.Valid() && Inv(d)
    ensures AllFit(Load(d).value.book, RowsWritten(cfg, d, op, written))
  {
    if Early(cfg, op).None? {
      PlanFits(cfg, Load(d).value.book, op);
      var rows := PlanOf(cfg, Load(d).value.book, op).rows;
      AllFitPrefix(Load(d).value.book, rows, CutAt(written, |rows|));
    }
  }

  /** A compaction that dies leaves the old ledger, a ledger that does not load, or the compacted one. */
  lemma CrashOutcome(d: Disk, limits: seq<Limit>, now: int, stamp: int, point: CrashPoint)
    requires Inv(d)
    ensures var c := CompactionOf(d, limits, now, stamp);
            && c.Ok?
            && match point
               case BeforeCheckpoint => CrashedDisk(d, c.value, point) == d
               case BetweenWrites => c.value.Folded? ==> Load(CrashedDisk(d, c.value, point)) == Raise(LedgerCorruption)
               case AfterJournal => CrashedDisk(d, c.value, point) == CompactDisk(d, limits, now, stamp).value
  {
    var c := CompactionOf(d, limits, now, stamp);
    LoadedParts(d);
    AgedWarningsNonnegative(RowsOf(d), FoldBefore(limits, now));
    if point == BetweenWrites && c.value.Folded? { CrashBetweenWrites(d, limits, now, stamp); }
  }

  lemma CrashKeepsInv(d: Disk, limits: seq<Limit>, now: int, stamp: int, point: CrashPoint)
    requires Inv(d)
    ensures CompactionOf(d, limits, now, stamp).Ok?
    ensures var torn := CrashedDisk(d, CompactionOf(d, limits, now, stamp).value, point);
            Inv(torn) || (point == BetweenWrites && Load(torn) == Raise(LedgerCorruption))
  {
    CrashOutcome(d, limits, now, stamp, point);
    CompactionKeepsInv(d, limits, now, stamp);
  }

  /** A ledger that does not load stays so: every call raises, and stray lines do not mend it. */
  lemma TornStays(cfg: Config, d: Disk, a: Act, compacts: bool)
    requires Load(d).Raise? && LegalAct(a)
    ensures Load(ActOn(cfg, d, a, compacts)).Raise?
  {
    match a
    case Call(op) => if op.DoNoise? { SnocInit(d.lines, op.line); }
    case CrashedCall(op, written) => assert AppendAll(d, []) == d;
    case CrashedCompaction(_, _, _) =>
  }

  /** One act keeps the invariant, unless it is a compaction that dies between its two writes. */
  lemma ActKeepsInv(cfg: Config, d: Disk, a: Act, compacts: bool)
    requires cfg.Valid() && Inv(d) && LegalAct(a)
    ensures var d' := ActOn(cfg, d, a, compacts);
            Inv(d') || (Load(d') == Raise(LedgerCorruption) && a.CrashedCompaction? && a.point == BetweenWrites)
  {
    match a
    case Call(op) => StepKeepsInv(cfg, d, op, compacts);
    case CrashedCall(op, written) =>
      WrittenFits(cfg, d, op, written);
      WrittenRowsReplay(d, RowsWritten(cfg, d, op, written));
    case CrashedCompaction(now, stamp, point) => CrashKeepsInv(d, cfg.limits, now, stamp, point);
  }

  /**
   Over every history, crashes included, the ledger either satisfies the invariant or fails closed;
   and it fails closed only after a compaction died between its two writes.
   */
  lemma {:induction false} HistoryLoads(cfg: Config, d: Disk, acts: seq<Act>, compacts: bool)
    requires cfg.Valid() && (Inv(d) || Load(d).Raise?) && forall a | a in acts :: LegalAct(a)
    ensures Inv(History(cfg, d, acts, compacts)) || Load(History(cfg, d, acts, compacts)).Raise?
    ensures Load(d).Ok? && (forall a | a in acts :: a.CrashedCompaction? ==> a.point != BetweenWrites) ==>
              Inv(History(cfg, d, acts, compacts))
    decreases |acts|
  {
    if acts != [] {
      assert acts[0] in acts && forall a | a in acts[1..] :: a in acts;
      if Load(d).Raise? { TornStays(cfg, d, acts[0], compacts); } else { ActKeepsInv(cfg, d, acts[0], compacts); }
      HistoryLoads(cfg, ActOn(cfg, d, acts[0], compacts), acts[1..], compacts);
    }
  }
}
