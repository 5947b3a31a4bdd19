/** What a projection reports, and that compaction does not change what an audit counts. */
module Auditing {
  import opened Common
  import opened Ledger
  import opened Replaying
  import opened Compacting
  import opened Runs

  // ---------------------------------------------------------------- committed = consumed + reserved

  function ReservedShare(b: Book, id: string, lim: Limit): nat
    requires id in b.reserved
  {
    if lim.Matches(b.reserved[id].scope) && id !in b.terminal then Number(b.reserved[id].declared) else 0
  }

  function ReservedTotal(b: Book, ids: seq<string>, lim: Limit): nat
    requires forall id | id in ids :: id in b.reserved
  {
    if ids == [] then 0
    else ReservedTotal(b, ids[..|ids| - 1], lim) + ReservedShare(b, ids[|ids| - 1], lim)
  }

  function ConsumedShare(b: Book, id: string, lim: Limit, now: int): nat
    requires id in b.reserved
  {
    if !lim.Matches(b.reserved[id].scope) || id !in b.terminal then 0
    else
      var t := b.terminal[id];
      if t.kind == Reconciled && WithinWindow(t.at, now, lim.window) then ChargeIn(t) else 0
  }

  function ConsumedTotal(b: Book, ids: seq<string>, lim: Limit, now: int): nat
    requires forall id | id in ids :: id in b.reserved
  {
    if ids == [] then 0
    else ConsumedTotal(b, ids[..|ids| - 1], lim, now) + ConsumedShare(b, ids[|ids| - 1], lim, now)
  }

  lemma {:induction false} SharesSplit(b: Book, ids: seq<string>, lim: Limit, now: int)
    requires forall id | id in ids :: id in b.reserved
    ensures ConsumedTotal(b, ids, lim, now) + ReservedTotal(b, ids, lim) == Shares(b, ids, lim, now)
  {
    if ids != [] {
      SharesSplit(b, ids[..|ids| - 1], lim, now);
    }
  }

  // ---------------------------------------------------------------- reservation counts

  datatype Counts = Counts(live: int, closed: Tally)

  function CountReservations(b: Book, ids: seq<string>, base: Counts): Counts {
    if ids == [] then base
    else
      var prior := CountReservations(b, ids[..|ids| - 1], base);
      var id := ids[|ids| - 1];
      if id !in b.terminal then prior.(live := prior.live + 1)
      else prior.(closed := Count(prior.closed, b.terminal[id]))
  }

  function Plus(a: Tally, b: Tally): Tally {
    Tally(a.reconciled + b.reconciled, a.released + b.released, a.failSafe + b.failSafe)
  }

  /** The reported counts: live, and closed ones both in the journal and folded. */
  function ReservationCounts(s: LedgerState): Counts {
    var c := CountReservations(s.book, s.book.order, Counts(0, Tally(0, 0, 0)));
    c.(closed := Plus(c.closed, s.foldedTally))
  }

  lemma FoldedTerminal(b: Book, before: int, id: string)
    requires b.Coherent() && id in b.order
    ensures id in FoldSet(b, before) <==> Foldable(b, id, before)
    ensures var f := FoldedBook(b, before);
            id !in FoldSet(b, before) ==>
              (id in f.terminal <==> id in b.terminal) && (id in b.terminal ==> f.terminal[id] == b.terminal[id])
  {
  }

  lemma {:induction false} FoldMovesCounts(b: Book, f: Book, ids: seq<string>, before: int, base: Tally)
    requires b.Coherent() && f == FoldedBook(b, before) && forall id | id in ids :: id in b.order
    ensures var kept := Filter(ids, id => id !in FoldSet(b, before));
            var none := Counts(0, Tally(0, 0, 0));
            var c, c' := CountReservations(b, ids, none), CountReservations(f, kept, none);
            c.live == c'.live && Plus(c.closed, base) == Plus(c'.closed, FoldTally(b, ids, before, base))
  {
    hide FoldedBook;
    if ids != [] {
      var init, id := ids[..|ids| - 1], ids[|ids| - 1];
      FoldMovesCounts(b, f, init, before, base);
      FoldedTerminal(b, before, id);
      if id !in FoldSet(b, before) {
        SnocInit(Filter(init, x => x !in FoldSet(b, before)), id);
      }
    }
  }

  // ---------------------------------------------------------------- decision counts

  function CountDecisions(rows: seq<Row>, verdict: string): nat {
    if rows == [] then 0
    else
      var last := rows[|rows| - 1];
      CountDecisions(rows[..|rows| - 1], verdict)
      + (if last.Decided? && last.decision.decision == verdict then 1 else 0)
  }

  function CountWarnings(rows: seq<Row>): int {
    if rows == [] then 0
    else
      var last := rows[|rows| - 1];
      CountWarnings(rows[..|rows| - 1]) + (if last.Decided? then last.decision.warnings else 0)
  }

  /** How a decision row enters the folded counters. */
  lemma FoldDecisionAt(m: map<string, int>, d: DecisionRow, verdict: string)
    requires d.decision in DECISIONS && verdict in DECISIONS
    ensures Get(FoldDecision(m, d), verdict) == Get(m, verdict) + (if d.decision == verdict then 1 else 0)
    ensures Get(FoldDecision(m, d), WARNINGS) == Get(m, WARNINGS) + d.warnings
  {
  }

  lemma {:induction false} FoldMovesDecisions(rows: seq<Row>, folded: set<string>, before: int,
                                              base: map<string, int>, verdict: string)
    requires DecisionsKnown(rows) && verdict in DECISIONS
    ensures CountDecisions(Kept(rows, folded, before), verdict) + Get(FoldDecisions(rows, before, base), verdict)
            == CountDecisions(rows, verdict) + Get(base, verdict)
    ensures CountWarnings(Kept(rows, folded, before)) + Get(FoldDecisions(rows, before, base), WARNINGS)
            == CountWarnings(rows) + Get(base, WARNINGS)
  {
    if rows != [] {
      var init, last := rows[..|rows| - 1], rows[|rows| - 1];
      assert last in rows && forall row | row in init :: row in rows;
      FoldMovesDecisions(init, folded, before, base, verdict);
      if KeepRow(last, folded, before) { SnocInit(Kept(init, folded, before), last); }
      if last.Decided? { FoldDecisionAt(FoldDecisions(init, before, base), last.decision, verdict); }
    }
  }

  // ---------------------------------------------------------------- corruption counts

  function IntegrityTotal(s: LedgerState, c: Integrity): int { Get(s.foldedIntegrity, c) + Get(s.integrity, c) }

  lemma {:induction false} NeverRefusedAs(rows: seq<Row>, all: seq<Row>, c: Integrity)
    requires c == MalformedJson || c == UnknownRecordType
    ensures Refused(rows, all, c) == 0
  {
    if rows != [] {
      NeverRefusedAs(rows[..|rows| - 1], all, c);
    }
  }

  lemma IntegrityCount(j: Journal, c: Integrity)
    requires c in INTEGRITY_CLASSES
    ensures Get(IntegrityOf(j), c) == PreCount(j, c) + Refused(j.rows, j.rows, c)
  {
  }

  lemma MergeAt(a: map<Integrity, int>, b: map<Integrity, int>, c: Integrity)
    ensures Get(MergeCounts(a, b), c) == Get(a, c) + Get(b, c)
  {
  }

  /** What a reload finds in the checkpoint a compaction wrote, and in the journal beside it. */
  lemma ReloadedFolds(d: Disk, limits: seq<Limit>, now: int, stamp: int, c: Integrity)
    requires Inv(d) && !NothingToFold(Load(d).value, RowsOf(d), FoldBefore(limits, now))
    requires CompactDisk(d, limits, now, stamp).Ok? && Load(CompactDisk(d, limits, now, stamp).value).Ok?
    requires c in INTEGRITY_CLASSES
    ensures var d' := CompactDisk(d, limits, now, stamp).value;
            var s, s', before := Load(d).value, Load(d').value, FoldBefore(limits, now);
            && d' != d
            && s'.foldedDecisions == FoldDecisions(RowsOf(d), before, s.foldedDecisions)
            && s'.foldedTally == FoldTally(s.book, s.book.order, before, s.foldedTally)
            && IntegrityTotal(s', c) == IntegrityTotal(s, c) + Refused(RowsOf(d'), RowsOf(d'), c)
  {
    var s, rows, before := Load(d).value, RowsOf(d), FoldBefore(limits, now);
    var c0 := NextCheckpoint(s, rows, before, stamp);
    var kept := Kept(rows, FoldSet(s.book, before), before);
    GenerationNonnegative(d.lines);
    ReadRewritten(c0, s.generation + 1, kept);
    LoadRewritten(c0, s.generation + 1, kept);
    IntegrityCount(Journal(s.generation + 1, kept, 0, 0, Some(DigestOf(c0))), c);
    MergeAt(s.foldedIntegrity, s.integrity, c);
    assert ReadJournal(d.lines).value.generation == s.generation;
  }

  function AuditedDecisions(d: Disk, verdict: string): int
    requires Load(d).Ok?
  {
    CountDecisions(RowsOf(d), verdict) + Get(Load(d).value.foldedDecisions, verdict)
  }

  function AuditedWarnings(d: Disk): int
    requires Load(d).Ok?
  {
    CountWarnings(RowsOf(d)) + Get(Load(d).value.foldedDecisions, WARNINGS)
  }

  /** Compaction keeps the reservation and decision counts of the audit. */
  lemma CompactionKeepsCounts(d: Disk, limits: seq<Limit>, now: int, stamp: int, verdict: string)
    requires Inv(d) && verdict in DECISIONS
    ensures CompactDisk(d, limits, now, stamp).Ok? && Inv(CompactDisk(d, limits, now, stamp).value)
    ensures var d' := CompactDisk(d, limits, now, stamp).value;
            && ReservationCounts(Load(d').value) == ReservationCounts(Load(d).value)
            && AuditedDecisions(d', verdict) == AuditedDecisions(d, verdict)
            && AuditedWarnings(d') == AuditedWarnings(d)
  {
    var s, rows, before := Load(d).value, RowsOf(d), FoldBefore(limits, now);
    CompactionKeepsInv(d, limits, now, stamp);
    CompactionReloads(d, limits, now, stamp);
    if !NothingToFold(s, rows, before) {
      ReloadedFolds(d, limits, now, stamp, MalformedJson);
      FoldMovesCounts(s.book, FoldedBook(s.book, before), s.book.order, before, s.foldedTally);
      FoldMovesDecisions(rows, FoldSet(s.book, before), before, s.foldedDecisions, verdict);
    }
  }

  /**
   Compaction never loses a corruption count. Malformed and unknown rows are counted as before;
   a refused terminal that stays in the journal is counted once more by the reload.
   */
  lemma CompactionKeepsIntegrity(d: Disk, limits: seq<Limit>, now: int, stamp: int, c: Integrity)
    requires Inv(d) && c in INTEGRITY_CLASSES
    ensures CompactDisk(d, limits, now, stamp).Ok? && Inv(CompactDisk(d, limits, now, stamp).value)
    ensures var d' := CompactDisk(d, limits, now, stamp).value;
            IntegrityTotal(Load(d').value, c) == IntegrityTotal(Load(d).value, c)
            + (if d' == d || c in {MalformedJson, UnknownRecordType} then 0 else Refused(RowsOf(d'), RowsOf(d'), c))
  {
    CompactionKeepsInv(d, limits, now, stamp);
    CompactionReloads(d, limits, now, stamp);
    if !NothingToFold(Load(d).value, RowsOf(d), FoldBefore(limits, now)) {
      var d' := CompactDisk(d, limits, now, stamp).value;
      ReloadedFolds(d, limits, now, stamp, c);
      if c == MalformedJson || c == UnknownRecordType { NeverRefusedAs(RowsOf(d'), RowsOf(d'), c); }
    }
  }
}
