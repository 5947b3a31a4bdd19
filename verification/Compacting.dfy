/**
 Compaction: what is folded into the checkpoint, what stays in the journal, and why a
 reload of the two sees the same consumption as before.
 */
module Compacting {
  import opened Common
  import opened Ledger
  import opened Replaying
  import opened Consuming

  // ---------------------------------------------------------------- what one compaction does

  function MaxWindow(limits: seq<Limit>): int {
    if limits == [] then 0
    else if |limits| == 1 then limits[0].window
    else
      var before := MaxWindow(limits[..|limits| - 1]);
      var last := limits[|limits| - 1].window;
      if before < last then last else before
  }

  function FoldBefore(limits: seq<Limit>, now: int): int {
    if MaxWindow(limits) > 0 then now - MaxWindow(limits) else now
  }

  predicate Aged(at: Option<int>, before: int) { at.Some? && at.value < before }

  predicate Foldable(b: Book, id: string, before: int) {
    id in b.terminal && Aged(b.terminal[id].at, before)
  }

  function FoldSet(b: Book, before: int): set<string> {
    set id | id in b.order && Foldable(b, id, before)
  }

  /** `entries[scope] += charge` on an insertion-ordered dictionary. */
  function AddEntry(entries: seq<Entry>, scope: Scope, charge: nat): seq<Entry> {
    if entries == [] then [Entry(scope, charge)]
    else
      var init, last := entries[..|entries| - 1], entries[|entries| - 1];
      if last.scope == scope then init + [Entry(scope, last.charge + charge)]
      else AddEntry(init, scope, charge) + [last]
  }

  function ChargeIn(t: Terminal): nat { if t.charge.Some? then Number(t.charge.value) else 0 }

  function FoldEntries(b: Book, ids: seq<string>, before: int): seq<Entry>
    requires forall id | id in ids :: id in b.reserved
  {
    if ids == [] then b.cumulative
    else
      var prior := FoldEntries(b, ids[..|ids| - 1], before);
      var id := ids[|ids| - 1];
      if Foldable(b, id, before) && b.terminal[id].kind == Reconciled
      then AddEntry(prior, b.reserved[id].scope, ChargeIn(b.terminal[id]))
      else prior
  }

  function Count(t: Tally, closed: Terminal): Tally {
    if closed.kind == Released then t.(released := t.released + 1)
    else t.(reconciled := t.reconciled + 1, failSafe := t.failSafe + (if closed.failSafeApplied then 1 else 0))
  }

  function FoldTally(b: Book, ids: seq<string>, before: int, base: Tally): Tally {
    if ids == [] then base
    else
      var prior := FoldTally(b, ids[..|ids| - 1], before, base);
      var id := ids[|ids| - 1];
      if Foldable(b, id, before) then Count(prior, b.terminal[id]) else prior
  }

  function Get<K(==)>(m: map<K, int>, k: K): int { if k in m then m[k] else 0 }

  function Bump<K(==)>(m: map<K, int>, k: K, n: int): map<K, int> { m[k := Get(m, k) + n] }

  function FoldDecision(m: map<string, int>, d: DecisionRow): map<string, int> {
    Bump(if d.decision != "" then Bump(m, d.decision, 1) else m, WARNINGS, d.warnings)
  }

  function FoldDecisions(rows: seq<Row>, before: int, base: map<string, int>): map<string, int> {
    if rows == [] then base
    else
      var prior := FoldDecisions(rows[..|rows| - 1], before, base);
      var last := rows[|rows| - 1];
      if last.Decided? && Aged(last.decision.at, before) then FoldDecision(prior, last.decision) else prior
  }

  function MergeCounts(a: map<Integrity, int>, b: map<Integrity, int>): map<Integrity, int> {
    map c | c in a.Keys + b.Keys :: Get(a, c) + Get(b, c)
  }

  predicate KeepRow(row: Row, folded: set<string>, before: int) {
    match row
    case Reserve(r) => r.id !in folded
    case Close(t) => t.id !in folded
    case Decided(d) => !Aged(d.at, before)
  }

  function Kept(rows: seq<Row>, folded: set<string>, before: int): seq<Row> {
    Filter(rows, (row: Row) => KeepRow(row, folded, before))
  }

  function FoldedBook(b: Book, before: int): Book
    requires b.Coherent()
  {
    var folded := FoldSet(b, before);
    Book(Filter(b.order, id => id !in folded), b.reserved - folded, b.terminal - folded, b.counts - folded,
         FoldEntries(b, b.order, before))
  }

  function NextCheckpoint(s: LedgerState, rows: seq<Row>, before: int, stamp: int): Checkpoint
    requires s.book.Coherent()
  {
    Checkpoint(true, Some(s.generation + 1), Some(stamp),
               FoldEntries(s.book, s.book.order, before),
               FoldDecisions(rows, before, s.foldedDecisions),
               FoldTally(s.book, s.book.order, before, s.foldedTally),
               MergeCounts(s.foldedIntegrity, s.integrity))
  }

  function Records(rows: seq<Row>): seq<Line> { seq(|rows|, i requires 0 <= i < |rows| => Record(rows[i])) }

  function Rewritten(c: Checkpoint, generation: int, rows: seq<Row>): seq<Line> {
    [Header(true, generation, DigestOf(c))] + Records(rows)
  }

  predicate NothingToFold(s: LedgerState, rows: seq<Row>, before: int) {
    FoldSet(s.book, before) == {} && forall row | row in rows :: row.Decided? ==> !Aged(row.decision.at, before)
  }

  datatype Compaction = Unchanged | Folded(checkpoint: Checkpoint, lines: seq<Line>)

  /** The two files one compaction writes, checkpoint first. */
  function CompactionOf(d: Disk, limits: seq<Limit>, now: int, stamp: int): Result<Compaction, Error> {
    var loaded := Load(d);
    if loaded.Raise? then Raise(loaded.error)
    else
      var s, rows, before := loaded.value, RowsOf(d), FoldBefore(limits, now);
      if NothingToFold(s, rows, before) then Ok(Unchanged)
      else
        var c := NextCheckpoint(s, rows, before, stamp);
        Ok(Folded(c, Rewritten(c, s.generation + 1, Kept(rows, FoldSet(s.book, before), before))))
  }

  function CompactDisk(d: Disk, limits: seq<Limit>, now: int, stamp: int): Result<Disk, Error> {
    var c := CompactionOf(d, limits, now, stamp);
    if c.Raise? then Raise(c.error)
    else if c.value.Unchanged? then Ok(d)
    else Ok(Disk(c.value.lines, Some(c.value.checkpoint)))
  }

  // ---------------------------------------------------------------- replaying the kept rows

  lemma {:induction false} KeptReservations(rows: seq<Row>, folded: set<string>, before: int, id: string)
    ensures var kept := Kept(rows, folded, before);
            && ReservedIn(kept, id) == (if id in folded then None else ReservedIn(rows, id))
            && ReservedCount(kept, id) == (if id in folded then 0 else ReservedCount(rows, id))
  {
    if rows != [] {
      var init, last := rows[..|rows| - 1], rows[|rows| - 1];
      KeptReservations(init, folded, before, id);
      ReservedSnoc(Kept(init, folded, before), last, id);
    }
  }

  lemma {:induction false} KeptTerminals(rows: seq<Row>, folded: set<string>, before: int, r: Reservation)
    requires r.id !in folded
    ensures Accepted(Kept(rows, folded, before), r) == Accepted(rows, r)
  {
    if rows != [] {
      var init, last := rows[..|rows| - 1], rows[|rows| - 1];
      KeptTerminals(init, folded, before, r);
      AcceptedSnoc(Kept(init, folded, before), last, r);
    }
  }

  lemma {:induction false} KeptOrder(rows: seq<Row>, folded: set<string>, before: int)
    ensures Order(Kept(rows, folded, before)) == Filter(Order(rows), id => id !in folded)
  {
    if rows != [] {
      var init, last := rows[..|rows| - 1], rows[|rows| - 1];
      KeptOrder(init, folded, before);
      OrderSnoc(Kept(init, folded, before), last);
      FilterMembers(Order(init), id => id !in folded);
      if last.Reserve? { FilterSnoc(Order(init), last.reservation.id, id => id !in folded); }
    }
  }

  /** Replaying the kept rows under the new folded charges gives the folded book. */
  lemma KeptReplay(rows: seq<Row>, cumulative: seq<Entry>, before: int)
    ensures var b := BookOf(rows, cumulative);
            BookOf(Kept(rows, FoldSet(b, before), before), FoldedBook(b, before).cumulative) == FoldedBook(b, before)
  {
    var b := BookOf(rows, cumulative);
    var folded := FoldSet(b, before);
    var kept, f := Kept(rows, folded, before), FoldedBook(b, before);
    KeptOrder(rows, folded, before);
    forall id ensures ViewOf(BookOf(kept, f.cumulative), id) == ViewOf(f, id) {
      KeptView(rows, cumulative, before, id);
    }
    SameViews(BookOf(kept, f.cumulative), f);
  }

  lemma FoldedView(b: Book, before: int, id: string)
    requires b.Coherent()
    ensures ViewOf(FoldedBook(b, before), id) ==
            if id in FoldSet(b, before) then View(None, None, None) else ViewOf(b, id)
  {
  }

  lemma KeptView(rows: seq<Row>, cumulative: seq<Entry>, before: int, id: string)
    ensures var b := BookOf(rows, cumulative);
            ViewOf(BookOf(Kept(rows, FoldSet(b, before), before), FoldedBook(b, before).cumulative), id)
            == ViewOf(FoldedBook(b, before), id)
  {
    var b := BookOf(rows, cumulative);
    var folded := FoldSet(b, before);
    FoldedView(b, before, id);
    BookView(rows, cumulative, id);
    BookView(Kept(rows, folded, before), FoldedBook(b, before).cumulative, id);
    KeptReservations(rows, folded, before, id);
    if id !in folded && ReservedIn(rows, id).Some? {
      KeptTerminals(rows, folded, before, ReservedIn(rows, id).value);
    }
  }

  lemma {:induction false} KeptGenerations(rows: seq<Row>, folded: set<string>, before: int)
    requires GenerationsBounded(rows)
    ensures GenerationsBounded(Kept(rows, folded, before))
  {
    var kept := Kept(rows, folded, before);
    FilterMembers(rows, (row: Row) => KeepRow(row, folded, before));
    forall k | 0 <= k < |kept|
      ensures kept[k].Reserve? ==> kept[k].reservation.generation <= ReservedCount(kept, kept[k].reservation.id)
      ensures kept[k].Close? && kept[k].terminal.generation.Some? ==>
                kept[k].terminal.generation.value <= ReservedCount(kept, kept[k].terminal.id)
    {
      assert kept[k] in kept;
      if kept[k].Reserve? { KeptReservations(rows, folded, before, kept[k].reservation.id); }
      if kept[k].Close? { KeptReservations(rows, folded, before, kept[k].terminal.id); }
    }
  }

  // ---------------------------------------------------------------- consumption is conserved

  lemma {:induction false} FoldedSumAdd(entries: seq<Entry>, scope: Scope, charge: nat, lim: Limit)
    requires forall e | e in entries :: e.charge >= 0
    ensures FoldedSum(AddEntry(entries, scope, charge), lim) ==
            FoldedSum(entries, lim) + (if lim.Matches(scope) then charge else 0)
    ensures forall e | e in AddEntry(entries, scope, charge) :: e.charge >= 0
  {
    if entries == [] {
      assert [Entry(scope, charge)][..0] == [];
    } else {
      var init, last := entries[..|entries| - 1], entries[|entries| - 1];
      if last.scope == scope {
        SnocInit(init, Entry(scope, last.charge + charge));
      } else {
        FoldedSumAdd(init, scope, charge, lim);
        SnocInit(AddEntry(init, scope, charge), last);
      }
    }
  }

  /** Folded charges leave the sum over reservations and enter the cumulative sum, or count nowhere. */
  lemma {:induction false} FoldConserves(b: Book, ids: seq<string>, before: int, lim: Limit, now: int)
    requires b.Coherent() && forall id | id in ids :: id in b.reserved
    requires forall e | e in b.cumulative :: e.charge >= 0
    requires lim.window <= 0 || now - lim.window >= before
    ensures var kept := Filter(ids, id => id !in FoldSet(b, before));
            if lim.window <= 0
            then FoldedSum(FoldEntries(b, ids, before), lim) + Shares(b, kept, lim, now)
                 == FoldedSum(b.cumulative, lim) + Shares(b, ids, lim, now)
            else Shares(b, kept, lim, now) == Shares(b, ids, lim, now)
    ensures forall e | e in FoldEntries(b, ids, before) :: e.charge >= 0
  {
    if ids != [] {
      var init, id := ids[..|ids| - 1], ids[|ids| - 1];
      FoldConserves(b, init, before, lim, now);
      if Foldable(b, id, before) {
        FoldedSumAdd(FoldEntries(b, init, before), b.reserved[id].scope, ChargeIn(b.terminal[id]), lim);
      } else {
        SharesSnoc(b, Filter(init, x => x !in FoldSet(b, before)), id, lim, now);
      }
    }
  }

  lemma FoldKeepsConsumption(b: Book, before: int, lim: Limit, now: int)
    requires b.Coherent()
    requires forall e | e in b.cumulative :: e.charge >= 0
    requires lim.window <= 0 || now - lim.window >= before
    ensures Consumption(FoldedBook(b, before), lim, now) == Consumption(b, lim, now)
  {
    FoldConserves(b, b.order, before, lim, now);
    KeptBookShares(b, before, lim, now);
  }

  /** The ids a fold keeps have the shares they had. */
  lemma KeptBookShares(b: Book, before: int, lim: Limit, now: int)
    requires b.Coherent()
    ensures var f := FoldedBook(b, before); Shares(f, f.order, lim, now) == Shares(b, f.order, lim, now)
  {
    var f := FoldedBook(b, before);
    FilterMembers(b.order, id => id !in FoldSet(b, before));
    forall id | id in f.order ensures Share(b, id, lim, now) == Share(f, id, lim, now) {
      FoldedView(b, before, id);
      ShareOfView(b, f, id, lim, now);
    }
    SharesCongruence(b, f, f.order, lim, now);
  }

  lemma {:induction false} KeptShares(b: Book, ids: seq<string>, before: int, lim: Limit, now: int)
    ensures Shares(b, Filter(ids, id => id !in FoldSet(b, before)), lim, now) <= Shares(b, ids, lim, now)
  {
    if ids != [] {
      var init, id := ids[..|ids| - 1], ids[|ids| - 1];
      KeptShares(b, init, before, lim, now);
      if id !in FoldSet(b, before) { SharesSnoc(b, Filter(init, x => x !in FoldSet(b, before)), id, lim, now); }
    }
  }

  /** Whatever the horizon and the clock, folding never makes a limit read more. */
  lemma FoldNeverAdds(b: Book, before: int, lim: Limit, now: int)
    requires b.Coherent() && forall e | e in b.cumulative :: e.charge >= 0
    ensures Consumption(FoldedBook(b, before), lim, now) <= Consumption(b, lim, now)
  {
    if lim.window <= 0 {
      FoldKeepsConsumption(b, before, lim, now);
    } else {
      KeptShares(b, b.order, before, lim, now);
      KeptBookShares(b, before, lim, now);
    }
  }

  lemma {:induction false} WindowAtMostMax(limits: seq<Limit>, lim: Limit)
    requires lim in limits
    ensures lim.window <= MaxWindow(limits)
  {
    if |limits| > 1 && lim != limits[|limits| - 1] {
      WindowAtMostMax(limits[..|limits| - 1], lim);
    }
  }

  /** A configured limit read no earlier than the compaction never reaches back to folded charges. */
  lemma ConfiguredLimitClears(limits: seq<Limit>, lim: Limit, compactedAt: int, now: int)
    requires lim in limits && compactedAt <= now
    ensures lim.window <= 0 || now - lim.window >= FoldBefore(limits, compactedAt)
  {
    WindowAtMostMax(limits, lim);
  }

  // ---------------------------------------------------------------- the checkpoint reloads

  predicate KnownDecision(d: DecisionRow) { d.decision == "" || d.decision in DECISIONS + {WARNINGS} }

  predicate AgedDecisionsKnown(rows: seq<Row>, before: int) {
    forall row | row in rows :: row.Decided? && Aged(row.decision.at, before) ==> KnownDecision(row.decision)
  }

  predicate ValidCounts(m: map<string, int>) {
    forall k | k in m :: k in DECISIONS + {WARNINGS} && m[k] >= 0
  }

  /** What the aged decision rows add to the folded warning counter; a row labelled "warnings" adds one more. */
  function AgedWarnings(rows: seq<Row>, before: int): int {
    if rows == [] then 0
    else
      var last := rows[|rows| - 1];
      AgedWarnings(rows[..|rows| - 1], before)
      + (if last.Decided? && Aged(last.decision.at, before)
         then last.decision.warnings + (if last.decision.decision == WARNINGS then 1 else 0) else 0)
  }

  /** The decision rows that would be folded have known labels and do not bring the warning total below zero. */
  predicate FoldsCleanly(base: map<string, int>, rows: seq<Row>, before: int) {
    AgedDecisionsKnown(rows, before) && Get(base, WARNINGS) + AgedWarnings(rows, before) >= 0
  }

  /** Labels only ever count up; the warning total may go either way. */
  lemma {:induction false} FoldDecisionsTotals(rows: seq<Row>, before: int, base: map<string, int>)
    requires forall k | k in base :: base[k] >= 0
    ensures forall k | k in FoldDecisions(rows, before, base) && k != WARNINGS ::
              FoldDecisions(rows, before, base)[k] >= 0
    ensures Get(FoldDecisions(rows, before, base), WARNINGS) == Get(base, WARNINGS) + AgedWarnings(rows, before)
  {
    if rows != [] {
      FoldDecisionsTotals(rows[..|rows| - 1], before, base);
    }
  }

  lemma {:induction false} FoldDecisionsKeys(rows: seq<Row>, before: int, base: map<string, int>)
    requires base.Keys <= DECISIONS + {WARNINGS}
    ensures FoldDecisions(rows, before, base).Keys <= DECISIONS + {WARNINGS} <==> AgedDecisionsKnown(rows, before)
  {
    if rows != [] {
      var init, last := rows[..|rows| - 1], rows[|rows| - 1];
      FoldDecisionsKeys(init, before, base);
      assert rows == init + [last];
      var prior := FoldDecisions(init, before, base);
      if last.Decided? && Aged(last.decision.at, before) {
        var after := FoldDecision(prior, last.decision);
        var added := if last.decision.decision != "" then {last.decision.decision} else {};
        assert after.Keys == prior.Keys + added + {WARNINGS};
      }
    }
  }

  lemma {:induction false} AddEntryScopes(entries: seq<Entry>, scope: Scope, charge: nat)
    requires UniqueScopes(entries) && forall e | e in entries :: e.charge >= 0
    ensures UniqueScopes(AddEntry(entries, scope, charge))
    ensures forall e | e in AddEntry(entries, scope, charge) :: e.charge >= 0
    ensures forall e | e in AddEntry(entries, scope, charge) ::
              e.scope == scope || exists e' :: e' in entries && e'.scope == e.scope
  {
    if entries != [] {
      var init, last := entries[..|entries| - 1], entries[|entries| - 1];
      assert forall e | e in init :: e in entries;
      if last.scope != scope {
        AddEntryScopes(init, scope, charge);
        var grown := AddEntry(init, scope, charge);
        forall i | 0 <= i < |grown| ensures grown[i].scope != last.scope {
          assert grown[i] in grown;
        }
      }
    }
  }

  lemma {:induction false} FoldEntriesValid(b: Book, ids: seq<string>, before: int)
    requires forall id | id in ids :: id in b.reserved
    requires UniqueScopes(b.cumulative) && forall e | e in b.cumulative :: e.charge >= 0
    ensures UniqueScopes(FoldEntries(b, ids, before))
    ensures forall e | e in FoldEntries(b, ids, before) :: e.charge >= 0
  {
    if ids != [] {
      var init, id := ids[..|ids| - 1], ids[|ids| - 1];
      FoldEntriesValid(b, init, before);
      if Foldable(b, id, before) && b.terminal[id].kind == Reconciled {
        AddEntryScopes(FoldEntries(b, init, before), b.reserved[id].scope, ChargeIn(b.terminal[id]));
      }
    }
  }

  predicate ValidTally(t: Tally) { t.reconciled >= 0 && t.released >= 0 && t.failSafe >= 0 }

  lemma {:induction false} FoldTallyValid(b: Book, ids: seq<string>, before: int, base: Tally)
    requires ValidTally(base)
    ensures ValidTally(FoldTally(b, ids, before, base))
  {
    if ids != [] {
      FoldTallyValid(b, ids[..|ids| - 1], before, base);
    }
  }

  /** Whatever a load accepts is fit to be folded again. */
  lemma LoadedParts(d: Disk)
    requires Load(d).Ok?
    ensures var s, j := Load(d).value, ReadJournal(d.lines).value;
            && s.book == BookOf(j.rows, s.book.cumulative)
            && s.integrity == IntegrityOf(j)
            && s.generation == j.generation >= 0
            && UniqueScopes(s.book.cumulative) && (forall e | e in s.book.cumulative :: e.charge >= 0)
            && ValidCounts(s.foldedDecisions) && ValidTally(s.foldedTally)
            && (forall c | c in s.foldedIntegrity :: s.foldedIntegrity[c] >= 0)
            && (forall c | c in s.integrity :: s.integrity[c] >= 0)
  {
    GenerationNonnegative(d.lines);
  }

  lemma {:induction false} GenerationNonnegative(lines: seq<Line>)
    ensures ReadJournal(lines).Ok? ==> ReadJournal(lines).value.generation >= 0
  {
    if lines != [] {
      GenerationNonnegative(lines[..|lines| - 1]);
    }
  }

  lemma {:induction false} ReadRewritten(c: Checkpoint, generation: int, rows: seq<Row>)
    requires generation > 0
    ensures ReadJournal(Rewritten(c, generation, rows)) ==
            Ok(Journal(generation, rows, 0, 0, Some(DigestOf(c))))
  {
    if rows == [] {
      var lines := Rewritten(c, generation, rows);
      assert lines == [Header(true, generation, DigestOf(c))];
      assert lines[..0] == [];
    } else {
      var init, last := rows[..|rows| - 1], rows[|rows| - 1];
      ReadRewritten(c, generation, init);
      assert Records(rows) == Records(init) + [Record(last)];
      assert Rewritten(c, generation, rows) == Rewritten(c, generation, init) + [Record(last)];
      ReadAfter(Rewritten(c, generation, init), last);
      assert init + [last] == rows;
    }
  }

  /** A rewritten journal loads beside its own checkpoint exactly when that checkpoint is valid. */
  lemma LoadRewritten(c: Checkpoint, generation: int, rows: seq<Row>)
    requires generation > 0
    ensures Load(Disk(Rewritten(c, generation, rows), Some(c))) ==
            if !ValidCheckpoint(c, generation) then Raise(LedgerCorruption)
            else Ok(LedgerState(BookOf(rows, c.cumulative), generation, c.decisions, c.reservations, c.integrity,
                                IntegrityOf(Journal(generation, rows, 0, 0, Some(DigestOf(c))))))
  {
    ReadRewritten(c, generation, rows);
  }

  lemma NextCheckpointValid(s: LedgerState, rows: seq<Row>, before: int, stamp: int)
    requires s.book.Coherent() && s.generation >= 0
    requires UniqueScopes(s.book.cumulative) && (forall e | e in s.book.cumulative :: e.charge >= 0)
    requires ValidCounts(s.foldedDecisions) && ValidTally(s.foldedTally)
    requires forall c | c in s.foldedIntegrity :: s.foldedIntegrity[c] >= 0
    requires forall c | c in s.integrity :: s.integrity[c] >= 0
    ensures ValidCheckpoint(NextCheckpoint(s, rows, before, stamp), s.generation + 1)
            <==> FoldsCleanly(s.foldedDecisions, rows, before)
  {
    FoldEntriesValid(s.book, s.book.order, before);
    FoldTallyValid(s.book, s.book.order, before, s.foldedTally);
    FoldDecisionsTotals(rows, before, s.foldedDecisions);
    assert s.foldedDecisions.Keys <= DECISIONS + {WARNINGS};
    FoldDecisionsKeys(rows, before, s.foldedDecisions);
    var m := FoldDecisions(rows, before, s.foldedDecisions);
    assert WARNINGS in m ==> m[WARNINGS] == Get(m, WARNINGS);
    assert ValidCounts(m) <==> m.Keys <= DECISIONS + {WARNINGS} && Get(m, WARNINGS) >= 0;
  }

  /**
   A completed compaction reloads exactly when every decision row it folds carries a known label
   and the folded warning total stays non-negative; the reload is then the folded book of the next
   generation.
   */
  lemma CompactionReloads(d: Disk, limits: seq<Limit>, now: int, stamp: int)
    requires Load(d).Ok?
    ensures CompactDisk(d, limits, now, stamp).Ok?
    ensures var s, rows, before := Load(d).value, RowsOf(d), FoldBefore(limits, now);
            var after := CompactDisk(d, limits, now, stamp).value;
            if NothingToFold(s, rows, before) then after == d
            else
              && (Load(after).Ok? <==> FoldsCleanly(s.foldedDecisions, rows, before))
              && (Load(after).Ok? ==>
                    && RowsOf(after) == Kept(rows, FoldSet(s.book, before), before)
                    && Load(after).value.book == FoldedBook(s.book, before)
                    && Load(after).value.generation == s.generation + 1)
  {
    var s, rows, before := Load(d).value, RowsOf(d), FoldBefore(limits, now);
    LoadedParts(d);
    if !NothingToFold(s, rows, before) {
      var c := NextCheckpoint(s, rows, before, stamp);
      var kept := Kept(rows, FoldSet(s.book, before), before);
      NextCheckpointValid(s, rows, before, stamp);
      ReadRewritten(c, s.generation + 1, kept);
      LoadRewritten(c, s.generation + 1, kept);
      KeptReplay(rows, s.book.cumulative, before);
    }
  }

  /** After a completed compaction every configured limit reads the same from then on. */
  lemma CompactionKeepsConsumption(d: Disk, limits: seq<Limit>, now: int, stamp: int, lim: Limit, later: int)
    requires Load(d).Ok? && lim in limits && now <= later
    requires Load(CompactDisk(d, limits, now, stamp).value).Ok?
    ensures Consumption(Load(CompactDisk(d, limits, now, stamp).value).value.book, lim, later)
            == Consumption(Load(d).value.book, lim, later)
  {
    CompactionReloads(d, limits, now, stamp);
    LoadedParts(d);
    ConfiguredLimitClears(limits, lim, now, later);
    FoldKeepsConsumption(Load(d).value.book, FoldBefore(limits, now), lim, later);
  }

  /** No compaction that reloads ever makes a limit read more, at any clock. */
  lemma CompactionNeverAdds(d: Disk, limits: seq<Limit>, now: int, stamp: int, lim: Limit, at: int)
    requires Load(d).Ok? && Load(CompactDisk(d, limits, now, stamp).value).Ok?
    ensures Consumption(Load(CompactDisk(d, limits, now, stamp).value).value.book, lim, at)
            <= Consumption(Load(d).value.book, lim, at)
  {
    CompactionReloads(d, limits, now, stamp);
    LoadedParts(d);
    FoldNeverAdds(Load(d).value.book, FoldBefore(limits, now), lim, at);
  }

  // ---------------------------------------------------------------- crashes

  /** Where a crash can fall: the checkpoint is published first, then the journal is replaced. */
  datatype CrashPoint = BeforeCheckpoint | BetweenWrites | AfterJournal

  function CrashedDisk(d: Disk, c: Compaction, point: CrashPoint): Disk {
    if c.Unchanged? || point == BeforeCheckpoint then d
    else if point == BetweenWrites then d.(checkpoint := Some(c.checkpoint))
    else Disk(c.lines, Some(c.checkpoint))
  }

  /**
   Between the two writes a load fails closed, in every generation. The one exception is a first
   compaction whose new checkpoint is not valid: then the untouched journal is replayed.
   */
  lemma CrashBetweenWrites(d: Disk, limits: seq<Limit>, now: int, stamp: int)
    requires Load(d).Ok? && CompactionOf(d, limits, now, stamp).value.Folded?
    ensures var torn := CrashedDisk(d, CompactionOf(d, limits, now, stamp).value, BetweenWrites);
            if Load(d).value.generation > 0
               || FoldsCleanly(Load(d).value.foldedDecisions, RowsOf(d), FoldBefore(limits, now))
            then Load(torn) == Raise(LedgerCorruption)
            else Load(torn) == Load(d)
  {
    var s, rows, before := Load(d).value, RowsOf(d), FoldBefore(limits, now);
    LoadedParts(d);
    NextCheckpointValid(s, rows, before, stamp);
  }

  /** No crash point ever lets a load see less consumption (or more) than before the compaction. */
  lemma CrashSafety(d: Disk, limits: seq<Limit>, now: int, stamp: int, point: CrashPoint, lim: Limit, later: int)
    requires Load(d).Ok? && lim in limits && now <= later
    ensures var torn := CrashedDisk(d, CompactionOf(d, limits, now, stamp).value, point);
            Load(torn).Raise?
            || Consumption(Load(torn).value.book, lim, later) == Consumption(Load(d).value.book, lim, later)
  {
    var c := CompactionOf(d, limits, now, stamp).value;
    if c.Folded? {
      if point == BetweenWrites {
        CrashBetweenWrites(d, limits, now, stamp);
      } else if point == AfterJournal {
        assert CrashedDisk(d, c, point) == CompactDisk(d, limits, now, stamp).value;
        if Load(CompactDisk(d, limits, now, stamp).value).Ok? {
          CompactionKeepsConsumption(d, limits, now, stamp, lim, later);
        }
      }
    }
  }

  /** An aged decision row with a negative warning count: the compacted ledger no longer loads. */
  lemma NegativeWarningsDoNotReload()
    ensures var d := Disk([Record(Decided(DecisionRow("a", "admit", -1, Some(0))))], None);
            Load(d).Ok? && CompactDisk(d, [], 1, 1).Ok? && Load(CompactDisk(d, [], 1, 1).value).Raise?
  {
    var row := Decided(DecisionRow("a", "admit", -1, Some(0)));
    var d := Disk([Record(row)], None);
    assert d.lines[..0] == [] && [row][..0] == [];
    ReadAfter([], row);
    assert [] + [Record(row)] == d.lines && [] + [row] == [row];
    assert RowsOf(d) == [row] && row in RowsOf(d);
    assert AgedWarnings([row], 1) == -1;
    CompactionReloads(d, [], 1, 1);
  }
}
