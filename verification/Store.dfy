/**
 The store itself: dictionaries filled by loops over the journal, appends, and the two-file
 rewrite. Every method is proved equal to the step that the theorems are about.
 */
module Store {
  import opened Common
  import opened Ledger
  import opened Replaying
  import opened Compacting
  import opened Operations
  import opened Runs
  import opened Auditing

  /** The journal and the checkpoint beside it, shared by every store that names the same path. */
  class LedgerFile {
    var lines: seq<Line>
    var checkpoint: Option<Checkpoint>

    constructor ()
      ensures Contents() == EMPTY_DISK
    {
      lines, checkpoint := [], None;
    }

    function Contents(): Disk
      reads this
    {
      Disk(lines, checkpoint)
    }
  }

  lemma {:induction false} ReadRaises(lines: seq<Line>, i: nat)
    requires i <= |lines| && ReadJournal(lines[..i]).Raise?
    ensures ReadJournal(lines) == Raise(LedgerCorruption)
    decreases |lines|
  {
    ReadErrors(lines);
    if i == |lines| {
      assert lines[..i] == lines;
    } else {
      assert lines[..|lines| - 1][..i] == lines[..i];
      ReadRaises(lines[..|lines| - 1], i);
    }
  }

  lemma {:induction false} ReadErrors(lines: seq<Line>)
    ensures ReadJournal(lines).Raise? ==> ReadJournal(lines).error == LedgerCorruption
  {
    if lines != [] { ReadErrors(lines[..|lines| - 1]); }
  }

  // ---------------------------------------------------------------- terminals come after reservations

  predicate IsTerminal(row: Row) { row.Close? && row.terminal.id != "" }

  function TerminalRows(rows: seq<Row>): seq<Row> { Filter(rows, (row: Row) => IsTerminal(row)) }

  lemma {:induction false} AcceptedAmongTerminals(rows: seq<Row>, r: Reservation)
    requires r.id != ""
    ensures Accepted(TerminalRows(rows), r) == Accepted(rows, r)
  {
    if rows != [] {
      var init, last := rows[..|rows| - 1], rows[|rows| - 1];
      AcceptedAmongTerminals(init, r);
      AcceptedSnoc(TerminalRows(init), last, r);
    }
  }

  lemma RefusedSnoc(rows: seq<Row>, row: Row, all: seq<Row>, c: Integrity)
    ensures Refused(rows + [row], all, c) ==
            Refused(rows, all, c) + (if Classify(rows, all, row) == Some(c) then 1 else 0)
  {
    SnocInit(rows, row);
  }

  lemma ClassifiedAmongTerminals(rows: seq<Row>, all: seq<Row>, row: Row)
    ensures Classify(TerminalRows(rows), all, row) == Classify(rows, all, row)
  {
    if row.Close? && row.terminal.id != "" && ReservedIn(all, row.terminal.id).Some? {
      AcceptedAmongTerminals(rows, ReservedIn(all, row.terminal.id).value);
    }
  }

  lemma {:induction false} RefusedAmongTerminals(rows: seq<Row>, all: seq<Row>, c: Integrity)
    ensures Refused(TerminalRows(rows), all, c) == Refused(rows, all, c)
  {
    if rows != [] {
      var init, last := rows[..|rows| - 1], rows[|rows| - 1];
      RefusedAmongTerminals(init, all, c);
      RefusedSnoc(TerminalRows(init), last, all, c);
      ClassifiedAmongTerminals(init, all, last);
    }
  }

  function ReservedMap(rows: seq<Row>): map<string, Reservation> {
    map id | id in Order(rows) :: ReservedIn(rows, id).value
  }

  function CountMap(rows: seq<Row>): map<string, nat> {
    map id | id in Order(rows) :: ReservedCount(rows, id)
  }

  lemma MapReserve(rows: seq<Row>, r: Reservation)
    requires r.id != ""
    ensures ReservedMap(rows + [Reserve(r)]) == ReservedMap(rows)[r.id := r]
  {
    hide ReservedCount, ReservedIn, Order;
    OrderSnoc(rows, Reserve(r));
    forall id | id in Order(rows + [Reserve(r)])
      ensures ReservedIn(rows + [Reserve(r)], id) == if id == r.id then Some(r) else ReservedIn(rows, id)
    {
      ReservedSnoc(rows, Reserve(r), id);
    }
  }

  lemma CountReserve(rows: seq<Row>, r: Reservation)
    requires r.id != ""
    ensures CountMap(rows + [Reserve(r)]) ==
            CountMap(rows)[r.id := (if r.id in CountMap(rows) then CountMap(rows)[r.id] else 0) + 1]
  {
    hide ReservedCount, ReservedIn, Order;
    OrderSnoc(rows, Reserve(r));
    if r.id !in Order(rows) { NoCount(rows, r.id); }
    forall id | id in Order(rows + [Reserve(r)])
      ensures ReservedCount(rows + [Reserve(r)], id) == ReservedCount(rows, id) + (if id == r.id then 1 else 0)
    {
      ReservedSnoc(rows, Reserve(r), id);
    }
  }

  lemma CollectOther(rows: seq<Row>, row: Row)
    requires !(row.Reserve? && row.reservation.id != "")
    ensures Order(rows + [row]) == Order(rows)
    ensures ReservedMap(rows + [row]) == ReservedMap(rows)
    ensures CountMap(rows + [row]) == CountMap(rows)
  {
    OrderSnoc(rows, row);
    forall id | id in Order(rows)
      ensures ReservedIn(rows + [row], id) == ReservedIn(rows, id)
      ensures ReservedCount(rows + [row], id) == ReservedCount(rows, id)
    {
      ReservedSnoc(rows, row, id);
    }
  }

  /** The dictionaries a first pass has filled after `rows`. */
  datatype FirstPass = FirstPass(
    order: seq<string>, reserved: map<string, Reservation>, counts: map<string, nat>, pending: seq<Row>)

  function FirstPassOf(rows: seq<Row>): FirstPass {
    FirstPass(Order(rows), ReservedMap(rows), CountMap(rows), TerminalRows(rows))
  }

  function Collect(p: FirstPass, row: Row): FirstPass {
    if row.Reserve? && row.reservation.id != "" then
      var r := row.reservation;
      p.(order := if r.id in p.order then p.order else p.order + [r.id],
         reserved := p.reserved[r.id := r],
         counts := p.counts[r.id := (if r.id in p.counts then p.counts[r.id] else 0) + 1])
    else if IsTerminal(row) then p.(pending := p.pending + [row])
    else p
  }

  lemma CollectReserved(rows: seq<Row>, r: Reservation)
    requires r.id != ""
    ensures FirstPassOf(rows + [Reserve(r)]) == Collect(FirstPassOf(rows), Reserve(r))
  {
    hide ReservedCount, ReservedIn;
    assert TerminalRows(rows + [Reserve(r)]) == TerminalRows(rows) by {
      FilterSnoc(rows, Reserve(r), (row: Row) => IsTerminal(row));
    }
    assert Order(rows + [Reserve(r)]) == Collect(FirstPassOf(rows), Reserve(r)).order by {
      OrderSnoc(rows, Reserve(r));
    }
    MapReserve(rows, r);
    CountReserve(rows, r);
  }

  lemma CollectSnoc(rows: seq<Row>, row: Row)
    ensures FirstPassOf(rows + [row]) == Collect(FirstPassOf(rows), row)
  {
    if row.Reserve? && row.reservation.id != "" {
      CollectReserved(rows, row.reservation);
    } else {
      FilterSnoc(rows, row, (row: Row) => IsTerminal(row));
      CollectOther(rows, row);
    }
  }

  /** First pass of a replay: reserved rows, their counts, and the terminals put aside. */
  method CollectReservations(rows: seq<Row>) returns (p: FirstPass)
    ensures p == FirstPassOf(rows)
  {
    p := FirstPass([], map[], map[], []);
    for i := 0 to |rows|
      invariant p == FirstPassOf(rows[..i])
    {
      Prefix(rows, i);
      CollectSnoc(rows[..i], rows[i]);
      p := Collect(p, rows[i]);
    }
    assert rows[..|rows|] == rows;
  }

  /** The terminals accepted among `pending`, each against its reservation. */
  function TerminalMap(reserved: map<string, Reservation>, pending: seq<Row>): map<string, Terminal> {
    map id | id in reserved && Accepted(pending, reserved[id]).Some? :: Accepted(pending, reserved[id]).value
  }

  function IntegritySoFar(pre: map<Integrity, int>, pending: seq<Row>, rows: seq<Row>): map<Integrity, int> {
    Positive(c => Get(pre, c) + Refused(pending, rows, c))
  }

  function Refusal(reserved: map<string, Reservation>, terminal: map<string, Terminal>,
                   t: Terminal): Option<Integrity> {
    if t.id !in reserved then Some(OrphanTerminal)
    else if t.id in terminal then Some(DuplicateTerminal)
    else TerminalIntegrity(t, reserved[t.id])
  }

  lemma TerminalStep(reserved: map<string, Reservation>, pending: seq<Row>, t: Terminal)
    requires forall id | id in reserved :: reserved[id].id == id
    ensures TerminalMap(reserved, pending + [Close(t)]) ==
            if Refusal(reserved, TerminalMap(reserved, pending), t).None?
            then TerminalMap(reserved, pending)[t.id := t] else TerminalMap(reserved, pending)
  {
    forall id | id in reserved
      ensures Accepted(pending + [Close(t)], reserved[id]) ==
              if Accepted(pending, reserved[id]).Some? then Accepted(pending, reserved[id])
              else if t.id == id && Accepts(t, reserved[id]) then Some(t) else None
    {
      AcceptedSnoc(pending, Close(t), reserved[id]);
    }
  }

  lemma RefusalIsClass(pending: seq<Row>, rows: seq<Row>, t: Terminal)
    requires t.id != ""
    ensures Classify(pending, rows, Close(t)) == Refusal(ReservedMap(rows), TerminalMap(ReservedMap(rows), pending), t)
    ensures var c := Classify(pending, rows, Close(t)); c.Some? ==> c.value in INTEGRITY_CLASSES
  {
  }

  lemma BumpPositive(n: Integrity -> int, n': Integrity -> int, raised: Integrity)
    requires raised in INTEGRITY_CLASSES && n(raised) >= 0
    requires forall c :: n'(c) == n(c) + (if c == raised then 1 else 0)
    ensures Positive(n') == Bump(Positive(n), raised, 1)
  {
  }

  lemma SamePositive(n: Integrity -> int, n': Integrity -> int)
    requires forall c | c in INTEGRITY_CLASSES :: n'(c) == n(c)
    ensures Positive(n') == Positive(n)
  {
  }

  lemma IntegrityStep(pre: map<Integrity, int>, pending: seq<Row>, rows: seq<Row>, t: Terminal)
    requires t.id != "" && forall c | c in pre :: pre[c] >= 0
    ensures IntegritySoFar(pre, pending + [Close(t)], rows) ==
            var refusal := Refusal(ReservedMap(rows), TerminalMap(ReservedMap(rows), pending), t);
            if refusal.Some? then Bump(IntegritySoFar(pre, pending, rows), refusal.value, 1)
            else IntegritySoFar(pre, pending, rows)
  {
    hide Refused, Classify, Refusal, TerminalIntegrity, ReservedMap, TerminalMap, Bump;
    RefusalIsClass(pending, rows, t);
    forall c
      ensures Refused(pending + [Close(t)], rows, c) == Refused(pending, rows, c)
              + (if Classify(pending, rows, Close(t)) == Some(c) then 1 else 0)
    {
      RefusedSnoc(pending, Close(t), rows, c);
    }
    var n := c => Get(pre, c) + Refused(pending, rows, c);
    var n' := c => Get(pre, c) + Refused(pending + [Close(t)], rows, c);
    var refusal := Classify(pending, rows, Close(t));
    if refusal.Some? { BumpPositive(n, n', refusal.value); } else { SamePositive(n, n'); }
  }

  /** Second pass: each terminal is accepted, or refused and counted. */
  method ApplyTerminalRows(rows: seq<Row>, reserved: map<string, Reservation>, pending: seq<Row>,
                           pre: map<Integrity, int>)
    returns (terminal: map<string, Terminal>, integrity: map<Integrity, int>)
    requires pending == TerminalRows(rows) && reserved == ReservedMap(rows)
    requires pre == IntegritySoFar(pre, [], rows)
    ensures terminal == TerminalMap(reserved, pending)
    ensures integrity == IntegritySoFar(pre, pending, rows)
  {
    FilterMembers(rows, (row: Row) => IsTerminal(row));
    terminal, integrity := map[], pre;
    for k := 0 to |pending|
      invariant terminal == TerminalMap(reserved, pending[..k])
      invariant integrity == IntegritySoFar(pre, pending[..k], rows)
    {
      assert pending[k] in pending;
      var t := pending[k].terminal;
      Prefix(pending, k);
      TerminalStep(reserved, pending[..k], t);
      IntegrityStep(pre, pending[..k], rows, t);
      var refusal := Refusal(reserved, terminal, t);
      if refusal.Some? {
        integrity := Bump(integrity, refusal.value, 1);
      } else {
        terminal := terminal[t.id := t];
      }
    }
    assert pending[..|pending|] == pending;
  }

  /** The counters the journal read itself raised. */
  function PreIntegrity(j: Journal): map<Integrity, int> {
    (if j.malformed > 0 then map[MalformedJson := j.malformed] else map[])
    + (if j.unknown > 0 then map[UnknownRecordType := j.unknown] else map[])
  }

  lemma PreIntegrityCounts(j: Journal)
    ensures forall c | c in INTEGRITY_CLASSES :: Get(PreIntegrity(j), c) == PreCount(j, c)
    ensures PreIntegrity(j) == IntegritySoFar(PreIntegrity(j), [], j.rows)
  {
  }

  lemma TwoPassesReplay(j: Journal, cumulative: seq<Entry>)
    ensures Book(Order(j.rows), ReservedMap(j.rows), TerminalMap(ReservedMap(j.rows), TerminalRows(j.rows)),
                 CountMap(j.rows), cumulative) == BookOf(j.rows, cumulative)
  {
    var reserved := ReservedMap(j.rows);
    forall id | id in reserved
      ensures Accepted(TerminalRows(j.rows), reserved[id]) == Accepted(j.rows, reserved[id])
    {
      AcceptedAmongTerminals(j.rows, reserved[id]);
    }
    assert TerminalMap(reserved, TerminalRows(j.rows)) == BookOf(j.rows, cumulative).terminal;
  }

  lemma TwoPassesCount(j: Journal)
    ensures IntegritySoFar(PreIntegrity(j), TerminalRows(j.rows), j.rows) == IntegrityOf(j)
  {
    forall c | c in INTEGRITY_CLASSES
      ensures Get(PreIntegrity(j), c) + Refused(TerminalRows(j.rows), j.rows, c)
              == PreCount(j, c) + Refused(j.rows, j.rows, c)
    {
      RefusedAmongTerminals(j.rows, j.rows, c);
    }
    SamePositive(c => PreCount(j, c) + Refused(j.rows, j.rows, c),
                 c => Get(PreIntegrity(j), c) + Refused(TerminalRows(j.rows), j.rows, c));
  }

  /** Two-pass replay of a journal into the in-memory state. */
  method LedgerStateOf(j: Journal, checkpoint: Option<Checkpoint>) returns (s: LedgerState)
    ensures s == Replay(j, checkpoint)
  {
    var p := CollectReservations(j.rows);
    PreIntegrityCounts(j);
    var terminal, integrity := ApplyTerminalRows(j.rows, p.reserved, p.pending, PreIntegrity(j));
    TwoPassesCount(j);
    var matches := checkpoint.Some? && j.generation > 0 && ValidCheckpoint(checkpoint.value, j.generation);
    var cumulative := if matches then checkpoint.value.cumulative else [];
    TwoPassesReplay(j, cumulative);
    var book := Book(p.order, p.reserved, terminal, p.counts, cumulative);
    s := if matches
         then LedgerState(book, j.generation, checkpoint.value.decisions, checkpoint.value.reservations,
                          checkpoint.value.integrity, integrity)
         else LedgerState(book, j.generation, map[], Tally(0, 0, 0), map[], integrity);
  }

  /** What limit `lim` counts as consumed at `now`. */
  method Consumed(b: Book, lim: Limit, now: int) returns (total: nat)
    requires b.Coherent()
    ensures total == Consumption(b, lim, now)
  {
    total := 0;
    if lim.window <= 0 {
      for i := 0 to |b.cumulative|
        invariant total == FoldedSum(b.cumulative[..i], lim)
      {
        Prefix(b.cumulative, i);
        var e := b.cumulative[i];
        if lim.Matches(e.scope) { total := total + Number(e.charge); }
      }
      assert b.cumulative[..|b.cumulative|] == b.cumulative;
    }
    ghost var folded := total;
    for i := 0 to |b.order|
      invariant total == folded + Shares(b, b.order[..i], lim, now)
    {
      var id := b.order[i];
      Prefix(b.order, i);
      assert id in b.reserved;
      if lim.Matches(b.reserved[id].scope) {
        var charge := ChargeOf(b, id, now, lim.window);
        if charge.Some? { total := total + charge.value; }
      }
    }
    assert b.order[..|b.order|] == b.order;
  }

  // ---------------------------------------------------------------- the loops of a compaction

  function FoldSetOf(b: Book, ids: seq<string>, before: int): set<string> {
    set id | id in ids && Foldable(b, id, before)
  }

  lemma FoldSetSnoc(b: Book, ids: seq<string>, id: string, before: int)
    ensures FoldSetOf(b, ids + [id], before) ==
            FoldSetOf(b, ids, before) + (if Foldable(b, id, before) then {id} else {})
  {
  }

  method FoldReservations(s: LedgerState, before: int)
    returns (folded: set<string>, cumulative: seq<Entry>, tally: Tally)
    requires s.book.Coherent()
    ensures folded == FoldSet(s.book, before)
    ensures cumulative == FoldEntries(s.book, s.book.order, before)
    ensures tally == FoldTally(s.book, s.book.order, before, s.foldedTally)
  {
    var b := s.book;
    folded, cumulative, tally := {}, b.cumulative, s.foldedTally;
    for i := 0 to |b.order|
      invariant folded == FoldSetOf(b, b.order[..i], before)
      invariant cumulative == FoldEntries(b, b.order[..i], before)
      invariant tally == FoldTally(b, b.order[..i], before, s.foldedTally)
    {
      var id := b.order[i];
      Prefix(b.order, i);
      FoldSetSnoc(b, b.order[..i], id, before);
      if Foldable(b, id, before) {
        var t := b.terminal[id];
        folded := folded + {id};
        if t.kind == Reconciled { cumulative := AddEntry(cumulative, b.reserved[id].scope, ChargeIn(t)); }
        tally := Count(tally, t);
      }
    }
    assert b.order[..|b.order|] == b.order;
  }

  method FoldDecisionRows(rows: seq<Row>, before: int, base: map<string, int>)
    returns (counts: map<string, int>, any: bool)
    ensures counts == FoldDecisions(rows, before, base)
    ensures any <==> exists row | row in rows :: row.Decided? && Aged(row.decision.at, before)
  {
    counts, any := base, false;
    for i := 0 to |rows|
      invariant counts == FoldDecisions(rows[..i], before, base)
      invariant any <==> exists row | row in rows[..i] :: row.Decided? && Aged(row.decision.at, before)
    {
      Prefix(rows, i);
      if rows[i].Decided? && Aged(rows[i].decision.at, before) {
        counts, any := FoldDecision(counts, rows[i].decision), true;
        assert rows[i] in rows[..i + 1];
      }
    }
    assert rows[..|rows|] == rows;
  }

  method RemainingRows(rows: seq<Row>, folded: set<string>, before: int) returns (remaining: seq<Row>)
    ensures remaining == Kept(rows, folded, before)
  {
    remaining := [];
    for i := 0 to |rows|
      invariant remaining == Kept(rows[..i], folded, before)
    {
      Prefix(rows, i);
      if KeepRow(rows[i], folded, before) { remaining := remaining + [rows[i]]; }
    }
    assert rows[..|rows|] == rows;
  }

  // ---------------------------------------------------------------- projection rows

  /** One cap's row of a projection; `utilization` is absent for a cap of zero. */
  datatype LimitReport = LimitReport(
    index: nat, consumed: nat, reserved: nat, committed: nat, remaining: int,
    utilization: Option<real>, warning: bool, exceeded: bool)

  datatype Report = Report(
    limits: seq<LimitReport>, reservations: Counts, decisions: map<string, int>, integrity: map<Integrity, int>,
    generation: int, activeRecords: nat, foldedScopes: nat)

  /** What a cap's row says about `committed`: the same total that admission reads. */
  predicate ReportsOn(r: LimitReport, b: Book, lim: Limit, now: int)
    requires b.Coherent()
  {
    && r.committed == r.consumed + r.reserved == Consumption(b, lim, now)
    && r.reserved == ReservedTotal(b, b.order, lim)
    && r.remaining == lim.cap - Consumption(b, lim, now)
    && r.utilization == (if lim.cap == 0 then None else Some(Consumption(b, lim, now) as real / lim.cap as real))
    && (r.warning <==> lim.warnAt.Some? && Consumption(b, lim, now) as real >= lim.warnAt.value * lim.cap as real)
    && (r.exceeded <==> Consumption(b, lim, now) > lim.cap)
  }

  lemma SweepsOfLive(cfg: Config, b: Book, ids: seq<string>, s: Sweep)
    requires forall id | id in ids :: id in b.reserved
    ensures forall id | id in Filter(ids, id => b.Live(id)) :: id in b.reserved
    ensures Sweeps(cfg, b, Filter(ids, id => b.Live(id)), s) == Sweeps(cfg, b, ids, s)
  {
    FilterMembers(ids, id => b.Live(id));
    if ids != [] {
      var init, id := ids[..|ids| - 1], ids[|ids| - 1];
      SweepsOfLive(cfg, b, init, s);
      if b.Live(id) { SnocInit(Filter(init, x => b.Live(x)), id); }
    }
  }

  lemma AppendTwice(d: Disk, first: seq<Row>, second: seq<Row>)
    ensures AppendAll(AppendAll(d, first), second) == AppendAll(d, first + second)
  {
    assert Records(first + second) == Records(first) + Records(second);
  }

  function BindingOf(items: seq<Item>): seq<Item> { Filter(items, (i: Item) => Binds(i)) }

  function WarningsOf(items: seq<Item>): seq<Item> { Filter(items, (i: Item) => Warns(i)) }

  lemma ItemSnoc(items: seq<Item>, item: Item)
    ensures BindingOf(items + [item]) == BindingOf(items) + (if Binds(item) then [item] else [])
    ensures WarningsOf(items + [item]) == WarningsOf(items) + (if Warns(item) then [item] else [])
  {
    FilterSnoc(items, item, (i: Item) => Binds(i));
    FilterSnoc(items, item, (i: Item) => Warns(i));
  }

  lemma LimitStep(b: Book, limits: seq<Limit>, i: nat, scope: Scope, declared: nat, now: int)
    requires i < |limits|
    ensures var items := Items(b, limits, i, scope, declared, now);
            var after := Items(b, limits, i + 1, scope, declared, now);
            var item := ItemFor(b, limits, i, declared, now);
            if !limits[i].Matches(scope) then after == items
            else
              && BindingOf(after) == BindingOf(items) + (if Binds(item) then [item] else [])
              && WarningsOf(after) == WarningsOf(items) + (if Warns(item) then [item] else [])
  {
    ItemSnoc(Items(b, limits, i, scope, declared, now), ItemFor(b, limits, i, declared, now));
  }

  lemma NoRows(d: Disk)
    ensures AppendAll(d, []) == d
  {
  }

  /** A compaction call writes no rows of its own. */
  lemma CompactStep(cfg: Config, d: Disk, now: int, stamp: int)
    requires cfg.enabled
    ensures Step(cfg, d, DoCompact(now, stamp), true) ==
            if Load(d).Raise? then (d, Raised(Load(d).error)) else Finish(cfg, d, DoCompact(now, stamp), Silent, true)
  {
    NoRows(d);
  }

  function VerdictCounts(rows: seq<Row>, labels: set<string>): map<string, int> {
    map k | k in labels :: CountDecisions(rows, k)
  }

  lemma NoDecisions()
    ensures CountWarnings([]) == 0 && forall k :: CountDecisions([], k) == 0
  {
  }

  lemma DecisionStep(rows: seq<Row>, row: Row, k: string)
    ensures CountDecisions(rows + [row], k) ==
            CountDecisions(rows, k) + (if row.Decided? && row.decision.decision == k then 1 else 0)
    ensures CountWarnings(rows + [row]) == CountWarnings(rows) + (if row.Decided? then row.decision.warnings else 0)
  {
    assert (rows + [row])[..|rows|] == rows;
  }

  lemma VerdictStep(rows: seq<Row>, row: Row, labels: set<string>)
    ensures VerdictCounts(rows + [row], labels) ==
            if row.Decided? && row.decision.decision in labels
            then VerdictCounts(rows, labels)[row.decision.decision := CountDecisions(rows, row.decision.decision) + 1]
            else VerdictCounts(rows, labels)
  {
    hide CountDecisions;
    forall k | k in labels
      ensures CountDecisions(rows + [row], k) ==
              CountDecisions(rows, k) + (if row.Decided? && row.decision.decision == k then 1 else 0)
    {
      DecisionStep(rows, row, k);
    }
  }

  function LabelTotals(rows: seq<Row>, folded: map<string, int>, labels: set<string>): map<string, int> {
    map k | k in labels :: CountDecisions(rows, k) + Get(folded, k)
  }

  lemma SameTotals(rows: seq<Row>, folded: map<string, int>, rows': seq<Row>, folded': map<string, int>,
                   labels: set<string>)
    requires forall v | v in labels ::
               CountDecisions(rows, v) + Get(folded, v) == CountDecisions(rows', v) + Get(folded', v)
    ensures LabelTotals(rows, folded, labels) == LabelTotals(rows', folded', labels)
  {
    hide CountDecisions;
  }

  /** The audit's decision counters: one for each label, and the warnings. */
  function DecisionsAndWarnings(rows: seq<Row>, folded: map<string, int>): map<string, int> {
    LabelTotals(rows, folded, DECISIONS)[WARNINGS := CountWarnings(rows) + Get(folded, WARNINGS)]
  }

  lemma SameCounters(rows: seq<Row>, folded: map<string, int>, rows': seq<Row>, folded': map<string, int>)
    requires forall v | v in DECISIONS ::
               CountDecisions(rows, v) + Get(folded, v) == CountDecisions(rows', v) + Get(folded', v)
    requires CountWarnings(rows) + Get(folded, WARNINGS) == CountWarnings(rows') + Get(folded', WARNINGS)
    ensures DecisionsAndWarnings(rows, folded) == DecisionsAndWarnings(rows', folded')
  {
    hide CountDecisions, CountWarnings, LabelTotals;
    SameTotals(rows, folded, rows', folded', DECISIONS);
  }

  /** A compaction of the ledger has something to fold. */
  predicate FoldsSomething(d: Disk, limits: seq<Limit>, now: int, stamp: int) {
    var c := CompactionOf(d, limits, now, stamp);
    c.Ok? && c.value.Folded?
  }

  class BudgetStore {
    const file: LedgerFile
    const config: Config

    constructor (file: LedgerFile, config: Config)
      ensures this.file == file && this.config == config
    {
      this.file, this.config := file, config;
    }

    method ReadJournal() returns (r: Result<Journal, Error>)
      ensures r == Ledger.ReadJournal(file.lines)
    {
      var lines := file.lines;
      var j := Journal(0, [], 0, 0, None);
      for i := 0 to |lines|
        invariant Ledger.ReadJournal(lines[..i]) == Ok(j)
      {
        Prefix(lines, i);
        match lines[i]
        case Record(row) => j := j.(rows := j.rows + [row]);
        case Malformed => j := j.(malformed := j.malformed + 1);
        case UnknownType => j := j.(unknown := j.unknown + 1);
        case Header(shaped, generation, digest) =>
          if i != 0 || !shaped || generation <= 0 {
            ReadRaises(lines, i + 1);
            return Raise(LedgerCorruption);
          }
          j := j.(generation := generation, digest := Some(digest));
      }
      assert lines[..|lines|] == lines;
      r := Ok(j);
    }

    method LoadState() returns (r: Result<LedgerState, Error>)
      ensures r == Load(file.Contents())
    {
      var read := ReadJournal();
      if read.Raise? { return Raise(read.error); }
      if Mismatched(read.value, file.checkpoint) { return Raise(LedgerCorruption); }
      var s := LedgerStateOf(read.value, file.checkpoint);
      r := Ok(s);
    }

    method AppendRow(row: Row)
      modifies file
      ensures file.Contents() == Append(old(file.Contents()), row)
    {
      file.lines := file.lines + [Record(row)];
    }

    /** Replaces the checkpoint file in one atomic step. */
    method PublishCheckpoint(c: Checkpoint)
      modifies file`checkpoint
      ensures file.checkpoint == Some(c)
    {
      file.checkpoint := Some(c);
    }

    /** Replaces the journal in one atomic step. */
    method RewriteJournal(lines: seq<Line>)
      modifies file`lines
      ensures file.lines == lines
    {
      file.lines := lines;
    }

    /** What a compaction will write: the new checkpoint and the journal that refers to it. */
    method PrepareCompaction(now: int, stamp: int) returns (r: Result<Compaction, Error>)
      ensures r == CompactionOf(file.Contents(), config.limits, now, stamp)
    {
      var loaded := LoadState();
      if loaded.Raise? { return Raise(loaded.error); }
      var s := loaded.value;
      var before := FoldBefore(config.limits, now);
      var read := ReadJournal();
      var rows := read.value.rows;
      var folded, cumulative, tally := FoldReservations(s, before);
      var decisions, any := FoldDecisionRows(rows, before, s.foldedDecisions);
      if folded == {} && !any { return Ok(Unchanged); }
      var c := Checkpoint(true, Some(s.generation + 1), Some(stamp), cumulative, decisions, tally,
                          MergeCounts(s.foldedIntegrity, s.integrity));
      var remaining := RemainingRows(rows, folded, before);
      r := Ok(Folded(c, Rewritten(c, s.generation + 1, remaining)));
    }

    /** One compaction, run as far as `reached`: a crash stops it between its two writes. */
    method CompactUpTo(now: int, stamp: int, reached: CrashPoint) returns (r: Result<bool, Error>)
      modifies file
      ensures var c := CompactionOf(old(file.Contents()), config.limits, now, stamp);
              if c.Raise? then r == Raise(c.error) && file.Contents() == old(file.Contents())
              else r == Ok(c.value.Folded?) && file.Contents() == CrashedDisk(old(file.Contents()), c.value, reached)
    {
      var prepared := PrepareCompaction(now, stamp);
      if prepared.Raise? { return Raise(prepared.error); }
      if prepared.value.Unchanged? { return Ok(false); }
      if reached != BeforeCheckpoint {
        PublishCheckpoint(prepared.value.checkpoint);
        if reached == AfterJournal { RewriteJournal(prepared.value.lines); }
      }
      r := Ok(true);
    }

    /** Whether something was folded, or the error. */
    method Compact(now: int, stamp: int) returns (r: Result<bool, Error>)
      modifies file
      ensures r.Ok? ==> (r.value <==> config.enabled && FoldsSomething(old(file.Contents()), config.limits, now, stamp))
      ensures (file.Contents(), if r.Raise? then Raised(r.error) else Silent)
              == Step(config, old(file.Contents()), DoCompact(now, stamp), true)
    {
      if !config.enabled { return Ok(false); }
      CompactStep(config, file.Contents(), now, stamp);
      r := CompactUpTo(now, stamp, AfterJournal);
    }

    method MaybeCompactUnlocked(now: int, stamp: int) returns (r: Result<bool, Error>)
      modifies file
      ensures var m := MaybeCompact(config, old(file.Contents()), now, stamp);
              if m.Raise? then r == Raise(m.error) && file.Contents() == old(file.Contents())
              else r.Ok? && file.Contents() == m.value
    {
      var read := ReadJournal();
      if read.Raise? { return Raise(read.error); }
      if |read.value.rows| < COMPACTION_THRESHOLD { return Ok(false); }
      r := CompactUpTo(now, stamp, AfterJournal);
    }

    // ---------------------------------------------------------------- admission

    method DeclaredAllowance(phase: string) returns (amount: nat)
      ensures amount == DeclaredFor(config.declared, phase, config.defaultDeclared)
    {
      for i := 0 to |config.declared|
        invariant DeclaredFor(config.declared[i..], phase, config.defaultDeclared)
                  == DeclaredFor(config.declared, phase, config.defaultDeclared)
      {
        if config.declared[i].0 == phase { return config.declared[i].1; }
        assert config.declared[i..][1..] == config.declared[i + 1..];
      }
      amount := config.defaultDeclared;
    }

    /** The caps that refuse the launch and the caps that only warn, each in configuration order. */
    method CheckLimits(b: Book, scope: Scope, declared: nat, now: int)
      returns (binding: seq<Item>, warnings: seq<Item>)
      requires b.Coherent()
      ensures var items := Items(b, config.limits, |config.limits|, scope, declared, now);
              binding == BindingOf(items) && warnings == WarningsOf(items)
    {
      binding, warnings := [], [];
      for i := 0 to |config.limits|
        invariant binding == BindingOf(Items(b, config.limits, i, scope, declared, now))
        invariant warnings == WarningsOf(Items(b, config.limits, i, scope, declared, now))
      {
        LimitStep(b, config.limits, i, scope, declared, now);
        if config.limits[i].Matches(scope) {
          var item := CheckLimit(b, i, declared, now);
          if Binds(item) {
            binding := binding + [item];
          } else if Warns(item) {
            warnings := warnings + [item];
          }
        }
      }
    }

    method CheckLimit(b: Book, index: nat, declared: nat, now: int) returns (item: Item)
      requires b.Coherent() && index < |config.limits|
      ensures item == ItemFor(b, config.limits, index, declared, now)
    {
      var consumed := Consumed(b, config.limits[index], now);
      item := Item(index, config.limits[index], consumed, config.limits[index].cap - consumed, declared);
    }

    /** Appends what the decision calls for: a denial, or the reservation and its admission. */
    method AdmitOrDeny(b: Book, req: Request, now: int, at: Stamps) returns (reply: Reply)
      requires b.Coherent() && !b.Live(req.id)
      modifies file
      ensures var plan := PlanReserve(config, b, req, now, at);
              reply == plan.reply && !reply.Raised? && file.Contents() == AppendAll(old(file.Contents()), plan.rows)
    {
      ghost var d := file.Contents();
      var declared := DeclaredAllowance(req.scope.phase);
      var binding, warnings := CheckLimits(b, req.scope, declared, now);
      if binding != [] {
        var denial := DecisionRow(req.id, config.onInsufficient, |warnings|, Some(at.decidedAt));
        AppendRow(Decided(denial));
        assert Records([Decided(denial)]) == [Record(Decided(denial))];
        reply := Denied(config.onInsufficient, declared, binding, warnings);
      } else {
        var r := Reservation(req.id, req.runId, req.runId, (if req.id in b.counts then b.counts[req.id] else 0) + 1,
                             at.host, Some(at.pid), at.birth, req.scope, config.metric, declared,
                             config.failSafe, config.failSafeAmount, Some(at.reservedAt));
        var admission := DecisionRow(req.id, "admit", |warnings|, Some(at.decidedAt));
        AppendRow(Reserve(r));
        AppendRow(Decided(admission));
        assert Records([Reserve(r), Decided(admission)]) == [Record(Reserve(r)), Record(Decided(admission))];
        reply := Admitted(r.generation, declared, warnings);
      }
    }

    method ReserveLaunch(req: Request, now: int, at: Stamps) returns (reply: Reply)
      modifies file
      ensures (file.Contents(), reply) == Step(config, old(file.Contents()), DoReserve(req, now, at), true)
    {
      if !config.enabled { return Disabled; }
      if req.id == "" { return Raised(ValueError); }
      var loaded := LoadState();
      if loaded.Raise? { return Raised(loaded.error); }
      if loaded.value.book.Live(req.id) {
        assert AppendAll(file.Contents(), []) == file.Contents();
        return Raised(ValueError);
      }
      reply := AdmitOrDeny(loaded.value.book, req, now, at);
      var compacted := MaybeCompactUnlocked(now, at.foldedAt);
      if compacted.Raise? { reply := Raised(compacted.error); }
    }

    // ---------------------------------------------------------------- settlement

    /** Writes the reservation's terminal row and records it in the in-memory state. */
    method ReconcileUnlocked(id: string, runId: string, usage: Usage, reason: string, at: int, b: Book)
      returns (done: bool, b': Book)
      requires forall id | id in b.reserved :: b.reserved[id].id == id
      modifies file
      ensures done == b.Live(id)
      ensures var plan := PlanReconcile(config, b, id, runId, usage, reason, at);
              file.Contents() == AppendAll(old(file.Contents()), plan.rows)
      ensures b' == if done then AddTerminal(b, Reconciliation(config, b.reserved[id], runId, usage, reason, at)) else b
    {
      ghost var d := file.Contents();
      if id !in b.reserved || id in b.terminal {
        assert AppendAll(d, []) == d;
        return false, b;
      }
      var row := Reconciliation(config, b.reserved[id], runId, usage, reason, at);
      AppendRow(Close(row));
      assert Records([Close(row)]) == [Record(Close(row))];
      done, b' := true, b.(terminal := b.terminal[id := row]);
    }

    method Reconcile(id: string, runId: string, usage: Usage, reason: string, stamp: int) returns (reply: Reply)
      modifies file
      ensures (file.Contents(), reply)
              == Step(config, old(file.Contents()), DoReconcile(id, runId, usage, reason, stamp), true)
    {
      var loaded := LoadState();
      if loaded.Raise? { return Raised(loaded.error); }
      var done, _ := ReconcileUnlocked(id, runId, usage, reason, stamp, loaded.value.book);
      reply := Settlement(done);
    }

    method ReleaseReservation(id: string, runId: string, why: string, stamp: int) returns (reply: Reply)
      modifies file
      ensures (file.Contents(), reply) == Step(config, old(file.Contents()), DoRelease(id, runId, why, stamp), true)
    {
      if !config.enabled || id == "" { return Settlement(false); }
      var loaded := LoadState();
      if loaded.Raise? { return Raised(loaded.error); }
      var b := loaded.value.book;
      ghost var d := file.Contents();
      if id !in b.reserved || id in b.terminal {
        assert AppendAll(d, []) == d;
        return Settlement(false);
      }
      var row := ReleaseRow(b.reserved[id], runId, why, stamp);
      AppendRow(Close(row));
      assert Records([Close(row)]) == [Record(Close(row))];
      reply := Settlement(true);
    }

    // ---------------------------------------------------------------- recovery and projection

    method LiveReservations(b: Book) returns (live: seq<string>)
      requires b.Coherent()
      ensures live == Filter(b.order, id => b.Live(id))
    {
      live := [];
      for i := 0 to |b.order|
        invariant live == Filter(b.order[..i], id => b.Live(id))
      {
        Prefix(b.order, i);
        if b.order[i] !in b.terminal { live := live + [b.order[i]]; }
      }
      assert b.order[..|b.order|] == b.order;
    }

    /** Settles the live reservations one by one, keeping the in-memory state in step. */
    method SweepLive(b: Book, live: seq<string>, s: Sweep) returns (recovered: nat)
      requires forall id | id in b.reserved :: b.reserved[id].id == id
      requires Distinct(live) && forall id | id in live :: id in b.reserved && b.Live(id)
      modifies file
      ensures var rows := Sweeps(config, b, live, s);
              recovered == |rows| && file.Contents() == AppendAll(old(file.Contents()), rows)
    {
      recovered := 0;
      var current := b;
      ghost var d := file.Contents();
      assert AppendAll(d, []) == d;
      for i := 0 to |live|
        invariant recovered == |Sweeps(config, b, live[..i], s)|
        invariant file.Contents() == AppendAll(d, Sweeps(config, b, live[..i], s))
        invariant current.reserved == b.reserved
        invariant forall k | i <= k < |live| :: current.Live(live[k])
      {
        var id := live[i];
        Prefix(live, i);
        assert id in live;
        ghost var prior := Sweeps(config, b, live[..i], s);
        match JudgeIn(current, id, s)
        case Keep =>
        case Settle(usage, reason) =>
          var r := current.reserved[id];
          var done;
          done, current := ReconcileUnlocked(id, r.ownerRunId, usage, reason, s.stamp(id), current);
          if done { recovered := recovered + 1; }
          AppendTwice(d, prior, [Close(Reconciliation(config, r, r.ownerRunId, usage, reason, s.stamp(id)))]);
      }
      assert live[..|live|] == live;
    }

    method RecoverAbandoned(s: Sweep) returns (reply: Reply)
      modifies file
      ensures (file.Contents(), reply) == Step(config, old(file.Contents()), DoRecover(s), true)
    {
      if !config.enabled { return Recovered(0); }
      var loaded := LoadState();
      if loaded.Raise? { return Raised(loaded.error); }
      var b := loaded.value.book;
      var live := LiveReservations(b);
      FilterMembers(b.order, id => b.Live(id));
      SweepsOfLive(config, b, b.order, s);
      var recovered := SweepLive(b, live, s);
      reply := Recovered(recovered);
    }

    /** One report per cap: its committed total is exactly what admission reads as consumed. */
    method LimitReports(b: Book, now: int) returns (reports: seq<LimitReport>)
      requires b.Coherent()
      ensures |reports| == |config.limits|
      ensures forall i | 0 <= i < |reports| :: reports[i].index == i && ReportsOn(reports[i], b, config.limits[i], now)
    {
      reports := [];
      for i := 0 to |config.limits|
        invariant |reports| == i
        invariant forall k | 0 <= k < i :: reports[k].index == k && ReportsOn(reports[k], b, config.limits[k], now)
      {
        var report := LimitRow(b, i, now);
        reports := reports + [report];
      }
    }

    method LimitRow(b: Book, index: nat, now: int) returns (report: LimitReport)
      requires b.Coherent() && index < |config.limits|
      ensures report.index == index && ReportsOn(report, b, config.limits[index], now)
    {
      hide Consumption;
      var lim := config.limits[index];
      var consumed, reserved := CommittedUnder(b, lim, now);
      var committed := consumed + reserved;
      var utilization := if lim.cap == 0 then None else Some(committed as real / lim.cap as real);
      var warning := lim.warnAt.Some? && committed as real >= lim.warnAt.value * lim.cap as real;
      report := LimitReport(index, consumed, reserved, committed, lim.cap - committed, utilization, warning,
                            committed > lim.cap);
    }

    method CommittedUnder(b: Book, lim: Limit, now: int) returns (consumed: nat, reserved: nat)
      requires b.Coherent()
      ensures consumed + reserved == Consumption(b, lim, now)
      ensures reserved == ReservedTotal(b, b.order, lim)
    {
      consumed, reserved := 0, 0;
      if lim.window <= 0 {
        for i := 0 to |b.cumulative|
          invariant consumed == FoldedSum(b.cumulative[..i], lim)
        {
          Prefix(b.cumulative, i);
          if lim.Matches(b.cumulative[i].scope) { consumed := consumed + Number(b.cumulative[i].charge); }
        }
        assert b.cumulative[..|b.cumulative|] == b.cumulative;
      }
      ghost var folded := consumed;
      for i := 0 to |b.order|
        invariant consumed == folded + ConsumedTotal(b, b.order[..i], lim, now)
        invariant reserved == ReservedTotal(b, b.order[..i], lim)
      {
        Prefix(b.order, i);
        assert b.order[i] in b.order;
        consumed := consumed + ConsumedShare(b, b.order[i], lim, now);
        reserved := reserved + ReservedShare(b, b.order[i], lim);
      }
      assert b.order[..|b.order|] == b.order;
      SharesSplit(b, b.order, lim, now);
    }

    /** Reservations live and closed, both in the journal and folded. */
    method ReservationTotals(s: LedgerState) returns (total: Counts)
      requires s.book.Coherent()
      ensures total == ReservationCounts(s)
    {
      var counts := Counts(0, Tally(0, 0, 0));
      for i := 0 to |s.book.order|
        invariant counts == CountReservations(s.book, s.book.order[..i], Counts(0, Tally(0, 0, 0)))
      {
        Prefix(s.book.order, i);
        var id := s.book.order[i];
        counts := if id !in s.book.terminal then counts.(live := counts.live + 1)
                  else counts.(closed := Count(counts.closed, s.book.terminal[id]));
      }
      assert s.book.order[..|s.book.order|] == s.book.order;
      total := counts.(closed := Plus(counts.closed, s.foldedTally));
    }

    /** Decisions by label, and warnings, both in the journal and folded. */
    method DecisionTotals(rows: seq<Row>, folded: map<string, int>) returns (total: map<string, int>)
      ensures total == DecisionsAndWarnings(rows, folded)
    {
      var counts, warnings := CountVerdicts(rows, DECISIONS);
      total := (map k | k in counts :: counts[k] + Get(folded, k))[WARNINGS := warnings + Get(folded, WARNINGS)];
    }

    /** The decision rows of the journal, by label, and their warnings. */
    method CountVerdicts(rows: seq<Row>, labels: set<string>) returns (counts: map<string, int>, warnings: int)
      ensures counts == VerdictCounts(rows, labels) && warnings == CountWarnings(rows)
    {
      hide CountDecisions, CountWarnings;
      NoDecisions();
      counts, warnings := map k | k in labels :: 0, 0;
      for i := 0 to |rows|
        invariant warnings == CountWarnings(rows[..i])
        invariant counts == VerdictCounts(rows[..i], labels)
      {
        Prefix(rows, i);
        VerdictStep(rows[..i], rows[i], labels);
        DecisionStep(rows[..i], rows[i], "");
        if rows[i].Decided? {
          var d := rows[i].decision;
          if d.decision in counts { counts := counts[d.decision := counts[d.decision] + 1]; }
          warnings := warnings + d.warnings;
        }
      }
      assert rows[..|rows|] == rows;
    }

    /** Read-only projection of the ledger: per-cap reports, and the audit's counters. */
    method Projection(now: int) returns (r: Result<Report, Error>)
      ensures r.Raise? <==> Load(file.Contents()).Raise?
      ensures r.Ok? ==> ProjectionOf(r.value, file.Contents(), config.limits, now)
    {
      var loaded := LoadState();
      if loaded.Raise? { return Raise(loaded.error); }
      var s := loaded.value;
      var read := ReadJournal();
      var rows := read.value.rows;
      var limits := LimitReports(s.book, now);
      var reservations := ReservationTotals(s);
      var decisions := DecisionTotals(rows, s.foldedDecisions);
      r := Ok(Report(limits, reservations, decisions, MergeCounts(s.foldedIntegrity, s.integrity), s.generation, |rows|,
                     |s.book.cumulative|));
    }
  }

  /** What a projection says of a ledger: the caps as admission reads them, and the counters of the audit. */
  ghost predicate ProjectionOf(r: Report, d: Disk, limits: seq<Limit>, now: int)
    requires Load(d).Ok?
  {
    var s := Load(d).value;
    && |r.limits| == |limits|
    && (forall i | 0 <= i < |limits| :: r.limits[i].index == i && ReportsOn(r.limits[i], s.book, limits[i], now))
    && r.reservations == ReservationCounts(s)
    && r.decisions == DecisionsAndWarnings(RowsOf(d), s.foldedDecisions)
    && (forall c | c in INTEGRITY_CLASSES :: Get(r.integrity, c) == IntegrityTotal(s, c))
    && r.generation == s.generation && r.activeRecords == |RowsOf(d)| && r.foldedScopes == |s.book.cumulative|
  }

  /** Compaction keeps a projection's caps at every later clock, and its reservation and decision counts. */
  lemma ProjectionKept(a: Report, b: Report, d: Disk, limits: seq<Limit>, compacted: int, stamp: int, now: int)
    requires Inv(d) && compacted <= now && ProjectionOf(a, d, limits, now)
    requires CompactDisk(d, limits, compacted, stamp).Ok? && Load(CompactDisk(d, limits, compacted, stamp).value).Ok?
    requires ProjectionOf(b, CompactDisk(d, limits, compacted, stamp).value, limits, now)
    ensures a.reservations == b.reservations && a.decisions == b.decisions
    ensures forall i | 0 <= i < |limits| :: a.limits[i].committed == b.limits[i].committed
  {
    CapsKept(a, b, d, CompactDisk(d, limits, compacted, stamp).value, limits, compacted, stamp, now);
    CountersKept(a, b, d, CompactDisk(d, limits, compacted, stamp).value, limits, compacted, stamp, now);
  }

  lemma CapsKept(a: Report, b: Report, d: Disk, after: Disk, limits: seq<Limit>, compacted: int, stamp: int, now: int)
    requires Inv(d) && compacted <= now && ProjectionOf(a, d, limits, now)
    requires CompactDisk(d, limits, compacted, stamp) == Ok(after) && Load(after).Ok?
    requires ProjectionOf(b, after, limits, now)
    ensures forall i | 0 <= i < |limits| :: a.limits[i].committed == b.limits[i].committed
  {
    hide CompactDisk, DecisionsAndWarnings;
    forall i | 0 <= i < |limits| ensures a.limits[i].committed == b.limits[i].committed {
      CompactionKeepsConsumption(d, limits, compacted, stamp, limits[i], now);
    }
  }

  lemma CountersKept(a: Report, b: Report, d: Disk, after: Disk, limits: seq<Limit>, compacted: int, stamp: int,
                     now: int)
    requires Inv(d) && ProjectionOf(a, d, limits, now)
    requires CompactDisk(d, limits, compacted, stamp) == Ok(after) && Load(after).Ok?
    requires ProjectionOf(b, after, limits, now)
    ensures a.reservations == b.reservations && a.decisions == b.decisions
  {
    hide CompactDisk, DecisionsAndWarnings, ReportsOn;
    forall v | v in DECISIONS ensures AuditedDecisions(after, v) == AuditedDecisions(d, v) {
      CompactionKeepsCounts(d, limits, compacted, stamp, v);
    }
    CompactionKeepsCounts(d, limits, compacted, stamp, "admit");
    SameCounters(RowsOf(d), Load(d).value.foldedDecisions, RowsOf(after), Load(after).value.foldedDecisions);
  }
}
