/**
 What one more journal row does to a replay. The in-memory changes that the store makes
 (adding a reservation, recording a terminal) agree with replaying the longer journal.
 */
module Replaying {
  import opened Common
  import opened Ledger

  function AddReservation(b: Book, r: Reservation): Book {
    b.(order := if r.id in b.order then b.order else b.order + [r.id],
       reserved := b.reserved[r.id := r],
       terminal := b.terminal - {r.id},
       counts := b.counts[r.id := (if r.id in b.counts then b.counts[r.id] else 0) + 1])
  }

  function AddTerminal(b: Book, t: Terminal): Book {
    b.(terminal := b.terminal[t.id := t])
  }

  /**
   Every row carries at most the newest generation of its id. The store keeps this, and it is
   what stops an older terminal from closing a newer reservation of the same id.
   */
  ghost predicate GenerationsBounded(rows: seq<Row>) {
    forall k | 0 <= k < |rows| ::
      && (rows[k].Reserve? ==>
            rows[k].reservation.generation <= ReservedCount(rows, rows[k].reservation.id))
      && (rows[k].Close? && rows[k].terminal.generation.Some? ==>
            rows[k].terminal.generation.value <= ReservedCount(rows, rows[k].terminal.id))
  }

  lemma SnocInit<T>(xs: seq<T>, x: T)
    ensures (xs + [x])[..|xs + [x]| - 1] == xs
    ensures (xs + [x])[|xs + [x]| - 1] == x
  {
  }

  lemma CountPositive(rows: seq<Row>, id: string)
    ensures id in Order(rows) ==> ReservedCount(rows, id) > 0
  {
    if rows != [] {
      CountPositive(rows[..|rows| - 1], id);
    }
  }

  lemma {:induction false} AcceptedNone(rows: seq<Row>, r: Reservation)
    requires forall k | 0 <= k < |rows| ::
      rows[k].Close? && rows[k].terminal.id == r.id ==> !Accepts(rows[k].terminal, r)
    ensures Accepted(rows, r).None?
  {
    if rows != [] {
      AcceptedNone(rows[..|rows| - 1], r);
    }
  }

  lemma {:induction false} AcceptedMember(rows: seq<Row>, r: Reservation)
    ensures Accepted(rows, r).Some? ==> Close(Accepted(rows, r).value) in rows
  {
    if rows != [] {
      AcceptedMember(rows[..|rows| - 1], r);
    }
  }

  // ---------------------------------------------------------------- books

  /** The reservation that governs `id` after one more row. */
  lemma ReservedSnoc(rows: seq<Row>, row: Row, id: string)
    ensures ReservedIn(rows + [row], id) ==
            if row.Reserve? && row.reservation.id == id && id != "" then Some(row.reservation)
            else ReservedIn(rows, id)
    ensures ReservedCount(rows + [row], id) ==
            ReservedCount(rows, id) + (if row.Reserve? && row.reservation.id == id then 1 else 0)
  {
    SnocInit(rows, row);
  }

  lemma AcceptedSnoc(rows: seq<Row>, row: Row, r: Reservation)
    ensures Accepted(rows + [row], r) ==
            if Accepted(rows, r).Some? then Accepted(rows, r)
            else if row.Close? && row.terminal.id == r.id && Accepts(row.terminal, r) then Some(row.terminal)
            else None
  {
    SnocInit(rows, row);
  }

  lemma OrderSnoc(rows: seq<Row>, row: Row)
    ensures Order(rows + [row]) ==
            if row.Reserve? && row.reservation.id != "" && row.reservation.id !in Order(rows)
            then Order(rows) + [row.reservation.id] else Order(rows)
  {
    SnocInit(rows, row);
  }

  /** Everything a book says about one reservation id. */
  datatype View = View(reserved: Option<Reservation>, terminal: Option<Terminal>, count: Option<nat>)

  function ViewOf(b: Book, id: string): View {
    View(if id in b.reserved then Some(b.reserved[id]) else None,
         if id in b.terminal then Some(b.terminal[id]) else None,
         if id in b.counts then Some(b.counts[id]) else None)
  }

  lemma BookView(rows: seq<Row>, cumulative: seq<Entry>, id: string)
    ensures ViewOf(BookOf(rows, cumulative), id) ==
            View(ReservedIn(rows, id), ClosedIn(rows, id),
                 if ReservedIn(rows, id).Some? then Some(ReservedCount(rows, id)) else None)
  {
  }

  lemma SameViews(b: Book, b': Book)
    requires b.order == b'.order && b.cumulative == b'.cumulative
    requires forall id :: ViewOf(b, id) == ViewOf(b', id)
    ensures b == b'
  {
    forall id
      ensures id in b.reserved <==> id in b'.reserved
      ensures id in b.counts <==> id in b'.counts
      ensures id in b.terminal <==> id in b'.terminal
      ensures id in b.reserved ==> b.reserved[id] == b'.reserved[id]
      ensures id in b.counts ==> b.counts[id] == b'.counts[id]
      ensures id in b.terminal ==> b.terminal[id] == b'.terminal[id]
    {
      assert ViewOf(b, id) == ViewOf(b', id);
    }
    assert b.reserved == b'.reserved && b.counts == b'.counts && b.terminal == b'.terminal;
  }

  lemma ClosedAfterReserve(rows: seq<Row>, r: Reservation, id: string)
    requires r.id != "" && Accepted(rows, r).None?
    ensures ClosedIn(rows + [Reserve(r)], id) == if id == r.id then None else ClosedIn(rows, id)
  {
    ReservedSnoc(rows, Reserve(r), id);
    if id == r.id {
      AcceptedSnoc(rows, Reserve(r), r);
    } else if ReservedIn(rows, id).Some? {
      AcceptedSnoc(rows, Reserve(r), ReservedIn(rows, id).value);
    }
  }

  lemma AddedView(b: Book, r: Reservation, id: string)
    ensures ViewOf(AddReservation(b, r), id) ==
            if id == r.id
            then View(Some(r), None, Some((if ViewOf(b, id).count.Some? then ViewOf(b, id).count.value else 0) + 1))
            else ViewOf(b, id)
  {
  }

  lemma ViewAfterReserve(rows: seq<Row>, r: Reservation, cumulative: seq<Entry>, id: string)
    requires r.id != "" && Accepted(rows, r).None?
    ensures ViewOf(BookOf(rows + [Reserve(r)], cumulative), id)
            == ViewOf(AddReservation(BookOf(rows, cumulative), r), id)
  {
    hide BookOf, ViewOf, AddReservation, ReservedIn, ReservedCount, ClosedIn, Accepted, Order;
    var b := BookOf(rows, cumulative);
    AddedView(b, r, id);
    BookView(rows, cumulative, id);
    BookView(rows + [Reserve(r)], cumulative, id);
    ReservedSnoc(rows, Reserve(r), id);
    ClosedAfterReserve(rows, r, id);
    if id == r.id && id !in Order(rows) { NoCount(rows, id); }
  }

  /** A reserved row of the next generation makes its id live, whatever the id's past. */
  lemma {:induction false} ReplayAfterReserve(rows: seq<Row>, r: Reservation, cumulative: seq<Entry>)
    requires GenerationsBounded(rows)
    requires r.id != "" && r.generation == ReservedCount(rows, r.id) + 1
    ensures BookOf(rows + [Reserve(r)], cumulative) == AddReservation(BookOf(rows, cumulative), r)
  {
    OrderSnoc(rows, Reserve(r));
    NewGenerationIsLive(rows, r);
    forall id
      ensures ViewOf(BookOf(rows + [Reserve(r)], cumulative), id)
              == ViewOf(AddReservation(BookOf(rows, cumulative), r), id)
    {
      ViewAfterReserve(rows, r, cumulative, id);
    }
    SameViews(BookOf(rows + [Reserve(r)], cumulative), AddReservation(BookOf(rows, cumulative), r));
  }

  lemma {:induction false} NewGenerationIsLive(rows: seq<Row>, r: Reservation)
    requires GenerationsBounded(rows) && r.generation == ReservedCount(rows, r.id) + 1
    ensures Accepted(rows, r).None?
  {
    forall k | 0 <= k < |rows| && rows[k].Close? && rows[k].terminal.id == r.id
      ensures !Accepts(rows[k].terminal, r)
    {
      assert rows[k].terminal.generation != Some(r.generation);
    }
    AcceptedNone(rows, r);
  }

  lemma {:induction false} NoCount(rows: seq<Row>, id: string)
    requires id !in Order(rows) && id != ""
    ensures ReservedCount(rows, id) == 0
  {
    if rows != [] {
      NoCount(rows[..|rows| - 1], id);
    }
  }

  function Settled(b: Book, t: Terminal): Book {
    if b.Live(t.id) && Accepts(t, b.reserved[t.id]) then AddTerminal(b, t) else b
  }

  /** A settlement touches only its own id, and only while that id is live. */
  lemma SettledView(b: Book, t: Terminal, id: string)
    requires b.Coherent()
    ensures ViewOf(Settled(b, t), id) ==
            var v := ViewOf(b, id);
            if id == t.id && v.reserved.Some? && v.terminal.None? && Accepts(t, v.reserved.value)
            then v.(terminal := Some(t)) else v
  {
  }

  lemma ClosedAfterClose(rows: seq<Row>, t: Terminal, id: string)
    ensures ClosedIn(rows + [Close(t)], id) ==
            if id == t.id && ReservedIn(rows, id).Some? && ClosedIn(rows, id).None?
               && Accepts(t, ReservedIn(rows, id).value)
            then Some(t) else ClosedIn(rows, id)
  {
    ReservedSnoc(rows, Close(t), id);
    if ReservedIn(rows, id).Some? {
      AcceptedSnoc(rows, Close(t), ReservedIn(rows, id).value);
    }
  }

  lemma ViewAfterClose(rows: seq<Row>, t: Terminal, cumulative: seq<Entry>, id: string)
    ensures ViewOf(BookOf(rows + [Close(t)], cumulative), id)
            == ViewOf(Settled(BookOf(rows, cumulative), t), id)
  {
    SettledView(BookOf(rows, cumulative), t, id);
    BookView(rows, cumulative, id);
    BookView(rows + [Close(t)], cumulative, id);
    ReservedSnoc(rows, Close(t), id);
    ClosedAfterClose(rows, t, id);
  }

  /**
   Exactly-once replay, for every journal: a terminal row closes its reservation only when
   that reservation is live and the validator accepts the row. Any other terminal row (orphan,
   duplicate, wrong run, wrong generation, malformed) leaves the book as it was.
   */
  lemma {:induction false} ReplayAfterClose(rows: seq<Row>, t: Terminal, cumulative: seq<Entry>)
    ensures BookOf(rows + [Close(t)], cumulative) == Settled(BookOf(rows, cumulative), t)
  {
    OrderSnoc(rows, Close(t));
    forall id
      ensures ViewOf(BookOf(rows + [Close(t)], cumulative), id) == ViewOf(Settled(BookOf(rows, cumulative), t), id)
    {
      ViewAfterClose(rows, t, cumulative, id);
    }
    SameViews(BookOf(rows + [Close(t)], cumulative), Settled(BookOf(rows, cumulative), t));
  }

  lemma {:induction false} ReplayAfterDecision(rows: seq<Row>, d: DecisionRow, cumulative: seq<Entry>)
    ensures BookOf(rows + [Decided(d)], cumulative) == BookOf(rows, cumulative)
  {
    OrderSnoc(rows, Decided(d));
    forall id
      ensures ViewOf(BookOf(rows + [Decided(d)], cumulative), id) == ViewOf(BookOf(rows, cumulative), id)
    {
      BookView(rows, cumulative, id);
      BookView(rows + [Decided(d)], cumulative, id);
      ReservedSnoc(rows, Decided(d), id);
      if ReservedIn(rows, id).Some? {
        AcceptedSnoc(rows, Decided(d), ReservedIn(rows, id).value);
      }
    }
    SameViews(BookOf(rows + [Decided(d)], cumulative), BookOf(rows, cumulative));
  }

  // ---------------------------------------------------------------- integrity counters

  lemma {:induction false} RefusedSameReservations(rows: seq<Row>, all: seq<Row>, all': seq<Row>, c: Integrity)
    requires forall id :: ReservedIn(all, id) == ReservedIn(all', id)
    ensures Refused(rows, all, c) == Refused(rows, all', c)
  {
    if rows != [] {
      RefusedSameReservations(rows[..|rows| - 1], all, all', c);
    }
  }

  /** A refused terminal raises exactly its own class by one; an accepted one raises none. */
  lemma {:induction false} RefusalIsCounted(rows: seq<Row>, t: Terminal, c: Integrity)
    requires t.id != ""
    ensures var b := BookOf(rows, []);
            Refused(rows + [Close(t)], rows + [Close(t)], c) == Refused(rows, rows, c) +
            (if t.id !in b.reserved then (if c == OrphanTerminal then 1 else 0)
             else if t.id in b.terminal then (if c == DuplicateTerminal then 1 else 0)
             else if TerminalIntegrity(t, b.reserved[t.id]) == Some(c) then 1 else 0)
  {
    var after := rows + [Close(t)];
    SnocInit(rows, Close(t));
    forall id ensures ReservedIn(after, id) == ReservedIn(rows, id) {}
    RefusedSameReservations(rows, rows, after, c);
  }

  // ---------------------------------------------------------------- every terminal row is accounted for

  /** How many terminal rows name `id` and are accepted, when `all` is the whole journal. */
  function Acceptances(rows: seq<Row>, all: seq<Row>, id: string): nat {
    if rows == [] then 0
    else
      var prior, last := rows[..|rows| - 1], rows[|rows| - 1];
      Acceptances(prior, all, id)
      + (if last.Close? && last.terminal.id == id && Classify(prior, all, last).None? then 1 else 0)
  }

  lemma {:induction false} AcceptancesOf(rows: seq<Row>, all: seq<Row>, id: string)
    requires id != ""
    ensures Acceptances(rows, all, id) ==
            if ReservedIn(all, id).Some? && Accepted(rows, ReservedIn(all, id).value).Some? then 1 else 0
  {
    hide ReservedIn, TerminalIntegrity;
    if rows != [] {
      var prior, last := rows[..|rows| - 1], rows[|rows| - 1];
      AcceptancesOf(prior, all, id);
      SnocInit(prior, last);
      assert rows == prior + [last];
      if ReservedIn(all, id).Some? { AcceptedSnoc(prior, last, ReservedIn(all, id).value); }
    }
  }

  /** In every journal a reservation has exactly one accepted terminal when it is closed, and none otherwise. */
  lemma AtMostOneAcceptance(rows: seq<Row>, cumulative: seq<Entry>, id: string)
    requires id != ""
    ensures Acceptances(rows, rows, id) == if BookOf(rows, cumulative).Closed(id) then 1 else 0
  {
    AcceptancesOf(rows, rows, id);
    BookView(rows, cumulative, id);
  }

  /** Terminal rows that name a reservation. */
  function NamedTerminals(rows: seq<Row>): nat {
    if rows == [] then 0
    else
      var last := rows[|rows| - 1];
      NamedTerminals(rows[..|rows| - 1]) + (if last.Close? && last.terminal.id != "" then 1 else 0)
  }

  /** The ids closed by `rows`, when `all` is the whole journal. */
  function ClosedBy(rows: seq<Row>, all: seq<Row>): set<string> {
    if rows == [] then {}
    else
      var prior, last := rows[..|rows| - 1], rows[|rows| - 1];
      ClosedBy(prior, all)
      + (if last.Close? && last.terminal.id != "" && Classify(prior, all, last).None? then {last.terminal.id} else {})
  }

  /** Refused terminal rows, over all the classes a terminal can be refused for. */
  function TerminalRefusals(rows: seq<Row>, all: seq<Row>): nat {
    Refused(rows, all, OrphanTerminal) + Refused(rows, all, DuplicateTerminal) + Refused(rows, all, IdentityMismatch)
    + Refused(rows, all, GenerationMismatch) + Refused(rows, all, MissingFields) + Refused(rows, all, InvalidCharge)
  }

  lemma ClosedBySnoc(prior: seq<Row>, last: Row, all: seq<Row>, id: string)
    ensures id in ClosedBy(prior + [last], all) <==>
            id in ClosedBy(prior, all)
            || (last.Close? && last.terminal.id == id && id != "" && Classify(prior, all, last).None?)
  {
    hide Classify;
    SnocInit(prior, last);
  }

  lemma {:induction false} ClosedByIs(rows: seq<Row>, all: seq<Row>, id: string)
    ensures id in ClosedBy(rows, all) <==>
            id != "" && ReservedIn(all, id).Some? && Accepted(rows, ReservedIn(all, id).value).Some?
  {
    if rows != [] {
      hide ClosedBy, Accepted, ReservedIn, TerminalIntegrity, Order;
      var prior, last := rows[..|rows| - 1], rows[|rows| - 1];
      ClosedByIs(prior, all, id);
      assert rows == prior + [last];
      ClosedBySnoc(prior, last, all, id);
      if ReservedIn(all, id).Some? { AcceptedSnoc(prior, last, ReservedIn(all, id).value); }
    }
  }

  lemma OneRefusal(prior: seq<Row>, all: seq<Row>, last: Row)
    ensures TerminalRefusals(prior + [last], all) ==
            TerminalRefusals(prior, all) + (if Classify(prior, all, last).Some? then 1 else 0)
  {
    SnocInit(prior, last);
  }

  lemma {:induction false} PrefixAccounted(rows: seq<Row>, all: seq<Row>)
    ensures NamedTerminals(rows) == |ClosedBy(rows, all)| + TerminalRefusals(rows, all)
  {
    if rows != [] {
      var prior, last := rows[..|rows| - 1], rows[|rows| - 1];
      PrefixAccounted(prior, all);
      OneRefusal(prior, all, last);
      assert rows == prior + [last];
      if last.Close? { ClosedByIs(prior, all, last.terminal.id); }
    }
  }

  /** No terminal row is lost or counted twice: each closes a reservation or raises one counter. */
  lemma TerminalsAccounted(rows: seq<Row>, cumulative: seq<Entry>)
    ensures NamedTerminals(rows) == |BookOf(rows, cumulative).terminal| + TerminalRefusals(rows, rows)
  {
    PrefixAccounted(rows, rows);
    var b := BookOf(rows, cumulative);
    forall id ensures id in b.terminal <==> id in ClosedBy(rows, rows) {
      ClosedByIs(rows, rows, id);
      BookView(rows, cumulative, id);
      NamedReservations(rows, id);
    }
    assert b.terminal.Keys == ClosedBy(rows, rows);
  }

  lemma {:induction false} NamedReservations(rows: seq<Row>, id: string)
    ensures ReservedIn(rows, id).Some? ==> id != ""
  {
    if rows != [] { NamedReservations(rows[..|rows| - 1], id); }
  }

  /** Any number of refused terminals, one after the other, leave the book, and so every limit, as it was. */
  lemma {:induction false} RefusedChangeNothing(rows: seq<Row>, extra: seq<Terminal>, cumulative: seq<Entry>)
    requires var b := BookOf(rows, cumulative); forall t | t in extra :: !(b.Live(t.id) && Accepts(t, b.reserved[t.id]))
    ensures BookOf(rows + Closes(extra), cumulative) == BookOf(rows, cumulative)
  {
    if extra == [] {
      assert rows + Closes(extra) == rows;
    } else {
      var init, last := extra[..|extra| - 1], extra[|extra| - 1];
      RefusedChangeNothing(rows, init, cumulative);
      ReplayAfterClose(rows + Closes(init), last, cumulative);
      assert rows + Closes(extra) == rows + Closes(init) + [Close(last)];
    }
  }

  function Closes(ts: seq<Terminal>): seq<Row> { seq(|ts|, i requires 0 <= i < |ts| => Close(ts[i])) }

  // ---------------------------------------------------------------- disks

  lemma ReadAfter(lines: seq<Line>, row: Row)
    requires ReadJournal(lines).Ok?
    ensures var j := ReadJournal(lines).value;
            ReadJournal(lines + [Record(row)]) == Ok(j.(rows := j.rows + [row]))
  {
    SnocInit(lines, Record(row));
  }

  function Append(d: Disk, row: Row): Disk {
    d.(lines := d.lines + [Record(row)])
  }

  function RowsOf(d: Disk): seq<Row>
    requires ReadJournal(d.lines).Ok?
  {
    ReadJournal(d.lines).value.rows
  }

  /** Appending a row never turns a loadable disk into a corrupt one, and keeps its folded half. */
  lemma LoadAfterAppend(d: Disk, row: Row)
    requires Load(d).Ok?
    ensures Load(Append(d, row)).Ok?
    ensures var s, s' := Load(d).value, Load(Append(d, row)).value;
            && RowsOf(Append(d, row)) == RowsOf(d) + [row]
            && s.book == BookOf(RowsOf(d), s.book.cumulative)
            && s'.book == BookOf(RowsOf(d) + [row], s.book.cumulative)
            && s'.generation == s.generation
            && s'.foldedDecisions == s.foldedDecisions
            && s'.foldedTally == s.foldedTally
            && s'.foldedIntegrity == s.foldedIntegrity
  {
    ReadAfter(d.lines, row);
  }
}
