/**
 What was really spent: all the rows a compacting store ever wrote, none folded away. Where its ledger
 reads the same, where the caps hold of it, and the exact clocks at which they may not.
 */
module Spending {
  import opened Common
  import opened Ledger
  import opened Replaying
  import opened Consuming
  import opened Compacting
  import opened Operations
  import opened Admission
  import opened Runs
  import opened Invisibility
  import opened Caps
  import opened Visibility

  // ---------------------------------------------------------------- every row ever written

  /** The rows a store that compacts appends along a history, in order. */
  function AllRows(cfg: Config, d: Disk, acts: seq<Act>): seq<Row>
    decreases |acts|
  {
    if acts == [] then [] else ActRows(cfg, d, acts[0]) + AllRows(cfg, ActOn(cfg, d, acts[0], true), acts[1..])
  }

  /** The book of those rows: every launch, and every charge ever accepted. */
  function SpentBook(cfg: Config, acts: seq<Act>): Book { BookOf(AllRows(cfg, EMPTY_DISK, acts), []) }

  /** No row of the act reserves an id that `written` holds and the ledger has folded away. */
  ghost predicate NewOrHeld(cfg: Config, d: Disk, written: seq<Row>, a: Act) {
    Load(d).Ok? ==> forall row | row in ActRows(cfg, d, a) && row.Reserve? ::
      row.reservation.id in Load(d).value.book.reserved || row.reservation.id !in Order(written)
  }

  /** Along a history no row reserves an id that was folded away; `written` are the rows written before it. */
  ghost predicate FoldedIdsUnused(cfg: Config, d: Disk, written: seq<Row>, acts: seq<Act>)
    decreases |acts|
  {
    acts == [] ||
    (&& NewOrHeld(cfg, d, written, acts[0])
     && FoldedIdsUnused(cfg, ActOn(cfg, d, acts[0], true), written + ActRows(cfg, d, acts[0]), acts[1..]))
  }

  /** A journal of all the rows, never compacted. */
  function FullDisk(written: seq<Row>): Disk { AppendAll(EMPTY_DISK, written) }

  lemma FullDiskMore(written: seq<Row>, rows: seq<Row>)
    ensures FullDisk(written + rows) == AppendAll(FullDisk(written), rows)
  {
    assert Records(written + rows) == Records(written) + Records(rows);
  }

  lemma {:induction false} FullDiskReads(written: seq<Row>)
    ensures ReadJournal(FullDisk(written).lines) == Ok(Journal(0, written, 0, 0, None))
    ensures Load(FullDisk(written)).Ok? && Load(FullDisk(written)).value.book == BookOf(written, [])
  {
    if written != [] {
      var init, last := written[..|written| - 1], written[|written| - 1];
      assert written == init + [last];
      FullDiskReads(init);
      FullDiskMore(init, [last]);
      SnocInit(FullDisk(init).lines, Record(last));
    }
  }

  // ---------------------------------------------------------------- the ledger against all rows

  /** At most one row reserves, the first, and only an id that both books hold or neither does. */
  ghost predicate ReservesFirst(c: Book, p: Book, rows: seq<Row>) {
    forall k | 0 <= k < |rows| && rows[k].Reserve? ::
      k == 0 && (rows[k].reservation.id in c.reserved <==> rows[k].reservation.id in p.reserved)
  }

  lemma FitsAlike(c: Book, p: Book, h: Option<int>, row: Row)
    requires Sim(c, p, h) && Fits(c, row)
    requires row.Reserve? ==> (row.reservation.id in c.reserved <==> row.reservation.id in p.reserved)
    ensures Fits(p, row)
  {
    hide SameConsumption;
    match row
    case Reserve(r) => if r.id in c.reserved { assert ViewOf(c, r.id) == ViewOf(p, r.id); }
    case Close(t) => assert ViewOf(c, t.id) == ViewOf(p, t.id);
    case Decided(_) =>
  }

  lemma SimRow(c: Book, p: Book, h: Option<int>, row: Row)
    requires Sim(c, p, h)
    requires row.Reserve? ==> (row.reservation.id in c.reserved <==> row.reservation.id in p.reserved)
    ensures Sim(Apply(c, row), Apply(p, row), h)
  {
    match row
    case Reserve(r) => SimReserve(c, p, h, r);
    case Close(t) => SimClose(c, p, h, t);
    case Decided(_) =>
  }

  lemma {:induction false} AllFitAlike(c: Book, p: Book, h: Option<int>, rows: seq<Row>)
    requires Sim(c, p, h) && AllFit(c, rows) && ReservesFirst(c, p, rows)
    ensures AllFit(p, rows)
    decreases |rows|
  {
    hide Sim, Fits;
    if rows != [] {
      FitsAlike(c, p, h, rows[0]);
      SimRow(c, p, h, rows[0]);
      AllFitAlike(Apply(c, rows[0]), Apply(p, rows[0]), h, rows[1..]);
    }
  }

  /** No row of a plan but the first reserves. */
  lemma PlanReservesFirst(cfg: Config, b: Book, op: Op)
    requires b.Coherent()
    ensures var rows := PlanOf(cfg, b, op).rows; forall k | 0 <= k < |rows| && rows[k].Reserve? :: k == 0
  {
    if op.DoRecover? { SweepsTerminals(cfg, b, b.order, op.sweep); }
  }

  lemma RowsReserveFirst(cfg: Config, d: Disk, a: Act)
    requires Inv(d)
    ensures var rows := ActRows(cfg, d, a); forall k | 0 <= k < |rows| && rows[k].Reserve? :: k == 0
  {
    if !a.CrashedCompaction? && Early(cfg, a.op).None? { PlanReservesFirst(cfg, Load(d).value.book, a.op); }
  }

  lemma ActFits(cfg: Config, d: Disk, a: Act)
    requires cfg.Valid() && Inv(d)
    ensures AllFit(Load(d).value.book, ActRows(cfg, d, a))
  {
    match a
    case Call(op) => WrittenFits(cfg, d, op, RowCount(cfg, d, op));
    case CrashedCall(op, written) => WrittenFits(cfg, d, op, written);
    case CrashedCompaction(_, _, _) =>
  }

  /** The rows of an act, appended to the ledger and to the journal of all rows, keep the two in step. */
  lemma SimAppend(cfg: Config, c: Disk, written: seq<Row>, a: Act, h: Option<int>)
    requires cfg.Valid() && SimDisk(c, FullDisk(written), h) && NewOrHeld(cfg, c, written, a)
    ensures var rows := ActRows(cfg, c, a);
            && SimDisk(AppendAll(c, rows), FullDisk(written + rows), h)
            && ReservesFirst(Load(c).value.book, BookOf(written, []), rows)
            && BookOf(written + rows, []) == ApplyAll(BookOf(written, []), rows)
  {
    hide PlanOf, BookOf, Sim;
    var p, rows := FullDisk(written), ActRows(cfg, c, a);
    var bc, bp := Load(c).value.book, Load(p).value.book;
    FullDiskReads(written);
    ActFits(cfg, c, a);
    RowsReserveFirst(cfg, c, a);
    ReservesHeld(cfg, c, written, a, h);
    AllFitAlike(bc, bp, h, rows);
    WrittenRowsReplay(c, rows);
    WrittenRowsReplay(p, rows);
    SimRows(bc, bp, h, rows);
    FullDiskMore(written, rows);
    FullDiskReads(written + rows);
  }

  lemma ReservesHeld(cfg: Config, c: Disk, written: seq<Row>, a: Act, h: Option<int>)
    requires Load(c).Ok? && Sim(Load(c).value.book, BookOf(written, []), h) && NewOrHeld(cfg, c, written, a)
    requires var rows := ActRows(cfg, c, a); forall k | 0 <= k < |rows| && rows[k].Reserve? :: k == 0
    ensures ReservesFirst(Load(c).value.book, BookOf(written, []), ActRows(cfg, c, a))
  {
    hide ActRows;
    var rows := ActRows(cfg, c, a);
    forall k | 0 <= k < |rows| && rows[k].Reserve?
      ensures rows[k].reservation.id in Load(c).value.book.reserved
              <==> rows[k].reservation.id in BookOf(written, []).reserved
    {
      assert rows[k] in rows;
    }
  }

  lemma ActRowsOfCall(cfg: Config, d: Disk, op: Op)
    requires Load(d).Ok? && Early(cfg, op).None?
    ensures ActRows(cfg, d, Call(op)) == PlanOf(cfg, Load(d).value.book, op).rows
  {
  }

  lemma SimSpentCall(cfg: Config, c: Disk, written: seq<Row>, op: Op, h: Option<int>)
    requires cfg.Valid() && SimDisk(c, FullDisk(written), h) && NewOrHeld(cfg, c, written, Call(op)) && LegalOp(op)
    ensures SimDisk(Step(cfg, c, op, true).0, FullDisk(written + ActRows(cfg, c, Call(op))), NewestFold(cfg, c, op, h))
  {
    hide PlanOf, NewOrHeld, Sim;
    var rows := ActRows(cfg, c, Call(op));
    SimAppend(cfg, c, written, Call(op), h);
    if Early(cfg, op).Some? {
      assert AppendAll(c, []) == c;
    } else if op.DoNoise? {
      NoiseLoads(c, op.line);
      WritesNothing(cfg, c, op);
      assert written + [] == written;
    } else {
      ActRowsOfCall(cfg, c, op);
      SimAfterRows(cfg, AppendAll(c, rows), FullDisk(written + rows), op, PlanOf(cfg, Load(c).value.book, op).reply, h);
    }
  }

  lemma WritesNothing(cfg: Config, d: Disk, op: Op)
    requires op.DoNoise? || op.DoCompact?
    ensures ActRows(cfg, d, Call(op)) == [] && (op.DoCompact? ==> Written(cfg, d, op) == d)
  {
    assert AppendAll(d, []) == d;
  }

  /** One act: the ledger fails closed, or stays in step with the journal of all rows. */
  lemma SimSpent(cfg: Config, c: Disk, written: seq<Row>, a: Act, h: Option<int>)
    requires cfg.Valid() && SimDisk(c, FullDisk(written), h) && NewOrHeld(cfg, c, written, a) && LegalAct(a)
    ensures var c' := ActOn(cfg, c, a, true);
            Load(c').Raise? || SimDisk(c', FullDisk(written + ActRows(cfg, c, a)), NewestFoldOf(cfg, c, a, h))
  {
    hide SimDisk, NewOrHeld;
    match a
    case Call(op) => SimSpentCall(cfg, c, written, op, h);
    case CrashedCall(op, n) => SimAppend(cfg, c, written, a, h);
    case CrashedCompaction(_, _, _) =>
      SimCrash(cfg, c, FullDisk(written), a, h);
      assert written + [] == written;
  }

  lemma {:induction false} SimAllRows(cfg: Config, c: Disk, written: seq<Row>, acts: seq<Act>, h: Option<int>)
    requires cfg.Valid() && (Load(c).Raise? || SimDisk(c, FullDisk(written), h))
    requires FoldedIdsUnused(cfg, c, written, acts) && forall a | a in acts :: LegalAct(a)
    ensures var c' := History(cfg, c, acts, true);
            Load(c').Raise?
            || SimDisk(c', FullDisk(written + AllRows(cfg, c, acts)), NewestFoldIn(cfg, c, acts, h))
    decreases |acts|
  {
    if acts == [] {
      assert written + [] == written;
    } else {
      var a, rows := acts[0], ActRows(cfg, c, acts[0]);
      assert a in acts && forall x | x in acts[1..] :: x in acts;
      if Load(c).Raise? { TornStays(cfg, c, a, true); } else { SimSpent(cfg, c, written, a, h); }
      SimAllRows(cfg, ActOn(cfg, c, a, true), written + rows, acts[1..], NewestFoldOf(cfg, c, a, h));
      var rest := AllRows(cfg, ActOn(cfg, c, a, true), acts[1..]);
      assert written + (rows + rest) == written + rows + rest;
    }
  }

  /**
   Over every history in which no folded id is reserved again, the ledger fails closed or reads every
   cap as all the rows ever written do, at every clock from which the cap clears the newest horizon.
   */
  lemma LedgerReadsSpent(cfg: Config, acts: seq<Act>)
    requires cfg.Valid() && FoldedIdsUnused(cfg, EMPTY_DISK, [], acts) && forall a | a in acts :: LegalAct(a)
    ensures var d := History(cfg, EMPTY_DISK, acts, true);
            Load(d).Raise?
            || SameConsumption(Load(d).value.book, SpentBook(cfg, acts), NewestFoldIn(cfg, EMPTY_DISK, acts, None))
  {
    hide SameConsumption, FoldedIdsUnused, AllRows, NewestFoldIn, History, BookOf, FullDisk;
    EmptyInStep();
    SimAllRows(cfg, EMPTY_DISK, [], acts, None);
    assert [] + AllRows(cfg, EMPTY_DISK, acts) == AllRows(cfg, EMPTY_DISK, acts);
    FullDiskReads(AllRows(cfg, EMPTY_DISK, acts));
  }

  lemma EmptyInStep()
    ensures SimDisk(EMPTY_DISK, FullDisk([]), None)
  {
    EmptyInv();
    assert FullDisk([]) == EMPTY_DISK;
    SimSelf(BookOf([], []), None);
  }

  lemma EmptyReads(lim: Limit, at: int)
    ensures Consumption(BookOf([], []), lim, at) == 0
  {
  }

  // ---------------------------------------------------------------- the caps hold of all rows

  lemma {:induction false} NoReserveRows(b: Book, rows: seq<Row>)
    requires forall row | row in rows :: row.Decided?
    ensures ApplyAll(b, rows) == b
    decreases |rows|
  {
    if rows != [] {
      assert rows[0] in rows && forall row | row in rows[1..] :: row in rows;
      NoReserveRows(b, rows[1..]);
    }
  }

  /** Rows of a reserve, applied to any book: the launch, if it was admitted and its row was written. */
  lemma ReserveRows(cfg: Config, c: Book, op: Op, n: nat, p: Book)
    requires c.Coherent() && op.DoReserve? && n <= |PlanOf(cfg, c, op).rows|
    ensures var rows := PlanOf(cfg, c, op).rows[..n];
            && ApplyAll(p, rows) == (if Admits(rows) then AddReservation(p, rows[0].reservation) else p)
            && (Admits(rows) ==> PlanOf(cfg, c, op).reply.Admitted? && !c.Live(op.req.id)
                                 && rows[0].reservation == NewReservation(cfg, c, op.req, op.at))
  {
    var rows := PlanOf(cfg, c, op).rows[..n];
    if Admits(rows) {
      assert forall row | row in rows[1..] :: row.Decided?;
      NoReserveRows(AddReservation(p, rows[0].reservation), rows[1..]);
    } else {
      NoReserveRows(p, rows);
    }
  }

  /** The launch leaves all rows under the cap: at `at` they read what the ledger read, or the cap is zero. */
  lemma LaunchWithinCap(cfg: Config, c: Book, p: Book, h: Option<int>, op: Op, lim: Limit, at: int)
    requires Sim(c, p, h) && op.DoReserve? && !c.Live(op.req.id) && op.now <= at && lim in cfg.limits
    requires PlanOf(cfg, c, op).reply.Admitted?
    requires Clears(lim, at, h) || lim.cap == 0
    requires Consumption(p, lim, at) <= lim.cap
    ensures Consumption(AddReservation(p, NewReservation(cfg, c, op.req, op.at)), lim, at) <= lim.cap
  {
    hide Share, Shares, FoldedSum;
    AdmissionExact(cfg, c, op.req, op.now, op.at);
    ConsumptionShrinks(c, lim, op.now, at);
    ReserveWithinCaps(p, NewReservation(cfg, c, op.req, op.at), lim, at);
  }

  lemma SameTerminals(c: Book, p: Book, h: Option<int>, rows: seq<Row>)
    requires Sim(c, p, h) && Terminals(c, rows) && ChargesWithin(c, rows)
    ensures Terminals(p, rows) && ChargesWithin(p, rows)
  {
    hide SameConsumption;
    forall k | 0 <= k < |rows|
      ensures rows[k].terminal.id in p.reserved && p.reserved[rows[k].terminal.id] == c.reserved[rows[k].terminal.id]
    {
      assert ViewOf(c, rows[k].terminal.id) == ViewOf(p, rows[k].terminal.id);
    }
  }

  lemma PlanTerminals(cfg: Config, b: Book, op: Op, n: nat)
    requires b.Coherent() && !op.DoReserve? && n <= |PlanOf(cfg, b, op).rows|
    ensures Terminals(b, PlanOf(cfg, b, op).rows[..n])
  {
    if op.DoRecover? { SweepsTerminals(cfg, b, b.order, op.sweep); }
  }

  /** The rows of one act, applied to the book of all rows, keep the cap there. */
  lemma SpentRowsWithinCap(cfg: Config, c: Book, p: Book, h: Option<int>, op: Op, n: nat, lim: Limit, at: int)
    requires Sim(c, p, h) && Early(cfg, op).None? && lim in cfg.limits && n <= |PlanOf(cfg, c, op).rows|
    requires ChargesWithin(c, PlanOf(cfg, c, op).rows[..n])
    requires op.DoReserve? && Admits(PlanOf(cfg, c, op).rows[..n]) ==> op.now <= at
    requires Clears(lim, at, h) || lim.cap == 0
    requires Consumption(p, lim, at) <= lim.cap
    ensures Consumption(ApplyAll(p, PlanOf(cfg, c, op).rows[..n]), lim, at) <= lim.cap
  {
    hide Consumption, SameConsumption, Clears, PlanOf, ChargesWithin, Terminals;
    var rows := PlanOf(cfg, c, op).rows[..n];
    if op.DoReserve? {
      ReserveRows(cfg, c, op, n, p);
      if Admits(rows) { LaunchWithinCap(cfg, c, p, h, op, lim, at); }
    } else {
      PlanTerminals(cfg, c, op, n);
      SameTerminals(c, p, h, rows);
      TerminalsWithinCaps(p, rows, lim, at);
    }
  }

  lemma SpentActWithinCap(cfg: Config, c: Disk, written: seq<Row>, a: Act, h: Option<int>, lim: Limit, at: int)
    requires cfg.Valid() && SimDisk(c, FullDisk(written), h) && NewOrHeld(cfg, c, written, a) && lim in cfg.limits
    requires HonestAct(cfg, c, a, at) && (Clears(lim, at, h) || lim.cap == 0)
    requires Consumption(BookOf(written, []), lim, at) <= lim.cap
    ensures Consumption(BookOf(written + ActRows(cfg, c, a), []), lim, at) <= lim.cap
  {
    hide Consumption, PlanOf, Sim, BookOf, NewOrHeld, ChargesWithin, Clears;
    SimAppend(cfg, c, written, a, h);
    FullDiskReads(written);
    if !a.CrashedCompaction? && Early(cfg, a.op).None? {
      var n := if a.Call? then RowCount(cfg, c, a.op) else a.written;
      var rows := PlanOf(cfg, Load(c).value.book, a.op).rows;
      SpentRowsWithinCap(cfg, Load(c).value.book, BookOf(written, []), h, a.op, CutAt(n, |rows|), lim, at);
    }
  }

  /** The newest horizon only moves forward along a history. */
  lemma {:induction false} HorizonGrows(cfg: Config, d: Disk, acts: seq<Act>, h: Option<int>, lim: Limit, at: int)
    requires Clears(lim, at, NewestFoldIn(cfg, d, acts, h))
    ensures Clears(lim, at, h)
    decreases |acts|
  {
    if acts != [] {
      HorizonGrows(cfg, ActOn(cfg, d, acts[0], true), acts[1..], NewestFoldOf(cfg, d, acts[0], h), lim, at);
    }
  }

  lemma {:induction false} SpentHistory(cfg: Config, c: Disk, written: seq<Row>, acts: seq<Act>, h: Option<int>,
                                        lim: Limit, at: int)
    requires cfg.Valid() && (Load(c).Raise? || SimDisk(c, FullDisk(written), h)) && lim in cfg.limits
    requires HonestHistory(cfg, c, acts, at, true) && FoldedIdsUnused(cfg, c, written, acts)
    requires Clears(lim, at, NewestFoldIn(cfg, c, acts, h)) || lim.cap == 0
    requires Consumption(BookOf(written, []), lim, at) <= lim.cap
    ensures Consumption(BookOf(written + AllRows(cfg, c, acts), []), lim, at) <= lim.cap
    decreases |acts|
  {
    hide Consumption, BookOf, SimDisk, HonestAct, NewOrHeld, Clears, ActRows, ActOn, NewestFoldOf;
    if acts == [] {
      assert written + [] == written;
    } else {
      var a, rows := acts[0], ActRows(cfg, c, acts[0]);
      if Load(c).Raise? {
        TornStays(cfg, c, a, true);
        TornWrites(cfg, c, a);
        assert written + [] == written;
      } else {
        if lim.cap != 0 { HorizonGrows(cfg, c, acts, h, lim, at); }
        SimSpent(cfg, c, written, a, h);
        SpentActWithinCap(cfg, c, written, a, h, lim, at);
      }
      SpentHistory(cfg, ActOn(cfg, c, a, true), written + rows, acts[1..], NewestFoldOf(cfg, c, a, h), lim, at);
      var rest := AllRows(cfg, ActOn(cfg, c, a, true), acts[1..]);
      assert written + (rows + rest) == written + rows + rest;
    }
  }

  lemma TornWrites(cfg: Config, d: Disk, a: Act)
    requires Load(d).Raise?
    ensures ActRows(cfg, d, a) == []
  {
  }

  /** The histories a cap is to survive: honest, checked no later than `at`, and reserving no folded id again. */
  ghost predicate Spends(cfg: Config, acts: seq<Act>, lim: Limit, at: int) {
    && cfg.Valid() && lim in cfg.limits
    && HonestHistory(cfg, EMPTY_DISK, acts, at, true) && FoldedIdsUnused(cfg, EMPTY_DISK, [], acts)
  }

  /**
   No overspending: over every such history, whatever the interleaving of calls and wherever they and
   compactions die, all that was ever reserved and charged stays under every configured cap, at every
   clock no earlier than the newest admission from which the cap clears the newest folding horizon.
   This holds of a ledger that fails closed too.
   */
  lemma SpendWithinCap(cfg: Config, acts: seq<Act>, lim: Limit, at: int)
    requires Spends(cfg, acts, lim, at)
    requires Clears(lim, at, NewestFoldIn(cfg, EMPTY_DISK, acts, None)) || lim.cap == 0
    ensures Consumption(SpentBook(cfg, acts), lim, at) <= lim.cap
  {
    hide HonestHistory, FoldedIdsUnused, AllRows, NewestFoldIn, Clears, SimDisk, Consumption;
    EmptyInStep();
    EmptyReads(lim, at);
    SpentHistory(cfg, EMPTY_DISK, [], acts, None, lim, at);
    assert [] + AllRows(cfg, EMPTY_DISK, acts) == AllRows(cfg, EMPTY_DISK, acts);
  }

  // ---------------------------------------------------------------- the clocks at which it fails

  /** What a history of acts does from `d` on, `written` being the rows before it and `h` the horizon. */
  ghost predicate Goes(cfg: Config, d: Disk, written: seq<Row>, h: Option<int>, acts: seq<Act>, at: int,
                       rows: seq<Row>, h': Option<int>) {
    && HonestHistory(cfg, d, acts, at, true) && FoldedIdsUnused(cfg, d, written, acts)
    && AllRows(cfg, d, acts) == rows && NewestFoldIn(cfg, d, acts, h) == h'
  }

  lemma GoOn(cfg: Config, d: Disk, written: seq<Row>, h: Option<int>, a: Act, acts: seq<Act>, at: int,
             rows: seq<Row>, h': Option<int>)
    requires LegalAct(a) && HonestAct(cfg, d, a, at) && NewOrHeld(cfg, d, written, a)
    requires Goes(cfg, ActOn(cfg, d, a, true), written + ActRows(cfg, d, a), NewestFoldOf(cfg, d, a, h), acts, at,
                  rows, h')
    ensures Goes(cfg, d, written, h, [a] + acts, at, ActRows(cfg, d, a) + rows, h')
  {
    assert ([a] + acts)[1..] == acts;
  }

  /** Launch and settle one unit, compact so that the horizon is `h`, and launch again at the clock `at`. */
  function StaleActs(lim: Limit, at: int, h: int): seq<Act> {
    [Call(Launch(lim, "a", at - lim.window))]
    + ([Call(Finish1("a", at - lim.window))]
       + ([Call(DoCompact(h + lim.window, h + lim.window))] + ([Call(Launch(lim, "b", at))] + [])))
  }

  lemma LaunchedFirst(lim: Limit, t: int, at: int)
    requires t <= at
    ensures var cfg, a := OneCap(lim, lim.cap), Call(Launch(lim, "a", t));
            && HonestAct(cfg, EMPTY_DISK, a, at) && NewOrHeld(cfg, EMPTY_DISK, [], a)
            && ActOn(cfg, EMPTY_DISK, a, true) == FullDisk(ActRows(cfg, EMPTY_DISK, a))
            && NewestFoldOf(cfg, EMPTY_DISK, a, None) == None
  {
    var cfg, op := OneCap(lim, lim.cap), Launch(lim, "a", t);
    EmptyInv();
    Admitted1(lim, lim.cap, t, true);
    ActRowsOfCall(cfg, EMPTY_DISK, op);
  }

  /** One unit, of a launch that declared at least one. */
  lemma SettledNext(cfg: Config, d: Disk, r: Reservation, lim: Limit, t: int, at: int)
    requires cfg.Valid() && Inv(d) && |RowsOf(d)| == 2 && r.declared > 0
    requires IsFirst(r, lim) && Load(d).value.book == AddReservation(BookOf([], []), r)
    requires Load(d).value.book.Live("a") && Load(d).value.book.reserved["a"] == r
    ensures var a := Call(Finish1("a", t));
            && HonestAct(cfg, d, a, at) && ActRows(cfg, d, a) != [] && NewOrHeld(cfg, d, RowsOf(d), a)
            && ActOn(cfg, d, a, true) == AppendAll(d, ActRows(cfg, d, a)) && NewestFoldOf(cfg, d, a, None) == None
            && Inv(ActOn(cfg, d, a, true)) && HoldsUnit(Load(ActOn(cfg, d, a, true)).value.book, lim, t)
  {
    hide PlanOf, Load, HoldsUnit, AddReservation, GenerationsBounded, DecisionsKnown;
    var b, op := Load(d).value.book, Finish1("a", t);
    ReservedCoherent(BookOf([], []), r);
    UnitRow(cfg, b, r, t);
    ActRowsOfCall(cfg, d, op);
    SmallStep(cfg, d, op, true);
    Settled1(cfg, d, r, lim, t, true);
  }

  lemma UnitRow(cfg: Config, b: Book, r: Reservation, t: int)
    requires b.Coherent() && b.Live(r.id) && b.reserved[r.id] == r && r.id == "a" && r.metric == "m" && r.declared > 0
    ensures var rows := PlanOf(cfg, b, Finish1("a", t)).rows;
            |rows| == 1 && rows[0].Close? && ChargesWithin(b, rows)
  {
    var usage := Usage(map["m" := 1], true, None);
    assert PlanOf(cfg, b, Finish1("a", t)).rows == [Close(Reconciliation(cfg, r, "r", usage, "terminal_usage", t))];
    assert ChargeFor(cfg, r, usage) == 1;
  }

  /** A compaction whose horizon is `h`, after the unit. */
  lemma FoldedNext(d: Disk, lim: Limit, t: int, h: int, at: int)
    requires Inv(d) && HoldsUnit(Load(d).value.book, lim, t) && lim.window > 0 && t < h
    ensures var cfg, a := OneCap(lim, lim.cap), Call(DoCompact(h + lim.window, h + lim.window));
            var d' := ActOn(cfg, d, a, true);
            && HonestAct(cfg, d, a, at) && ActRows(cfg, d, a) == [] && NewestFoldOf(cfg, d, a, None) == Some(h)
            && Inv(d') && Load(d').value.book == FoldedBook(Load(d).value.book, h)
  {
    hide HoldsUnit, CompactDisk, FoldedBook, Step, GenerationsBounded, DecisionsKnown, PlanOf, Written, ActRows;
    var cfg, now := OneCap(lim, lim.cap), h + lim.window;
    FoldsUnit(d, lim, t, now);
    CompactCall(cfg, d, now);
    UnitFolds(Load(d).value.book, lim, t, h, now);
    UnitHeld(Load(d).value.book, lim, t);
    WritesNothing(cfg, d, DoCompact(now, now));
    assert FoldBefore([lim], now) == h;
  }

  lemma UnitHeld(b: Book, lim: Limit, t: int)
    requires HoldsUnit(b, lim, t)
    ensures "a" in b.reserved && "b" !in b.reserved && b.order == ["a"]
  {
    assert "b" !in b.order;
  }

  /** The last launch is admitted by the folded ledger. */
  lemma StaleAdmitted(c: Disk, written: seq<Row>, lim: Limit, at: int, h: int)
    requires Inv(c) && lim.window > 0 && at - lim.window < h && HoldsUnit(BookOf(written, []), lim, at - lim.window)
    requires Load(c).value.book == FoldedBook(BookOf(written, []), h)
    ensures var cfg, op, b := OneCap(lim, lim.cap), Launch(lim, "b", at), Load(c).value.book;
            var rows := PlanOf(cfg, b, op).rows;
            && ActRows(cfg, c, Call(op)) == rows && PlanOf(cfg, b, op).reply.Admitted?
            && |rows| == 2 && rows[0] == Reserve(NewReservation(cfg, b, op.req, op.at)) && rows[1].Decided?
            && "b" !in b.reserved && "b" !in Order(written)
  {
    hide FoldedBook, BookOf;
    var cfg, op, p, b := OneCap(lim, lim.cap), Launch(lim, "b", at), BookOf(written, []), Load(c).value.book;
    StaleAdmission(b, p, lim, at - lim.window, at, h + lim.window);
    UnitHeld(p, lim, at - lim.window);
    FoldedView(p, h, "b");
    ActRowsOfCall(cfg, c, op);
    OrderOfBook(written);
  }

  lemma OrderOfBook(written: seq<Row>)
    ensures BookOf(written, []).order == Order(written)
  {
  }

  lemma StaleHonest(c: Disk, written: seq<Row>, lim: Limit, at: int, h: int)
    requires Inv(c) && lim.window > 0 && at - lim.window < h && HoldsUnit(BookOf(written, []), lim, at - lim.window)
    requires Load(c).value.book == FoldedBook(BookOf(written, []), h)
    ensures var cfg, a := OneCap(lim, lim.cap), Call(Launch(lim, "b", at));
            HonestAct(cfg, c, a, at) && NewOrHeld(cfg, c, written, a)
  {
    hide HoldsUnit, BookOf, PlanOf, ActRows, Load, FoldedBook, Order;
    StaleAdmitted(c, written, lim, at, h);
  }

  /** Compacting behind the newest horizon leaves it. */
  lemma HorizonStays(cfg: Config, d: Disk, op: Op, h: int)
    requires FoldBefore(cfg.limits, CompactionClock(op)) <= h
    ensures NewestFoldOf(cfg, d, Call(op), Some(h)) == Some(h)
  {
    hide Step, PlanOf, Load;
  }

  /** It comes on top of the unit that all rows still hold. */
  lemma StaleSpend(c: Disk, written: seq<Row>, lim: Limit, at: int, h: int)
    requires Inv(c) && Inv(FullDisk(written)) && lim.window > 0 && at - lim.window < h
    requires HoldsUnit(BookOf(written, []), lim, at - lim.window)
    requires Load(c).value.book == FoldedBook(BookOf(written, []), h)
    ensures var cfg, a := OneCap(lim, lim.cap), Call(Launch(lim, "b", at));
            Consumption(BookOf(written + ActRows(cfg, c, a), []), lim, at) == lim.cap + 1
  {
    hide BookOf, PlanOf, ActRows, FoldedBook, Consumption, GenerationsBounded, DecisionsKnown, Order;
    var cfg, op, p, b := OneCap(lim, lim.cap), Launch(lim, "b", at), BookOf(written, []), Load(c).value.book;
    var rows := PlanOf(cfg, b, op).rows;
    StaleAdmitted(c, written, lim, at, h);
    UnitHeld(p, lim, at - lim.window);
    UnitConsumption(p, lim, at - lim.window, at);
    FullDiskReads(written);
    FullDiskMore(written, rows);
    LaunchFits(cfg, b, p, op);
    WrittenRowsReplay(FullDisk(written), rows);
    FullDiskReads(written + rows);
    FirstRows(p, rows, rows[0].reservation);
    ConsumptionAfterReserve(p, rows[0].reservation, lim, at);
  }

  lemma LaunchFits(cfg: Config, c: Book, p: Book, op: Op)
    requires cfg.Valid() && c.Coherent() && p.Coherent() && op.DoReserve? && op.req.id != ""
    requires op.req.id !in c.reserved && op.req.id !in p.reserved && PlanOf(cfg, c, op).reply.Admitted?
    ensures AllFit(p, PlanOf(cfg, c, op).rows) && |PlanOf(cfg, c, op).rows| == 2
  {
    var rows := PlanOf(cfg, c, op).rows;
    assert rows[1..] == [rows[1]] && rows[1..][1..] == [];
    assert AllFit(Apply(p, rows[0]), rows[1..]);
  }

  /** The compaction and the last launch. */
  lemma StaleTail(d: Disk, written: seq<Row>, lim: Limit, at: int, h: int) returns (rows: seq<Row>)
    requires Inv(d) && d == FullDisk(written) && HoldsUnit(BookOf(written, []), lim, at - lim.window)
    requires lim.window > 0 && at - lim.window < h
    ensures Goes(OneCap(lim, lim.cap), d, written, None,
                 [Call(DoCompact(h + lim.window, h + lim.window))] + ([Call(Launch(lim, "b", at))] + []), at,
                 rows, Some(h))
    ensures Consumption(BookOf(written + rows, []), lim, at) == lim.cap + 1
  {
    hide HonestAct, NewOrHeld, ActRows, ActOn, NewestFoldOf, HoldsUnit, BookOf, Consumption, FoldedBook, Load;
    var cfg := OneCap(lim, lim.cap);
    var a3, a4 := Call(DoCompact(h + lim.window, h + lim.window)), Call(Launch(lim, "b", at));
    var d' := ActOn(cfg, d, a3, true);
    FullDiskReads(written);
    FoldedNext(d, lim, at - lim.window, h, at);
    NothingReserved(cfg, d, written, a3);
    StaleHonest(d', written, lim, at, h);
    StaleSpend(d', written, lim, at, h);
    assert FoldBefore([lim], at) == at - lim.window;
    HorizonStays(cfg, d', a4.op, h);
    assert written + [] == written;
    rows := ActRows(cfg, d', a4);
    assert [] + (rows + []) == rows;
    GoOn(cfg, d', written, Some(h), a4, [], at, [], Some(h));
    GoOn(cfg, d, written, None, a3, [a4] + [], at, rows + [], Some(h));
  }

  lemma NothingReserved(cfg: Config, d: Disk, written: seq<Row>, a: Act)
    requires ActRows(cfg, d, a) == []
    ensures NewOrHeld(cfg, d, written, a)
  {
  }

  lemma LiveView(b: Book, r: Reservation)
    requires ViewOf(b, r.id).reserved == Some(r) && ViewOf(b, r.id).terminal == None
    ensures b.Live(r.id) && b.reserved[r.id] == r
  {
  }

  /** The first two calls: what they wrote is the whole journal, and holds the unit. */
  lemma UnitActs(lim: Limit, t: int, at: int) returns (c1: Disk, rows1: seq<Row>, rows2: seq<Row>)
    requires t <= at && lim.cap > 0
    ensures var cfg, a1, a2 := OneCap(lim, lim.cap), Call(Launch(lim, "a", t)), Call(Finish1("a", t));
            && c1 == ActOn(cfg, EMPTY_DISK, a1, true) && rows1 == ActRows(cfg, EMPTY_DISK, a1)
            && rows2 == ActRows(cfg, c1, a2) && ActOn(cfg, c1, a2, true) == FullDisk(rows1 + rows2)
            && HonestAct(cfg, EMPTY_DISK, a1, at) && NewOrHeld(cfg, EMPTY_DISK, [], a1)
            && HonestAct(cfg, c1, a2, at) && NewOrHeld(cfg, c1, rows1, a2)
            && NewestFoldOf(cfg, EMPTY_DISK, a1, None) == None == NewestFoldOf(cfg, c1, a2, None)
            && Inv(FullDisk(rows1 + rows2)) && HoldsUnit(BookOf(rows1 + rows2, []), lim, t)
  {
    hide HonestAct, NewOrHeld, ActRows, NewestFoldOf, HoldsUnit, BookOf, IsFirst, Step;
    var cfg, a1, a2 := OneCap(lim, lim.cap), Call(Launch(lim, "a", t)), Call(Finish1("a", t));
    c1 := ActOn(cfg, EMPTY_DISK, a1, true);
    rows1, rows2 := ActRows(cfg, EMPTY_DISK, a1), ActRows(cfg, c1, a2);
    var r := Reserved1(lim, lim.cap, t);
    LaunchedFirst(lim, t, at);
    FullDiskReads(rows1);
    AddedView(BookOf([], []), r, "a");
    LiveView(AddReservation(BookOf([], []), r), r);
    SettledNext(cfg, c1, r, lim, t, at);
    FullDiskMore(rows1, rows2);
    FullDiskReads(rows1 + rows2);
  }

  /** A history after which all rows hold one unit more than the cap, at a clock from which it does not clear `h`. */
  lemma StaleRun(lim: Limit, at: int, h: int) returns (rows: seq<Row>)
    requires !Clears(lim, at, Some(h)) && lim.cap > 0
    ensures Goes(OneCap(lim, lim.cap), EMPTY_DISK, [], None, StaleActs(lim, at, h), at, rows, Some(h))
    ensures Consumption(BookOf(rows, []), lim, at) == lim.cap + 1
  {
    hide HonestAct, NewOrHeld, ActRows, ActOn, NewestFoldOf, HoldsUnit, BookOf, Goes, Consumption, FullDisk, Inv;
    var cfg, t := OneCap(lim, lim.cap), at - lim.window;
    var a1, a2 := Call(Launch(lim, "a", t)), Call(Finish1("a", t));
    var c1, rows1, rows2 := UnitActs(lim, t, at);
    var rest := StaleTail(ActOn(cfg, c1, a2, true), rows1 + rows2, lim, at, h);
    var tail := [Call(DoCompact(h + lim.window, h + lim.window))] + ([Call(Launch(lim, "b", at))] + []);
    GoOn(cfg, c1, rows1, None, a2, tail, at, rest, Some(h));
    assert [] + rows1 == rows1;
    GoOn(cfg, EMPTY_DISK, [], None, a1, [a2] + tail, at, rows2 + rest, Some(h));
    rows := rows1 + (rows2 + rest);
    assert rows == rows1 + rows2 + rest;
  }

  lemma StaleOverspends(lim: Limit, at: int, h: int)
    requires !Clears(lim, at, Some(h)) && lim.cap > 0
    ensures Spends(OneCap(lim, lim.cap), StaleActs(lim, at, h), lim, at)
    ensures NewestFoldIn(OneCap(lim, lim.cap), EMPTY_DISK, StaleActs(lim, at, h), None) == Some(h)
    ensures Consumption(SpentBook(OneCap(lim, lim.cap), StaleActs(lim, at, h)), lim, at) == lim.cap + 1
  {
    hide StaleActs, HonestHistory, FoldedIdsUnused, AllRows, NewestFoldIn;
    var rows := StaleRun(lim, at, h);
  }

  /**
   The exact clocks: a cap holds at `at` of all the rows of every such history whose newest horizon is
   `h` if and only if it clears that horizon, or is zero.
   */
  lemma SpendExact(lim: Limit, at: int, h: Option<int>)
    ensures (forall cfg: Config, acts: seq<Act>
               | Spends(cfg, acts, lim, at) && NewestFoldIn(cfg, EMPTY_DISK, acts, None) == h ::
               Consumption(SpentBook(cfg, acts), lim, at) <= lim.cap)
            <==> Clears(lim, at, h) || lim.cap == 0
  {
    if Clears(lim, at, h) || lim.cap == 0 {
      forall cfg: Config, acts: seq<Act>
        | Spends(cfg, acts, lim, at) && NewestFoldIn(cfg, EMPTY_DISK, acts, None) == h
        ensures Consumption(SpentBook(cfg, acts), lim, at) <= lim.cap
      {
        SpendWithinCap(cfg, acts, lim, at);
      }
    } else {
      StaleOverspends(lim, at, h.value);
    }
  }
}
