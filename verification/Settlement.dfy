/** Which settlements really close a reservation, and what a recovery sweep does to each one. */
module Settlement {
  import opened Common
  import opened Ledger
  import opened Replaying
  import opened Compacting
  import opened Operations
  import opened Runs

  lemma KnownReasonsAreSafe(reason: string)
    requires reason in RECONCILE_REASONS
    ensures SafeReason(reason)
  {
    assert reason == "terminal_usage" || reason == "recovered_terminal_usage" || reason == "recovered_abandoned";
    assert |"terminal_usage"| == 14 && |"recovered_terminal_usage"| == 24 && |"recovered_abandoned"| == 19;
  }

  lemma WrittenDimensionsAreValid(usage: Usage)
    ensures var m := map k | k in DIMENSIONS :: Some(Number(Get(usage.dimensions, k)));
            forall k | k in m :: k in DIMENSIONS && FiniteNumber(m[k])
  {
  }

  /** A written reconciliation validates exactly under the reservation's own run id and a known reason. */
  lemma ReconciliationAccepted(cfg: Config, r: Reservation, runId: string, usage: Usage, reason: string, at: int)
    ensures Accepts(Reconciliation(cfg, r, runId, usage, reason, at), r)
            <==> runId != "" && runId == r.runId && reason in RECONCILE_REASONS
  {
    WrittenDimensionsAreValid(usage);
    if reason in RECONCILE_REASONS { KnownReasonsAreSafe(reason); }
  }

  lemma ReleaseAccepted(r: Reservation, runId: string, reason: string, at: int)
    ensures Accepts(ReleaseRow(r, runId, reason, at), r) <==> runId != "" && runId == r.runId
  {
    assert |"released"| == 8;
    assert SafeReason("released");
  }

  lemma AppendOne(d: Disk, row: Row)
    ensures AppendAll(d, [row]) == Append(d, row)
  {
    AppendAllCons(d, [row]);
    assert [row][1..] == [];
    assert AppendAll(Append(d, row), []) == Append(d, row);
  }

  /**
   A reconcile that reports success closes the reservation exactly when the caller named the
   reserving run and a known reason; otherwise it wrote a row that every replay refuses.
   */
  lemma ReconcileClosesIff(cfg: Config, d: Disk, op: Op)
    requires cfg.Valid() && Inv(d) && op.DoReconcile? && Load(d).value.book.Live(op.id)
    ensures var b, (d', reply) := Load(d).value.book, Step(cfg, d, op, true);
            && reply == Settlement(true) && Inv(d')
            && Load(d').value.book.Closed(op.id)
               == (op.runId != "" && op.runId == b.reserved[op.id].runId && op.reason in RECONCILE_REASONS)
            && (Load(d').value.book.Live(op.id) ==> Load(d').value.book == b)
  {
    var b := Load(d).value.book;
    var r := b.reserved[op.id];
    var row := Close(Reconciliation(cfg, r, op.runId, op.usage, op.reason, op.stamp));
    WrittenRowReplays(d, row);
    AppendOne(d, row);
    ReconciliationAccepted(cfg, r, op.runId, op.usage, op.reason, op.stamp);
  }

  lemma ReleaseClosesIff(cfg: Config, d: Disk, op: Op)
    requires cfg.Valid() && Inv(d) && op.DoRelease? && cfg.enabled && Load(d).value.book.Live(op.id)
    ensures var b, (d', reply) := Load(d).value.book, Step(cfg, d, op, true);
            && reply == Settlement(true) && Inv(d')
            && (Load(d').value.book.Closed(op.id) <==> op.runId != "" && op.runId == b.reserved[op.id].runId)
            && (Load(d').value.book.Live(op.id) ==> Load(d').value.book == b)
  {
    var b := Load(d).value.book;
    var r := b.reserved[op.id];
    assert op.id != "" by { LoadedParts(d); }
    var row := Close(ReleaseRow(r, op.runId, op.why, op.stamp));
    WrittenRowReplays(d, row);
    AppendOne(d, row);
    ReleaseAccepted(r, op.runId, op.why, op.stamp);
  }

  // ---------------------------------------------------------------- recovery

  /** An owner a sweep must leave alone: unresolved, and foreign, alive or unverifiable, or young. */
  predicate Protected(r: Reservation, s: Sweep) {
    var p := s.probe(r.id);
    && p.outcome.None?
    && (|| (r.host != "" && r.host != s.host)
        || (p.alive && (r.pid.None? || r.birth == "" || p.birth == "" || p.birth == r.birth))
        || s.now - (if r.at.Some? then r.at.value else s.now) < s.grace)
  }

  function SweptUsage(p: Probe): Usage {
    if p.outcome.Some? then p.outcome.value else Usage(map[], false, None)
  }

  function SweptReason(p: Probe): string {
    if p.outcome.Some? then "recovered_terminal_usage" else "recovered_abandoned"
  }

  function SweptTerminal(cfg: Config, r: Reservation, s: Sweep): Terminal {
    Reconciliation(cfg, r, r.ownerRunId, SweptUsage(s.probe(r.id)), SweptReason(s.probe(r.id)), s.stamp(r.id))
  }

  /** The run that owns the reservation can close it: reserve writes both ids alike. */
  predicate Closable(r: Reservation) { r.runId != "" && r.ownerRunId == r.runId }

  predicate Swept(b: Book, id: string, s: Sweep) { b.Live(id) && !Protected(b.reserved[id], s) }

  function SweptIds(b: Book, ids: seq<string>, s: Sweep): seq<string> { Filter(ids, id => Swept(b, id, s)) }

  lemma JudgementOf(b: Book, id: string, s: Sweep)
    requires b.Coherent() && id in b.reserved
    ensures JudgeIn(b, id, s) ==
            if Protected(b.reserved[id], s) then Keep else Settle(SweptUsage(s.probe(id)), SweptReason(s.probe(id)))
  {
  }

  function RowsFor(cfg: Config, b: Book, ids: seq<string>, s: Sweep): seq<Row>
    requires forall id | id in ids :: id in b.reserved
  {
    seq(|ids|, i requires 0 <= i < |ids| => Close(SweptTerminal(cfg, b.reserved[ids[i]], s)))
  }

  lemma {:induction false} SweepsAre(cfg: Config, b: Book, ids: seq<string>, s: Sweep)
    requires b.Coherent() && forall id | id in ids :: id in b.reserved
    ensures forall id | id in SweptIds(b, ids, s) :: id in b.reserved
    ensures Sweeps(cfg, b, ids, s) == RowsFor(cfg, b, SweptIds(b, ids, s), s)
  {
    FilterMembers(ids, id => Swept(b, id, s));
    if ids != [] {
      SweepsAre(cfg, b, ids[..|ids| - 1], s);
      JudgementOf(b, ids[|ids| - 1], s);
    }
  }

  lemma SweptAccepted(cfg: Config, r: Reservation, s: Sweep)
    ensures Accepts(SweptTerminal(cfg, r, s), r) <==> Closable(r)
  {
    var p := s.probe(r.id);
    ReconciliationAccepted(cfg, r, r.ownerRunId, SweptUsage(p), SweptReason(p), s.stamp(r.id));
  }

  lemma StillLive(b: Book, t: Terminal, id: string)
    requires b.Coherent() && b.Live(id) && id != t.id
    ensures Settled(b, t).Live(id)
  {
    SettledView(b, t, id);
  }

  /** Terminals of distinct live reservations close independently, and touch nothing else. */
  lemma {:induction false} ApplyTerminals(b: Book, rows: seq<Row>, id: string)
    requires b.Coherent()
    requires forall k | 0 <= k < |rows| ::
      rows[k].Close? && rows[k].terminal.id in b.reserved && b.Live(rows[k].terminal.id)
    requires forall i, j | 0 <= i < j < |rows| :: rows[i].terminal.id != rows[j].terminal.id
    ensures forall k | 0 <= k < |rows| && rows[k].terminal.id == id ::
              ViewOf(ApplyAll(b, rows), id) ==
              if Accepts(rows[k].terminal, b.reserved[rows[k].terminal.id])
              then ViewOf(b, id).(terminal := Some(rows[k].terminal)) else ViewOf(b, id)
    ensures (forall k | 0 <= k < |rows| :: rows[k].terminal.id != id) ==> ViewOf(ApplyAll(b, rows), id) == ViewOf(b, id)
    decreases |rows|
  {
    if rows != [] {
      var t, rest := rows[0].terminal, rows[1..];
      SettledView(b, t, id);
      forall k | 0 <= k < |rest| ensures rest[k].Close? && Settled(b, t).Live(rest[k].terminal.id) {
        assert rest[k] == rows[k + 1];
        StillLive(b, t, rest[k].terminal.id);
      }
      ApplyTerminals(Settled(b, t), rest, id);
    }
  }

  lemma ApplySwept(cfg: Config, b: Book, ids: seq<string>, s: Sweep, id: string)
    requires b.Coherent() && Distinct(ids) && forall x | x in ids :: x in b.reserved && b.Live(x)
    ensures ViewOf(ApplyAll(b, RowsFor(cfg, b, ids, s)), id) ==
            if id in ids && Closable(b.reserved[id])
            then ViewOf(b, id).(terminal := Some(SweptTerminal(cfg, b.reserved[id], s))) else ViewOf(b, id)
  {
    var rows := RowsFor(cfg, b, ids, s);
    forall k | 0 <= k < |rows| ensures rows[k].Close? && rows[k].terminal.id == ids[k] {
      assert ids[k] in ids;
    }
    ApplyTerminals(b, rows, id);
    if id in ids {
      SweptAccepted(cfg, b.reserved[id], s);
      var k :| 0 <= k < |ids| && ids[k] == id;
      assert rows[k].terminal == SweptTerminal(cfg, b.reserved[id], s);
    }
  }

  lemma SweepReplays(cfg: Config, d: Disk, s: Sweep)
    requires cfg.Valid() && cfg.enabled && Inv(d)
    ensures var b, (d', reply) := Load(d).value.book, Step(cfg, d, DoRecover(s), true);
            var ids := SweptIds(b, b.order, s);
            && Inv(d') && reply == Recovered(|ids|) && (forall id | id in ids :: id in b.reserved)
            && Load(d').value.book == ApplyAll(b, RowsFor(cfg, b, ids, s))
  {
    hide Sweeps;
    var b := Load(d).value.book;
    SweepsAre(cfg, b, b.order, s);
    PlanFits(cfg, b, DoRecover(s));
    WrittenRowsReplay(d, Sweeps(cfg, b, b.order, s));
  }

  /**
   Recovery is sound: a sweep closes exactly the live reservations whose owner is not protected
   (and whose run can be named), once each, charged the reported metric or the fail-safe amount.
   Every other reservation keeps all that the book says about it.
   */
  lemma RecoverySound(cfg: Config, d: Disk, s: Sweep, id: string)
    requires cfg.Valid() && cfg.enabled && Inv(d)
    ensures var b, (d', reply) := Load(d).value.book, Step(cfg, d, DoRecover(s), true);
            && Inv(d') && reply == Recovered(|SweptIds(b, b.order, s)|)
            && ViewOf(Load(d').value.book, id) ==
               if Swept(b, id, s) && Closable(b.reserved[id])
               then ViewOf(b, id).(terminal := Some(SweptTerminal(cfg, b.reserved[id], s))) else ViewOf(b, id)
  {
    var b := Load(d).value.book;
    var ids := SweptIds(b, b.order, s);
    FilterMembers(b.order, x => Swept(b, x, s));
    SweepReplays(cfg, d, s);
    ApplySwept(cfg, b, ids, s, id);
  }

  /** After a sweep, what a second one would sweep is what the first could not close. */
  lemma SweptAgain(cfg: Config, d: Disk, s: Sweep, id: string)
    requires cfg.Valid() && cfg.enabled && Inv(d)
    ensures var b, d' := Load(d).value.book, Step(cfg, d, DoRecover(s), true).0;
            && Inv(d')
            && (Swept(Load(d').value.book, id, s) <==> Swept(b, id, s) && !Closable(b.reserved[id]))
            && (id in b.order ==> id in Load(d').value.book.order)
  {
    hide Step, SweptTerminal, Closable, Protected, GenerationsBounded, DecisionsKnown;
    RecoverySound(cfg, d, s, id);
    var b, b' := Load(d).value.book, Load(Step(cfg, d, DoRecover(s), true).0).value.book;
    assert ViewOf(b', id).reserved == ViewOf(b, id).reserved;
  }

  /** A second sweep with the same answers recovers nothing exactly when the first could close all it swept. */
  lemma RecoveryIdempotent(cfg: Config, d: Disk, s: Sweep)
    requires cfg.Valid() && cfg.enabled && Inv(d)
    ensures var b, d' := Load(d).value.book, Step(cfg, d, DoRecover(s), true).0;
            Step(cfg, d', DoRecover(s), true).1 == Recovered(0)
            <==> forall id | id in b.order && Swept(b, id, s) :: Closable(b.reserved[id])
  {
    hide Step, SweptTerminal, Closable, Protected;
    var b, d' := Load(d).value.book, Step(cfg, d, DoRecover(s), true).0;
    RecoverySound(cfg, d, s, "");
    var b' := Load(d').value.book;
    RecoverySound(cfg, d', s, "");
    FilterMembers(b'.order, x => Swept(b', x, s));
    forall id
      ensures Swept(b', id, s) <==> Swept(b, id, s) && !Closable(b.reserved[id])
    {
      SweptAgain(cfg, d, s, id);
    }
    var again := SweptIds(b', b'.order, s);
    if again != [] {
      assert again[0] in again;
    }
  }
}
