/**
 The ledger's operations as steps of one disk: what each call reads from the book, the rows
 it writes, and what it answers. Each step runs under the journal lock, so a run of any
 number of concurrent stores is a sequence of steps.
 */
module Operations {
  import opened Common
  import opened Ledger
  import opened Compacting

  datatype Config = Config(
    enabled: bool,
    metric: string,
    failSafe: string,
    failSafeAmount: Option<nat>,
    defaultDeclared: nat,
    declared: seq<(string, nat)>,
    onInsufficient: string,
    limits: seq<Limit>)
  {
    /** What the configuration loader enforces on the denial policy. */
    predicate Valid() { onInsufficient in {"block", "defer"} }
  }

  function DeclaredFor(declared: seq<(string, nat)>, phase: string, default: nat): nat {
    if declared == [] then default
    else if declared[0].0 == phase then declared[0].1
    else DeclaredFor(declared[1..], phase, default)
  }

  // ---------------------------------------------------------------- admission

  datatype Request = Request(id: string, runId: string, scope: Scope)

  /** What a reserve call observes besides the ledger: its host, its process and its clock. */
  datatype Stamps = Stamps(host: string, pid: int, birth: string, reservedAt: int, decidedAt: int, foldedAt: int)

  datatype Item = Item(index: nat, limit: Limit, consumed: nat, remaining: int, declared: nat)

  function ItemFor(b: Book, limits: seq<Limit>, index: nat, declared: nat, now: int): Item
    requires index < |limits|
  {
    var consumed := Consumption(b, limits[index], now);
    Item(index, limits[index], consumed, limits[index].cap - consumed, declared)
  }

  predicate Binds(i: Item) { i.declared > i.remaining }

  predicate Warns(i: Item) {
    !Binds(i) && i.limit.warnAt.Some?
    && (i.consumed + i.declared) as real >= i.limit.warnAt.value * (i.limit.cap as real)
  }

  /** One item for each of the first `n` limits that matches the scope, in configuration order. */
  function Items(b: Book, limits: seq<Limit>, n: nat, scope: Scope, declared: nat, now: int): seq<Item>
    requires n <= |limits|
  {
    if n == 0 then []
    else
      var before := Items(b, limits, n - 1, scope, declared, now);
      if limits[n - 1].Matches(scope) then before + [ItemFor(b, limits, n - 1, declared, now)] else before
  }

  function Matching(cfg: Config, b: Book, req: Request, now: int): seq<Item> {
    Items(b, cfg.limits, |cfg.limits|, req.scope, DeclaredFor(cfg.declared, req.scope.phase, cfg.defaultDeclared), now)
  }

  datatype Reply =
    | Disabled
    | Admitted(generation: int, declared: nat, warnings: seq<Item>)
    | Denied(decision: string, declared: nat, binding: seq<Item>, warnings: seq<Item>)
    | Settlement(done: bool)
    | Recovered(count: nat)
    | Silent
    | Raised(error: Error)

  function NewReservation(cfg: Config, b: Book, req: Request, at: Stamps): Reservation {
    Reservation(req.id, req.runId, req.runId, (if req.id in b.counts then b.counts[req.id] else 0) + 1,
                at.host, Some(at.pid), at.birth, req.scope, cfg.metric,
                DeclaredFor(cfg.declared, req.scope.phase, cfg.defaultDeclared),
                cfg.failSafe, cfg.failSafeAmount, Some(at.reservedAt))
  }

  datatype Plan = Plan(rows: seq<Row>, reply: Reply)

  function PlanReserve(cfg: Config, b: Book, req: Request, now: int, at: Stamps): Plan {
    if b.Live(req.id) then Plan([], Raised(ValueError))
    else
      var declared := DeclaredFor(cfg.declared, req.scope.phase, cfg.defaultDeclared);
      var items := Matching(cfg, b, req, now);
      var binding, warnings := Filter(items, (i: Item) => Binds(i)), Filter(items, (i: Item) => Warns(i));
      if binding != [] then
        Plan([Decided(DecisionRow(req.id, cfg.onInsufficient, |warnings|, Some(at.decidedAt)))],
             Denied(cfg.onInsufficient, declared, binding, warnings))
      else
        var r := NewReservation(cfg, b, req, at);
        Plan([Reserve(r), Decided(DecisionRow(req.id, "admit", |warnings|, Some(at.decidedAt)))],
             Admitted(r.generation, declared, warnings))
  }

  // ---------------------------------------------------------------- settlement

  /** Terminal usage: `present` names the metrics that were reported, when that is known. */
  datatype Usage = Usage(dimensions: map<string, int>, authoritative: bool, present: Option<set<string>>)

  function MetricOf(cfg: Config, r: Reservation): string { if r.metric != "" then r.metric else cfg.metric }

  function FailSafeCharge(r: Reservation): nat {
    if r.failSafe == "fixed" && r.failSafeAmount.Some? then Number(r.failSafeAmount.value) else Number(r.declared)
  }

  predicate Reported(usage: Usage, metric: string) {
    usage.authoritative && (usage.present.None? || metric in usage.present.value)
  }

  function ChargeFor(cfg: Config, r: Reservation, usage: Usage): nat {
    var metric := MetricOf(cfg, r);
    if Reported(usage, metric) then Number(Get(usage.dimensions, metric)) else FailSafeCharge(r)
  }

  function Reconciliation(cfg: Config, r: Reservation, runId: string, usage: Usage, reason: string, at: int): Terminal {
    Terminal(r.id, Reconciled, Some(SCHEMA_VERSION), runId, Some(r.ownerRunId), Some(r.generation), Some(reason),
             Some(ChargeFor(cfg, r, usage)), Some(MetricOf(cfg, r)), Some(usage.authoritative),
             !Reported(usage, MetricOf(cfg, r)),
             Mapping(map k | k in DIMENSIONS :: Some(Number(Get(usage.dimensions, k)))), Some(at))
  }

  function PlanReconcile(cfg: Config, b: Book, id: string, runId: string, usage: Usage, reason: string, at: int): Plan {
    if !b.Live(id) then Plan([], Settlement(false))
    else Plan([Close(Reconciliation(cfg, b.reserved[id], runId, usage, reason, at))], Settlement(true))
  }

  function ReleaseRow(r: Reservation, runId: string, reason: string, at: int): Terminal {
    Terminal(r.id, Released, Some(SCHEMA_VERSION), runId, Some(r.ownerRunId), Some(r.generation),
             Some(if SafeReason(reason) then reason else "released"),
             None, None, None, false, Absent, Some(at))
  }

  function PlanRelease(b: Book, id: string, runId: string, reason: string, at: int): Plan {
    if !b.Live(id) then Plan([], Settlement(false))
    else Plan([Close(ReleaseRow(b.reserved[id], runId, reason, at))], Settlement(true))
  }

  // ---------------------------------------------------------------- recovery

  /** What a sweep learns about one reservation's owner; each reservation is asked about once. */
  datatype Probe = Probe(outcome: Option<Usage>, alive: bool, birth: string)

  datatype Sweep = Sweep(probe: string -> Probe, host: string, now: int, grace: int, stamp: string -> int)

  datatype Judgement = Keep | Settle(usage: Usage, reason: string)

  const ABANDONED := Settle(Usage(map[], false, None), "recovered_abandoned")

  function Judge(r: Reservation, p: Probe, host: string, now: int, grace: int): Judgement {
    if p.outcome.Some? then Settle(p.outcome.value, "recovered_terminal_usage")
    else if r.host != "" && r.host != host then Keep
    else if p.alive && (r.pid.None? || r.birth == "" || p.birth == "" || p.birth == r.birth) then Keep
    else if now - (if r.at.Some? then r.at.value else now) < grace then Keep
    else ABANDONED
  }

  function JudgeIn(b: Book, id: string, s: Sweep): Judgement
    requires id in b.reserved
  {
    Judge(b.reserved[id], s.probe(id), s.host, s.now, s.grace)
  }

  /** The terminals a sweep writes for those of `ids` that are live, in key order. */
  function Sweeps(cfg: Config, b: Book, ids: seq<string>, s: Sweep): seq<Row>
    requires forall id | id in ids :: id in b.reserved
  {
    if ids == [] then []
    else
      var prior := Sweeps(cfg, b, ids[..|ids| - 1], s);
      var id := ids[|ids| - 1];
      if !b.Live(id) then prior
      else
        match JudgeIn(b, id, s)
        case Keep => prior
        case Settle(usage, reason) =>
          var r := b.reserved[id];
          prior + [Close(Reconciliation(cfg, r, r.ownerRunId, usage, reason, s.stamp(id)))]
  }

  function PlanRecover(cfg: Config, b: Book, s: Sweep): Plan
    requires b.Coherent()
  {
    var rows := Sweeps(cfg, b, b.order, s);
    Plan(rows, Recovered(|rows|))
  }

  // ---------------------------------------------------------------- steps of the disk

  datatype Op =
    | DoReserve(req: Request, now: int, at: Stamps)
    | DoReconcile(id: string, runId: string, usage: Usage, reason: string, stamp: int)
    | DoRelease(id: string, runId: string, why: string, stamp: int)
    | DoRecover(sweep: Sweep)
    | DoCompact(now: int, stamp: int)
    | DoNoise(line: Line) // a whole line written by something else that is no ledger row

  /** Calls that answer before they touch the ledger. */
  function Early(cfg: Config, op: Op): Option<Reply> {
    match op
    case DoReserve(req, _, _) =>
      if !cfg.enabled then Some(Disabled) else if req.id == "" then Some(Raised(ValueError)) else None
    case DoReconcile(_, _, _, _, _) => None
    case DoRelease(id, _, _, _) => if !cfg.enabled || id == "" then Some(Settlement(false)) else None
    case DoRecover(_) => if !cfg.enabled then Some(Recovered(0)) else None
    case DoCompact(_, _) => if !cfg.enabled then Some(Silent) else None
    case DoNoise(_) => None
  }

  function PlanOf(cfg: Config, b: Book, op: Op): Plan
    requires b.Coherent()
  {
    match op
    case DoReserve(req, now, at) => PlanReserve(cfg, b, req, now, at)
    case DoReconcile(id, runId, usage, reason, stamp) => PlanReconcile(cfg, b, id, runId, usage, reason, stamp)
    case DoRelease(id, runId, why, stamp) => PlanRelease(b, id, runId, why, stamp)
    case DoRecover(sweep) => PlanRecover(cfg, b, sweep)
    case _ => Plan([], Silent)
  }

  function AppendAll(d: Disk, rows: seq<Row>): Disk { d.(lines := d.lines + Records(rows)) }

  function MaybeCompact(cfg: Config, d: Disk, now: int, stamp: int): Result<Disk, Error> {
    var read := ReadJournal(d.lines);
    if read.Raise? then Raise(read.error)
    else if |read.value.rows| < COMPACTION_THRESHOLD then Ok(d)
    else CompactDisk(d, cfg.limits, now, stamp)
  }

  /** The compaction a step performs after its rows, if any. A reserve that raises never compacts. */
  function AfterRows(cfg: Config, d: Disk, op: Op, reply: Reply): Result<Disk, Error> {
    match op
    case DoReserve(_, now, at) => if reply.Raised? then Ok(d) else MaybeCompact(cfg, d, now, at.foldedAt)
    case DoCompact(now, stamp) => CompactDisk(d, cfg.limits, now, stamp)
    case _ => Ok(d)
  }

  /** One call against the disk. With `compacts` off, nothing is ever folded. */
  function Step(cfg: Config, d: Disk, op: Op, compacts: bool): (Disk, Reply) {
    var early := Early(cfg, op);
    if early.Some? then (d, early.value)
    else if op.DoNoise? then (d.(lines := d.lines + [op.line]), Silent)
    else
      var loaded := Load(d);
      if loaded.Raise? then (d, Raised(loaded.error))
      else
        var plan := PlanOf(cfg, loaded.value.book, op);
        Finish(cfg, AppendAll(d, plan.rows), op, plan.reply, compacts)
  }

  /** The end of a step whose rows are on disk `d`. */
  function Finish(cfg: Config, d: Disk, op: Op, reply: Reply, compacts: bool): (Disk, Reply) {
    if !compacts then (d, reply)
    else
      var folded := AfterRows(cfg, d, op, reply);
      if folded.Raise? then (d, Raised(folded.error)) else (folded.value, reply)
  }

  function Run(cfg: Config, d: Disk, ops: seq<Op>, compacts: bool): (Disk, seq<Reply>)
    decreases |ops|
  {
    if ops == [] then (d, [])
    else
      var (d1, reply) := Step(cfg, d, ops[0], compacts);
      var (d2, replies) := Run(cfg, d1, ops[1..], compacts);
      (d2, [reply] + replies)
  }
}
