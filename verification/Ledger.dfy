/**
 The budget ledger's data and its meaning: what a journal and a checkpoint hold, how
 they are replayed into a book of reservations, and what a cap counts as consumed.

 Charges are whole micro-units and times are whole seconds. Optional fields stand for
 values that a row on disk may lack or carry with the wrong type.
 */
module Ledger {
  import opened Common

  // ---------------------------------------------------------------- rows

  datatype Scope = Scope(project: string, provider: string, phase: string, model: string, effort: string)

  datatype Limit = Limit(
    cap: nat,
    project: Option<string>,
    provider: Option<string>,
    phase: Option<string>,
    model: Option<string>,
    effort: Option<string>,
    warnAt: Option<real>,
    window: int) // seconds; zero or less means the cap is cumulative
  {
    predicate Matches(s: Scope) {
      && (project.Some? ==> project.value == s.project)
      && (provider.Some? ==> provider.value == s.provider)
      && (phase.Some? ==> phase.value == s.phase)
      && (model.Some? ==> model.value == s.model)
      && (effort.Some? ==> effort.value == s.effort)
    }
  }

  datatype Reservation = Reservation(
    id: string,
    runId: string,
    ownerRunId: string,
    generation: int,
    host: string,
    pid: Option<int>,
    birth: string,
    scope: Scope,
    metric: string,
    declared: int,
    failSafe: string,
    failSafeAmount: Option<int>,
    at: Option<int>)

  datatype Kind = Reconciled | Released

  datatype Dimensions = Absent | NotAMapping | Mapping(values: map<string, Option<int>>)

  datatype Terminal = Terminal(
    id: string,
    kind: Kind,
    schema: Option<int>,
    runId: string,
    ownerRunId: Option<string>,
    generation: Option<int>,
    reason: Option<string>,
    charge: Option<int>,
    metric: Option<string>,
    authoritative: Option<bool>,
    failSafeApplied: bool,
    dimensions: Dimensions,
    at: Option<int>)

  datatype DecisionRow = DecisionRow(id: string, decision: string, warnings: int, at: Option<int>)

  datatype Row = Reserve(reservation: Reservation) | Close(terminal: Terminal) | Decided(decision: DecisionRow)

  /** Corruption classes, in the order the source lists them. */
  datatype Integrity =
    | MalformedJson
    | UnknownRecordType
    | OrphanTerminal
    | IdentityMismatch
    | GenerationMismatch
    | MissingFields
    | InvalidCharge
    | DuplicateTerminal

  const INTEGRITY_CLASSES: set<Integrity> := {
    MalformedJson, UnknownRecordType, OrphanTerminal, IdentityMismatch,
    GenerationMismatch, MissingFields, InvalidCharge, DuplicateTerminal
  }
  const SCHEMA_VERSION := 1
  const COMPACTION_THRESHOLD := 2000
  const DECISIONS: set<string> := {"admit", "defer", "block", "disabled"}
  const WARNINGS := "warnings"
  const RECONCILE_REASONS: set<string> := {"terminal_usage", "recovered_terminal_usage", "recovered_abandoned"}
  const DIMENSIONS: set<string> := {
    "input_tokens", "output_tokens", "total_tokens", "cached_input_tokens", "cache_read_input_tokens",
    "cache_creation_input_tokens", "non_cached_input_tokens", "fresh_input_tokens", "cost_usd"
  }

  function Number(x: int): nat { if x < 0 then 0 else x }

  // ---------------------------------------------------------------- the terminal validator

  predicate SafeChar(c: char) {
    'A' <= c <= 'Z' || 'a' <= c <= 'z' || '0' <= c <= '9' || c in {'_', ':', '.', '-'}
  }

  /** A bounded enum-like label; the pattern's final anchor also admits one trailing newline. */
  predicate SafeReason(reason: string) {
    var body := if reason != "" && reason[|reason| - 1] == '\n' then reason[..|reason| - 1] else reason;
    1 <= |body| <= 64 && forall c | c in body :: SafeChar(c)
  }

  predicate FiniteNumber(x: Option<int>) { x.Some? && x.value >= 0 }

  /** The corruption class of terminal `t` against its reservation, or `None` when it is valid. */
  function TerminalIntegrity(t: Terminal, r: Reservation): Option<Integrity> {
    if t.schema.None? || t.schema.value < 1 || t.schema.value > SCHEMA_VERSION then Some(MissingFields)
    else if t.runId == "" then Some(MissingFields)
    else if t.runId != r.runId then Some(IdentityMismatch)
    else if t.reason.None? || !SafeReason(t.reason.value) then Some(MissingFields)
    else if t.ownerRunId.Some? && t.ownerRunId.value != r.ownerRunId then Some(IdentityMismatch)
    else if t.generation != Some(r.generation) then Some(GenerationMismatch)
    else if t.kind == Released then None
    else if t.reason.value !in RECONCILE_REASONS then Some(MissingFields)
    else if !FiniteNumber(t.charge) then Some(InvalidCharge)
    else if t.metric.None? then Some(MissingFields)
    else if t.authoritative.None? then Some(MissingFields)
    else if t.dimensions.NotAMapping? then Some(InvalidCharge)
    else if t.dimensions.Mapping?
            && exists k | k in t.dimensions.values :: k !in DIMENSIONS || !FiniteNumber(t.dimensions.values[k])
    then Some(InvalidCharge)
    else None
  }

  predicate Accepts(t: Terminal, r: Reservation) { TerminalIntegrity(t, r).None? }

  // ---------------------------------------------------------------- replay, one reservation at a time

  /** Ids with a reserved row, by first appearance: the key order of the replayed dictionary. */
  function Order(rows: seq<Row>): (ids: seq<string>)
    ensures Distinct(ids) && "" !in ids
  {
    if rows == [] then []
    else
      var ids := Order(rows[..|rows| - 1]);
      var last := rows[|rows| - 1];
      if last.Reserve? && last.reservation.id != "" && last.reservation.id !in ids
      then ids + [last.reservation.id]
      else ids
  }

  /** The reserved row in force for `id`: the last one written. */
  function ReservedIn(rows: seq<Row>, id: string): (r: Option<Reservation>)
    ensures r.Some? <==> id in Order(rows)
    ensures r.Some? ==> r.value.id == id
  {
    if rows == [] then None
    else
      var last := rows[|rows| - 1];
      if last.Reserve? && last.reservation.id == id && id != "" then Some(last.reservation)
      else ReservedIn(rows[..|rows| - 1], id)
  }

  function ReservedCount(rows: seq<Row>, id: string): nat {
    if rows == [] then 0
    else
      var last := rows[|rows| - 1];
      ReservedCount(rows[..|rows| - 1], id) + (if last.Reserve? && last.reservation.id == id then 1 else 0)
  }

  /** The first terminal row for `r.id` that the validator accepts against `r`. */
  function Accepted(rows: seq<Row>, r: Reservation): (t: Option<Terminal>)
    ensures t.Some? ==> t.value.id == r.id && Accepts(t.value, r)
  {
    if rows == [] then None
    else
      var earlier := Accepted(rows[..|rows| - 1], r);
      var last := rows[|rows| - 1];
      if earlier.Some? then earlier
      else if last.Close? && last.terminal.id == r.id && Accepts(last.terminal, r) then Some(last.terminal)
      else None
  }

  function ClosedIn(rows: seq<Row>, id: string): Option<Terminal> {
    var r := ReservedIn(rows, id);
    if r.Some? then Accepted(rows, r.value) else None
  }

  datatype Entry = Entry(scope: Scope, charge: int)

  /** What admission reads: reservations in key order, their accepted terminals, and folded charges. */
  datatype Book = Book(
    order: seq<string>,
    reserved: map<string, Reservation>,
    terminal: map<string, Terminal>,
    counts: map<string, nat>,
    cumulative: seq<Entry>)
  {
    ghost predicate Coherent() {
      && Distinct(order)
      && (forall id :: id in order <==> id in reserved)
      && (forall id | id in reserved :: reserved[id].id == id)
      && terminal.Keys <= reserved.Keys == counts.Keys
    }

    predicate Live(id: string) { id in reserved && id !in terminal }

    predicate Closed(id: string) { id in reserved && id in terminal }
  }

  function BookOf(rows: seq<Row>, cumulative: seq<Entry>): (b: Book)
    ensures b.Coherent()
  {
    var order := Order(rows);
    Book(order,
         map id | id in order :: ReservedIn(rows, id).value,
         map id | id in order && ClosedIn(rows, id).Some? :: ClosedIn(rows, id).value,
         map id | id in order :: ReservedCount(rows, id),
         cumulative)
  }

  /** How replay classifies row `r` when `prior` precede it and `all` is the whole journal. */
  function Classify(prior: seq<Row>, all: seq<Row>, r: Row): Option<Integrity> {
    if !r.Close? || r.terminal.id == "" then None
    else
      var reserved := ReservedIn(all, r.terminal.id);
      if reserved.None? then Some(OrphanTerminal)
      else if Accepted(prior, reserved.value).Some? then Some(DuplicateTerminal)
      else TerminalIntegrity(r.terminal, reserved.value)
  }

  /** How many of `rows` are refused as class `c` when `all` is the whole journal. */
  function Refused(rows: seq<Row>, all: seq<Row>, c: Integrity): nat {
    if rows == [] then 0
    else
      var prior := rows[..|rows| - 1];
      Refused(prior, all, c) + (if Classify(prior, all, rows[|rows| - 1]) == Some(c) then 1 else 0)
  }

  // ---------------------------------------------------------------- journal, checkpoint, disk

  datatype Tally = Tally(reconciled: int, released: int, failSafe: int)

  datatype Checkpoint = Checkpoint(
    shaped: bool, // exact key set, and every field of the right type
    generation: Option<int>,
    updatedAt: Option<int>,
    cumulative: seq<Entry>,
    decisions: map<string, int>,
    reservations: Tally,
    integrity: map<Integrity, int>)

  /** Checkpoint digests are collision free; `Foreign` is any other well-formed digest. */
  datatype Digest = DigestOf(checkpoint: Checkpoint) | Foreign(hex: string)

  datatype Line =
    | Record(row: Row)
    | Malformed
    | UnknownType
    | Header(shaped: bool, generation: int, digest: Digest)

  datatype Disk = Disk(lines: seq<Line>, checkpoint: Option<Checkpoint>)

  const EMPTY_DISK := Disk([], None)

  datatype Error = LedgerCorruption | ValueError

  datatype Journal = Journal(generation: int, rows: seq<Row>, malformed: nat, unknown: nat, digest: Option<Digest>)

  /** Reading the journal: a header is legal only as a well-formed first line. */
  function ReadJournal(lines: seq<Line>): Result<Journal, Error> {
    if lines == [] then Ok(Journal(0, [], 0, 0, None))
    else
      var before := ReadJournal(lines[..|lines| - 1]);
      if before.Raise? then before
      else
        var j := before.value;
        match lines[|lines| - 1]
        case Record(row) => Ok(j.(rows := j.rows + [row]))
        case Malformed => Ok(j.(malformed := j.malformed + 1))
        case UnknownType => Ok(j.(unknown := j.unknown + 1))
        case Header(shaped, generation, digest) =>
          if |lines| != 1 || !shaped || generation <= 0 then Raise(LedgerCorruption)
          else Ok(j.(generation := generation, digest := Some(digest)))
  }

  predicate UniqueScopes(entries: seq<Entry>) {
    forall i, j | 0 <= i < j < |entries| :: entries[i].scope != entries[j].scope
  }

  predicate ValidCheckpoint(c: Checkpoint, generation: int) {
    && c.shaped
    && c.generation == Some(generation) && generation > 0
    && c.updatedAt.Some?
    && (forall e | e in c.cumulative :: e.charge >= 0)
    && UniqueScopes(c.cumulative)
    && (forall k | k in c.decisions :: k in DECISIONS + {WARNINGS} && c.decisions[k] >= 0)
    && c.reservations.reconciled >= 0 && c.reservations.released >= 0 && c.reservations.failSafe >= 0
    && (forall k | k in c.integrity :: c.integrity[k] >= 0)
  }

  datatype LedgerState = LedgerState(
    book: Book,
    generation: int,
    foldedDecisions: map<string, int>,
    foldedTally: Tally,
    foldedIntegrity: map<Integrity, int>,
    integrity: map<Integrity, int>)

  function PreCount(j: Journal, c: Integrity): nat {
    match c
    case MalformedJson => j.malformed
    case UnknownRecordType => j.unknown
    case _ => 0
  }

  /** The counters with a positive count; a class never met has no key. */
  function Positive(n: Integrity -> int): map<Integrity, int> {
    map c | c in INTEGRITY_CLASSES && n(c) > 0 :: n(c)
  }

  /** Corruption counters after a replay. */
  function IntegrityOf(j: Journal): map<Integrity, int> {
    Positive(c => PreCount(j, c) + Refused(j.rows, j.rows, c))
  }

  function Replay(j: Journal, checkpoint: Option<Checkpoint>): LedgerState {
    if checkpoint.Some? && j.generation > 0 && ValidCheckpoint(checkpoint.value, j.generation) then
      var c := checkpoint.value;
      LedgerState(BookOf(j.rows, c.cumulative), j.generation, c.decisions, c.reservations, c.integrity, IntegrityOf(j))
    else
      LedgerState(BookOf(j.rows, []), j.generation, map[], Tally(0, 0, 0), map[], IntegrityOf(j))
  }

  /** True when the checkpoint beside journal `j` makes a load fail closed. */
  predicate Mismatched(j: Journal, checkpoint: Option<Checkpoint>) {
    || (j.generation == 0 && checkpoint.Some? && checkpoint.value.generation.Some?
        && ValidCheckpoint(checkpoint.value, checkpoint.value.generation.value))
    || (j.generation > 0
        && (checkpoint.None? || !ValidCheckpoint(checkpoint.value, j.generation)
            || j.digest != Some(DigestOf(checkpoint.value))))
  }

  function Load(d: Disk): Result<LedgerState, Error> {
    var read := ReadJournal(d.lines);
    if read.Raise? then Raise(read.error)
    else if Mismatched(read.value, d.checkpoint) then Raise(LedgerCorruption)
    else Ok(Replay(read.value, d.checkpoint))
  }

  // ---------------------------------------------------------------- consumption

  predicate WithinWindow(at: Option<int>, now: int, window: int) {
    window <= 0 || at.None? || at.value >= now - window
  }

  /** What `id` adds to an in-window cap, or `None` when its charge fell out of the window. */
  function ChargeOf(b: Book, id: string, now: int, window: int): Option<nat>
    requires id in b.reserved
  {
    if id !in b.terminal then Some(Number(b.reserved[id].declared))
    else
      var t := b.terminal[id];
      if t.kind == Released then Some(0)
      else if !WithinWindow(t.at, now, window) then None
      else Some(if t.charge.Some? then Number(t.charge.value) else 0)
  }

  /** The part of limit `lim` that reservation `id` uses at `now`. */
  function Share(b: Book, id: string, lim: Limit, now: int): nat {
    if id !in b.reserved || !lim.Matches(b.reserved[id].scope) then 0
    else
      var c := ChargeOf(b, id, now, lim.window);
      if c.Some? then c.value else 0
  }

  function Shares(b: Book, ids: seq<string>, lim: Limit, now: int): nat {
    if ids == [] then 0
    else Shares(b, ids[..|ids| - 1], lim, now) + Share(b, ids[|ids| - 1], lim, now)
  }

  function FoldedSum(entries: seq<Entry>, lim: Limit): nat {
    if entries == [] then 0
    else
      var e := entries[|entries| - 1];
      FoldedSum(entries[..|entries| - 1], lim) + (if lim.Matches(e.scope) then Number(e.charge) else 0)
  }

  /** Folded charges count for cumulative caps only. */
  function Consumption(b: Book, lim: Limit, now: int): nat {
    (if lim.window <= 0 then FoldedSum(b.cumulative, lim) else 0) + Shares(b, b.order, lim, now)
  }
}
