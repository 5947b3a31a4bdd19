/**
 Agent activity: a tracker that coalesces observed events into emissions, a summary that
 replays emissions and counts each source event once, and the conservation law between them.
 */
module Activity {
  import opened Common

  datatype RecordType = AgentStarted | ActivityCheckpoint | GateResult | WorkBlocked | AgentCompleted

  const RECORD_TYPES: set<RecordType> := {AgentStarted, ActivityCheckpoint, GateResult, WorkBlocked, AgentCompleted}
  const MAX_COUNTER := 1_000_000
  const MAX_POSITION := 0x7FFF_FFFF_FFFF_FFFF
  const BATCH := 32
  const CHECKPOINT_SECONDS := 5

  datatype Source = Source(generation: string, stream: string, position: int) {
    predicate Valid() {
      |generation| == 64 && (forall c | c in generation :: '0' <= c <= '9' || 'a' <= c <= 'f')
      && stream in {"stdout", "stderr"} && 1 <= position <= MAX_POSITION
    }
  }

  /** Event ids are collision-free digests of a source position; `Alien` is any other well-formed id. */
  datatype EventId = EventOf(source: Source) | Alien(hex: string)

  /** One entry of an emission; `shaped` covers its class and its timestamp. */
  datatype Entry = Entry(id: EventId, recordType: Option<RecordType>, source: Source, shaped: bool)

  /** A classified line from an agent's stream. */
  datatype Observation = Observation(recordType: RecordType, observedAt: int, source: Source)

  /** Emission ids are collision-free digests of a record type and the sorted event ids. */
  datatype ActivityId = ActivityOf(recordType: RecordType, events: multiset<EventId>) | Unnamed(hex: string)

  /** A journal record as the summary reads it; `None` fields are absent or of the wrong type. */
  datatype Record = Record(
    schema: bool,
    recordType: Option<RecordType>,
    id: Option<ActivityId>,
    events: Option<seq<Entry>>,
    delta: map<RecordType, int>,
    observedAt: Option<int>)

  type Counts = map<RecordType, int>

  function Get(m: Counts, k: RecordType): int { if k in m then m[k] else 0 }

  function Capped(n: int): int { if n < MAX_COUNTER then n else MAX_COUNTER }

  function Bump(m: Counts, k: RecordType, n: int): Counts { m[k := Capped(Get(m, k) + n)] }

  // ---------------------------------------------------------------- emissions

  function EntryOf(o: Observation): Entry { Entry(EventOf(o.source), Some(o.recordType), o.source, true) }

  function Entries(os: seq<Observation>): seq<Entry> { seq(|os|, i requires 0 <= i < |os| => EntryOf(os[i])) }

  function Ids(os: seq<Observation>): multiset<EventId> {
    multiset(seq(|os|, i requires 0 <= i < |os| => EventOf(os[i].source)))
  }

  function DeltaOf(os: seq<Observation>): Counts {
    if os == [] then map[] else Bump(DeltaOf(os[..|os| - 1]), os[|os| - 1].recordType, 1)
  }

  /** Index of the latest observation; the last one among equals. */
  function Latest(os: seq<Observation>): (i: nat)
    requires os != []
    ensures i < |os| && forall k | 0 <= k < |os| :: os[k].observedAt <= os[i].observedAt
    ensures forall k | i < k < |os| :: os[k].observedAt < os[i].observedAt
  {
    if |os| == 1 then 0
    else
      var i := Latest(os[..|os| - 1]);
      assert forall k | 0 <= k < |os| - 1 :: os[k] == os[..|os| - 1][k];
      if os[|os| - 1].observedAt >= os[i].observedAt then |os| - 1 else i
  }

  function EmissionType(os: seq<Observation>): RecordType
    requires os != []
  {
    if GateResult in DeltaOf(os) then GateResult else os[Latest(os)].recordType
  }

  function EmissionOf(os: seq<Observation>): Record
    requires os != []
  {
    var t := EmissionType(os);
    Record(true, Some(t), Some(ActivityOf(t, Ids(os))), Some(Entries(os)), DeltaOf(os), Some(os[Latest(os)].observedAt))
  }

  /** Builds the emission of a batch: its per-type delta, and the type it is filed under. */
  method BuildEmission(os: seq<Observation>) returns (r: Record)
    requires os != []
    ensures r == EmissionOf(os)
  {
    var delta: Counts, latest := map[], 0;
    for i := 0 to |os|
      invariant delta == DeltaOf(os[..i])
      invariant if i == 0 then latest == 0 else latest == Latest(os[..i])
    {
      assert os[..i + 1][..i] == os[..i];
      delta := Bump(delta, os[i].recordType, 1);
      if os[i].observedAt >= os[latest].observedAt { latest := i; }
    }
    assert os[..|os|] == os;
    var t := if GateResult in delta then GateResult else os[latest].recordType;
    r := Record(true, Some(t), Some(ActivityOf(t, Ids(os))), Some(Entries(os)), delta, Some(os[latest].observedAt));
  }

  // ---------------------------------------------------------------- the summary

  predicate CountsEntry(e: Entry, seen: set<EventId>) {
    e.shaped && e.recordType.Some? && e.source.Valid() && e.id == EventOf(e.source) && e.id !in seen
  }

  /** `last` is the newest observation time of a record that contributed something. */
  datatype Tally = Tally(seenIds: set<ActivityId>, seenEvents: set<EventId>, counts: Counts, last: Option<int>) {
    /** Distinct events, or distinct records while no record lists its events. */
    function RecordCount(): nat { if seenEvents != {} then |seenEvents| else |seenIds| }
  }

  function Newest(a: Option<int>, b: Option<int>): Option<int> {
    if a.None? || (b.Some? && a.value < b.value) then b else a
  }

  /** New events among `entries`: their ids, and how many of each record type. */
  function Fresh(entries: seq<Entry>, seen: set<EventId>): (set<EventId>, Counts) {
    if entries == [] then (seen, map[])
    else
      var (seen', delta) := Fresh(entries[..|entries| - 1], seen);
      var e := entries[|entries| - 1];
      if CountsEntry(e, seen') then
        (seen' + {e.id}, delta[e.recordType.value := Get(delta, e.recordType.value) + 1])
      else (seen', delta)
  }

  function AddCounts(counts: Counts, delta: Counts): Counts {
    map k | k in RECORD_TYPES && (k in counts || (k in delta && delta[k] >= 0))
      :: if k in delta && delta[k] >= 0 then Capped(Get(counts, k) + delta[k]) else counts[k]
  }

  function Take(entries: seq<Entry>): seq<Entry> { if |entries| <= BATCH then entries else entries[..BATCH] }

  function Summarize1(t: Tally, r: Record): Tally {
    if !r.schema || r.recordType.None? || r.id.None? || r.id.value in t.seenIds then t
    else
      var t' := t.(seenIds := t.seenIds + {r.id.value});
      if r.events.Some? then
        var (seen, delta) := Fresh(Take(r.events.value), t.seenEvents);
        if delta == map[] then t'
        else t'.(seenEvents := seen, counts := AddCounts(t.counts, delta), last := Newest(t.last, r.observedAt))
      else t'.(counts := AddCounts(t.counts, r.delta), last := Newest(t.last, r.observedAt))
  }

  const EMPTY := Tally({}, {}, map[], None)

  function Summary(t: Tally, records: seq<Record>): Tally
    decreases |records|
  {
    if records == [] then t else Summary(Summarize1(t, records[0]), records[1..])
  }

  lemma {:induction false} SummaryAppend(t: Tally, a: seq<Record>, b: seq<Record>)
    ensures Summary(t, a + b) == Summary(Summary(t, a), b)
    decreases |a|
  {
    if a == [] {
      assert a + b == b;
    } else {
      assert (a + b)[1..] == a[1..] + b;
      SummaryAppend(Summarize1(t, a[0]), a[1..], b);
    }
  }

  /** Counts the events of each record that were not counted before, each source position once. */
  method SummarizeActivityRecords(records: seq<Record>) returns (counts: Counts, recordCount: nat, last: Option<int>)
    ensures var t := Summary(EMPTY, records); counts == t.counts && recordCount == t.RecordCount() && last == t.last
  {
    var seenIds: set<ActivityId>, seenEvents: set<EventId>, accepted := {}, {}, 0;
    counts, last := map[], None;
    for i := 0 to |records|
      invariant Summary(Tally(seenIds, seenEvents, counts, last), records[i..]) == Summary(EMPTY, records)
      invariant accepted == |seenIds|
    {
      var r := records[i];
      assert records[i..][1..] == records[i + 1..];
      if r.schema && r.recordType.Some? && r.id.Some? && r.id.value !in seenIds {
        ghost var t := Tally(seenIds, seenEvents, counts, last);
        seenIds, accepted := seenIds + {r.id.value}, accepted + 1;
        seenEvents, counts, last := CountRecord(r, seenEvents, counts, last);
        assert Tally(seenIds, seenEvents, counts, last) == Summarize1(t, r);
      }
    }
    recordCount := if |seenEvents| != 0 then |seenEvents| else accepted;
  }

  /** What one new record adds: its new events, or its own delta when it lists none. */
  method CountRecord(r: Record, seen: set<EventId>, before: Counts, lastBefore: Option<int>)
    returns (seen': set<EventId>, counts: Counts, last: Option<int>)
    ensures r.events.None? ==>
              seen' == seen && counts == AddCounts(before, r.delta) && last == Newest(lastBefore, r.observedAt)
    ensures r.events.Some? ==>
              var (found, delta) := Fresh(Take(r.events.value), seen);
              if delta == map[] then seen' == seen && counts == before && last == lastBefore
              else seen' == found && counts == AddCounts(before, delta) && last == Newest(lastBefore, r.observedAt)
  {
    seen', counts, last := seen, before, lastBefore;
    var delta := r.delta;
    if r.events.Some? {
      var found;
      found, delta := FreshEvents(Take(r.events.value), seen);
      if delta == map[] { return; }
      seen' := found;
    }
    counts, last := AddCounts(before, delta), Newest(lastBefore, r.observedAt);
  }

  method FreshEvents(entries: seq<Entry>, seen: set<EventId>) returns (seen': set<EventId>, delta: Counts)
    ensures (seen', delta) == Fresh(entries, seen)
  {
    seen', delta := seen, map[];
    for i := 0 to |entries|
      invariant (seen', delta) == Fresh(entries[..i], seen)
    {
      assert entries[..i + 1][..i] == entries[..i];
      var e := entries[i];
      if CountsEntry(e, seen') {
        seen' := seen' + {e.id};
        delta := delta[e.recordType.value := Get(delta, e.recordType.value) + 1];
      }
    }
    assert entries[..|entries|] == entries;
  }

  // ---------------------------------------------------------------- the tracker

  predicate Immediate(t: RecordType) { t in {AgentStarted, WorkBlocked, AgentCompleted} }

  /** A waiting batch is emitted when it is the first, full, or old enough. */
  predicate Due(lastEmit: Option<int>, waiting: nat, now: int) {
    lastEmit.None? || waiting >= BATCH || now - lastEmit.value >= CHECKPOINT_SECONDS
  }

  class AgentActivityTracker {
    var counts: Counts
    var pending: seq<Observation>
    var lastEmit: Option<int>
    ghost var observed: seq<Observation>
    ghost var batches: seq<seq<Observation>>

    /** Everything observed is in the emitted batches, in order, then in the pending one. */
    ghost predicate Batched()
      reads this
    {
      && |pending| <= BATCH
      && observed == Flatten(batches) + pending
      && Sized(batches)
    }

    ghost predicate Valid()
      reads this
    {
      Batched() && |pending| < BATCH && counts == CountsOf(observed) && AllValid(observed)
    }

    constructor ()
      ensures Valid() && observed == [] && batches == []
    {
      counts := map k | k in RECORD_TYPES :: 0;
      pending, lastEmit, observed, batches := [], None, [], [];
    }

    /** Emits the pending batch, if there is one. */
    method Flush(now: int) returns (emission: Option<Record>)
      requires Batched()
      modifies this
      ensures Batched() && pending == [] && observed == old(observed) && counts == old(counts)
      ensures lastEmit == if old(pending) == [] then old(lastEmit) else Some(now)
      ensures if old(pending) == [] then emission == None && batches == old(batches)
              else emission == Some(EmissionOf(old(pending))) && batches == old(batches) + [old(pending)]
    {
      if pending == [] { return None; }
      var batch := pending;
      var built := BuildEmission(batch);
      BatchesSnoc(batches, batch);
      pending, lastEmit, batches := [], Some(now), batches + [batch];
      assert observed == Flatten(batches) + [];
      emission := Some(built);
    }

    /** An event that is emitted at once: the pending batch goes first, then the event alone. */
    method EmitNow(o: Observation, now: int) returns (emissions: seq<Record>)
      requires Batched()
      modifies this
      ensures Batched() && pending == [] && observed == old(observed) + [o] && counts == old(counts)
      ensures lastEmit == if old(pending) == [] then old(lastEmit) else Some(now)
      ensures var cut := if old(pending) == [] then [[o]] else [old(pending), [o]];
              batches == old(batches) + cut && emissions == EmissionsOf(cut)
    {
      var flushed := Flush(now);
      var alone := EmitAlone(o);
      emissions := if flushed.Some? then [flushed.value, alone] else [alone];
      CutEmissions(old(pending), o);
    }

    method EmitAlone(o: Observation) returns (emission: Record)
      requires Batched() && pending == []
      modifies this
      ensures Batched() && pending == [] && observed == old(observed) + [o] && counts == old(counts)
      ensures batches == old(batches) + [[o]] && lastEmit == old(lastEmit) && emission == EmissionOf([o])
    {
      BatchesSnoc(batches, [o]);
      batches, observed := batches + [[o]], observed + [o];
      emission := BuildEmission([o]);
    }

    /** An event that waits for its batch, which is emitted when it is full or due. */
    method Enqueue(o: Observation, now: int) returns (emissions: seq<Record>)
      requires Batched() && |pending| < BATCH
      modifies this
      ensures Batched() && |pending| < BATCH && observed == old(observed) + [o] && counts == old(counts)
      ensures pending == [] <==> Due(old(lastEmit), |old(pending)| + 1, now)
      ensures lastEmit == if pending == [] then Some(now) else old(lastEmit)
      ensures var cut := if pending == [] then [old(pending) + [o]] else [];
              batches == old(batches) + cut && emissions == EmissionsOf(cut)
    {
      pending, observed := pending + [o], observed + [o];
      if !Due(lastEmit, |pending|, now) { return []; }
      var emission := Flush(now);
      emissions := [emission.value];
    }

    /** Observes one classified line; an observation with an invalid source is dropped. */
    method ObserveLine(activity: Option<Observation>, now: int) returns (emissions: seq<Record>)
      requires Valid()
      modifies this
      ensures Valid()
      ensures observed == old(observed)
                          + (if activity.Some? && activity.value.source.Valid() then [activity.value] else [])
      ensures |old(batches)| <= |batches| && batches[..|old(batches)|] == old(batches)
      ensures observed != old(observed) ==>
                (pending == [] <==> Immediate(activity.value.recordType) || Due(old(lastEmit), |old(pending)| + 1, now))
      ensures emissions == EmissionsOf(batches[|old(batches)|..])
    {
      if activity.None? || !activity.value.source.Valid() { return []; }
      var o := activity.value;
      CountsSnoc(observed, o);
      counts := Bump(counts, o.recordType, 1);
      if Immediate(o.recordType) {
        emissions := EmitNow(o, now);
      } else {
        emissions := Enqueue(o, now);
      }
    }
  }

  function EmissionsOf(batches: seq<seq<Observation>>): seq<Record>
    requires forall b | b in batches :: |b| > 0
  {
    seq(|batches|, i requires 0 <= i < |batches| => assert batches[i] in batches; EmissionOf(batches[i]))
  }

  lemma CutEmissions(waiting: seq<Observation>, o: Observation)
    ensures EmissionsOf([[o]]) == [EmissionOf([o])]
    ensures waiting != [] ==> EmissionsOf([waiting, [o]]) == [EmissionOf(waiting), EmissionOf([o])]
  {
  }

  function Flatten(batches: seq<seq<Observation>>): seq<Observation> {
    if batches == [] then [] else Flatten(batches[..|batches| - 1]) + batches[|batches| - 1]
  }

  /** No batch is empty, or longer than a summary reads. */
  ghost predicate Sized(batches: seq<seq<Observation>>) { forall b | b in batches :: 0 < |b| <= BATCH }

  lemma BatchesSnoc(batches: seq<seq<Observation>>, b: seq<Observation>)
    requires Sized(batches) && 0 < |b| <= BATCH
    ensures Sized(batches + [b]) && Flatten(batches + [b]) == Flatten(batches) + b
  {
    FlattenSnoc(batches, b);
  }

  lemma FlattenSnoc(batches: seq<seq<Observation>>, b: seq<Observation>)
    ensures Flatten(batches + [b]) == Flatten(batches) + b
  {
    assert (batches + [b])[..|batches|] == batches;
  }

  /** The reference count: how many observations have each record type, up to the cap. */
  function CountsOf(os: seq<Observation>): Counts {
    if os == [] then map k | k in RECORD_TYPES :: 0
    else Bump(CountsOf(os[..|os| - 1]), os[|os| - 1].recordType, 1)
  }

  lemma CountsSnoc(os: seq<Observation>, o: Observation)
    ensures CountsOf(os + [o]) == Bump(CountsOf(os), o.recordType, 1)
  {
    assert (os + [o])[..|os|] == os;
  }

  // ---------------------------------------------------------------- conservation

  function Count(os: seq<Observation>, k: RecordType): nat {
    if os == [] then 0 else Count(os[..|os| - 1], k) + (if os[|os| - 1].recordType == k then 1 else 0)
  }

  lemma {:induction false} CountBound(os: seq<Observation>, k: RecordType)
    ensures Count(os, k) <= |os|
  {
    if os != [] { CountBound(os[..|os| - 1], k); }
  }

  lemma {:induction false} CountAppend(a: seq<Observation>, b: seq<Observation>, k: RecordType)
    ensures Count(a + b, k) == Count(a, k) + Count(b, k) <= |a| + |b|
  {
    CountBound(a, k);
    CountBound(b, k);
    if b == [] {
      assert a + b == a;
    } else {
      assert (a + b)[..|a + b| - 1] == a + b[..|b| - 1];
      CountAppend(a, b[..|b| - 1], k);
    }
  }

  lemma EveryType(k: RecordType)
    ensures k in RECORD_TYPES
  {
    match k
    case AgentStarted => case ActivityCheckpoint => case GateResult => case WorkBlocked => case AgentCompleted =>
  }

  lemma {:induction false} CountsAreCounts(os: seq<Observation>, k: RecordType)
    ensures CountsOf(os).Keys == RECORD_TYPES && Get(CountsOf(os), k) == Capped(Count(os, k))
  {
    if os == [] {
      EveryType(k);
    } else {
      EveryType(os[|os| - 1].recordType);
      CountsAreCounts(os[..|os| - 1], k);
    }
  }

  predicate DistinctSources(os: seq<Observation>) {
    forall i, j | 0 <= i < j < |os| :: os[i].source != os[j].source
  }

  predicate AllValid(os: seq<Observation>) { forall o | o in os :: o.source.Valid() }

  function EventSet(os: seq<Observation>): set<EventId> { set o | o in os :: EventOf(o.source) }

  lemma EntriesSnoc(os: seq<Observation>, o: Observation)
    ensures Entries(os + [o]) == Entries(os) + [EntryOf(o)]
    ensures EventSet(os + [o]) == EventSet(os) + {EventOf(o.source)}
  {
  }

  lemma FreshSnoc(entries: seq<Entry>, e: Entry, seen: set<EventId>)
    ensures var (seen', delta) := Fresh(entries, seen);
            Fresh(entries + [e], seen) ==
            if CountsEntry(e, seen')
            then (seen' + {e.id}, delta[e.recordType.value := Get(delta, e.recordType.value) + 1]) else (seen', delta)
  {
    assert (entries + [e])[..|entries|] == entries;
  }

  lemma NewEvent(os: seq<Observation>, o: Observation)
    requires DistinctSources(os + [o])
    ensures DistinctSources(os) && EventOf(o.source) !in EventSet(os)
  {
    var all := os + [o];
    forall i | 0 <= i < |os| ensures os[i].source != o.source {
      assert all[i].source != all[|os|].source;
    }
    forall i, j | 0 <= i < j < |os| ensures os[i].source != os[j].source {
      assert all[i].source != all[j].source;
    }
  }

  lemma NewEntryCounts(o: Observation, seen: set<EventId>, entries: seq<Entry>, seen0: set<EventId>, delta: Counts)
    requires o.source.Valid() && EventOf(o.source) !in seen && Fresh(entries, seen0) == (seen, delta)
    ensures Fresh(entries + [EntryOf(o)], seen0) ==
            (seen + {EventOf(o.source)}, delta[o.recordType := Get(delta, o.recordType) + 1])
  {
    FreshSnoc(entries, EntryOf(o), seen0);
  }

  /** Entries of valid distinct positions that were not seen before are all counted. */
  lemma {:induction false} AllFresh(os: seq<Observation>, seen: set<EventId>, k: RecordType)
    requires AllValid(os) && DistinctSources(os) && EventSet(os) !! seen
    ensures var (seen', delta) := Fresh(Entries(os), seen);
            seen' == seen + EventSet(os) && Get(delta, k) == Count(os, k)
  {
    if os != [] {
      var init, o := os[..|os| - 1], os[|os| - 1];
      assert os == init + [o] && o in os;
      EntriesSnoc(init, o);
      NewEvent(init, o);
      assert AllValid(init);
      AllFresh(init, seen, k);
      var delta := Fresh(Entries(init), seen).1;
      NewEntryCounts(o, seen + EventSet(init), Entries(init), seen, delta);
      OneMore(delta, init, o, k);
    }
  }

  lemma OneMore(delta: Counts, os: seq<Observation>, o: Observation, k: RecordType)
    requires Get(delta, k) == Count(os, k)
    ensures Get(delta[o.recordType := Get(delta, o.recordType) + 1], k) == Count(os + [o], k)
  {
    assert (os + [o])[..|os|] == os;
  }

  /** Entries that were all seen before change nothing. */
  lemma {:induction false} NoneFresh(os: seq<Observation>, seen: set<EventId>)
    requires EventSet(os) <= seen
    ensures Fresh(Entries(os), seen) == (seen, map[])
  {
    if os != [] {
      var init, o := os[..|os| - 1], os[|os| - 1];
      assert os == init + [o];
      EntriesSnoc(init, o);
      NoneFresh(init, seen);
      FreshSnoc(Entries(init), EntryOf(o), seen);
    }
  }

  ghost predicate GoodBatches(batches: seq<seq<Observation>>) {
    && Sized(batches) && AllValid(Flatten(batches)) && DistinctSources(Flatten(batches))
  }

  ghost predicate Tallied(t: Tally, batches: seq<seq<Observation>>) { TalliedAs(t, Flatten(batches)) }

  /**
   The tally holds exactly these observations: their events, how many of each type up to the cap, and
   ids of them alone.
   */
  ghost predicate TalliedAs(t: Tally, all: seq<Observation>) {
    && t.seenEvents == EventSet(all)
    && t.counts.Keys <= RECORD_TYPES
    && (forall k :: Get(t.counts, k) == Capped(Count(all, k)))
    && t.last == NewestIn(all)
    && (forall id | id in t.seenIds ::
          id.ActivityOf? && id.events != multiset{} && forall e | e in id.events :: e in t.seenEvents)
  }

  /** The newest observation time, if anything was observed. */
  function NewestIn(os: seq<Observation>): Option<int> {
    if os == [] then None else Newest(NewestIn(os[..|os| - 1]), Some(os[|os| - 1].observedAt))
  }

  lemma {:induction false} NewestAppend(a: seq<Observation>, b: seq<Observation>)
    ensures NewestIn(a + b) == Newest(NewestIn(a), NewestIn(b))
  {
    if b == [] {
      assert a + b == a;
    } else {
      assert (a + b)[..|a + b| - 1] == a + b[..|b| - 1];
      NewestAppend(a, b[..|b| - 1]);
    }
  }

  lemma {:induction false} NewestIsLatest(os: seq<Observation>)
    requires os != []
    ensures NewestIn(os) == Some(os[Latest(os)].observedAt)
  {
    if |os| > 1 { NewestIsLatest(os[..|os| - 1]); }
  }

  lemma SplitDistinct(a: seq<Observation>, b: seq<Observation>)
    requires AllValid(a + b) && DistinctSources(a + b)
    ensures AllValid(a) && AllValid(b) && DistinctSources(a) && DistinctSources(b)
    ensures EventSet(b) !! EventSet(a) && EventSet(a + b) == EventSet(a) + EventSet(b)
  {
    var all := a + b;
    assert (forall o | o in a :: o in all) && (forall o | o in b :: o in all);
    forall i, j | 0 <= i < |a| && 0 <= j < |b| ensures a[i].source != b[j].source {
      assert all[i].source != all[|a| + j].source;
    }
    forall i, j | 0 <= i < j < |a| ensures a[i].source != a[j].source {
      assert all[i].source != all[j].source;
    }
    forall i, j | 0 <= i < j < |b| ensures b[i].source != b[j].source {
      assert all[|a| + i].source != all[|a| + j].source;
    }
  }

  lemma {:induction false} CountMember(os: seq<Observation>, o: Observation)
    requires o in os
    ensures Count(os, o.recordType) > 0
  {
    if os[|os| - 1] != o { CountMember(os[..|os| - 1], o); }
  }

  /** Summarising one more batch of new events: its id is new, and its events are all counted. */
  lemma BatchAdds(t: Tally, b: seq<Observation>, k: RecordType)
    requires AllValid(b) && DistinctSources(b) && 0 < |b| <= BATCH && EventSet(b) !! t.seenEvents
    requires EmissionOf(b).id.value !in t.seenIds
    requires t.counts.Keys <= RECORD_TYPES && 0 <= Get(t.counts, k) <= MAX_COUNTER
    ensures var t' := Summarize1(t, EmissionOf(b));
            && t'.seenIds == t.seenIds + {EmissionOf(b).id.value}
            && t'.seenEvents == t.seenEvents + EventSet(b)
            && t'.counts.Keys <= RECORD_TYPES
            && Get(t'.counts, k) == Capped(Get(t.counts, k) + Count(b, k))
            && t'.last == Newest(t.last, Some(b[Latest(b)].observedAt))
  {
    hide AddCounts, Get, Fresh, EventSet, Latest, Capped;
    assert Take(EmissionOf(b).events.value) == Entries(b);
    CountMember(b, b[0]);
    BatchIsFresh(b, t.seenEvents, b[0].recordType);
    BatchIsFresh(b, t.seenEvents, k);
    AddedCount(t.counts, Fresh(Entries(b), t.seenEvents).1, k);
  }

  lemma BatchIsFresh(b: seq<Observation>, seen: set<EventId>, k: RecordType)
    requires AllValid(b) && DistinctSources(b) && EventSet(b) !! seen
    ensures var (seen', delta) := Fresh(Entries(b), seen);
            seen' == seen + EventSet(b) && Get(delta, k) == Count(b, k) && (Count(b, k) > 0 ==> delta != map[])
  {
    AllFresh(b, seen, k);
  }

  lemma AddedCount(counts: Counts, delta: Counts, k: RecordType)
    requires counts.Keys <= RECORD_TYPES && 0 <= Get(delta, k) && Get(counts, k) <= MAX_COUNTER
    ensures AddCounts(counts, delta).Keys <= RECORD_TYPES
    ensures Get(AddCounts(counts, delta), k) == Capped(Get(counts, k) + Get(delta, k))
  {
    EveryType(k);
  }

  lemma IdsAreEvents(b: seq<Observation>)
    requires b != []
    ensures Ids(b) != multiset{} && forall e | e in Ids(b) :: e in EventSet(b)
  {
    var ids := seq(|b|, i requires 0 <= i < |b| => EventOf(b[i].source));
    assert ids[0] in multiset(ids);
    forall e | e in Ids(b) ensures e in EventSet(b) {
      assert e in ids;
      var i :| 0 <= i < |ids| && ids[i] == e;
      assert b[i] in b;
    }
  }

  lemma NewId(t: Tally, batches: seq<seq<Observation>>, b: seq<Observation>)
    requires Tallied(t, batches) && b != [] && EventSet(b) !! t.seenEvents
    ensures EmissionOf(b).id.value !in t.seenIds
  {
    IdsAreEvents(b);
  }

  lemma TallyOne(t: Tally, init: seq<seq<Observation>>, b: seq<Observation>)
    requires Tallied(t, init) && GoodBatches(init + [b])
    ensures Tallied(Summarize1(t, EmissionOf(b)), init + [b])
  {
    var before := Flatten(init);
    FlattenSnoc(init, b);
    SplitDistinct(before, b);
    assert b in init + [b];
    NewId(t, init, b);
    TallyMore(t, before, b);
  }

  lemma TallyMore(t: Tally, before: seq<Observation>, b: seq<Observation>)
    requires TalliedAs(t, before) && AllValid(b) && DistinctSources(b) && 0 < |b| <= BATCH
    requires EventSet(b) !! EventSet(before) && EventSet(before + b) == EventSet(before) + EventSet(b)
    requires EmissionOf(b).id.value !in t.seenIds
    ensures TalliedAs(Summarize1(t, EmissionOf(b)), before + b)
  {
    IdsAreEvents(b);
    var t' := Summarize1(t, EmissionOf(b));
    forall k ensures Get(t'.counts, k) == Capped(Count(before + b, k)) {
      TallyCount(t, before, b, k);
    }
    TallyCount(t, before, b, AgentStarted);
    NewestAppend(before, b);
  }

  lemma TallyCount(t: Tally, before: seq<Observation>, b: seq<Observation>, k: RecordType)
    requires AllValid(b) && DistinctSources(b) && 0 < |b| <= BATCH && EventSet(b) !! t.seenEvents
    requires EmissionOf(b).id.value !in t.seenIds
    requires t.counts.Keys <= RECORD_TYPES && Get(t.counts, k) == Capped(Count(before, k))
    ensures var t' := Summarize1(t, EmissionOf(b));
            && t'.seenIds == t.seenIds + {EmissionOf(b).id.value} && t'.seenEvents == t.seenEvents + EventSet(b)
            && t'.counts.Keys <= RECORD_TYPES && Get(t'.counts, k) == Capped(Count(before + b, k))
            && t'.last == Newest(t.last, NewestIn(b))
  {
    hide Summarize1, Count, EventSet, AllValid, DistinctSources, Latest;
    NewestIsLatest(b);
    CountAppend(before, b, k);
    BatchAdds(t, b, k);
  }

  lemma GoodPrefix(init: seq<seq<Observation>>, b: seq<Observation>)
    requires GoodBatches(init + [b])
    ensures GoodBatches(init)
  {
    FlattenSnoc(init, b);
    SplitDistinct(Flatten(init), b);
    assert forall x | x in init :: x in init + [b];
  }

  lemma SummarySnoc(init: seq<seq<Observation>>, b: seq<Observation>)
    requires forall x | x in init + [b] :: |x| > 0
    requires forall x | x in init :: |x| > 0
    ensures Summary(EMPTY, EmissionsOf(init + [b])) ==
            (assert b in init + [b]; Summarize1(Summary(EMPTY, EmissionsOf(init)), EmissionOf(b)))
  {
    assert b in init + [b];
    assert EmissionsOf(init + [b]) == EmissionsOf(init) + [EmissionOf(b)];
    SummaryAppend(EMPTY, EmissionsOf(init), [EmissionOf(b)]);
    var t := Summary(EMPTY, EmissionsOf(init));
    assert [EmissionOf(b)][1..] == [];
    assert Summary(t, [EmissionOf(b)]) == Summary(Summarize1(t, EmissionOf(b)), []);
  }

  lemma {:induction false} SummaryTallies(batches: seq<seq<Observation>>)
    requires GoodBatches(batches)
    ensures Tallied(Summary(EMPTY, EmissionsOf(batches)), batches)
  {
    if batches != [] {
      var init, b := batches[..|batches| - 1], batches[|batches| - 1];
      assert batches == init + [b];
      GoodPrefix(init, b);
      SummaryTallies(init);
      TallyOne(Summary(EMPTY, EmissionsOf(init)), init, b);
      SummarySnoc(init, b);
    }
  }

  /**
   End to end: for distinct valid positions, summarising a run's emissions (once nothing is pending)
   gives exactly what the tracker counted, for every record type: how often it was observed, up to the
   cap that both apply.
   */
  lemma Conservation(batches: seq<seq<Observation>>, k: RecordType)
    requires GoodBatches(batches)
    ensures Get(Summary(EMPTY, EmissionsOf(batches)).counts, k) == Get(CountsOf(Flatten(batches)), k)
            == Capped(Count(Flatten(batches), k))
    ensures Count(Flatten(batches), k) < MAX_COUNTER ==>
              Get(Summary(EMPTY, EmissionsOf(batches)).counts, k) == Count(Flatten(batches), k)
  {
    SummaryTallies(batches);
    CountsAreCounts(Flatten(batches), k);
  }

  /** The summary also counts the events, and dates the last one, as they were observed. */
  lemma EventsAndLast(batches: seq<seq<Observation>>)
    requires GoodBatches(batches)
    ensures var t, all := Summary(EMPTY, EmissionsOf(batches)), Flatten(batches);
            t.RecordCount() == |all| && t.last == NewestIn(all)
  {
    SummaryTallies(batches);
    EventsDistinct(Flatten(batches));
    if batches == [] {
      assert Flatten(batches) == [];
    } else {
      assert batches[|batches| - 1] in batches;
    }
  }

  lemma {:induction false} EventsDistinct(os: seq<Observation>)
    requires DistinctSources(os)
    ensures |EventSet(os)| == |os|
  {
    if os != [] {
      var init, o := os[..|os| - 1], os[|os| - 1];
      assert os == init + [o];
      NewEvent(init, o);
      EntriesSnoc(init, o);
      EventsDistinct(init);
    }
  }

  /** The same of a tracker that has just been flushed: its records, summarised, give its own counts. */
  lemma TrackerConservation(tracker: AgentActivityTracker, k: RecordType)
    requires tracker.Valid() && tracker.pending == []
    requires DistinctSources(tracker.observed)
    ensures forall b | b in tracker.batches :: |b| > 0
    ensures Get(Summary(EMPTY, EmissionsOf(tracker.batches)).counts, k) == Get(tracker.counts, k)
  {
    assert Flatten(tracker.batches) + [] == Flatten(tracker.batches);
    Conservation(tracker.batches, k);
  }

  /** Records that repeat earlier ones are ignored, whatever they hold. */
  lemma {:induction false} RepeatsIgnored(t: Tally, again: seq<Record>)
    requires forall r | r in again :: !r.schema || r.recordType.None? || r.id.None? || r.id.value in t.seenIds
    ensures Summary(t, again) == t
    decreases |again|
  {
    if again != [] { RepeatsIgnored(t, again[1..]); }
  }

  lemma {:induction false} IdsSeen(t: Tally, records: seq<Record>, r: Record)
    ensures t.seenIds <= Summary(t, records).seenIds
    ensures r in records && r.schema && r.recordType.Some? && r.id.Some? ==> r.id.value in Summary(t, records).seenIds
    decreases |records|
  {
    if records != [] { IdsSeen(Summarize1(t, records[0]), records[1..], r); }
  }

  lemma ReplayIgnored(records: seq<Record>, again: seq<Record>)
    requires forall r | r in again :: r in records
    ensures Summary(EMPTY, records + again) == Summary(EMPTY, records)
  {
    SummaryAppend(EMPTY, records, again);
    forall r | r in again
      ensures !r.schema || r.recordType.None? || r.id.None? || r.id.value in Summary(EMPTY, records).seenIds
    {
      IdsSeen(EMPTY, records, r);
    }
    RepeatsIgnored(Summary(EMPTY, records), again);
  }

  lemma {:induction false} SeenBatchesAddNothing(t: Tally, batches: seq<seq<Observation>>)
    requires forall b | b in batches :: 0 < |b| <= BATCH && EventSet(b) <= t.seenEvents
    requires t.counts.Keys <= RECORD_TYPES
    ensures var t' := Summary(t, EmissionsOf(batches));
            t'.counts == t.counts && t'.seenEvents == t.seenEvents && t'.last == t.last
    decreases |batches|
  {
    if batches != [] {
      var b := batches[0];
      assert b in batches;
      NoneFresh(b, t.seenEvents);
      assert Take(EmissionOf(b).events.value) == Entries(b);
      assert EmissionsOf(batches)[1..] == EmissionsOf(batches[1..]);
      SeenBatchesAddNothing(Summarize1(t, EmissionOf(b)), batches[1..]);
    }
  }

  /**
   Observing the same stream positions again, cut into other batches and at whatever times they are
   seen the second time, leaves every count, the record count and the last activity as they were.
   */
  lemma RebatchIgnored(batches: seq<seq<Observation>>, again: seq<seq<Observation>>)
    requires GoodBatches(batches)
    requires forall b | b in again :: 0 < |b| <= BATCH && EventSet(b) <= EventSet(Flatten(batches))
    ensures var t := Summary(EMPTY, EmissionsOf(batches));
            var t' := Summary(EMPTY, EmissionsOf(batches) + EmissionsOf(again));
            && t'.counts == t.counts && t'.seenEvents == t.seenEvents && t'.last == t.last
            && t'.RecordCount() == t.RecordCount()
  {
    var t := Summary(EMPTY, EmissionsOf(batches));
    SummaryTallies(batches);
    SummaryAppend(EMPTY, EmissionsOf(batches), EmissionsOf(again));
    SeenBatchesAddNothing(t, again);
    if again != [] {
      var b := again[0];
      assert b in again && b[0] in b;
      assert EventOf(b[0].source) in t.seenEvents;
    }
  }
}
