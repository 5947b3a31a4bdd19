/**
 The native-planning spend gate: a rolling-day ceiling on launches and a backoff after
 unproductive outcomes, both read from recorded history.
 */
module PlanningGate {
  import opened Common

  const WINDOW := 86400 // seconds

  /** What a planning launch achieved; the last group is neither futility nor progress. */
  datatype Result = Productive | InvalidPlan | NoTasks | ZeroCreated | Inconclusive(name: string)

  predicate Unproductive(r: Result) { r.InvalidPlan? || r.NoTasks? || r.ZeroCreated? }

  /** Planning records of one repository. `free` is set when the outcome says no provider was launched. */
  datatype Record =
    | Launch(cycle: string, fingerprint: string, at: Option<int>)
    | Outcome(cycle: string, fingerprint: string, at: Option<int>, result: Result, free: bool)

  datatype Policy = Policy(backoff: int, maxPerDay: int, threshold: nat)

  datatype Reason = UnproductiveOutcomes | DailyLaunchCap

  /** `outcome` is the newest unproductive outcome, or for the ceiling the newest outcome at all. */
  datatype Backoff = Backoff(reason: Reason, outcome: Option<Result>, attempts: nat, launches: nat, remaining: int)

  // ---------------------------------------------------------------- the unproductive streak

  /** Unproductive outcomes since the last productive one, or since the board last changed; newest first. */
  function Streak(records: seq<Record>, fingerprint: string): (streak: seq<Record>)
    ensures forall r | r in streak :: r.Outcome? && Unproductive(r.result) && r.fingerprint == fingerprint
  {
    if records == [] then []
    else
      var init, last := records[..|records| - 1], records[|records| - 1];
      if last.Launch? then Streak(init, fingerprint)
      else if last.fingerprint != fingerprint || last.result == Productive then []
      else if Unproductive(last.result) then [last] + Streak(init, fingerprint)
      else Streak(init, fingerprint)
  }

  function LastOutcome(records: seq<Record>): Option<Result> {
    if records == [] then None
    else
      var last := records[|records| - 1];
      if last.Outcome? then Some(last.result) else LastOutcome(records[..|records| - 1])
  }

  // ---------------------------------------------------------------- counted launches

  /** A planning cycle; records without a cycle id stand for a cycle of their own. */
  datatype Key = Named(cycle: string) | Anonymous(index: nat)

  /** First-seen order, earliest record time, and whether the last outcome proved the cycle free. */
  datatype Cycles = Cycles(order: seq<Key>, times: map<Key, int>, free: map<Key, bool>)

  function KeyOf(c: Cycles, r: Record): Key {
    if r.cycle != "" then Named(r.cycle) else Anonymous(|c.order|)
  }

  function Note(c: Cycles, r: Record): Cycles {
    if r.at.None? then c
    else
      var key := KeyOf(c, r);
      var c' := if key !in c.times then c.(order := c.order + [key], times := c.times[key := r.at.value])
                else if r.at.value < c.times[key] then c.(times := c.times[key := r.at.value])
                else c;
      if r.Outcome? then c'.(free := c'.free[key := r.free]) else c'
  }

  function CyclesOf(records: seq<Record>): Cycles {
    if records == [] then Cycles([], map[], map[]) else Note(CyclesOf(records[..|records| - 1]), records[|records| - 1])
  }

  predicate IsFree(c: Cycles, key: Key) { key in c.free && c.free[key] }

  predicate Counted(c: Cycles, key: Key) { key in c.times && !IsFree(c, key) }

  /** Times of the counted cycles among `keys`. */
  function LaunchTimes(c: Cycles, keys: seq<Key>): seq<int> {
    if keys == [] then []
    else
      var before := LaunchTimes(c, keys[..|keys| - 1]);
      var key := keys[|keys| - 1];
      if Counted(c, key) then before + [c.times[key]] else before
  }

  function AllLaunches(records: seq<Record>): seq<int> {
    var c := CyclesOf(records);
    LaunchTimes(c, c.order)
  }

  predicate InWindow(now: int, at: int) { now - at < WINDOW }

  function InWindowTimes(times: seq<int>, now: int): seq<int> { Filter(times, at => InWindow(now, at)) }

  // ---------------------------------------------------------------- sorting

  predicate Ascending(xs: seq<int>) { forall i, j | 0 <= i < j < |xs| :: xs[i] <= xs[j] }

  function Insert(xs: seq<int>, x: int): (ys: seq<int>)
    ensures |ys| == |xs| + 1
    ensures forall y | y in ys :: y in xs || y == x
  {
    if xs == [] then [x]
    else
      var init, last := xs[..|xs| - 1], xs[|xs| - 1];
      if last <= x then xs + [x] else Insert(init, x) + [last]
  }

  function Sorted(xs: seq<int>): (ys: seq<int>)
    ensures |ys| == |xs|
  {
    if xs == [] then [] else Insert(Sorted(xs[..|xs| - 1]), xs[|xs| - 1])
  }

  lemma AscendingSnoc(xs: seq<int>, x: int)
    requires Ascending(xs) && forall i | 0 <= i < |xs| :: xs[i] <= x
    ensures Ascending(xs + [x])
  {
  }

  lemma {:induction false} InsertAscends(xs: seq<int>, x: int)
    requires Ascending(xs)
    ensures Ascending(Insert(xs, x))
  {
    if xs != [] && xs[|xs| - 1] > x {
      var init, last := xs[..|xs| - 1], xs[|xs| - 1];
      InsertAscends(init, x);
      var ys := Insert(init, x);
      forall i | 0 <= i < |ys| ensures ys[i] <= last {
        assert ys[i] in ys;
        if ys[i] != x {
          var k :| 0 <= k < |init| && init[k] == ys[i];
          assert xs[k] == init[k];
        }
      }
      AscendingSnoc(ys, last);
    }
  }

  lemma {:induction false} InsertPermutes(xs: seq<int>, x: int)
    ensures multiset(Insert(xs, x)) == multiset(xs) + multiset{x}
  {
    if xs != [] && xs[|xs| - 1] > x {
      InsertPermutes(xs[..|xs| - 1], x);
      assert xs == xs[..|xs| - 1] + [xs[|xs| - 1]];
    }
  }

  /** Sorting launch times keeps every one of them. */
  lemma {:induction false} SortedPermutes(xs: seq<int>)
    ensures multiset(Sorted(xs)) == multiset(xs)
  {
    if xs != [] {
      var init := xs[..|xs| - 1];
      SortedPermutes(init);
      InsertPermutes(Sorted(init), xs[|xs| - 1]);
      assert xs == init + [xs[|xs| - 1]];
    }
  }

  // ---------------------------------------------------------------- the decision

  /** Seconds left of the backoff after a streak, when there is one to serve. */
  function StreakRemaining(records: seq<Record>, fingerprint: string, p: Policy, now: int): Option<int> {
    var streak := Streak(records, fingerprint);
    if |streak| > 0 && |streak| >= p.threshold && p.backoff > 0 && streak[0].at.Some?
       && p.backoff - (now - streak[0].at.value) > 0
    then Some(p.backoff - (now - streak[0].at.value)) else None
  }

  /** Seconds until the oldest launch that fills the ceiling ages out of the window. */
  function CapRemaining(launches: seq<int>, p: Policy, now: int): Option<int> {
    var inWindow := InWindowTimes(launches, now);
    if p.maxPerDay > 0 && |inWindow| >= p.maxPerDay then
      var remaining := WINDOW - (now - Sorted(inWindow)[|inWindow| - p.maxPerDay]);
      if remaining > 0 then Some(remaining) else None
    else None
  }

  function OutcomeBackoff(records: seq<Record>, fingerprint: string, p: Policy, now: int): Option<Backoff> {
    var launches := AllLaunches(records);
    var attempts, inWindow := |Streak(records, fingerprint)|, |InWindowTimes(launches, now)|;
    var a, b := StreakRemaining(records, fingerprint, p, now), CapRemaining(launches, p, now);
    if a.Some? && (b.None? || a.value >= b.value) then
      Some(Backoff(UnproductiveOutcomes, Some(Streak(records, fingerprint)[0].result), attempts, inWindow, a.value))
    else if b.Some? then Some(Backoff(DailyLaunchCap, LastOutcome(records), attempts, inWindow, b.value))
    else None
  }

  method StreakOf(records: seq<Record>, fingerprint: string) returns (streak: seq<Record>)
    ensures streak == Streak(records, fingerprint)
  {
    streak := [];
    var k := |records|;
    assert records[..k] == records;
    while k > 0
      invariant 0 <= k <= |records|
      invariant Streak(records, fingerprint) == streak + Streak(records[..k], fingerprint)
    {
      var record := records[k - 1];
      assert records[..k][..k - 1] == records[..k - 1];
      if record.Outcome? {
        if record.fingerprint != fingerprint || record.result == Productive { return; }
        if Unproductive(record.result) { streak := streak + [record]; }
      }
      k := k - 1;
    }
  }

  method LatestOutcome(records: seq<Record>) returns (r: Option<Result>)
    ensures r == LastOutcome(records)
  {
    r := None;
    for i := 0 to |records|
      invariant r == LastOutcome(records[..i])
    {
      Prefix(records, i);
      if records[i].Outcome? { r := Some(records[i].result); }
    }
    assert records[..|records|] == records;
  }

  method CountedLaunches(records: seq<Record>, now: int) returns (times: seq<int>)
    ensures times == InWindowTimes(AllLaunches(records), now)
  {
    var c := Cycles([], map[], map[]);
    for i := 0 to |records|
      invariant c == CyclesOf(records[..i])
    {
      Prefix(records, i);
      c := Note(c, records[i]);
    }
    assert records[..|records|] == records;
    times := [];
    for i := 0 to |c.order|
      invariant times == InWindowTimes(LaunchTimes(c, c.order[..i]), now)
    {
      Prefix(c.order, i);
      var key := c.order[i];
      if Counted(c, key) {
        FilterSnoc(LaunchTimes(c, c.order[..i]), c.times[key], at => InWindow(now, at));
        if InWindow(now, c.times[key]) { times := times + [c.times[key]]; }
      }
    }
    assert c.order[..|c.order|] == c.order;
  }

  /** How long to withhold native planning, or `None` when it may run now. */
  method PlanningOutcomeBackoff(records: seq<Record>, fingerprint: string, p: Policy, now: int)
    returns (r: Option<Backoff>)
    ensures r == OutcomeBackoff(records, fingerprint, p, now)
  {
    if records == [] { return None; }
    var streak := StreakOf(records, fingerprint);
    var launchTimes := CountedLaunches(records, now);
    var a, b: Option<int> := None, None;
    if |streak| > 0 && |streak| >= p.threshold && p.backoff > 0 && streak[0].at.Some? {
      var remaining := p.backoff - (now - streak[0].at.value);
      if remaining > 0 { a := Some(remaining); }
    }
    if p.maxPerDay > 0 && |launchTimes| >= p.maxPerDay {
      var sorted := Sorted(launchTimes);
      var remaining := WINDOW - (now - sorted[|sorted| - p.maxPerDay]);
      if remaining > 0 { b := Some(remaining); }
    }
    if a.Some? && (b.None? || a.value >= b.value) {
      r := Some(Backoff(UnproductiveOutcomes, Some(streak[0].result), |streak|, |launchTimes|, a.value));
    } else if b.Some? {
      var last := LatestOutcome(records);
      r := Some(Backoff(DailyLaunchCap, last, |streak|, |launchTimes|, b.value));
    } else {
      r := None;
    }
  }

  // ---------------------------------------------------------------- the deadline is exact

  /** How many of `xs` lie after `y`. */
  function After(xs: seq<int>, y: int): nat {
    if xs == [] then 0 else After(xs[..|xs| - 1], y) + (if xs[|xs| - 1] > y then 1 else 0)
  }

  lemma {:induction false} InWindowCount(xs: seq<int>, now: int)
    ensures |InWindowTimes(xs, now)| == After(xs, now - WINDOW)
  {
    if xs != [] { InWindowCount(xs[..|xs| - 1], now); }
  }

  lemma {:induction false} AfterInsert(xs: seq<int>, x: int, y: int)
    ensures After(Insert(xs, x), y) == After(xs, y) + (if x > y then 1 else 0)
  {
    if xs == [] {
      assert [x][..0] == [];
    } else {
      var init, last := xs[..|xs| - 1], xs[|xs| - 1];
      AfterInsert(init, x, y);
      assert (xs + [x])[..|xs|] == xs;
      assert (Insert(init, x) + [last])[..|xs|] == Insert(init, x);
    }
  }

  /** In an ascending sequence, at least `n` elements lie after `y` exactly when the n-th from the end does. */
  lemma {:induction false} AfterAscending(xs: seq<int>, n: nat, y: int)
    requires Ascending(xs) && 0 < n <= |xs|
    ensures After(xs, y) >= n <==> xs[|xs| - n] > y
  {
    var init, last := xs[..|xs| - 1], xs[|xs| - 1];
    if last <= y {
      NoneAfter(xs, y);
    } else if n > 1 {
      AfterAscending(init, n - 1, y);
    }
  }

  lemma {:induction false} NoneAfter(xs: seq<int>, y: int)
    requires forall i | 0 <= i < |xs| :: xs[i] <= y
    ensures After(xs, y) == 0
  {
    if xs != [] {
      NoneAfter(xs[..|xs| - 1], y);
    }
  }

  lemma {:induction false} AfterWindow(xs: seq<int>, now: int, y: int)
    requires y >= now - WINDOW
    ensures After(InWindowTimes(xs, now), y) == After(xs, y)
  {
    if xs != [] {
      var init, last := xs[..|xs| - 1], xs[|xs| - 1];
      AfterWindow(init, now, y);
      assert (InWindowTimes(init, now) + [last])[..|InWindowTimes(init, now)|] == InWindowTimes(init, now);
    }
  }

  /** Sorting ascends, and keeps how many elements lie after any time. */
  lemma {:induction false} SortedKeeps(xs: seq<int>, y: int)
    ensures Ascending(Sorted(xs)) && After(Sorted(xs), y) == After(xs, y)
  {
    hide Insert;
    if xs != [] {
      var init, last := xs[..|xs| - 1], xs[|xs| - 1];
      SortedKeeps(init, y);
      InsertAscends(Sorted(init), last);
      AfterInsert(Sorted(init), last, y);
    }
  }

  lemma NthFromEnd(xs: seq<int>, n: nat, y: int)
    requires 0 < n <= |xs|
    ensures After(xs, y) >= n <==> Sorted(xs)[|xs| - n] > y
  {
    hide After, Ascending, Insert;
    SortedKeeps(xs, y);
    AfterAscending(Sorted(xs), n, y);
  }

  /** The launch that fills the ceiling: it lies after `y` exactly when the allowed number of launches do. */
  lemma FillingLaunch(launches: seq<int>, n: nat, now: int, y: int)
    requires 0 < n <= |InWindowTimes(launches, now)| && y >= now - WINDOW
    ensures var inWindow := InWindowTimes(launches, now);
            After(launches, y) >= n <==> Sorted(inWindow)[|inWindow| - n] > y
  {
    hide After;
    AfterWindow(launches, now, y);
    NthFromEnd(InWindowTimes(launches, now), n, y);
  }

  /** The ceiling closes the gate exactly while the window holds the allowed number of launches. */
  lemma CapCloses(launches: seq<int>, p: Policy, now: int, later: int)
    requires p.maxPerDay > 0 && now <= later
    ensures CapRemaining(launches, p, now).Some? <==> After(launches, now - WINDOW) >= p.maxPerDay
    ensures CapRemaining(launches, p, now).Some? ==>
              (After(launches, later - WINDOW) >= p.maxPerDay
               <==> later < now + CapRemaining(launches, p, now).value)
  {
    InWindowCount(launches, now);
    if |InWindowTimes(launches, now)| >= p.maxPerDay {
      FillingLaunch(launches, p.maxPerDay, now, now - WINDOW);
      FillingLaunch(launches, p.maxPerDay, now, later - WINDOW);
    }
  }

  /** Both gates at once: closed at `now` when either still has seconds to serve. */
  predicate Closed(records: seq<Record>, fingerprint: string, p: Policy, now: int) {
    OutcomeBackoff(records, fingerprint, p, now).Some?
  }

  lemma {:induction false} AfterShrinks(xs: seq<int>, y: int, z: int)
    requires y <= z
    ensures After(xs, z) <= After(xs, y)
  {
    if xs != [] { AfterShrinks(xs[..|xs| - 1], y, z); }
  }

  /**
   The deadline is exact: with unchanged records the gate is closed at a later time exactly when
   it was closed before with more than the elapsed seconds remaining. An open gate stays open.
   */
  lemma DeadlineExact(records: seq<Record>, fingerprint: string, p: Policy, now: int, later: int)
    requires now <= later
    ensures Closed(records, fingerprint, p, later)
            <==> Closed(records, fingerprint, p, now)
                 && later < now + OutcomeBackoff(records, fingerprint, p, now).value.remaining
  {
    var launches := AllLaunches(records);
    if p.maxPerDay > 0 {
      CapCloses(launches, p, now, later);
      CapCloses(launches, p, later, later);
      AfterShrinks(launches, now - WINDOW, later - WINDOW);
    }
  }

  // ---------------------------------------------------------------- the rolling ceiling over a run

  /** What the autopilot appends: a launch after it read an open gate at `checked`, and one outcome per launch. */
  datatype Event =
    | Launched(cycle: string, fingerprint: string, checked: int, at: int)
    | Finished(cycle: string, fingerprint: string, at: int, result: Result, free: bool)

  function RecordOf(e: Event): Record {
    match e
    case Launched(cycle, fingerprint, _, at) => Launch(cycle, fingerprint, Some(at))
    case Finished(cycle, fingerprint, at, result, free) => Outcome(cycle, fingerprint, Some(at), result, free)
  }

  function History(events: seq<Event>): seq<Record> {
    seq(|events|, i requires 0 <= i < |events| => RecordOf(events[i]))
  }

  ghost predicate Gated(events: seq<Event>, p: Policy) {
    events == [] ||
    (var before, e := events[..|events| - 1], events[|events| - 1];
     var c := CyclesOf(History(before));
     && Gated(before, p)
     && e.cycle != ""
     && match e
        case Launched(cycle, fingerprint, checked, at) =>
          Named(cycle) !in c.times && checked <= at && !Closed(History(before), fingerprint, p, checked)
        case Finished(cycle, _, at, _, _) =>
          Named(cycle) in c.times && c.times[Named(cycle)] <= at && Named(cycle) !in c.free)
  }

  /** How many of `times` lie in the day that starts at `x`. */
  function Held(times: seq<int>, x: int): nat {
    if times == [] then 0
    else Held(times[..|times| - 1], x) + (if x <= times[|times| - 1] < x + WINDOW then 1 else 0)
  }

  lemma {:induction false} HeldAtMostAfter(times: seq<int>, x: int)
    ensures Held(times, x) <= After(times, x - 1)
  {
    if times != [] { HeldAtMostAfter(times[..|times| - 1], x); }
  }

  lemma {:induction false} FewerHeld(c: Cycles, c': Cycles, keys: seq<Key>, x: int)
    requires forall k | k in keys && Counted(c', k) :: Counted(c, k) && c'.times[k] == c.times[k]
    ensures Held(LaunchTimes(c', keys), x) <= Held(LaunchTimes(c, keys), x)
  {
    if keys != [] {
      var init, key := keys[..|keys| - 1], keys[|keys| - 1];
      assert keys == init + [key];
      FewerHeld(c, c', init, x);
      HeldSnoc(LaunchTimes(c, init), if key in c.times then c.times[key] else 0, x);
      HeldSnoc(LaunchTimes(c', init), if key in c'.times then c'.times[key] else 0, x);
    }
  }

  lemma HeldSnoc(times: seq<int>, t: int, x: int)
    ensures Held(times + [t], x) == Held(times, x) + (if x <= t < x + WINDOW then 1 else 0)
  {
    assert (times + [t])[..|times|] == times;
  }

  lemma HistorySnoc(events: seq<Event>, e: Event)
    ensures History(events + [e]) == History(events) + [RecordOf(e)]
    ensures CyclesOf(History(events + [e])) == Note(CyclesOf(History(events)), RecordOf(e))
  {
    assert (History(events) + [RecordOf(e)])[..|events|] == History(events);
  }

  lemma {:induction false} CyclesCoherent(records: seq<Record>)
    ensures forall k :: k in CyclesOf(records).order <==> k in CyclesOf(records).times
    ensures CyclesOf(records).free.Keys <= CyclesOf(records).times.Keys
  {
    if records != [] { CyclesCoherent(records[..|records| - 1]); }
  }

  lemma {:induction false} SameLaunches(c: Cycles, c': Cycles, keys: seq<Key>)
    requires forall k | k in keys :: Counted(c, k) == Counted(c', k) && (Counted(c, k) ==> c.times[k] == c'.times[k])
    ensures LaunchTimes(c', keys) == LaunchTimes(c, keys)
  {
    if keys != [] {
      assert keys == keys[..|keys| - 1] + [keys[|keys| - 1]];
      SameLaunches(c, c', keys[..|keys| - 1]);
    }
  }

  /** A launch of a new cycle adds exactly its own time. */
  lemma LaunchAdds(before: seq<Record>, e: Event)
    requires e.Launched? && e.cycle != "" && Named(e.cycle) !in CyclesOf(before).times
    ensures var c' := Note(CyclesOf(before), RecordOf(e));
            LaunchTimes(c', c'.order) == AllLaunches(before) + [e.at]
  {
    var c := CyclesOf(before);
    var c' := Note(c, RecordOf(e));
    CyclesCoherent(before);
    assert c'.order == c.order + [Named(e.cycle)];
    assert c'.order[..|c'.order| - 1] == c.order;
    SameLaunches(c, c', c.order);
  }

  /** An open ceiling leaves room for one launch in every day that could hold it. */
  lemma RoomForOne(launches: seq<int>, p: Policy, checked: int, at: int, x: int)
    requires p.maxPerDay > 0 && checked <= at && CapRemaining(launches, p, checked).None?
    requires Held(launches, x) <= p.maxPerDay
    ensures Held(launches + [at], x) <= p.maxPerDay
  {
    HeldSnoc(launches, at, x);
    CapCloses(launches, p, checked, checked);
    if x <= at < x + WINDOW {
      HeldAtMostAfter(launches, x);
      AfterShrinks(launches, checked - WINDOW, x - 1);
    }
  }

  /**
   The rolling ceiling: in every run that records a launch only after reading an open gate, no
   window of a day, wherever it starts, holds more than the allowed number of counted launches.
   */
  lemma {:induction false} RollingCeiling(events: seq<Event>, p: Policy, x: int)
    requires Gated(events, p) && p.maxPerDay > 0
    ensures Held(AllLaunches(History(events)), x) <= p.maxPerDay
  {
    if events != [] {
      var before, e := events[..|events| - 1], events[|events| - 1];
      assert events == before + [e];
      RollingCeiling(before, p, x);
      HistorySnoc(before, e);
      if e.Launched? {
        LaunchFits(History(before), e, p, x);
      } else {
        FinishFits(History(before), e, p, x);
      }
    }
  }

  lemma LaunchFits(before: seq<Record>, e: Event, p: Policy, x: int)
    requires e.Launched? && e.cycle != "" && Named(e.cycle) !in CyclesOf(before).times && e.checked <= e.at
    requires p.maxPerDay > 0 && !Closed(before, e.fingerprint, p, e.checked)
    requires Held(AllLaunches(before), x) <= p.maxPerDay
    ensures var c' := Note(CyclesOf(before), RecordOf(e)); Held(LaunchTimes(c', c'.order), x) <= p.maxPerDay
  {
    LaunchAdds(before, e);
    RoomForOne(AllLaunches(before), p, e.checked, e.at, x);
  }

  lemma FinishFits(before: seq<Record>, e: Event, p: Policy, x: int)
    requires e.Finished? && e.cycle != "" && Named(e.cycle) in CyclesOf(before).times
    requires CyclesOf(before).times[Named(e.cycle)] <= e.at && Named(e.cycle) !in CyclesOf(before).free
    requires Held(AllLaunches(before), x) <= p.maxPerDay
    ensures var c' := Note(CyclesOf(before), RecordOf(e)); Held(LaunchTimes(c', c'.order), x) <= p.maxPerDay
  {
    var c := CyclesOf(before);
    CyclesCoherent(before);
    FewerHeld(c, Note(c, RecordOf(e)), c.order, x);
  }
}
