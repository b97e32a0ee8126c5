/** Per-market statistics, their snapshot, and the replay of the tail of the event log. */
module LearningStats {
  import opened Prelude
  import opened StableSort

  datatype MarketStats = MarketStats(
    opportunities: nat, approvals: nat, avgEdge: real, slippageSamples: nat, avgSlippage: real, timeouts: nat,
    lastUpdatedMs: int)

  type Stats = map<string, MarketStats>

  /** The events that count; a fill without a finite slippage, or any other status, is `Nothing`. */
  datatype Kind = Opportunity(edge: Option<real>) | Approval | Timeout | FillSample(slippage: real) | Nothing

  /** When the event was stored, and when the live tracker then read the clock for its update. */
  datatype Event = Event(ts: int, live: int, market: string, kind: Kind)

  datatype Snapshot = Snapshot(atMs: int, appliedThrough: Option<int>, stats: Stats)

  predicate Counts(e: Event) {
    !e.kind.Nothing? && e.market != ""
  }

  function Empty(now: int): MarketStats {
    MarketStats(0, 0, 0.0, 0, 0.0, 0, now)
  }

  /** The average after the n-th value. */
  function NextAverage(average: real, n: nat, value: real): real
    requires n >= 1
  {
    if n <= 1 then value else (average * (n - 1) as real + value) / n as real
  }

  function Updated(m: MarketStats, kind: Kind, now: int): MarketStats {
    var next := m.(lastUpdatedMs := now);
    match kind
    case Opportunity(edge) =>
      var n := m.opportunities + 1;
      next.(opportunities := n, avgEdge := if edge.Some? then NextAverage(m.avgEdge, n, edge.value) else m.avgEdge)
    case Approval => next.(approvals := m.approvals + 1)
    case Timeout => next.(timeouts := m.timeouts + 1)
    case FillSample(slippage) =>
      var n := m.slippageSamples + 1;
      next.(slippageSamples := n, avgSlippage := NextAverage(m.avgSlippage, n, slippage))
    case Nothing => next
  }

  function StatsOf(stats: Stats, market: string, now: int): MarketStats {
    if market in stats then stats[market] else Empty(now)
  }

  function Apply(stats: Stats, e: Event): Stats {
    if Counts(e) then stats[e.market := Updated(StatsOf(stats, e.market, e.ts), e.kind, e.ts)] else stats
  }

  function ApplyAll(stats: Stats, events: seq<Event>): Stats {
    if events == [] then stats else Apply(ApplyAll(stats, events[..|events| - 1]), events[|events| - 1])
  }

  /** The events as the live tracker sees them: at its own times. */
  function Lived(events: seq<Event>): (r: seq<Event>)
    ensures |r| == |events| && forall i :: 0 <= i < |r| ==> r[i] == events[i].(ts := events[i].live)
  {
    seq(|events|, i requires 0 <= i < |events| => events[i].(ts := events[i].live))
  }

  /** The statistics of a tracker that never restarts. */
  function Live(log: seq<Event>): Stats {
    ApplyAll(map[], Lived(log))
  }

  /** The same markets with the same counts and averages; the times of their last updates may differ. */
  ghost predicate Alike(a: Stats, b: Stats) {
    a.Keys == b.Keys && forall m :: m in a ==> a[m] == b[m].(lastUpdatedMs := a[m].lastUpdatedMs)
  }

  /** The time a tracker has applied through: the largest of the counting events, from `start`. */
  function AppliedThrough(start: int, events: seq<Event>): int {
    if events == [] then start
    else
      var before, e := AppliedThrough(start, events[..|events| - 1]), events[|events| - 1];
      if Counts(e) then MaxInt(before, e.ts) else before
  }

  function ByTime(): Event -> real {
    (e: Event) => e.ts as real
  }

  function After(since: int): Event -> bool {
    (e: Event) => e.ts > since
  }

  /** The store's query: later events only, by time. */
  function Tail(log: seq<Event>, since: int): seq<Event> {
    Sort(ByTime(), Filter(After(since), log))
  }

  /** The statistics a restart ends with, before pruning. */
  function Restored(snapshot: Option<Snapshot>, log: seq<Event>): Stats {
    RestoredFrom(map[], snapshot, log)
  }

  /** Only an unusable snapshot leaves what the tracker already held. */
  function RestoredFrom(held: Stats, snapshot: Option<Snapshot>, log: seq<Event>): Stats {
    if snapshot.None? then ApplyAll(held, Tail(log, 0))
    else if snapshot.value.stats == map[] then map[]
    else ApplyAll(snapshot.value.stats, Tail(log, Since(snapshot.value)))
  }

  function Since(s: Snapshot): int {
    if s.appliedThrough.Some? then MaxInt(0, s.appliedThrough.value) else s.atMs
  }

  /** The latest time among `start` and the events, counting or not. */
  function LatestTime(start: int, events: seq<Event>): int {
    if events == [] then start else MaxInt(LatestTime(start, events[..|events| - 1]), events[|events| - 1].ts)
  }

  /**
   * The snapshot's counts and averages are those of the first `k` events, and all of them that count were
   * stored by its applied-through time.
   */
  ghost predicate Covers(s: Snapshot, log: seq<Event>, k: nat)
    requires k <= |log|
  {
    Alike(s.stats, Live(log[..k])) && ReachesPast(s, log, k)
  }

  /** Those of the first `k` events that count were stored by the snapshot's applied-through time. */
  ghost predicate ReachesPast(s: Snapshot, log: seq<Event>, k: nat)
    requires k <= |log|
  {
    s.appliedThrough.Some? && AppliedThrough(0, log[..k]) <= s.appliedThrough.value
  }

  /** Stored times are positive and never go back, and an update comes no earlier than its event was stored. */
  ghost predicate Timely(log: seq<Event>) {
    && (forall i :: 0 <= i < |log| ==> 0 < log[i].ts <= log[i].live)
    && (forall i, j :: 0 <= i < j < |log| ==> log[i].ts <= log[j].ts)
  }

  /** Moreover each event is stored in a later millisecond than the updates before it. */
  ghost predicate Apart(log: seq<Event>) {
    Timely(log) && forall i, j :: 0 <= i < j < |log| ==> log[i].live < log[j].ts
  }

  // ------------------------------------------------------------------ counting

  function Total(stats: Stats, market: string): nat {
    if market in stats then
      stats[market].opportunities + stats[market].approvals + stats[market].timeouts + stats[market].slippageSamples
    else 0
  }

  function Of(market: string): Event -> bool {
    (e: Event) => Counts(e) && e.market == market
  }

  lemma ApplyLast(stats: Stats, events: seq<Event>)
    ensures ApplyAll(stats, events) ==
      if events == [] then stats else Apply(ApplyAll(stats, events[..|events| - 1]), events[|events| - 1])
  {
  }

  /** Each counting event adds exactly one to its market's total. */
  lemma {:induction false} TotalsCount(stats: Stats, events: seq<Event>, market: string)
    ensures Total(ApplyAll(stats, events), market) == Total(stats, market) + |Filter(Of(market), events)|
  {
    hide NextAverage, ApplyAll;
    ApplyLast(stats, events);
    if events != [] {
      TotalsCount(stats, events[..|events| - 1], market);
    }
  }

  /** How many of the events are of this sort. */
  ghost function HowMany(sort: Event -> bool, events: seq<Event>): nat {
    if events == [] then 0
    else HowMany(sort, events[..|events| - 1]) + if sort(events[|events| - 1]) then 1 else 0
  }

  /** The time of the last of the events that is of this sort. */
  ghost function LastOf(sort: Event -> bool, events: seq<Event>): Option<int> {
    if events == [] then None
    else if sort(events[|events| - 1]) then Some(events[|events| - 1].ts)
    else LastOf(sort, events[..|events| - 1])
  }

  /**
   * From no statistics on, each counter of a market is the number of its events of that kind, a market is
   * known once one of them came, and its update time is that of the last of them.
   */
  lemma {:induction false} CountersCount(events: seq<Event>, market: string)
    requires market != ""
    ensures var all, m := ApplyAll(map[], events), StatsOf(ApplyAll(map[], events), market, 0);
      && m.opportunities == HowMany((e: Event) => e.market == market && e.kind.Opportunity?, events)
      && m.approvals == HowMany((e: Event) => e.market == market && e.kind.Approval?, events)
      && m.timeouts == HowMany((e: Event) => e.market == market && e.kind.Timeout?, events)
      && m.slippageSamples == HowMany((e: Event) => e.market == market && e.kind.FillSample?, events)
      && (if market in all then Some(all[market].lastUpdatedMs) else None)
        == LastOf((e: Event) => e.market == market && !e.kind.Nothing?, events)
    ensures "" !in ApplyAll(map[], events)
  {
    hide NextAverage;
    if events != [] {
      CountersCount(events[..|events| - 1], market);
    }
  }

  lemma {:induction false} ApplyAppend(stats: Stats, a: seq<Event>, b: seq<Event>)
    ensures ApplyAll(stats, a + b) == ApplyAll(ApplyAll(stats, a), b)
  {
    if b == [] {
      assert a + b == a;
    } else {
      assert (a + b)[..|a + b| - 1] == a + b[..|b| - 1];
      ApplyAppend(stats, a, b[..|b| - 1]);
    }
  }

  lemma {:induction false} ThroughIsUpper(start: int, events: seq<Event>)
    ensures start <= AppliedThrough(start, events)
    ensures forall i :: 0 <= i < |events| && Counts(events[i]) ==> events[i].ts <= AppliedThrough(start, events)
  {
    if events != [] {
      ThroughIsUpper(start, events[..|events| - 1]);
    }
  }

  lemma {:induction false} ThroughIsLeast(start: int, events: seq<Event>, limit: int)
    requires start <= limit && forall i :: 0 <= i < |events| && Counts(events[i]) ==> events[i].ts <= limit
    ensures AppliedThrough(start, events) <= limit
  {
    if events != [] {
      ThroughIsLeast(start, events[..|events| - 1], limit);
    }
  }

  lemma {:induction false} KeptAll(p: Event -> bool, events: seq<Event>)
    requires forall i :: 0 <= i < |events| ==> p(events[i])
    ensures Filter(p, events) == events
  {
    if events != [] {
      KeptAll(p, events[..|events| - 1]);
      assert events == events[..|events| - 1] + [events[|events| - 1]];
    }
  }

  /** Events that do not count can be dropped. */
  lemma {:induction false} OnlyCountingMatters(p: Event -> bool, stats: Stats, events: seq<Event>)
    requires forall i :: 0 <= i < |events| ==> p(events[i]) || !Counts(events[i])
    ensures ApplyAll(stats, Filter(p, events)) == ApplyAll(stats, events)
  {
    if events != [] {
      var front, last := events[..|events| - 1], events[|events| - 1];
      OnlyCountingMatters(p, stats, front);
      if p(last) {
        assert (Filter(p, front) + [last])[..|Filter(p, front)|] == Filter(p, front);
      }
    }
  }

  lemma {:induction false} FilteredOrdered(p: Event -> bool, log: seq<Event>)
    requires forall i, j :: 0 <= i < j < |log| ==> log[i].ts <= log[j].ts
    ensures Sorted(ByTime(), Filter(p, log))
  {
    if log != [] {
      var front, last := log[..|log| - 1], log[|log| - 1];
      FilteredOrdered(p, front);
      FilterMembers(p, front);
      var kept := Filter(p, front);
      forall i | 0 <= i < |kept|
        ensures ByTime()(kept[i]) <= ByTime()(last)
      {
        assert kept[i] in kept;
        var j :| 0 <= j < |front| && front[j] == kept[i];
        assert log[j].ts <= log[|log| - 1].ts;
      }
    }
  }

  lemma TailInOrder(log: seq<Event>, since: int)
    requires Timely(log)
    ensures Tail(log, since) == Filter(After(since), log)
  {
    FilteredOrdered(After(since), log);
    SortOfSorted(ByTime(), Filter(After(since), log));
  }

  lemma {:induction false} FilterTwice(p: Event -> bool, q: Event -> bool, events: seq<Event>)
    ensures |Filter(p, Filter(q, events))| <= |Filter(p, events)|
  {
    if events != [] {
      var front, last := events[..|events| - 1], events[|events| - 1];
      FilterTwice(p, q, front);
      FilterPush(p, Filter(q, front), last);
    }
  }

  /** An event only the first filter keeps is missing after both. */
  lemma {:induction false} FilterDrops(p: Event -> bool, q: Event -> bool, events: seq<Event>, i: nat)
    requires i < |events| && p(events[i]) && !q(events[i])
    ensures |Filter(p, Filter(q, events))| < |Filter(p, events)|
  {
    var front, last := events[..|events| - 1], events[|events| - 1];
    if i == |events| - 1 {
      FilterTwice(p, q, front);
    } else {
      FilterDrops(p, q, front, i);
      FilterPush(p, Filter(q, front), last);
    }
  }

  // ------------------------------------------------------------------ the tail replay

  /** No counting event after the first `k` is as early as `through`. */
  ghost predicate AllLater(log: seq<Event>, k: nat, through: int)
    requires k <= |log|
  {
    forall i :: k <= i < |log| && Counts(log[i]) ==> log[i].ts > through
  }

  /** Counts and averages do not depend on times. */
  lemma {:induction false} TimesDoNotCount(a: Stats, b: Stats, events: seq<Event>)
    requires Alike(a, b)
    ensures Alike(ApplyAll(a, events), ApplyAll(b, Lived(events)))
  {
    hide NextAverage;
    if events != [] {
      var front := events[..|events| - 1];
      assert Lived(events)[..|events| - 1] == Lived(front);
      TimesDoNotCount(a, b, front);
    }
  }

  lemma LiveAppend(log: seq<Event>, k: nat)
    requires k <= |log|
    ensures Live(log) == ApplyAll(Live(log[..k]), Lived(log[k..]))
  {
    assert Lived(log) == Lived(log[..k]) + Lived(log[k..]);
    ApplyAppend(map[], Lived(log[..k]), Lived(log[k..]));
  }

  /** The replay applies the late part of the tail to the snapshot: nothing counting before it is repeated. */
  lemma ReplayIs(log: seq<Event>, k: nat, s: Snapshot)
    requires k <= |log| && Timely(log) && ReachesPast(s, log, k) && s.stats != map[]
    ensures Restored(Some(s), log) == ApplyAll(s.stats, Filter(After(Since(s)), log[k..]))
  {
    hide ApplyAll, AppliedThrough, Alike;
    var through := Since(s);
    TailInOrder(log, through);
    var early, late := Filter(After(through), log[..k]), Filter(After(through), log[k..]);
    assert log == log[..k] + log[k..];
    FilterAppend(After(through), log[..k], log[k..]);
    ApplyAppend(s.stats, early, late);
    FilterMembers(After(through), log[..k]);
    ThroughIsUpper(0, log[..k]);
    forall i | 0 <= i < |early|
      ensures !Counts(early[i])
    {
      assert early[i] in early;
      var j :| 0 <= j < k && log[..k][j] == early[i];
    }
    NothingCounts(s.stats, early);
  }

  lemma {:induction false} NothingCounts(stats: Stats, events: seq<Event>)
    requires forall i :: 0 <= i < |events| ==> !Counts(events[i])
    ensures ApplyAll(stats, events) == stats
  {
    if events != [] {
      NothingCounts(stats, events[..|events| - 1]);
    }
  }

  lemma AlikeTotals(a: Stats, b: Stats, market: string)
    requires Alike(a, b)
    ensures Total(a, market) == Total(b, market)
  {
  }

  /**
   * When nothing is pruned, loading a non-empty snapshot and replaying only later events gives the counts
   * and averages of the live tracker if and only if no counting event after the snapshot was stored at or
   * before the time the snapshot was applied through.
   */
  lemma RestoreIsExactIff(log: seq<Event>, k: nat, s: Snapshot)
    requires k <= |log| && Timely(log) && Covers(s, log, k) && s.stats != map[]
    ensures Alike(Restored(Some(s), log), Live(log)) <==> AllLater(log, k, s.appliedThrough.value)
  {
    hide Restored, ApplyAll, AppliedThrough, Filter, Live, Alike, Timely;
    var through, late := Since(s), log[k..];
    ReplayIs(log, k, s);
    LiveAppend(log, k);
    TimesDoNotCount(s.stats, Live(log[..k]), late);
    StoredByThen(log, k, s);
    if AllLater(log, k, s.appliedThrough.value) {
      ReplaysAll(log, k, s);
    } else {
      var i :| k <= i < |log| && Counts(log[i]) && log[i].ts <= through;
      EarlyOneIsLost(s.stats, late, through, i - k);
      var market := log[i].market;
      AlikeTotals(ApplyAll(s.stats, late), Live(log), market);
      if Alike(Restored(Some(s), log), Live(log)) {
        AlikeTotals(Restored(Some(s), log), Live(log), market);
      }
    }
  }

  lemma StoredByThen(log: seq<Event>, k: nat, s: Snapshot)
    requires k <= |log| && Timely(log) && s.appliedThrough.Some?
    ensures forall i :: k <= i < |log| ==> (log[i].ts <= Since(s) <==> log[i].ts <= s.appliedThrough.value)
  {
  }

  lemma EarlyOneIsLost(stats: Stats, late: seq<Event>, through: int, i: nat)
    requires i < |late| && Counts(late[i]) && late[i].ts <= through
    ensures Total(ApplyAll(stats, Filter(After(through), late)), late[i].market)
      < Total(ApplyAll(stats, late), late[i].market)
  {
    var market := late[i].market;
    TotalsCount(stats, late, market);
    TotalsCount(stats, Filter(After(through), late), market);
    FilterDrops(Of(market), After(through), late, i);
  }

  // ------------------------------------------------------------------ the times of the last updates

  /** The time of a market's last counting event, or of its last update before them. */
  function LastTime(stats: Stats, events: seq<Event>, market: string): Option<int> {
    if events == [] then if market in stats then Some(stats[market].lastUpdatedMs) else None
    else if Of(market)(events[|events| - 1]) then Some(events[|events| - 1].ts)
    else LastTime(stats, events[..|events| - 1], market)
  }

  lemma {:induction false} LastTimeIs(stats: Stats, events: seq<Event>, market: string)
    ensures var after := ApplyAll(stats, events);
      LastTime(stats, events, market) == if market in after then Some(after[market].lastUpdatedMs) else None
  {
    hide NextAverage;
    if events != [] {
      LastTimeIs(stats, events[..|events| - 1], market);
    }
  }

  /** No market's last counting event after the first `k` was updated later than it was stored. */
  ghost predicate LastUpdatesOnTime(log: seq<Event>, k: nat)
    requires k <= |log|
  {
    forall market :: LastTime(map[], log[k..], market) == LastTime(map[], Lived(log[k..]), market)
  }

  lemma {:induction false} LastTimeFrom(stats: Stats, events: seq<Event>, market: string)
    ensures LastTime(stats, events, market) ==
      if LastTime(map[], events, market).Some? then LastTime(map[], events, market) else LastTime(stats, [], market)
    ensures LastTime(map[], events, market).Some? <==> LastTime(map[], Lived(events), market).Some?
  {
    if events != [] {
      var front := events[..|events| - 1];
      assert Lived(events)[..|events| - 1] == Lived(front);
      LastTimeFrom(stats, front, market);
    }
  }

  lemma AlikeAndTimed(a: Stats, b: Stats)
    ensures a == b <==>
      Alike(a, b) && forall m :: (m in a ==> m in b && a[m].lastUpdatedMs == b[m].lastUpdatedMs)
  {
    if Alike(a, b) && forall m :: (m in a ==> m in b && a[m].lastUpdatedMs == b[m].lastUpdatedMs) {
      forall m | m in a
        ensures a[m] == b[m]
      {
      }
      assert a == b;
    }
  }

  /**
   * The update times come back as well, for a snapshot that has them, if and only if moreover each
   * market's last event after the snapshot was updated in the millisecond it was stored in.
   */
  lemma RestoreIsIdenticalIff(log: seq<Event>, k: nat, s: Snapshot)
    requires k <= |log| && Timely(log) && Covers(s, log, k) && s.stats != map[] && s.stats == Live(log[..k])
    ensures Restored(Some(s), log) == Live(log) <==>
      AllLater(log, k, s.appliedThrough.value) && LastUpdatesOnTime(log, k)
  {
    hide Restored, ApplyAll, AppliedThrough, Filter, Live, Timely, LastTime, Alike;
    var a, b, late := Restored(Some(s), log), Live(log), log[k..];
    RestoreIsExactIff(log, k, s);
    LiveAppend(log, k);
    AlikeAndTimed(a, b);
    if AllLater(log, k, s.appliedThrough.value) {
      ReplaysAll(log, k, s);
      forall m
        ensures LastTime(s.stats, late, m) == if m in a then Some(a[m].lastUpdatedMs) else None
        ensures LastTime(s.stats, Lived(late), m) == if m in b then Some(b[m].lastUpdatedMs) else None
        ensures LastTime(s.stats, late, m) == LastTime(s.stats, Lived(late), m) <==>
          LastTime(map[], late, m) == LastTime(map[], Lived(late), m)
      {
        LastTimeIs(s.stats, late, m);
        LastTimeIs(s.stats, Lived(late), m);
        LastTimeFrom(s.stats, late, m);
        LastTimeFrom(s.stats, Lived(late), m);
      }
      AlikeKeys(a, b);
    }
  }

  lemma AlikeKeys(a: Stats, b: Stats)
    requires Alike(a, b)
    ensures forall m :: m in a <==> m in b
  {
    assert a.Keys == b.Keys;
  }

  lemma ReplaysAll(log: seq<Event>, k: nat, s: Snapshot)
    requires k <= |log| && Timely(log) && Covers(s, log, k) && s.stats != map[]
      && AllLater(log, k, s.appliedThrough.value)
    ensures Restored(Some(s), log) == ApplyAll(s.stats, log[k..])
  {
    hide Restored, ApplyAll, AppliedThrough, Filter, Live, Alike;
    var late := log[k..];
    ReplayIs(log, k, s);
    forall i | 0 <= i < |late|
      ensures After(Since(s))(late[i]) || !Counts(late[i])
    {
      assert late[i] == log[k + i];
    }
    OnlyCountingMatters(After(Since(s)), s.stats, late);
  }

  // ------------------------------------------------------------------ one life after another

  /** What a tracker saves: it covers `k` events, and no time it saw lies after theirs. */
  ghost predicate SavedAt(s: Snapshot, log: seq<Event>, k: nat)
    requires k <= |log|
  {
    Covers(s, log, k) && s.appliedThrough.value <= LatestTime(0, Lived(log[..k]))
  }

  /** In particular counts and averages come back when each event is stored after the updates before it. */
  lemma RestoreIsExact(log: seq<Event>, k: nat, s: Snapshot)
    requires k <= |log| && Apart(log) && SavedAt(s, log, k) && s.stats != map[]
    ensures Alike(Restored(Some(s), log), Live(log))
  {
    hide Restored, ApplyAll, AppliedThrough, Alike;
    NothingTied(log, s, k, |log|);
    assert log[..|log|] == log;
    RestoreIsExactIff(log, k, s);
  }

  lemma {:induction false} LatestIsUpper(start: int, events: seq<Event>)
    ensures start <= LatestTime(start, events)
    ensures forall i :: 0 <= i < |events| ==> events[i].ts <= LatestTime(start, events)
  {
    if events != [] {
      LatestIsUpper(start, events[..|events| - 1]);
    }
  }

  lemma {:induction false} LatestIsLeast(start: int, events: seq<Event>, limit: int)
    requires start <= limit && forall i :: 0 <= i < |events| ==> events[i].ts <= limit
    ensures LatestTime(start, events) <= limit
  {
    if events != [] {
      LatestIsLeast(start, events[..|events| - 1], limit);
    }
  }

  /** One life of the tracker: restored when `from` events were stored, saved after `to`. */
  datatype Life = Life(from: nat, to: nat, savedAtMs: int)

  /** The time a restarted tracker has seen: the snapshot's, or a later one of the replay, counting or not. */
  function ThroughAfter(s: Snapshot, log: seq<Event>): int {
    LatestTime(Since(s), Tail(log, Since(s)))
  }

  /** What a tracker saves that was restored from `s`, replayed the log so far, and then ran on. */
  function NextSnapshot(log: seq<Event>, s: Snapshot, life: Life): Snapshot
    requires life.from <= life.to <= |log|
  {
    var known, news := log[..life.from], log[life.from..life.to];
    var through := AppliedThrough(ThroughAfter(s, known), Lived(news));
    Snapshot(life.savedAtMs, Some(through), ApplyAll(Restored(Some(s), known), Lived(news)))
  }

  /** Lives follow each other: none starts before what the last one saved. */
  predicate InTurn(lives: seq<Life>, k: nat, n: nat) {
    if lives == [] then k <= n
    else k <= lives[0].from <= lives[0].to <= n && InTurn(lives[1..], lives[0].to, n)
  }

  function LastSnapshot(log: seq<Event>, s: Snapshot, k: nat, lives: seq<Life>): Snapshot
    requires InTurn(lives, k, |log|)
    decreases |lives|
  {
    if lives == [] then s else LastSnapshot(log, NextSnapshot(log, s, lives[0]), lives[0].to, lives[1..])
  }

  /** What a tracker saves that never restarted. */
  function FirstSnapshot(log: seq<Event>, k: nat, atMs: int): Snapshot
    requires k <= |log|
  {
    Snapshot(atMs, Some(AppliedThrough(0, Lived(log[..k]))), Live(log[..k]))
  }

  /** Once something counted that is such a snapshot, and not an empty one. */
  lemma FirstIsSaved(log: seq<Event>, k: nat, atMs: int, i: nat)
    requires i < k <= |log| && Counts(log[i]) && Timely(log)
    ensures SavedAt(FirstSnapshot(log, k, atMs), log, k) && FirstSnapshot(log, k, atMs).stats != map[]
  {
    hide ApplyAll, AppliedThrough, LatestTime;
    var lived := Lived(log[..k]);
    LatestIsUpper(0, lived);
    ThroughIsLeast(0, lived, LatestTime(0, lived));
    ThroughIsUpper(0, lived);
    forall j | 0 <= j < k && Counts(log[j])
      ensures log[j].ts <= AppliedThrough(0, lived)
    {
      assert lived[j].ts == log[j].live && Counts(lived[j]);
    }
    ThroughIsLeast(0, log[..k], AppliedThrough(0, lived));
    SomethingCounted(lived, i);
  }

  lemma SomethingCounted(events: seq<Event>, i: nat)
    requires i < |events| && Counts(events[i])
    ensures ApplyAll(map[], events) != map[]
  {
    TotalsCount(map[], events, events[i].market);
    FilterMembers(Of(events[i].market), events);
    assert events[i] in events && events[i] in Filter(Of(events[i].market), events);
  }

  lemma {:induction false} KeysStay(stats: Stats, events: seq<Event>)
    ensures stats.Keys <= ApplyAll(stats, events).Keys
  {
    if events != [] {
      KeysStay(stats, events[..|events| - 1]);
    }
  }

  /** After a restart the tracker has seen every event stored so far. */
  lemma ThroughAfterIsUpper(s: Snapshot, log: seq<Event>)
    ensures Since(s) <= ThroughAfter(s, log)
    ensures forall i :: 0 <= i < |log| ==> log[i].ts <= ThroughAfter(s, log)
  {
    var tail := Tail(log, Since(s));
    FilterMembers(After(Since(s)), log);
    SortMembers(ByTime(), Filter(After(Since(s)), log));
    LatestIsUpper(Since(s), tail);
    forall i | 0 <= i < |log|
      ensures log[i].ts <= ThroughAfter(s, log)
    {
      if log[i].ts > Since(s) {
        assert log[i] in log;
        assert log[i] in tail;
        var j :| 0 <= j < |tail| && tail[j] == log[i];
      }
    }
  }

  /** And nothing later. */
  lemma ThroughAfterIsLeast(s: Snapshot, log: seq<Event>, limit: int)
    requires Since(s) <= limit && forall i :: 0 <= i < |log| ==> log[i].ts <= limit
    ensures ThroughAfter(s, log) <= limit
  {
    var tail := Tail(log, Since(s));
    FilterMembers(After(Since(s)), log);
    SortMembers(ByTime(), Filter(After(Since(s)), log));
    forall i | 0 <= i < |tail|
      ensures tail[i].ts <= limit
    {
      assert tail[i] in tail;
      assert tail[i] in log;
    }
    LatestIsLeast(Since(s), tail, limit);
  }

  lemma NextThroughBounds(log: seq<Event>, s: Snapshot, k: nat, life: Life)
    requires k <= life.from <= life.to <= |log| && SavedAt(s, log, k) && Timely(log)
    ensures var next := NextSnapshot(log, s, life).appliedThrough.value;
      AppliedThrough(0, log[..life.to]) <= next <= LatestTime(0, Lived(log[..life.to]))
  {
    hide ApplyAll, AppliedThrough, LatestTime, Restored, ThroughAfter, Alike;
    var known, news, all := log[..life.from], Lived(log[life.from..life.to]), Lived(log[..life.to]);
    var limit := LatestTime(0, all);
    LatestIsUpper(0, all);
    LatestOfPrefix(log, k, life.to);
    forall i | 0 <= i < |known|
      ensures known[i].ts <= limit
    {
      assert all[i].ts == known[i].live;
    }
    forall i | 0 <= i < |news|
      ensures news[i].ts <= limit
    {
      assert news[i] == all[life.from + i];
    }
    ThroughAfterIsUpper(s, known);
    ThroughAfterIsLeast(s, known, limit);
    ThroughIsLeast(ThroughAfter(s, known), news, limit);
    NextSeesAll(log, ThroughAfter(s, known), life);
  }

  lemma NextSeesAll(log: seq<Event>, through: int, life: Life)
    requires life.from <= life.to <= |log| && Timely(log) && through >= 0
    requires forall i :: 0 <= i < life.from ==> log[i].ts <= through
    ensures AppliedThrough(0, log[..life.to]) <= AppliedThrough(through, Lived(log[life.from..life.to]))
  {
    hide AppliedThrough;
    var news, all := Lived(log[life.from..life.to]), log[..life.to];
    var next := AppliedThrough(through, news);
    ThroughIsUpper(through, news);
    forall i | 0 <= i < |all| && Counts(all[i])
      ensures all[i].ts <= next
    {
      if i >= life.from {
        assert news[i - life.from].ts == all[i].live && Counts(news[i - life.from]);
      }
    }
    ThroughIsLeast(0, all, next);
  }

  lemma LatestOfPrefix(log: seq<Event>, k: nat, n: nat)
    requires k <= n <= |log|
    ensures LatestTime(0, Lived(log[..k])) <= LatestTime(0, Lived(log[..n]))
  {
    var some, all := Lived(log[..k]), Lived(log[..n]);
    LatestIsUpper(0, all);
    forall i | 0 <= i < k
      ensures some[i].ts <= LatestTime(0, all)
    {
      assert some[i] == all[i];
    }
    LatestIsLeast(0, some, LatestTime(0, all));
  }
  /** A tracker restored from a saved snapshot saves another such, if none of the stored events was lost. */
  lemma NextIsSaved(log: seq<Event>, s: Snapshot, k: nat, life: Life)
    requires k <= life.from <= life.to <= |log| && Timely(log)
    requires SavedAt(s, log, k) && s.stats != map[] && AllLater(log[..life.from], k, s.appliedThrough.value)
    ensures SavedAt(NextSnapshot(log, s, life), log, life.to) && NextSnapshot(log, s, life).stats != map[]
  {
    hide AppliedThrough, LatestTime, Restored, ThroughAfter, ApplyAll, Live, Alike;
    var known, news := log[..life.from], log[life.from..life.to];
    NextThroughBounds(log, s, k, life);
    assert known[..k] == log[..k];
    RestoreIsExactIff(known, k, s);
    assert log[..life.to][..life.from] == known && log[..life.to][life.from..] == news;
    LiveAppend(log[..life.to], life.from);
    AlikeAfter(Restored(Some(s), known), Live(known), Lived(news));
    ReplaysAll(known, k, s);
    KeysStay(s.stats, known[k..]);
    KeysStay(Restored(Some(s), known), Lived(news));
  }

  lemma {:induction false} AlikeAfter(a: Stats, b: Stats, events: seq<Event>)
    requires Alike(a, b)
    ensures Alike(ApplyAll(a, events), ApplyAll(b, events))
  {
    hide NextAverage;
    if events != [] {
      AlikeAfter(a, b, events[..|events| - 1]);
    }
  }

  /**
   * However often the tracker is restarted, what it restores at the end has the counts and averages of one
   * that never was.
   */
  lemma {:induction false} LivesRestoreExactly(log: seq<Event>, s: Snapshot, k: nat, lives: seq<Life>)
    requires k <= |log| && Apart(log) && SavedAt(s, log, k) && s.stats != map[] && InTurn(lives, k, |log|)
    ensures Alike(Restored(Some(LastSnapshot(log, s, k, lives)), log), Live(log))
    decreases |lives|
  {
    hide Restored, ApplyAll, AppliedThrough, SavedAt, NextSnapshot, Alike;
    if lives == [] {
      RestoreIsExact(log, k, s);
    } else {
      NothingTied(log, s, k, lives[0].from);
      NextIsSaved(log, s, k, lives[0]);
      LivesRestoreExactly(log, NextSnapshot(log, s, lives[0]), lives[0].to, lives[1..]);
    }
  }

  lemma NothingTied(log: seq<Event>, s: Snapshot, k: nat, n: nat)
    requires k <= n <= |log| && Apart(log) && SavedAt(s, log, k)
    ensures AllLater(log[..n], k, s.appliedThrough.value)
  {
    hide ApplyAll, AppliedThrough, LatestTime, Alike;
    forall i | k <= i < n
      ensures s.appliedThrough.value < log[i].ts
    {
      LatestIsLeast(0, Lived(log[..k]), log[i].ts - 1);
    }
  }

  // ------------------------------------------------------------------ what a life loses stays lost

  /** No life loses a counting event: none was stored, by the time it is restored, as early as its snapshot reaches. */
  ghost predicate NothingLost(log: seq<Event>, s: Snapshot, k: nat, lives: seq<Life>)
    requires InTurn(lives, k, |log|) && s.appliedThrough.Some?
    decreases |lives|
  {
    if lives == [] then AllLater(log, k, s.appliedThrough.value)
    else
      AllLater(log[..lives[0].from], k, s.appliedThrough.value)
      && NothingLost(log, NextSnapshot(log, s, lives[0]), lives[0].to, lives[1..])
  }

  lemma NextReachesPast(log: seq<Event>, s: Snapshot, k: nat, life: Life)
    requires k <= life.from <= life.to <= |log| && Timely(log) && ReachesPast(s, log, k) && s.stats != map[]
    ensures ReachesPast(NextSnapshot(log, s, life), log, life.to) && NextSnapshot(log, s, life).stats != map[]
  {
    hide AppliedThrough, LatestTime, Restored, ThroughAfter, ApplyAll;
    var known, news := log[..life.from], log[life.from..life.to];
    ThroughAfterIsUpper(s, known);
    forall i | 0 <= i < life.from
      ensures log[i].ts <= ThroughAfter(s, known)
    {
      assert log[i] == known[i];
    }
    NextSeesAll(log, ThroughAfter(s, known), life);
    assert known[..k] == log[..k];
    ReplayIs(known, k, s);
    KeysStay(s.stats, Filter(After(Since(s)), known[k..]));
    KeysStay(Restored(Some(s), known), Lived(news));
  }

  /** A snapshot that covers its events is followed by another such if none of the stored ones is lost. */
  lemma NextCovers(log: seq<Event>, s: Snapshot, k: nat, life: Life)
    requires k <= life.from <= life.to <= |log| && Timely(log) && Covers(s, log, k) && s.stats != map[]
    requires AllLater(log[..life.from], k, s.appliedThrough.value)
    ensures Covers(NextSnapshot(log, s, life), log, life.to)
  {
    hide AppliedThrough, Restored, ThroughAfter, ApplyAll, Live, Alike, Timely;
    var known, news := log[..life.from], log[life.from..life.to];
    NextReachesPast(log, s, k, life);
    TimelyPrefix(log, life.from);
    assert known[..k] == log[..k];
    RestoreIsExactIff(known, k, s);
    assert log[..life.to][..life.from] == known && log[..life.to][life.from..] == news;
    LiveAppend(log[..life.to], life.from);
    AlikeAfter(Restored(Some(s), known), Live(known), Lived(news));
  }

  lemma TimelyPrefix(log: seq<Event>, n: nat)
    requires n <= |log| && Timely(log)
    ensures Timely(log[..n])
  {
  }

  /** Totals after a restart, and those of the live tracker: the first counts no more of the later events. */
  lemma RestoredTotals(log: seq<Event>, k: nat, s: Snapshot, market: string)
    requires k <= |log| && Timely(log) && ReachesPast(s, log, k) && s.stats != map[]
    ensures Total(Restored(Some(s), log), market)
      == Total(s.stats, market) + |Filter(Of(market), Filter(After(Since(s)), log[k..]))|
    ensures Total(Live(log), market) == Total(Live(log[..k]), market) + |Filter(Of(market), log[k..])|
  {
    hide Restored, ApplyAll, AppliedThrough, Live, Timely;
    var late := log[k..];
    ReplayIs(log, k, s);
    TotalsCount(s.stats, Filter(After(Since(s)), late), market);
    LiveAppend(log, k);
    TimesDoNotCount(Live(log[..k]), Live(log[..k]), late);
    AlikeTotals(ApplyAll(Live(log[..k]), late), Live(log), market);
    TotalsCount(Live(log[..k]), late, market);
  }

  /** A market the snapshot counts too little of is still counted too little of after the restart. */
  lemma ShortStaysShort(log: seq<Event>, k: nat, s: Snapshot, market: string)
    requires k <= |log| && Timely(log) && ReachesPast(s, log, k) && s.stats != map[]
    requires Total(s.stats, market) < Total(Live(log[..k]), market)
    ensures Total(Restored(Some(s), log), market) < Total(Live(log), market)
  {
    hide Restored, Live, Total, Filter;
    RestoredTotals(log, k, s, market);
    FilterTwice(Of(market), After(Since(s)), log[k..]);
  }

  /** And so is the market of an event that the restart loses. */
  lemma LossIsShort(log: seq<Event>, k: nat, s: Snapshot) returns (market: string)
    requires k <= |log| && Timely(log) && Covers(s, log, k) && s.stats != map[]
    requires !AllLater(log, k, s.appliedThrough.value)
    ensures Total(Restored(Some(s), log), market) < Total(Live(log), market)
  {
    hide Restored, Live, Total, Filter, Alike;
    var i :| k <= i < |log| && Counts(log[i]) && log[i].ts <= s.appliedThrough.value;
    market := log[i].market;
    AlikeTotals(s.stats, Live(log[..k]), market);
    RestoredTotals(log, k, s, market);
    assert log[k..][i - k] == log[i];
    FilterDrops(Of(market), After(Since(s)), log[k..], i - k);
  }

  /** What runs on from a restart that is short of a market saves a snapshot that is. */
  lemma NextIsShort(log: seq<Event>, s: Snapshot, life: Life, market: string)
    requires life.from <= life.to <= |log|
    requires Total(Restored(Some(s), log[..life.from]), market) < Total(Live(log[..life.from]), market)
    ensures Total(NextSnapshot(log, s, life).stats, market) < Total(Live(log[..life.to]), market)
  {
    hide Restored, ApplyAll, Live, Total;
    var known, news := log[..life.from], log[life.from..life.to];
    assert log[..life.to][..life.from] == known && log[..life.to][life.from..] == news;
    LiveAppend(log[..life.to], life.from);
    TotalsCount(Restored(Some(s), known), Lived(news), market);
    TotalsCount(Live(known), Lived(news), market);
  }

  lemma {:induction false} LivesStayShort(log: seq<Event>, s: Snapshot, k: nat, lives: seq<Life>, market: string)
    requires k <= |log| && Timely(log) && ReachesPast(s, log, k) && s.stats != map[] && InTurn(lives, k, |log|)
    requires Total(s.stats, market) < Total(Live(log[..k]), market)
    ensures Total(Restored(Some(LastSnapshot(log, s, k, lives)), log), market) < Total(Live(log), market)
    decreases |lives|
  {
    hide Restored, Live, Total, NextSnapshot, ReachesPast, Timely;
    if lives == [] {
      ShortStaysShort(log, k, s, market);
    } else {
      var life := lives[0];
      TimelyPrefix(log, life.from);
      ReachesPastPrefix(log, s, k, life.from);
      ShortStaysShort(log[..life.from], k, s, market);
      NextIsShort(log, s, life, market);
      NextReachesPast(log, s, k, life);
      LivesStayShort(log, NextSnapshot(log, s, life), life.to, lives[1..], market);
    }
  }

  lemma ReachesPastPrefix(log: seq<Event>, s: Snapshot, k: nat, n: nat)
    requires k <= n <= |log|
    ensures log[..n][..k] == log[..k]
    ensures ReachesPast(s, log[..n], k) <==> ReachesPast(s, log, k)
    ensures Covers(s, log[..n], k) <==> Covers(s, log, k)
  {
    assert log[..n][..k] == log[..k];
  }

  /**
   * However often the tracker is restarted, what it restores at the end has the counts and averages of one
   * that never was if and only if no life loses a counting event.
   */
  lemma {:induction false} LivesRestoreExactlyIff(log: seq<Event>, s: Snapshot, k: nat, lives: seq<Life>)
    requires k <= |log| && Timely(log) && Covers(s, log, k) && s.stats != map[] && InTurn(lives, k, |log|)
    ensures Alike(Restored(Some(LastSnapshot(log, s, k, lives)), log), Live(log)) <==> NothingLost(log, s, k, lives)
    decreases |lives|
  {
    hide Restored, Live, Alike, Total, NextSnapshot, Timely, AppliedThrough;
    if lives == [] {
      RestoreIsExactIff(log, k, s);
    } else {
      var life, next := lives[0], NextSnapshot(log, s, lives[0]);
      TimelyPrefix(log, life.from);
      ReachesPastPrefix(log, s, k, life.from);
      NextReachesPast(log, s, k, life);
      if AllLater(log[..life.from], k, s.appliedThrough.value) {
        NextCovers(log, s, k, life);
        LivesRestoreExactlyIff(log, next, life.to, lives[1..]);
      } else {
        var market := LossIsShort(log[..life.from], k, s);
        NextIsShort(log, s, life, market);
        LivesStayShort(log, next, life.to, lives[1..], market);
        ShortIsNotAlike(Restored(Some(LastSnapshot(log, s, k, lives)), log), Live(log), market);
      }
    }
  }

  lemma ShortIsNotAlike(a: Stats, b: Stats, market: string)
    requires Total(a, market) < Total(b, market)
    ensures !Alike(a, b)
  {
  }

  // ------------------------------------------------------------------ without a usable snapshot

  /** Without a usable snapshot the whole history is replayed. */
  lemma RestoreWithoutSnapshot(log: seq<Event>)
    requires Timely(log)
    ensures Restored(None, log) == ApplyAll(map[], log) && Alike(Restored(None, log), Live(log))
  {
    TailInOrder(log, 0);
    KeptAll(After(0), log);
    TimesDoNotCount(map[], map[], log);
  }

  /** An empty snapshot ends the restore: it is exact only for a history in which nothing counts. */
  lemma EmptySnapshotIsExactIff(log: seq<Event>, s: Snapshot)
    requires s.stats == map[]
    ensures Alike(Restored(Some(s), log), Live(log)) <==> forall i :: 0 <= i < |log| ==> !Counts(log[i])
  {
    if forall i :: 0 <= i < |log| ==> !Counts(log[i]) {
      NothingCounts(map[], Lived(log));
    } else {
      var i :| 0 <= i < |log| && Counts(log[i]);
      SomethingCounted(Lived(log), i);
      assert Live(log).Keys != {};
    }
  }

  // ------------------------------------------------------------------ averages

  /** The running average the tracker keeps of values some of which are missing. */
  function Running(values: seq<Option<real>>): real {
    if values == [] then 0.0
    else
      var before, last := Running(values[..|values| - 1]), values[|values| - 1];
      if last.None? then before else NextAverage(before, |values|, last.value)
  }

  function Present(values: seq<Option<real>>): seq<real> {
    if values == [] then []
    else
      var front, last := Present(values[..|values| - 1]), values[|values| - 1];
      if last.Some? then front + [last.value] else front
  }

  function Sum(values: seq<real>): real {
    if values == [] then 0.0 else Sum(values[..|values| - 1]) + values[|values| - 1]
  }

  /** The edges of a market's opportunities. */
  function Edges(events: seq<Event>, market: string): seq<Option<real>> {
    if events == [] then []
    else
      var front, e := Edges(events[..|events| - 1], market), events[|events| - 1];
      if Of(market)(e) && e.kind.Opportunity? then front + [e.kind.edge] else front
  }

  /** The slippage samples of a market's fills. */
  function Slippages(events: seq<Event>, market: string): seq<Option<real>> {
    if events == [] then []
    else
      var front, e := Slippages(events[..|events| - 1], market), events[|events| - 1];
      if Of(market)(e) && e.kind.FillSample? then front + [Some(e.kind.slippage)] else front
  }

  lemma RunningPush(values: seq<Option<real>>, v: Option<real>)
    ensures Running(values + [v]) == 
      if v.None? then Running(values) else NextAverage(Running(values), |values| + 1, v.value)
  {
    assert (values + [v])[..|values|] == values;
  }

  /** The statistics hold the running averages of the edges and the slippages. */
  lemma {:induction false} StatsAreRunning(events: seq<Event>, market: string)
    ensures var m := StatsOf(ApplyAll(map[], events), market, 0);
      m.opportunities == |Edges(events, market)| && m.avgEdge == Running(Edges(events, market))
      && m.slippageSamples == |Slippages(events, market)| && m.avgSlippage == Running(Slippages(events, market))
  {
    if events != [] {
      var front, e := events[..|events| - 1], events[|events| - 1];
      StatsAreRunning(front, market);
      if Of(market)(e) && e.kind.Opportunity? {
        RunningPush(Edges(front, market), e.kind.edge);
      }
      if Of(market)(e) && e.kind.FillSample? {
        RunningPush(Slippages(front, market), Some(e.kind.slippage));
      }
      hide Running, NextAverage;
    }
  }

  predicate IsAverage(average: real, n: nat, sum: real) {
    average * n as real == sum
  }

  predicate IsMean(values: seq<Option<real>>) {
    IsAverage(Running(values), |Present(values)|, Sum(Present(values)))
  }

  /** Every missing value comes after the last present one. */
  ghost predicate NoGaps(values: seq<Option<real>>) {
    forall i, j :: 0 <= i < j < |values| && values[i].None? ==> values[j].None?
  }

  lemma NextAverageTimes(average: real, n: nat, value: real)
    requires n >= 1
    ensures NextAverage(average, n, value) * n as real == average * (n - 1) as real + value
  {
  }

  lemma {:induction false} AllPresent(values: seq<Option<real>>)
    requires forall i :: 0 <= i < |values| ==> values[i].Some?
    ensures |Present(values)| == |values| && IsMean(values)
  {
    hide NextAverage;
    if values != [] {
      var front, last := values[..|values| - 1], values[|values| - 1];
      AllPresent(front);
      NextAverageTimes(Running(front), |values|, last.value);
      assert (Present(front) + [last.value])[..|front|] == Present(front);
    }
  }

  /** A missing value at the end changes neither the average nor the values present. */
  lemma MissingKeepsMean(values: seq<Option<real>>)
    requires values != [] && values[|values| - 1].None?
    ensures IsMean(values) <==> IsMean(values[..|values| - 1])
  {
    hide IsAverage, Sum;
  }

  /** Without gaps the running average is the mean of the values that are present. */
  lemma {:induction false} NoGapsIsMean(values: seq<Option<real>>)
    requires NoGaps(values)
    ensures IsMean(values)
  {
    if values == [] {
      AllPresent(values);
    } else if values[|values| - 1].None? {
      hide IsMean;
      NoGapsIsMean(values[..|values| - 1]);
      MissingKeepsMean(values);
    } else {
      AllPresent(values);
    }
  }

  /** The same places present or missing, with 1 at `k` and 0 at every other present place. */
  function OneAt(pattern: seq<bool>, k: nat): (r: seq<Option<real>>)
    ensures |r| == |pattern|
    ensures forall i :: 0 <= i < |r| ==> r[i] == if !pattern[i] then None else Some(if i == k then 1.0 else 0.0)
  {
    seq(|pattern|, i requires 0 <= i < |pattern| => if !pattern[i] then None else Some(if i == k then 1.0 else 0.0))
  }

  lemma {:induction false} AllZero(values: seq<Option<real>>)
    requires forall i :: 0 <= i < |values| ==> values[i].None? || values[i].value == 0.0
    ensures Running(values) == 0.0 && Sum(Present(values)) == 0.0
  {
    if values != [] {
      var front, last := values[..|values| - 1], values[|values| - 1];
      AllZero(front);
      if last.Some? {
        assert (Present(front) + [last.value])[..|Present(front)|] == Present(front);
      }
    }
  }

  lemma {:induction false} PresentCount(values: seq<Option<real>>, missing: nat)
    requires missing < |values| && values[missing].None?
    ensures |Present(values)| < |values|
  {
    if missing == |values| - 1 {
      PresentAtMost(values[..|values| - 1]);
    } else {
      PresentCount(values[..|values| - 1], missing);
    }
  }

  lemma {:induction false} PresentAtMost(values: seq<Option<real>>)
    ensures |Present(values)| <= |values|
  {
    if values != [] {
      PresentAtMost(values[..|values| - 1]);
    }
  }

  lemma {:induction false} TrailingMissing(values: seq<Option<real>>, k: nat)
    requires k < |values| && forall i :: k < i < |values| ==> values[i].None?
    ensures Running(values) == Running(values[..k + 1]) && Present(values) == Present(values[..k + 1])
  {
    if k + 1 < |values| {
      TrailingMissing(values[..|values| - 1], k);
      assert values[..|values| - 1][..k + 1] == values[..k + 1];
    } else {
      assert values[..k + 1] == values;
    }
  }

  ghost predicate HasPattern(values: seq<Option<real>>, pattern: seq<bool>) {
    |values| == |pattern| && forall i :: 0 <= i < |pattern| ==> values[i].Some? == pattern[i]
  }

  ghost predicate AlwaysMean(pattern: seq<bool>) {
    forall values :: HasPattern(values, pattern) ==> IsMean(values)
  }

  predicate GapAt(pattern: seq<bool>, i: nat, j: nat) {
    i < j < |pattern| && !pattern[i] && pattern[j]
  }

  lemma {:induction false} LastPresent(pattern: seq<bool>, j: nat) returns (k: nat)
    requires j < |pattern| && pattern[j]
    ensures j <= k < |pattern| && pattern[k] && forall i :: k < i < |pattern| ==> !pattern[i]
    decreases |pattern| - j
  {
    k := j;
    if i :| j < i < |pattern| && pattern[i] {
      k := LastPresent(pattern, i);
    }
  }

  /** After a gap the missing values weigh in: the average of one 1 among zeros comes out too small. */
  lemma GapBreaksMean(pattern: seq<bool>, i: nat, j: nat)
    requires GapAt(pattern, i, j)
    ensures !AlwaysMean(pattern)
  {
    hide Running, Present, Sum, IsAverage;
    var k := LastPresent(pattern, j);
    var values := OneAt(pattern, k);
    TrailingMissing(values, k);
    OneAfterZeros(values[..k + 1], i);
    assert HasPattern(values, pattern) && !IsMean(values);
  }

  lemma OneAfterZeros(values: seq<Option<real>>, missing: nat)
    requires missing < |values| - 1 && values[missing].None? && values[|values| - 1] == Some(1.0)
    requires forall i :: 0 <= i < |values| - 1 ==> values[i].None? || values[i].value == 0.0
    ensures !IsMean(values)
  {
    var front := values[..|values| - 1];
    AllZero(front);
    PresentCount(values, missing);
    assert (Present(front) + [1.0])[..|Present(front)|] == Present(front);
    SmallShare(|Present(values)|, |values|);
    hide NextAverage;
  }

  lemma SmallShare(part: nat, n: nat)
    requires part < n && n >= 2
    ensures !IsAverage(NextAverage(0.0, n, 1.0), part, 1.0)
  {
    var q := NextAverage(0.0, n, 1.0);
    NextAverageTimes(0.0, n, 1.0);
    assert q * n as real == 1.0;
    assert q * part as real == q * n as real - q * (n - part) as real;
    assert q > 0.0;
  }

  /**
   * The average edge is the mean of the edges the opportunities carry, whatever those are, if and only
   * if no opportunity without an edge comes before one with an edge.
   */
  lemma AverageIsMeanIff(pattern: seq<bool>)
    ensures AlwaysMean(pattern) <==> forall i, j :: !GapAt(pattern, i, j)
  {
    if i, j :| GapAt(pattern, i, j) {
      GapBreaksMean(pattern, i, j);
    } else {
      forall values: seq<Option<real>> | HasPattern(values, pattern)
        ensures IsMean(values)
      {
        forall i: nat, j: nat | i < j < |values| && values[i].None?
          ensures values[j].None?
        {
          assert !GapAt(pattern, i, j);
        }
        NoGapsIsMean(values);
      }
    }
  }

  lemma {:induction false} SlippagesArePresent(events: seq<Event>, market: string)
    ensures forall i :: 0 <= i < |Slippages(events, market)| ==> Slippages(events, market)[i].Some?
  {
    if events != [] {
      SlippagesArePresent(events[..|events| - 1], market);
    }
  }

  /** The average slippage is the mean of its samples; so is the average edge when every opportunity carries one. */
  lemma AveragesAreMeans(events: seq<Event>, market: string)
    ensures var m := StatsOf(ApplyAll(map[], events), market, 0);
      IsAverage(m.avgSlippage, m.slippageSamples, Sum(Present(Slippages(events, market))))
    ensures var m := StatsOf(ApplyAll(map[], events), market, 0);
      (forall i :: 0 <= i < |Edges(events, market)| ==> Edges(events, market)[i].Some?) ==>
      IsAverage(m.avgEdge, m.opportunities, Sum(Present(Edges(events, market))))
  {
    hide IsAverage, Running, Sum, Present, ApplyAll;
    StatsAreRunning(events, market);
    SlippagesArePresent(events, market);
    AllPresent(Slippages(events, market));
    if forall i :: 0 <= i < |Edges(events, market)| ==> Edges(events, market)[i].Some? {
      AllPresent(Edges(events, market));
    }
  }
}
