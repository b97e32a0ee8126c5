/** The statistics tracker object: updates, pruning, persistence and restore. */
module StatsTracker {
  import opened Prelude
  import opened Names
  import opened LearningStats
  import opened StatsSnapshot

  const SNAPSHOT_INTERVAL: int := 60000
  const PRUNE_INTERVAL: int := 60000

  predicate Stale(m: MarketStats, now: int, retention: int) {
    retention > 0 && m.lastUpdatedMs < now - retention
  }

  /** What a market must beat to be kept: it was updated later, or at the same time and its name comes first. */
  predicate Outlives(stats: Stats, order: NameOrder, a: string, b: string)
    requires a in stats && b in stats
  {
    stats[a].lastUpdatedMs > stats[b].lastUpdatedMs || (stats[a].lastUpdatedMs == stats[b].lastUpdatedMs && order(a, b))
  }

  /** Only stale markets go, and beyond the limit only those that every kept one outlives. */
  ghost predicate PrunedTo(before: Stats, after: Stats, now: int, retention: int, maxMarkets: nat, order: NameOrder) {
    && |after| <= maxMarkets
    && (forall m :: m in after ==> m in before && after[m] == before[m] && !Stale(before[m], now, retention))
    && (forall m :: m in before && m !in after && !Stale(before[m], now, retention) ==>
          |after| == maxMarkets && Outlived(before, after, order, m))
  }

  ghost predicate Outlived(before: Stats, kept: Stats, order: NameOrder, gone: string)
    requires gone in before
  {
    forall m :: m in kept ==> m in before && Outlives(before, order, m, gone)
  }

  ghost predicate NothingToPrune(stats: Stats, now: int, retention: int, maxMarkets: nat) {
    |stats| <= maxMarkets && forall m :: m in stats ==> !Stale(stats[m], now, retention)
  }

  lemma OutlivesIsTotal(stats: Stats, order: NameOrder, a: string, b: string, c: string)
    requires a in stats && b in stats && c in stats
    ensures a != b ==> (Outlives(stats, order, a, b) <==> !Outlives(stats, order, b, a))
    ensures Outlives(stats, order, a, b) && Outlives(stats, order, b, c) ==> Outlives(stats, order, a, c)
  {
    assert TotalOrder(order);
    assert order(a, b) && order(b, c) ==> order(a, c);
    assert order(a, b) && order(b, a) ==> order(a, a);
  }

  lemma KeptAreSubset(before: Stats, a: Stats, b: Stats, now: int, retention: int, maxMarkets: nat, order: NameOrder)
    requires PrunedTo(before, a, now, retention, maxMarkets, order)
      && PrunedTo(before, b, now, retention, maxMarkets, order)
    ensures a.Keys <= b.Keys
  {
    if m :| m in a && m !in b {
      assert |b| == maxMarkets && Outlived(before, b, order, m);
      forall g | g in b
        ensures g in a
      {
        assert Outlives(before, order, g, m);
        OutlivesIsTotal(before, order, m, g, m);
      }
      assert |a| == |a.Keys| && |b| == |b.Keys|;
      SubsetSize(b.Keys, a.Keys);
    }
  }

  /** What pruning keeps is determined: no two outcomes differ. */
  lemma PruneIsDetermined(before: Stats, a: Stats, b: Stats, now: int, retention: int, maxMarkets: nat,
      order: NameOrder)
    requires PrunedTo(before, a, now, retention, maxMarkets, order)
      && PrunedTo(before, b, now, retention, maxMarkets, order)
    ensures a == b
  {
    KeptAreSubset(before, a, b, now, retention, maxMarkets, order);
    KeptAreSubset(before, b, a, now, retention, maxMarkets, order);
    assert a.Keys == b.Keys;
  }

  /** Pruning changes nothing exactly when no market is stale and they all fit. */
  lemma PruneKeepsAllIff(before: Stats, after: Stats, now: int, retention: int, maxMarkets: nat, order: NameOrder)
    requires PrunedTo(before, after, now, retention, maxMarkets, order)
    ensures after == before <==> NothingToPrune(before, now, retention, maxMarkets)
  {
    if NothingToPrune(before, now, retention, maxMarkets) {
      PruneIsDetermined(before, before, after, now, retention, maxMarkets, order);
    }
  }

  /** Not updated for longer than the retention, where there is one. */
  ghost predicate Outdated(m: MarketStats, now: int, retention: int) {
    retention > 0 && now > m.lastUpdatedMs + retention
  }

  /**
   * What stays is as it was and not outdated, no more than the limit; and what is gone though not outdated
   * gave way, with the limit reached, to markets all updated later, or as late and first by name.
   */
  ghost predicate KeepsBest(before: Stats, after: Stats, now: int, retention: int, limit: nat, order: NameOrder) {
    && |after| <= limit
    && (forall m :: m in after ==> m in before && after[m] == before[m] && !Outdated(before[m], now, retention))
    && (forall m :: m in before && m !in after && !Outdated(before[m], now, retention) ==> |after| == limit)
    && (forall gone, m :: gone in before && gone !in after && !Outdated(before[gone], now, retention) && m in after ==>
          || after[m].lastUpdatedMs > before[gone].lastUpdatedMs
          || (after[m].lastUpdatedMs == before[gone].lastUpdatedMs && order(m, gone)))
  }

  lemma PrunedKeepsBest(before: Stats, after: Stats, now: int, retention: int, limit: nat, order: NameOrder)
    requires PrunedTo(before, after, now, retention, limit, order)
    ensures KeepsBest(before, after, now, retention, limit, order)
  {
    forall m | m in before
      ensures Stale(before[m], now, retention) <==> Outdated(before[m], now, retention)
    {
    }
    forall gone | gone in before && gone !in after && !Outdated(before[gone], now, retention)
      ensures Outlived(before, after, order, gone)
    {
    }
  }

  lemma {:induction false} WeakestExists(stats: Stats, among: set<string>, order: NameOrder) returns (weakest: string)
    requires among <= stats.Keys && among != {}
    ensures weakest in among && forall m :: m in among && m != weakest ==> Outlives(stats, order, m, weakest)
    decreases |among|
  {
    weakest :| weakest in among;
    var rest := among - {weakest};
    if rest != {} {
      var other := WeakestExists(stats, rest, order);
      var first := weakest;
      if Outlives(stats, order, first, other) {
        weakest := other;
      }
      OutlivesIsTotal(stats, order, first, other, first);
      forall m | m in among && m != weakest
        ensures Outlives(stats, order, m, weakest)
      {
        OutlivesIsTotal(stats, order, m, other, first);
        assert m == first || m in rest;
      }
    }
  }

  /** Pruned, except that more than the limit may be left. */
  ghost predicate Dropping(before: Stats, kept: Stats, now: int, retention: int, maxMarkets: nat, order: NameOrder) {
    && (forall m :: m in kept ==> m in before && kept[m] == before[m] && !Stale(before[m], now, retention))
    && (forall m :: m in before && m !in kept && !Stale(before[m], now, retention) ==>
          |kept| >= maxMarkets && Outlived(before, kept, order, m))
  }

  lemma DropStep(before: Stats, kept: Stats, weakest: string, now: int, retention: int, maxMarkets: nat,
      order: NameOrder)
    requires Dropping(before, kept, now, retention, maxMarkets, order) && |kept| > maxMarkets && weakest in kept
    requires forall m :: m in kept.Keys && m != weakest ==> Outlives(kept, order, m, weakest)
    ensures Dropping(before, kept - {weakest}, now, retention, maxMarkets, order) && |kept - {weakest}| == |kept| - 1
  {
    var less := kept - {weakest};
    assert less.Keys == kept.Keys - {weakest};
    assert |less| == |less.Keys| && |kept| == |kept.Keys|;
    forall m | m in before && m !in less && !Stale(before[m], now, retention)
      ensures Outlived(before, less, order, m)
    {
      assert m != weakest ==> Outlived(before, kept, order, m);
    }
  }

  class LearningStatsTracker {
    const statsRetentionMs: int
    const statsMaxMarkets: nat
    const nameOrder: NameOrder
    var statsByMarket: Stats
    var pendingEvents: nat
    var statsDirty: bool
    var lastStatsSnapshotAtMs: int
    var lastAppliedStatsEventAtMs: int
    var lastPruneAtMs: int

    constructor (retention: int, maxMarkets: nat, order: NameOrder)
      ensures statsByMarket == map[] && lastAppliedStatsEventAtMs == 0 && !statsDirty && pendingEvents == 0
      ensures statsRetentionMs == retention && statsMaxMarkets == maxMarkets && nameOrder == order
    {
      statsRetentionMs, statsMaxMarkets, nameOrder := retention, maxMarkets, order;
      statsByMarket, pendingEvents, statsDirty := map[], 0, false;
      lastStatsSnapshotAtMs, lastAppliedStatsEventAtMs, lastPruneAtMs := 0, 0, 0;
    }

    method Update(e: Event, recordPending: bool, markDirty: bool)
      requires Counts(e)
      modifies this
      ensures statsByMarket == Apply(old(statsByMarket), e)
      ensures e.market in statsByMarket && statsByMarket[e.market].lastUpdatedMs == e.ts
      ensures var was, m := StatsOf(old(statsByMarket), e.market, e.ts), statsByMarket[e.market];
        && m.opportunities == was.opportunities + (if e.kind.Opportunity? then 1 else 0)
        && m.approvals == was.approvals + (if e.kind.Approval? then 1 else 0)
        && m.timeouts == was.timeouts + (if e.kind.Timeout? then 1 else 0)
        && m.slippageSamples == was.slippageSamples + (if e.kind.FillSample? then 1 else 0)
      ensures forall market :: market != e.market ==>
        (market in statsByMarket <==> market in old(statsByMarket))
        && (market in statsByMarket ==> statsByMarket[market] == old(statsByMarket)[market])
      ensures lastAppliedStatsEventAtMs == MaxInt(old(lastAppliedStatsEventAtMs), e.ts)
      ensures pendingEvents == old(pendingEvents) + (if recordPending then 1 else 0)
      ensures statsDirty == (old(statsDirty) || markDirty)
      ensures lastStatsSnapshotAtMs == old(lastStatsSnapshotAtMs) && lastPruneAtMs == old(lastPruneAtMs)
    {
      hide NextAverage;
      var existing := if e.market in statsByMarket then statsByMarket[e.market] else Empty(e.ts);
      var next := existing.(lastUpdatedMs := e.ts);
      match e.kind {
        case Opportunity(edge) =>
          next := next.(opportunities := next.opportunities + 1);
          if edge.Some? {
            next := next.(avgEdge := NextAverage(existing.avgEdge, next.opportunities, edge.value));
          }
        case Approval =>
          next := next.(approvals := next.approvals + 1);
        case Timeout =>
          next := next.(timeouts := next.timeouts + 1);
        case FillSample(slippage) =>
          next := next.(slippageSamples := next.slippageSamples + 1);
          next := next.(avgSlippage := NextAverage(existing.avgSlippage, next.slippageSamples, slippage));
        case Nothing =>
      }
      statsByMarket := statsByMarket[e.market := next];
      lastAppliedStatsEventAtMs := MaxInt(lastAppliedStatsEventAtMs, e.ts);
      if recordPending {
        pendingEvents := pendingEvents + 1;
      }
      if markDirty {
        statsDirty := true;
      }
    }

    method DropWeakest(ghost before: Stats, now: int)
      requires forall m :: m in statsByMarket ==> m in before && statsByMarket[m] == before[m]
      requires forall m :: m in statsByMarket ==> !Stale(before[m], now, statsRetentionMs)
      requires forall m :: m in before && m !in statsByMarket ==> Stale(before[m], now, statsRetentionMs)
      modifies this`statsByMarket
      ensures PrunedTo(before, statsByMarket, now, statsRetentionMs, statsMaxMarkets, nameOrder)
    {
      var kept := statsByMarket;
      while |kept| > statsMaxMarkets
        invariant Dropping(before, kept, now, statsRetentionMs, statsMaxMarkets, nameOrder)
        decreases |kept|
      {
        ghost var candidate := WeakestExists(kept, kept.Keys, nameOrder);
        var weakest :| weakest in kept.Keys && forall m :: m in kept.Keys && m != weakest ==>
          Outlives(kept, nameOrder, m, weakest);
        DropStep(before, kept, weakest, now, statsRetentionMs, statsMaxMarkets, nameOrder);
        kept := kept - {weakest};
      }
      statsByMarket := kept;
    }

    method Prune(now: int, force: bool)
      modifies this
      ensures force ==> PrunedTo(old(statsByMarket), statsByMarket, now, statsRetentionMs, statsMaxMarkets, nameOrder)
      ensures force || now >= old(lastPruneAtMs) + 60000 ==>
        && KeepsBest(old(statsByMarket), statsByMarket, now, statsRetentionMs, statsMaxMarkets, nameOrder)
        && lastPruneAtMs == now
      ensures !force && now < old(lastPruneAtMs) + 60000 ==>
        statsByMarket == old(statsByMarket) && lastPruneAtMs == old(lastPruneAtMs)
      ensures NothingToPrune(old(statsByMarket), now, statsRetentionMs, statsMaxMarkets) ==>
        statsByMarket == old(statsByMarket)
      ensures lastAppliedStatsEventAtMs == old(lastAppliedStatsEventAtMs)
        && lastStatsSnapshotAtMs == old(lastStatsSnapshotAtMs)
      ensures statsDirty == (old(statsDirty) || statsByMarket != old(statsByMarket))
    {
      if !force && now - lastPruneAtMs < PRUNE_INTERVAL {
        return;
      }
      lastPruneAtMs := now;
      var before := statsByMarket;
      statsByMarket :=
        map m | m in statsByMarket && !Stale(statsByMarket[m], now, statsRetentionMs) :: statsByMarket[m];
      DropWeakest(before, now);
      PruneKeepsAllIff(before, statsByMarket, now, statsRetentionMs, statsMaxMarkets, nameOrder);
      PrunedKeepsBest(before, statsByMarket, now, statsRetentionMs, statsMaxMarkets, nameOrder);
      statsDirty := statsDirty || statsByMarket != before;
    }

    /** Replays the later events and remembers the latest time seen. */
    method ReplayFromStore(log: seq<Event>, since: int)
      modifies this
      ensures statsByMarket == ApplyAll(old(statsByMarket), Tail(log, since))
      ensures lastAppliedStatsEventAtMs == MaxInt(old(lastAppliedStatsEventAtMs), LatestTime(since, Tail(log, since)))
      ensures lastPruneAtMs == old(lastPruneAtMs) && lastStatsSnapshotAtMs == old(lastStatsSnapshotAtMs)
    {
      hide Tail, Updated;
      var events := Tail(log, since);
      var maxTimestamp, applied := since, false;
      var i := 0;
      while i < |events|
        invariant 0 <= i <= |events|
        invariant statsByMarket == ApplyAll(old(statsByMarket), events[..i])
        invariant maxTimestamp == LatestTime(since, events[..i])
        invariant old(lastAppliedStatsEventAtMs) <= lastAppliedStatsEventAtMs
          <= MaxInt(old(lastAppliedStatsEventAtMs), maxTimestamp)
        invariant lastPruneAtMs == old(lastPruneAtMs) && lastStatsSnapshotAtMs == old(lastStatsSnapshotAtMs)
      {
        assert events[..i + 1][..i] == events[..i];
        maxTimestamp := MaxInt(maxTimestamp, events[i].ts);
        if Counts(events[i]) {
          Update(events[i], false, false);
          applied := true;
        }
        i := i + 1;
      }
      assert events[..i] == events;
      lastAppliedStatsEventAtMs := MaxInt(lastAppliedStatsEventAtMs, maxTimestamp);
      if applied {
        statsDirty := true;
      }
    }

    /** The usable markets of a payload, with their fields repaired. */
    method LoadStats(raw: map<string, Option<RawStats>>)
      modifies this`statsByMarket
      ensures statsByMarket == NormalizedAll(raw)
      ensures forall m :: m in statsByMarket <==> m in raw && m != "" && raw[m] != None
      ensures forall m :: m in statsByMarket ==> ReadFrom(statsByMarket[m], raw[m].value)
    {
      statsByMarket := map[];
      var markets := raw.Keys;
      while markets != {}
        invariant markets <= raw.Keys
        invariant statsByMarket == map m | m in raw && m !in markets && Usable(raw, m) :: Normalized(raw[m].value)
      {
        var market :| market in markets;
        markets := markets - {market};
        if raw[market].Some? && market != "" {
          statsByMarket := statsByMarket[market := Normalized(raw[market].value)];
        }
      }
    }

    /** Loads the latest snapshot and replays what came after it; an empty one ends the restore. */
    method Restore(payload: Option<Payload>, log: seq<Event>, now: int)
      modifies this
      ensures var snapshot := Parsed(payload, now); var whole := RestoredFrom(old(statsByMarket), snapshot, log);
        && (NothingToPrune(whole, now, statsRetentionMs, statsMaxMarkets) ==> statsByMarket == whole)
        && (snapshot.Some? && snapshot.value.stats == map[] ==> statsByMarket == map[])
        && (!(snapshot.Some? && snapshot.value.stats == map[]) ==>
              PrunedTo(whole, statsByMarket, now, statsRetentionMs, statsMaxMarkets, nameOrder))
        && (snapshot.Some? && snapshot.value.stats != map[] ==>
              lastStatsSnapshotAtMs == snapshot.value.atMs
              && lastAppliedStatsEventAtMs == ThroughAfter(snapshot.value, log))
    {
      hide ApplyAll, Tail, NormalizedAll, PrunedTo, NothingToPrune;
      if !Readable(payload) {
        ReplayFromStore(log, 0);
        Prune(now, true);
        return;
      }
      LoadStats(payload.value.statsByMarket.value);
      ghost var snapshot := Parsed(payload, now).value;
      if |statsByMarket| == 0 {
        return;
      }
      statsDirty := false;
      var atMs := payload.value.atMs.GetOr(now);
      lastStatsSnapshotAtMs := atMs;
      lastAppliedStatsEventAtMs :=
        if payload.value.appliedThroughMs.Some? then MaxInt(0, payload.value.appliedThroughMs.value) else atMs;
      LatestIsUpper(Since(snapshot), Tail(log, Since(snapshot)));
      ReplayFromStore(log, lastAppliedStatsEventAtMs);
      Prune(now, true);
    }

    /** Stores what the tracker holds, pruned, with the time it was applied through. */
    method MaybePersist(now: int, force: bool) returns (payload: Option<Payload>)
      modifies this
      ensures payload.Some? <==> force || (old(statsDirty) && now - old(lastStatsSnapshotAtMs) >= SNAPSHOT_INTERVAL)
      ensures payload.Some? ==>
        payload.value == Written(Snapshot(now, Some(old(lastAppliedStatsEventAtMs)), statsByMarket))
      ensures payload.Some? <==> force || (old(statsDirty) && now >= old(lastStatsSnapshotAtMs) + 60000)
      ensures payload.Some? ==> !statsDirty && lastStatsSnapshotAtMs == now
      ensures payload.Some? ==>
        PrunedTo(old(statsByMarket), statsByMarket, now, statsRetentionMs, statsMaxMarkets, nameOrder)
      ensures payload.None? ==> statsByMarket == old(statsByMarket)
    {
      hide PrunedTo, NothingToPrune;
      if !statsDirty && !force {
        return None;
      }
      if !force && now - lastStatsSnapshotAtMs < SNAPSHOT_INTERVAL {
        return None;
      }
      Prune(now, true);
      payload := Some(Payload(2, Some(now), Some(lastAppliedStatsEventAtMs),
        Some(map m | m in statsByMarket :: Some(Raw(statsByMarket[m])))));
      statsDirty := false;
      lastStatsSnapshotAtMs := now;
    }
  }
}
