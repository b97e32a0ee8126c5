/** The stored form of a statistics snapshot, and how it is read back. */
module StatsSnapshot {
  import opened Prelude
  import opened StableSort
  import opened LearningStats

  /** A stored market: each field may be missing or of another type, which is `None`. */
  datatype RawStats = RawStats(
    opportunities: Option<int>, approvals: Option<int>, avgEdge: Option<real>, slippageSamples: Option<int>,
    avgSlippage: Option<real>, timeouts: Option<int>, lastUpdatedMs: Option<int>)

  /** A stored payload; the statistics, or one market's, may be no object. */
  datatype Payload = Payload(
    schemaVersion: int, atMs: Option<int>, appliedThroughMs: Option<int>,
    statsByMarket: Option<map<string, Option<RawStats>>>)

  function Count(field: Option<int>): nat {
    MaxInt(0, field.GetOr(0))
  }

  function Normalized(raw: RawStats): MarketStats {
    MarketStats(Count(raw.opportunities), Count(raw.approvals), raw.avgEdge.GetOr(0.0), Count(raw.slippageSamples),
      raw.avgSlippage.GetOr(0.0), Count(raw.timeouts), Count(raw.lastUpdatedMs))
  }

  predicate Usable(raw: map<string, Option<RawStats>>, market: string)
    requires market in raw
  {
    market != "" && raw[market].Some?
  }

  function NormalizedAll(raw: map<string, Option<RawStats>>): Stats {
    map m | m in raw && Usable(raw, m) :: Normalized(raw[m].value)
  }

  predicate Readable(payload: Option<Payload>) {
    payload.Some? && (payload.value.schemaVersion == 1 || payload.value.schemaVersion == 2)
      && payload.value.statsByMarket.Some?
  }

  /** What a restart reads from the latest stored payload. */
  function Parsed(payload: Option<Payload>, now: int): Option<Snapshot> {
    if Readable(payload) then
      var p := payload.value;
      Some(Snapshot(p.atMs.GetOr(now), p.appliedThroughMs, NormalizedAll(p.statsByMarket.value)))
    else None
  }

  /** A whole number that is stored and not negative, or else nothing. */
  ghost predicate Reads(value: int, field: Option<int>) {
    if field.Some? && field.value > 0 then Some(value) == field else value == 0
  }

  ghost predicate ReadsAny(value: real, field: Option<real>) {
    if field.Some? then Some(value) == field else value == 0.0
  }

  /** A stored market is read field by field, each under its own name. */
  ghost predicate ReadFrom(m: MarketStats, raw: RawStats) {
    && Reads(m.opportunities, raw.opportunities) && Reads(m.approvals, raw.approvals)
    && Reads(m.timeouts, raw.timeouts) && Reads(m.slippageSamples, raw.slippageSamples)
    && Reads(m.lastUpdatedMs, raw.lastUpdatedMs)
    && ReadsAny(m.avgEdge, raw.avgEdge) && ReadsAny(m.avgSlippage, raw.avgSlippage)
  }

  /**
   * A payload of version 1 or 2 with statistics is read: its markets that have a name and are objects,
   * field by field, its own time or else the present, and the time it was applied through if it has one.
   */
  lemma ParsedReads(payload: Option<Payload>, now: int)
    ensures var s := Parsed(payload, now);
      if payload.None? || payload.value.schemaVersion !in {1, 2} || payload.value.statsByMarket.None? then s == None
      else
        var p := payload.value;
        var raw := p.statsByMarket.value;
        && s.Some? && s.value.atMs == (if p.atMs.Some? then p.atMs.value else now)
        && s.value.appliedThrough == p.appliedThroughMs
        && (forall m :: m in s.value.stats <==> m in raw && m != "" && raw[m] != None)
        && (forall m :: m in s.value.stats ==> ReadFrom(s.value.stats[m], raw[m].value))
  {
  }

  function Raw(m: MarketStats): RawStats {
    RawStats(Some(m.opportunities), Some(m.approvals), Some(m.avgEdge), Some(m.slippageSamples), Some(m.avgSlippage),
      Some(m.timeouts), Some(m.lastUpdatedMs))
  }

  /** What the tracker stores. */
  function Written(s: Snapshot): Payload {
    Payload(2, Some(s.atMs), s.appliedThrough, Some(map m | m in s.stats :: Some(Raw(s.stats[m]))))
  }

  /** No nameless market, and no time before zero. */
  ghost predicate Clean(stats: Stats) {
    "" !in stats && forall m :: m in stats ==> stats[m].lastUpdatedMs >= 0
  }

  /** What is stored is read back unchanged if and only if it is clean. */
  lemma WrittenIsReadBackIff(s: Snapshot, now: int)
    ensures Parsed(Some(Written(s)), now) == Some(s) <==> Clean(s.stats)
  {
    var back := Parsed(Some(Written(s)), now).value.stats;
    forall m
      ensures m in back <==> m in s.stats && m != ""
      ensures m in back ==> back[m] == s.stats[m].(lastUpdatedMs := MaxInt(0, s.stats[m].lastUpdatedMs))
    {
    }
    if Clean(s.stats) {
      assert forall m :: m in back ==> back[m] == s.stats[m];
      assert back == s.stats;
    } else if "" in s.stats {
      assert "" !in back;
    } else {
      var m :| m in s.stats && s.stats[m].lastUpdatedMs < 0;
      assert back[m] != s.stats[m];
    }
  }

  /** Whatever is read is clean, and so is everything the tracker makes of it from events at times from zero on. */
  lemma {:induction false} StaysClean(stats: Stats, events: seq<Event>)
    requires Clean(stats) && forall i :: 0 <= i < |events| ==> events[i].ts >= 0
    ensures Clean(ApplyAll(stats, events))
  {
    hide NextAverage;
    if events != [] {
      StaysClean(stats, events[..|events| - 1]);
    }
  }

  lemma ReadIsClean(payload: Option<Payload>, now: int)
    requires Readable(payload)
    ensures Clean(Parsed(payload, now).value.stats)
  {
  }

  lemma RestoredIsClean(snapshot: Snapshot, log: seq<Event>)
    requires Clean(snapshot.stats) && Timely(log)
    ensures Clean(Restored(Some(snapshot), log))
  {
    var since := Since(snapshot);
    FilterMembers(After(since), log);
    SortMembers(ByTime(), Filter(After(since), log));
    var tail := Tail(log, since);
    forall i | 0 <= i < |tail|
      ensures tail[i].ts >= 0
    {
      assert tail[i] in tail;
      assert tail[i] in log;
    }
    StaysClean(snapshot.stats, tail);
  }

  /** What is stored after further lives, each of which reads what the one before stored. */
  function StoredAfter(log: seq<Event>, payload: Payload, k: nat, lives: seq<Life>, now: int): Payload
    requires InTurn(lives, k, |log|) && Readable(Some(payload))
    decreases |lives|
  {
    if lives == [] then payload
    else
      var next := NextSnapshot(log, Parsed(Some(payload), now).value, lives[0]);
      StoredAfter(log, Written(next), lives[0].to, lives[1..], now)
  }

  /** Nothing is lost on the way through the store: whatever was read first, the last life's snapshot is read back. */
  lemma {:induction false} LivesAreReadBack(log: seq<Event>, payload: Payload, k: nat, lives: seq<Life>, now: int)
    requires Readable(Some(payload)) && Timely(log) && InTurn(lives, k, |log|)
    ensures Parsed(Some(StoredAfter(log, payload, k, lives, now)), now)
      == Some(LastSnapshot(log, Parsed(Some(payload), now).value, k, lives))
    decreases |lives|
  {
    hide Restored, ApplyAll, Clean, Normalized, Raw, Timely;
    if lives != [] {
      var s, life := Parsed(Some(payload), now).value, lives[0];
      var next := NextSnapshot(log, s, life);
      ReadIsClean(Some(payload), now);
      NextIsClean(log, s, life);
      WrittenIsReadBackIff(next, now);
      LivesAreReadBack(log, Written(next), life.to, lives[1..], now);
    }
  }

  lemma NextIsClean(log: seq<Event>, s: Snapshot, life: Life)
    requires Clean(s.stats) && Timely(log) && life.from <= life.to <= |log|
    ensures Clean(NextSnapshot(log, s, life).stats)
  {
    hide Restored, ApplyAll, Clean;
    RestoredIsClean(s, log[..life.from]);
    StaysClean(Restored(Some(s), log[..life.from]), Lived(log[life.from..life.to]));
  }

  /**
   * From the first snapshot of a tracker that never restarted before and counted something, through any
   * number of lives and the store between them, what the last restart ends with has the live counts and
   * averages if and only if no life loses a counting event; none does when each event is stored after the
   * updates before it.
   */
  lemma RestartsRestoreExactlyIff(log: seq<Event>, k: nat, i: nat, atMs: int, lives: seq<Life>, now: int)
    requires i < k <= |log| && Counts(log[i]) && Timely(log) && InTurn(lives, k, |log|)
    ensures var first := FirstSnapshot(log, k, atMs); var stored := StoredAfter(log, Written(first), k, lives, now);
      && (Alike(Restored(Parsed(Some(stored), now), log), Live(log)) <==> NothingLost(log, first, k, lives))
      && (Apart(log) ==> NothingLost(log, first, k, lives))
  {
    hide Restored, Live, Clean, Alike, StoredAfter, FirstSnapshot, Parsed, Timely, NothingLost;
    var first := FirstSnapshot(log, k, atMs);
    FirstIsSaved(log, k, atMs, i);
    FirstIsClean(log, k, atMs);
    WrittenIsReadBackIff(first, now);
    LivesAreReadBack(log, Written(first), k, lives, now);
    LivesRestoreExactlyIff(log, first, k, lives);
    if Apart(log) {
      LivesRestoreExactly(log, first, k, lives);
    }
  }

  lemma FirstIsClean(log: seq<Event>, k: nat, atMs: int)
    requires k <= |log| && Timely(log)
    ensures Clean(FirstSnapshot(log, k, atMs).stats)
  {
    StaysClean(map[], Lived(log[..k]));
  }
}
