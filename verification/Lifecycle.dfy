/** The live map, the event log behind it, and rebuilding the first from the second. */
module Lifecycle {
  import opened Prelude
  import opened StableSort
  import opened Execution

  /** A log entry: an execution transition, one stored without its snapshot, or another agent's event. */
  datatype StoredEvent =
    | Stored(timestamp: int, step: Step)
    | Bare(timestamp: int)
    | Other(timestamp: int)

  type Live = map<string, Paired>

  function Lookup(live: Live, id: string): Option<Paired> {
    if id in live then Some(live[id]) else None
  }

  /** The live map after `s` became the state of its execution. */
  function Record(live: Live, s: Paired): Live {
    if RequiredAction(s.state) == NoAction then live - {s.id} else live[s.id := s]
  }

  function RecordEvent(live: Live, event: StoredEvent): Live {
    if event.Stored? then Record(live, event.step.result) else live
  }

  function Replay(events: seq<StoredEvent>): Live {
    if events == [] then map[]
    else RecordEvent(Replay(events[..|events| - 1]), events[|events| - 1])
  }

  function Timestamp(): StoredEvent -> real {
    (e: StoredEvent) => e.timestamp as real
  }

  function IsTransition(): StoredEvent -> bool {
    (e: StoredEvent) => !e.Other?
  }

  function Of(id: string): StoredEvent -> bool {
    (e: StoredEvent) => e.Stored? && e.step.result.id == id
  }

  /** The entries of one execution, in log order. */
  function Mine(events: seq<StoredEvent>, id: string): seq<StoredEvent> {
    Filter(Of(id), events)
  }

  /** The map rebuilt at start-up: keep the transitions, sort them by time, replay. */
  function Restored(events: seq<StoredEvent>): Live {
    Replay(Sort(Timestamp(), Filter(IsTransition(), events)))
  }

  /** What the live map holds for an execution whose state is `event`'s. */
  function Outcome(event: StoredEvent): Option<Paired> {
    if event.Stored? && RequiredAction(event.step.result.state) != NoAction then Some(event.step.result) else None
  }

  lemma {:induction false} ReplayLookup(events: seq<StoredEvent>, id: string)
    ensures Lookup(Replay(events), id)
      == var mine := Mine(events, id); if mine == [] then None else Outcome(mine[|mine| - 1])
  {
    if events != [] {
      ReplayLookup(events[..|events| - 1], id);
    }
  }

  lemma {:induction false} MineAmongTransitions(events: seq<StoredEvent>, id: string)
    ensures Mine(Filter(IsTransition(), events), id) == Mine(events, id)
  {
    if events != [] {
      var front, last := events[..|events| - 1], events[|events| - 1];
      MineAmongTransitions(front, id);
      if !last.Other? {
        FilterPush(Of(id), Filter(IsTransition(), front), last);
      }
    }
  }

  /** Restoring keeps, for each execution, its latest entry by time (the later stored among equals). */
  lemma RestoredLookup(events: seq<StoredEvent>, id: string)
    ensures Lookup(Restored(events), id)
      == var mine := Mine(events, id); if mine == [] then None else Outcome(Latest(Timestamp(), mine))
  {
    var kept := Filter(IsTransition(), events);
    var mine := Mine(events, id);
    ReplayLookup(Sort(Timestamp(), kept), id);
    FilterSort(Timestamp(), Of(id), kept);
    MineAmongTransitions(events, id);
    if mine != [] {
      SortEndsWithLatest(Timestamp(), mine);
    }
  }

  lemma SameLookups(a: Live, b: Live)
    requires forall id: string :: Lookup(a, id) == Lookup(b, id)
    ensures a == b
  {
    forall id: string
      ensures id in a <==> id in b
      ensures id in a && id in b ==> a[id] == b[id]
    {
      assert Lookup(a, id) == Lookup(b, id);
    }
  }

  /** Some entry of the execution carries a later time than its last stored one. */
  predicate Overtaken(events: seq<StoredEvent>, id: string) {
    var mine := Mine(events, id);
    exists i :: 0 <= i < |mine| && mine[i].timestamp > mine[|mine| - 1].timestamp
  }

  lemma {:induction false} LatestIsMember(s: seq<StoredEvent>)
    requires s != []
    ensures Latest(Timestamp(), s) in s
    ensures forall i :: 0 <= i < |s| ==> s[i].timestamp <= Latest(Timestamp(), s).timestamp
  {
    if |s| > 1 {
      LatestIsMember(s[..|s| - 1]);
    }
  }

  lemma LatestIfNotOvertaken(s: seq<StoredEvent>)
    requires s != []
    ensures (forall i :: 0 <= i < |s| ==> s[i].timestamp <= s[|s| - 1].timestamp)
      <==> Latest(Timestamp(), s) == s[|s| - 1] || Latest(Timestamp(), s).timestamp == s[|s| - 1].timestamp
    ensures Latest(Timestamp(), s).timestamp == s[|s| - 1].timestamp ==> Latest(Timestamp(), s) == s[|s| - 1]
  {
    LatestIsMember(s);
    if |s| > 1 {
      LatestIsMember(s[..|s| - 1]);
    }
  }

  /** Snapshots carry the time they were stored under, as every transition writes them. */
  ghost predicate Stamped(events: seq<StoredEvent>) {
    forall i :: 0 <= i < |events| && events[i].Stored? ==> events[i].step.result.lastUpdated == events[i].timestamp
  }

  /**
   * Rebuilding gives exactly the live map if and only if, for every execution, no entry is later
   * than its last one, unless both the latest and the last entry are terminal.
   */
  lemma RestoreIsExactIff(events: seq<StoredEvent>)
    requires Stamped(events)
    ensures Restored(events) == Replay(events)
      <==> forall id :: Overtaken(events, id) ==>
             var mine := Mine(events, id);
             Outcome(Latest(Timestamp(), mine)).None? && Outcome(mine[|mine| - 1]).None?
  {
    forall id: string
      ensures Lookup(Restored(events), id) == Lookup(Replay(events), id)
        <==> (Overtaken(events, id) ==>
                var mine := Mine(events, id);
                Outcome(Latest(Timestamp(), mine)).None? && Outcome(mine[|mine| - 1]).None?)
    {
      RestoredLookup(events, id);
      ReplayLookup(events, id);
      var mine := Mine(events, id);
      if mine != [] {
        LatestIsMember(mine);
        LatestIfNotOvertaken(mine);
        FilterMembers(Of(id), events);
        assert Latest(Timestamp(), mine) in events && mine[|mine| - 1] in mine;
      }
    }
    if forall id: string :: Lookup(Restored(events), id) == Lookup(Replay(events), id) {
      SameLookups(Restored(events), Replay(events));
    }
  }

  /** Times of one execution never go backwards, whatever the other executions do in between. */
  ghost predicate TimesNeverGoBack(events: seq<StoredEvent>) {
    forall i, j | 0 <= i < j < |events| && events[i].Stored? && events[j].Stored? ::
      events[i].step.result.id == events[j].step.result.id ==> events[i].timestamp <= events[j].timestamp
  }

  lemma {:induction false} MineIsOrdered(events: seq<StoredEvent>, id: string)
    requires TimesNeverGoBack(events)
    ensures Sorted(Timestamp(), Mine(events, id))
  {
    if events != [] {
      var front, last := events[..|events| - 1], events[|events| - 1];
      MineIsOrdered(front, id);
      FilterMembers(Of(id), front);
      var mine := Mine(front, id);
      if Of(id)(last) {
        forall i | 0 <= i < |mine|
          ensures mine[i].timestamp <= last.timestamp
        {
          assert mine[i] in front;
        }
      }
    }
  }

  /** For every interleaving of executions whose own times never go backwards, restoring is exact. */
  lemma RestoreIsExact(events: seq<StoredEvent>)
    requires TimesNeverGoBack(events)
    ensures Restored(events) == Replay(events)
  {
    forall id: string
      ensures Lookup(Restored(events), id) == Lookup(Replay(events), id)
    {
      MineIsOrdered(events, id);
      RestoredLookup(events, id);
      ReplayLookup(events, id);
      var mine := Mine(events, id);
      if mine != [] {
        LatestIfNotOvertaken(mine);
      }
    }
    SameLookups(Restored(events), Replay(events));
  }

  /** The live map is what the log says. */
  ghost predicate Coherent(active: Live, log: seq<StoredEvent>) {
    active == Replay(log) && Stamped(log)
  }

  /** The agent's live map and log, shared by all executions. */
  class ExecutionLifecycle {
    var active: Live
    var log: seq<StoredEvent>

    constructor ()
      ensures Coherent(active, log) && active == map[] && log == []
    {
      active, log := map[], [];
    }

    /** Moves an execution on and records it, or throws and records nothing. */
    method Transition(current: Paired, event: Event) returns (r: Result<Paired>)
      modifies this
      ensures r == Execution.Transition(current, event)
      ensures r.Failure? ==> active == old(active) && log == old(log)
      ensures r.Success? ==>
        && log == old(log) + [Stored(event.at, Step(event, r.value))]
        && active == Record(old(active), r.value)
        && r.value.id == current.id
      ensures Coherent(old(active), old(log)) ==> Coherent(active, log)
    {
      r := Execution.Transition(current, event);
      if r.Success? {
        hide Apply, Allowed;
        var next := r.value;
        active := active[next.id := next];
        ghost var before := log;
        log := log + [Stored(event.at, Step(event, next))];
        assert log[..|log| - 1] == before;
        if RequiredAction(next.state) == NoAction {
          active := active - {next.id};
          assert active == Record(old(active), next);
        }
      }
    }

    /** Another agent's event reaches the same store. */
    method Append(at: int)
      modifies this
      ensures log == old(log) + [Other(at)] && active == old(active)
      ensures Coherent(old(active), old(log)) ==> Coherent(active, log)
    {
      ghost var before := log;
      log := log + [Other(at)];
      assert log[..|log| - 1] == before;
    }

    /** Clears the map and refills it from stored events, in time order. */
    method Restore(events: seq<StoredEvent>)
      modifies this`active
      ensures active == Restored(events)
    {
      active := map[];
      var ordered := Sort(Timestamp(), Filter(IsTransition(), events));
      var i := 0;
      while i < |ordered|
        invariant 0 <= i <= |ordered|
        invariant active == Replay(ordered[..i])
      {
        assert ordered[..i + 1][..i] == ordered[..i];
        var event := ordered[i];
        if event.Stored? {
          var snapshot := event.step.result;
          if RequiredAction(snapshot.state) == NoAction {
            active := active - {snapshot.id};
          } else {
            active := active[snapshot.id := snapshot];
          }
        }
        i := i + 1;
      }
      assert ordered[..i] == ordered;
    }

    /**
     * While one execution waits, any others move: each pair is tried in turn and a thrown
     * transition changes nothing.
     */
    method Interleave(id: string, others: seq<(Paired, Event)>)
      requires forall o :: o in others ==> o.0.id != id
      modifies this
      ensures Coherent(old(active), old(log)) ==> Coherent(active, log)
      ensures Mine(log, id) == old(Mine(log, id))
      ensures Lookup(active, id) == old(Lookup(active, id))
      ensures old(log) <= log
    {
      var i := 0;
      while i < |others|
        invariant 0 <= i <= |others|
        invariant Coherent(old(active), old(log)) ==> Coherent(active, log)
        invariant Mine(log, id) == old(Mine(log, id))
        invariant Lookup(active, id) == old(Lookup(active, id))
        invariant old(log) <= log
      {
        ghost var before := log;
        assert others[i] in others;
        var r := Transition(others[i].0, others[i].1);
        if r.Success? {
          FilterPush(Of(id), before, log[|log| - 1]);
        }
        i := i + 1;
      }
    }
  }
}
