/** The dependency resolver's cache of extracted edges and its backoff, over interleaved resolves. */
module EdgeCache {
  import opened Prelude
  import opened Dependency

  datatype Entry = Entry(key: string, edges: seq<Edge>, updatedAt: int)

  datatype Status = Miss | Hit | Stale

  /** Why the extractor says it failed; everything else counts as success. */
  datatype Reason = InvalidOutput | Timeout | ExtractorError | Fine

  datatype Config = Config(ttl: nat, grace: nat, maxEntries: nat, backoffInvalid: nat, backoffTimeout: nat,
    backoffError: nat)

  /** A resolve that is waiting for the extractor, and the entry it read before. */
  datatype Waiting = Waiting(key: string, now: int, entry: Option<Entry>)

  /** Cached edges handed to a caller that asked at `now`. */
  datatype Served = Served(key: string, now: int, entry: Entry)

  /** The cache in insertion order, the backoff and the waiting resolves; then what happened so far. */
  datatype State = State(
    cache: seq<Entry>, backoffUntil: int, waiting: seq<Waiting>,
    uses: seq<string>, writes: seq<Entry>, expired: set<string>, served: seq<Served>, calls: seq<int>)

  datatype Move = Begin(key: string, now: int) | Finish(index: nat, edges: seq<Edge>, reason: Reason)

  const INITIAL: State := State([], 0, [], [], [], {}, [], [])

  function Backoff(c: Config, reason: Reason): nat {
    match reason
    case InvalidOutput => c.backoffInvalid
    case Timeout => c.backoffTimeout
    case ExtractorError => c.backoffError
    case Fine => 0
  }

  function Find(cache: seq<Entry>, key: string): Option<Entry> {
    if cache == [] then None
    else if cache[|cache| - 1].key == key then Some(cache[|cache| - 1])
    else Find(cache[..|cache| - 1], key)
  }

  function Without(cache: seq<Entry>, key: string): (r: seq<Entry>)
    ensures |r| <= |cache|
  {
    if cache == [] then []
    else
      var front := Without(cache[..|cache| - 1], key);
      if cache[|cache| - 1].key == key then front else front + [cache[|cache| - 1]]
  }

  function Trimmed(cache: seq<Entry>, maxEntries: nat): seq<Entry> {
    if |cache| > maxEntries then cache[|cache| - maxEntries..] else cache
  }

  function Age(now: int, e: Entry): int {
    MaxInt(0, now - e.updatedAt)
  }

  /** The status of a read and, unless it is a miss, the entry. */
  function Lookup(c: Config, cache: seq<Entry>, key: string, now: int): (Status, Option<Entry>) {
    var found := Find(cache, key);
    if found.None? then (Miss, None)
    else if Age(now, found.value) <= c.ttl then (Hit, found)
    else if Age(now, found.value) <= c.ttl + c.grace then (Stale, found)
    else (Miss, None)
  }

  /** A read moves the entry to the end, or deletes it once it is too old. */
  function AfterRead(c: Config, cache: seq<Entry>, key: string, now: int): seq<Entry> {
    var entry := Lookup(c, cache, key, now).1;
    if entry.Some? then Without(cache, key) + [entry.value] else Without(cache, key)
  }

  function AfterWrite(c: Config, cache: seq<Entry>, e: Entry): seq<Entry> {
    Trimmed(Without(cache, e.key) + [e], c.maxEntries)
  }

  /** The read every resolve starts with. */
  function Read(c: Config, s: State, key: string, now: int): State {
    var entry := Lookup(c, s.cache, key, now).1;
    s.(cache := AfterRead(c, s.cache, key, now),
       uses := if entry.Some? then s.uses + [key] else s.uses,
       expired := if entry.None? && Find(s.cache, key).Some? then s.expired + {key} else s.expired)
  }

  function Step(c: Config, s: State, move: Move): State {
    match move
    case Begin(key, now) =>
      var (status, entry) := Lookup(c, s.cache, key, now);
      var t := Read(c, s, key, now);
      if now < s.backoffUntil || status.Hit? then
        if entry.Some? then t.(served := t.served + [Served(key, now, entry.value)]) else t
      else
        t.(waiting := t.waiting + [Waiting(key, now, entry)], calls := t.calls + [now])
    case Finish(index, edges, reason) =>
      if index >= |s.waiting| then s
      else
        var w := s.waiting[index];
        var t := s.(waiting := s.waiting[..index] + s.waiting[index + 1..]);
        if Backoff(c, reason) > 0 then
          var u := t.(backoffUntil := w.now + Backoff(c, reason));
          if w.entry.Some? then u.(served := u.served + [Served(w.key, w.now, w.entry.value)]) else u
        else Write(c, t.(backoffUntil := 0), Entry(w.key, edges, w.now))
  }

  function Write(c: Config, s: State, e: Entry): State {
    s.(cache := AfterWrite(c, s.cache, e), uses := s.uses + [e.key],
       writes := s.writes + [e], expired := s.expired - {e.key})
  }

  function Run(c: Config, s: State, moves: seq<Move>): State {
    if moves == [] then s else Step(c, Run(c, s, moves[..|moves| - 1]), moves[|moves| - 1])
  }

  // ------------------------------------------------------------------ what the history says

  function LastWrite(writes: seq<Entry>, key: string): Option<Entry> {
    Find(writes, key)
  }

  /** Position of the last use, or -1. */
  function LastUse(uses: seq<string>, key: string): (i: int)
    ensures -1 <= i < |uses|
    ensures i >= 0 ==> uses[i] == key
  {
    if uses == [] then -1
    else if uses[|uses| - 1] == key then |uses| - 1
    else LastUse(uses[..|uses| - 1], key)
  }

  /** The keys used since the last use of this one. */
  function UsedSince(uses: seq<string>, key: string): set<string> {
    if uses == [] || uses[|uses| - 1] == key then {}
    else UsedSince(uses[..|uses| - 1], key) + {uses[|uses| - 1]}
  }

  /** The cache is in order of last use. */
  ghost predicate InUseOrder(cache: seq<Entry>, uses: seq<string>) {
    && (forall i :: 0 <= i < |cache| ==> LastUse(uses, cache[i].key) >= 0)
    && (forall i, j :: 0 <= i < j < |cache| ==> LastUse(uses, cache[i].key) < LastUse(uses, cache[j].key))
  }

  /** A key used before and absent now has expired, or as many others as fit were used since. */
  ghost predicate Survives(c: Config, s: State) {
    forall key :: LastUse(s.uses, key) >= 0 && Find(s.cache, key).None? && key !in s.expired ==>
      |UsedSince(s.uses, key)| >= c.maxEntries
  }

  ghost predicate ValidServing(c: Config, writes: seq<Entry>, key: string, now: int, e: Entry) {
    e in writes && e.key == key && Age(now, e) <= c.ttl + c.grace
  }

  ghost predicate CacheHoldsLastWrites(s: State) {
    forall e :: e in s.cache ==> LastWrite(s.writes, e.key) == Some(e)
  }

  ghost predicate ServesWrites(c: Config, s: State) {
    && (forall v :: v in s.served ==> ValidServing(c, s.writes, v.key, v.now, v.entry))
    && (forall w :: w in s.waiting && w.entry.Some? ==> ValidServing(c, s.writes, w.key, w.now, w.entry.value))
  }

  ghost predicate Inv(c: Config, s: State) {
    && |s.cache| <= c.maxEntries
    && InUseOrder(s.cache, s.uses)
    && CacheHoldsLastWrites(s)
    && Survives(c, s)
    && ServesWrites(c, s)
  }

  // ------------------------------------------------------------------ lists

  lemma {:induction false} FindIs(cache: seq<Entry>, key: string)
    ensures Find(cache, key).Some? <==> exists e :: e in cache && e.key == key
    ensures Find(cache, key).Some? ==> Find(cache, key).value in cache && Find(cache, key).value.key == key
  {
    if cache != [] {
      FindIs(cache[..|cache| - 1], key);
      if Find(cache, key).None? {
        forall e | e in cache
          ensures e.key != key
        {
          assert e in cache[..|cache| - 1] || e == cache[|cache| - 1];
        }
      }
    }
  }

  lemma {:induction false} WithoutIs(cache: seq<Entry>, key: string)
    ensures forall e :: e in Without(cache, key) <==> e in cache && e.key != key
    ensures Find(cache, key).Some? ==> |Without(cache, key)| < |cache|
  {
    if cache != [] {
      WithoutIs(cache[..|cache| - 1], key);
    }
  }

  lemma PushInOrder(cache: seq<Entry>, last: Entry, uses: seq<string>)
    requires InUseOrder(cache, uses) && LastUse(uses, last.key) >= 0
    requires forall e :: e in cache ==> LastUse(uses, e.key) < LastUse(uses, last.key)
    ensures InUseOrder(cache + [last], uses)
  {
  }

  lemma {:induction false} WithoutInOrder(cache: seq<Entry>, key: string, uses: seq<string>)
    requires InUseOrder(cache, uses)
    ensures InUseOrder(Without(cache, key), uses)
  {
    if cache != [] {
      var front, last := cache[..|cache| - 1], cache[|cache| - 1];
      WithoutInOrder(front, key, uses);
      WithoutIs(front, key);
      forall e | e in Without(front, key)
        ensures LastUse(uses, e.key) < LastUse(uses, last.key)
      {
        var i :| 0 <= i < |front| && front[i] == e;
      }
      PushInOrder(Without(front, key), last, uses);
    }
  }

  lemma UsePush(uses: seq<string>, used: string, key: string)
    ensures LastUse(uses + [used], key) == if key == used then |uses| else LastUse(uses, key)
    ensures UsedSince(uses + [used], key) == if key == used then {} else UsedSince(uses, key) + {used}
  {
    assert (uses + [used])[..|uses|] == uses;
  }

  /** Using an entry puts it last. */
  lemma UseInOrder(cache: seq<Entry>, e: Entry, uses: seq<string>)
    requires InUseOrder(cache, uses)
    ensures InUseOrder(Without(cache, e.key) + [e], uses + [e.key])
  {
    var r := Without(cache, e.key);
    WithoutInOrder(cache, e.key, uses);
    WithoutIs(cache, e.key);
    UsePush(uses, e.key, e.key);
    LaterUsesKeepOrder(r, e.key, uses);
    PushInOrder(r, e, uses + [e.key]);
  }

  lemma LaterUsesKeepOrder(cache: seq<Entry>, used: string, uses: seq<string>)
    requires InUseOrder(cache, uses) && forall e :: e in cache ==> e.key != used
    ensures InUseOrder(cache, uses + [used])
    ensures forall e :: e in cache ==> LastUse(uses + [used], e.key) < |uses|
  {
    forall i | 0 <= i < |cache|
      ensures LastUse(uses + [used], cache[i].key) == LastUse(uses, cache[i].key)
    {
      assert cache[i] in cache;
      UsePush(uses, used, cache[i].key);
    }
  }

  lemma FindPush(writes: seq<Entry>, e: Entry, key: string)
    ensures Find(writes + [e], key) == if e.key == key then Some(e) else Find(writes, key)
  {
    assert (writes + [e])[..|writes|] == writes;
  }

  lemma {:induction false} LaterKeysUsedSince(uses: seq<string>, key: string, other: string)
    requires LastUse(uses, other) > LastUse(uses, key)
    ensures other in UsedSince(uses, key)
  {
    if uses[|uses| - 1] != other {
      LaterKeysUsedSince(uses[..|uses| - 1], key, other);
    }
  }

  function Keys(cache: seq<Entry>): set<string> {
    set e | e in cache :: e.key
  }

  lemma {:induction false} KeyCount(cache: seq<Entry>, uses: seq<string>)
    requires InUseOrder(cache, uses)
    ensures |Keys(cache)| == |cache|
  {
    if cache != [] {
      var front, last := cache[..|cache| - 1], cache[|cache| - 1];
      KeyCount(front, uses);
      assert Keys(cache) == Keys(front) + {last.key};
      forall e | e in front
        ensures e.key != last.key
      {
        var i :| 0 <= i < |front| && front[i] == e;
      }
    }
  }

  // ------------------------------------------------------------------ a read keeps the invariant

  lemma FoundIsLast(s: State, key: string)
    requires CacheHoldsLastWrites(s)
    ensures Find(s.cache, key).Some? ==> LastWrite(s.writes, key) == Find(s.cache, key)
    ensures Find(s.cache, key).Some? ==> Find(s.cache, key).value in s.writes
  {
    FindIs(s.cache, key);
    FindIs(s.writes, key);
  }

  lemma ReadKeepsOrder(c: Config, s: State, key: string, now: int)
    requires InUseOrder(s.cache, s.uses)
    ensures InUseOrder(Read(c, s, key, now).cache, Read(c, s, key, now).uses)
  {
    FindIs(s.cache, key);
    var entry := Lookup(c, s.cache, key, now).1;
    if entry.Some? {
      UseInOrder(s.cache, entry.value, s.uses);
    } else {
      WithoutInOrder(s.cache, key, s.uses);
    }
  }

  lemma FindAfter(cache: seq<Entry>, key: string, other: string)
    requires other != key
    ensures Find(Without(cache, key), other).Some? <==> Find(cache, other).Some?
  {
    FindIs(cache, other);
    FindIs(Without(cache, key), other);
    WithoutIs(cache, key);
  }

  lemma ReadSurvives(c: Config, s: State, key: string, now: int)
    requires Survives(c, s)
    ensures Survives(c, Read(c, s, key, now))
  {
    var t := Read(c, s, key, now);
    var entry := Lookup(c, s.cache, key, now).1;
    FindIs(s.cache, key);
    forall other | LastUse(t.uses, other) >= 0 && Find(t.cache, other).None? && other !in t.expired
      ensures |UsedSince(t.uses, other)| >= c.maxEntries
    {
      FindAfterRead(c, s, key, now, other);
      UsePush(s.uses, key, other);
      if other != key {
        SubsetSize(UsedSince(s.uses, other), UsedSince(t.uses, other));
      }
    }
  }

  lemma FindAfterRead(c: Config, s: State, key: string, now: int, other: string)
    ensures other != key ==> (Find(AfterRead(c, s.cache, key, now), other).Some? <==> Find(s.cache, other).Some?)
    ensures Lookup(c, s.cache, key, now).1.Some? ==> Find(AfterRead(c, s.cache, key, now), key).Some?
  {
    FindIs(s.cache, key);
    var entry := Lookup(c, s.cache, key, now).1;
    if other != key {
      FindAfter(s.cache, key, other);
    }
    if entry.Some? {
      FindPush(Without(s.cache, key), entry.value, other);
      FindPush(Without(s.cache, key), entry.value, key);
    }
  }

  lemma ReadKeepsInv(c: Config, s: State, key: string, now: int)
    requires Inv(c, s)
    ensures Inv(c, Read(c, s, key, now))
  {
    ReadKeepsOrder(c, s, key, now);
    ReadSurvives(c, s, key, now);
    FindIs(s.cache, key);
    WithoutIs(s.cache, key);
  }

  // ------------------------------------------------------------------ a write keeps the invariant

  lemma WriteKeepsOrder(c: Config, s: State, e: Entry)
    requires InUseOrder(s.cache, s.uses)
    ensures InUseOrder(Write(c, s, e).cache, Write(c, s, e).uses)
  {
    UseInOrder(s.cache, e, s.uses);
  }

  lemma WriteHoldsLast(c: Config, s: State, e: Entry)
    requires CacheHoldsLastWrites(s)
    ensures CacheHoldsLastWrites(Write(c, s, e))
  {
    WithoutIs(s.cache, e.key);
    forall f | f in Write(c, s, e).cache
      ensures LastWrite(s.writes + [e], f.key) == Some(f)
    {
      FindPush(s.writes, e, f.key);
    }
  }

  lemma SuffixMembers<T>(all: seq<T>, n: nat)
    requires n <= |all|
    ensures forall i :: n <= i < |all| ==> all[i] in all[n..]
  {
    forall i | n <= i < |all|
      ensures all[i] in all[n..]
    {
      assert all[n..][i - n] == all[i];
    }
  }

  /** Whatever a write pushes out was used before everything that stays. */
  lemma EvictsLeastRecentlyUsed(c: Config, s: State, e: Entry, gone: Entry, stays: Entry)
    requires Inv(c, s) && gone in Without(s.cache, e.key) + [e] && gone !in Write(c, s, e).cache
    requires stays in Write(c, s, e).cache
    ensures LastUse(Write(c, s, e).uses, gone.key) < LastUse(Write(c, s, e).uses, stays.key)
    ensures |Write(c, s, e).cache| == c.maxEntries
  {
    hide Survives, CacheHoldsLastWrites, ServesWrites, Without, LastUse;
    var all := Without(s.cache, e.key) + [e];
    UseInOrder(s.cache, e, s.uses);
    var i :| 0 <= i < |all| && all[i] == gone;
    var kept := Write(c, s, e).cache;
    var n := |all| - |kept|;
    assert kept == all[n..];
    var j :| 0 <= j < |kept| && kept[j] == stays;
    assert all[n + j] == stays;
    SuffixMembers(all, n);
  }

  lemma EvictedUsedSince(c: Config, s: State, e: Entry, gone: Entry)
    requires Inv(c, s) && gone in Without(s.cache, e.key) + [e] && gone !in Write(c, s, e).cache
    ensures |UsedSince(Write(c, s, e).uses, gone.key)| >= c.maxEntries
  {
    var t := Write(c, s, e);
    WriteKeepsOrder(c, s, e);
    if |Without(s.cache, e.key) + [e]| <= c.maxEntries {
      assert false;
    }
    forall key | key in Keys(t.cache)
      ensures key in UsedSince(t.uses, gone.key)
    {
      var stays :| stays in t.cache && stays.key == key;
      EvictsLeastRecentlyUsed(c, s, e, gone, stays);
      LaterKeysUsedSince(t.uses, gone.key, key);
    }
    KeyCount(t.cache, t.uses);
    SubsetSize(Keys(t.cache), UsedSince(t.uses, gone.key));
  }

  lemma WrittenIsFound(c: Config, s: State, e: Entry)
    requires c.maxEntries >= 1
    ensures Find(Write(c, s, e).cache, e.key) == Some(e)
  {
    var cache := Write(c, s, e).cache;
    assert cache[|cache| - 1] == e;
  }

  lemma KeySurvivesWrite(c: Config, s: State, e: Entry, key: string)
    requires Inv(c, s) && key != e.key
    requires LastUse(s.uses, key) >= 0 && Find(Write(c, s, e).cache, key).None? && key !in s.expired
    ensures |UsedSince(Write(c, s, e).uses, key)| >= c.maxEntries
  {
    FindAfter(s.cache, e.key, key);
    if Find(s.cache, key).Some? {
      FindIs(Without(s.cache, e.key), key);
      FindIs(Write(c, s, e).cache, key);
      EvictedUsedSince(c, s, e, Find(Without(s.cache, e.key), key).value);
    } else {
      UsePush(s.uses, e.key, key);
      SubsetSize(UsedSince(s.uses, key), UsedSince(Write(c, s, e).uses, key));
    }
  }

  lemma WriteSurvives(c: Config, s: State, e: Entry)
    requires Inv(c, s) && c.maxEntries >= 1
    ensures Survives(c, Write(c, s, e))
  {
    var t := Write(c, s, e);
    WrittenIsFound(c, s, e);
    forall key | LastUse(t.uses, key) >= 0 && Find(t.cache, key).None? && key !in t.expired
      ensures |UsedSince(t.uses, key)| >= c.maxEntries
    {
      UsePush(s.uses, e.key, key);
      KeySurvivesWrite(c, s, e, key);
    }
  }

  lemma WriteKeepsInv(c: Config, s: State, e: Entry)
    requires Inv(c, s) && c.maxEntries >= 1
    ensures Inv(c, Write(c, s, e))
  {
    WriteKeepsOrder(c, s, e);
    WriteHoldsLast(c, s, e);
    WriteSurvives(c, s, e);
  }

  // ------------------------------------------------------------------ every run

  lemma ReadIsValid(c: Config, s: State, key: string, now: int)
    requires CacheHoldsLastWrites(s)
    ensures var entry := Lookup(c, s.cache, key, now).1; entry.Some? ==>
      ValidServing(c, s.writes, key, now, entry.value)
  {
    FoundIsLast(s, key);
    FindIs(s.cache, key);
  }

  lemma ServingKeepsInv(c: Config, s: State, key: string, now: int, entry: Option<Entry>)
    requires Inv(c, s) && (entry.Some? ==> ValidServing(c, s.writes, key, now, entry.value))
    ensures entry.Some? ==> Inv(c, s.(served := s.served + [Served(key, now, entry.value)]))
    ensures Inv(c, s.(waiting := s.waiting + [Waiting(key, now, entry)], calls := s.calls + [now]))
  {
  }

  lemma BeginKeepsInv(c: Config, s: State, key: string, now: int)
    requires Inv(c, s)
    ensures Inv(c, Step(c, s, Begin(key, now)))
  {
    ReadKeepsInv(c, s, key, now);
    ReadIsValid(c, s, key, now);
    ServingKeepsInv(c, Read(c, s, key, now), key, now, Lookup(c, s.cache, key, now).1);
  }

  lemma FinishKeepsInv(c: Config, s: State, index: nat, edges: seq<Edge>, reason: Reason)
    requires Inv(c, s) && c.maxEntries >= 1
    ensures Inv(c, Step(c, s, Finish(index, edges, reason)))
  {
    hide Inv, Write;
    if index < |s.waiting| {
      var w, t := s.waiting[index], Answering(s, index);
      AnsweringKeepsInv(c, s, index, if Backoff(c, reason) > 0 then w.now + Backoff(c, reason) else 0);
      if Backoff(c, reason) > 0 {
        ServingKeepsInv(c, t.(backoffUntil := w.now + Backoff(c, reason)), w.key, w.now, w.entry);
      } else {
        WriteKeepsInv(c, t.(backoffUntil := 0), Entry(w.key, edges, w.now));
      }
    }
  }

  function Answering(s: State, index: nat): State
    requires index < |s.waiting|
  {
    s.(waiting := s.waiting[..index] + s.waiting[index + 1..])
  }

  lemma AnsweringKeepsInv(c: Config, s: State, index: nat, until: int)
    requires Inv(c, s) && index < |s.waiting|
    ensures Inv(c, Answering(s, index).(backoffUntil := until))
    ensures var w := s.waiting[index]; w.entry.Some? ==> ValidServing(c, s.writes, w.key, w.now, w.entry.value)
  {
    hide InUseOrder, Survives, CacheHoldsLastWrites, ValidServing;
    assert s.waiting[index] in s.waiting;
    assert forall w :: w in Answering(s, index).waiting ==> w in s.waiting;
    SameCache(c, s, Answering(s, index).(backoffUntil := until));
  }

  lemma SameCache(c: Config, s: State, t: State)
    requires s.cache == t.cache && s.uses == t.uses && s.writes == t.writes && s.expired == t.expired
    ensures CacheHoldsLastWrites(s) == CacheHoldsLastWrites(t) && Survives(c, s) == Survives(c, t)
  {
  }

  /**
   * For every interleaving of resolves and extractor answers: the cache is within its limit and in
   * order of last use, holds the last write of each of its keys, keeps an unexpired key until as many
   * others as fit were used after it, and every serving is of a write of that key that is no older
   * than ttl plus grace.
   */
  lemma {:induction false} RunsKeepInv(c: Config, moves: seq<Move>)
    requires c.maxEntries >= 1
    ensures Inv(c, Run(c, INITIAL, moves))
  {
    if moves != [] {
      RunsKeepInv(c, moves[..|moves| - 1]);
      var s := Run(c, INITIAL, moves[..|moves| - 1]);
      match moves[|moves| - 1] {
        case Begin(key, now) =>
          BeginKeepsInv(c, s, key, now);
        case Finish(index, edges, reason) =>
          FinishKeepsInv(c, s, index, edges, reason);
      }
    }
  }

  /** What a read hands out at that moment is exactly the last write of the key, in time. */
  lemma ServesExactlyTheLastWrite(c: Config, moves: seq<Move>, key: string, now: int)
    requires c.maxEntries >= 1
    ensures var s := Run(c, INITIAL, moves); var entry := Lookup(c, s.cache, key, now).1;
      entry.Some? ==> LastWrite(s.writes, key) == entry && now - entry.value.updatedAt <= c.ttl + c.grace
  {
    RunsKeepInv(c, moves);
    FoundIsLast(Run(c, INITIAL, moves), key);
  }

  /** Each resolve is over before the next begins. */
  predicate Sequential(c: Config, moves: seq<Move>) {
    moves == []
    || (Sequential(c, moves[..|moves| - 1])
      && (moves[|moves| - 1].Begin? ==> Run(c, INITIAL, moves[..|moves| - 1]).waiting == []))
  }

  ghost predicate WaitsOnLastWrite(s: State) {
    |s.waiting| <= 1 && forall w :: w in s.waiting && w.entry.Some? ==> LastWrite(s.writes, w.key) == w.entry
  }

  ghost predicate ServesLastWrites(s: State, t: State) {
    s.served <= t.served
    && forall i :: |s.served| <= i < |t.served| ==> LastWrite(s.writes, t.served[i].key) == Some(t.served[i].entry)
  }

  lemma StepServesLastWrites(c: Config, s: State, move: Move)
    requires c.maxEntries >= 1 && Inv(c, s) && WaitsOnLastWrite(s) && (move.Begin? ==> s.waiting == [])
    ensures WaitsOnLastWrite(Step(c, s, move)) && ServesLastWrites(s, Step(c, s, move))
  {
    hide InUseOrder, Survives, ServesWrites, LastWrite, Find, AfterRead, AfterWrite;
    match move
    case Begin(key, now) =>
      FoundIsLast(s, key);
      FindIs(s.cache, key);
    case Finish(index, _, _) =>
      if index < |s.waiting| {
        assert s.waiting[index] in s.waiting;
      }
  }

  /** When resolves do not overlap, everything any step of a run serves is the last write of its key. */
  lemma {:induction false} SequentialServesLastWrites(c: Config, moves: seq<Move>, i: nat)
    requires c.maxEntries >= 1 && Sequential(c, moves)
    ensures WaitsOnLastWrite(Run(c, INITIAL, moves))
    ensures i < |moves| ==> ServesLastWrites(Run(c, INITIAL, moves[..i]), Run(c, INITIAL, moves[..i + 1]))
  {
    hide Inv, WaitsOnLastWrite, ServesLastWrites, Step;
    if moves == [] {
      NobodyWaits();
    } else {
      var front := moves[..|moves| - 1];
      RunsKeepInv(c, front);
      SequentialServesLastWrites(c, front, i);
      StepServesLastWrites(c, Run(c, INITIAL, front), moves[|moves| - 1]);
      if i < |front| {
        assert front[..i] == moves[..i] && front[..i + 1] == moves[..i + 1];
      } else if i == |front| {
        assert moves[..i] == front && moves[..i + 1] == moves;
      }
    }
  }

  lemma NobodyWaits()
    ensures WaitsOnLastWrite(INITIAL)
  {
  }

  /** A key used before, not expired, with fewer other keys used since than fit, is still there. */
  lemma RecentKeysAreKept(c: Config, moves: seq<Move>, key: string)
    requires c.maxEntries >= 1
    requires var s := Run(c, INITIAL, moves);
      LastUse(s.uses, key) >= 0 && key !in s.expired && |UsedSince(s.uses, key)| < c.maxEntries
    ensures Find(Run(c, INITIAL, moves).cache, key).Some?
    ensures Find(Run(c, INITIAL, moves).cache, key) == LastWrite(Run(c, INITIAL, moves).writes, key)
  {
    RunsKeepInv(c, moves);
    FoundIsLast(Run(c, INITIAL, moves), key);
  }

  ghost predicate OnlyBegins(moves: seq<Move>) {
    forall m :: m in moves ==> m.Begin?
  }

  /** Until the next extractor answer, every call of the extractor is at or after the end of the backoff. */
  lemma {:induction false} NoCallWhileOpen(c: Config, s: State, moves: seq<Move>)
    requires OnlyBegins(moves)
    ensures Run(c, s, moves).backoffUntil == s.backoffUntil
    ensures s.calls <= Run(c, s, moves).calls
    ensures forall i :: |s.calls| <= i < |Run(c, s, moves).calls| ==> Run(c, s, moves).calls[i] >= s.backoffUntil
  {
    if moves != [] {
      var front := moves[..|moves| - 1];
      forall m | m in front
        ensures m.Begin?
      {
        assert m in moves;
      }
      NoCallWhileOpen(c, s, front);
      assert moves[|moves| - 1] in moves;
    }
  }

  /** After a failed extraction that was asked for at `t`, the extractor is not called before `t` plus its backoff. */
  lemma FailureHoldsCallsBack(c: Config, s: State, index: nat, edges: seq<Edge>, reason: Reason, moves: seq<Move>)
    requires index < |s.waiting| && Backoff(c, reason) > 0 && OnlyBegins(moves)
    ensures var t := Step(c, s, Finish(index, edges, reason)); var u := Run(c, t, moves);
      t.calls == s.calls && t.calls <= u.calls
      && forall i :: |t.calls| <= i < |u.calls| ==> u.calls[i] >= s.waiting[index].now + Backoff(c, reason)
  {
    NoCallWhileOpen(c, Step(c, s, Finish(index, edges, reason)), moves);
  }

  /** Later resolves read no earlier time. */
  ghost predicate InClockOrder(moves: seq<Move>) {
    forall i, j :: 0 <= i < j < |moves| && moves[i].Begin? && moves[j].Begin? ==> moves[i].now <= moves[j].now
  }

  lemma {:induction false} CallsAreBegins(c: Config, s: State, moves: seq<Move>)
    ensures s.calls <= Run(c, s, moves).calls
    ensures forall i :: |s.calls| <= i < |Run(c, s, moves).calls| ==> AskedAt(moves, Run(c, s, moves).calls[i])
  {
    if moves != [] {
      var front := moves[..|moves| - 1];
      CallsAreBegins(c, s, front);
      StepCalls(c, Run(c, s, front), moves[|moves| - 1]);
      hide Step;
      forall now | AskedAt(front, now)
        ensures AskedAt(moves, now)
      {
        var k :| 0 <= k < |front| && front[k].Begin? && front[k].now == now;
        assert moves[k] == front[k];
      }
      var calls := Run(c, s, moves).calls;
      if |calls| > |Run(c, s, front).calls| {
        assert moves[|moves| - 1].Begin?;
      }
    }
  }

  ghost predicate AskedAt(moves: seq<Move>, now: int) {
    exists k :: 0 <= k < |moves| && moves[k].Begin? && moves[k].now == now
  }

  /** A move calls at most once, at its own time, after the backoff; without a call nobody new is waiting. */
  lemma StepCalls(c: Config, t: State, move: Move)
    ensures var u := Step(c, t, move);
      && (u.calls == t.calls || (move.Begin? && move.now >= t.backoffUntil && u.calls == t.calls + [move.now]))
      && (u.calls == t.calls && t.waiting == [] ==> u.waiting == [] && u.backoffUntil == t.backoffUntil)
  {
    hide Lookup, AfterRead, AfterWrite, Find;
  }

  /** A key counts as expired from a read that finds it too old until it is written again. */
  lemma ExpiredIff(c: Config, s: State, move: Move, key: string)
    ensures var t := Step(c, s, move); var found := Find(s.cache, key);
      key in t.expired <==>
        if move.Begin? && move.key == key && found.Some? && move.now - found.value.updatedAt > c.ttl + c.grace then true
        else if t.writes != s.writes && t.writes[|t.writes| - 1].key == key then false
        else key in s.expired
  {
    hide AfterRead, AfterWrite, Find;
  }

  /** From a state in which no answer is outstanding, no call comes before the end of the backoff. */
  lemma {:induction false} HeldWhenAlone(c: Config, s: State, moves: seq<Move>)
    requires s.waiting == [] && InClockOrder(moves)
    ensures var t := Run(c, s, moves);
      && s.calls <= t.calls && (t.calls == s.calls ==> t.waiting == [] && t.backoffUntil == s.backoffUntil)
      && forall i :: |s.calls| <= i < |t.calls| ==> t.calls[i] >= s.backoffUntil
  {
    hide Step;
    if moves != [] {
      var front, move := moves[..|moves| - 1], moves[|moves| - 1];
      HeldWhenAlone(c, s, front);
      StepCalls(c, Run(c, s, front), move);
      CallsAreBegins(c, s, front);
      var t := Run(c, s, front);
      if move.Begin? && t.calls != s.calls {
        var k :| 0 <= k < |front| && front[k].Begin? && front[k].now == t.calls[|s.calls|];
        assert moves[k] == front[k] && moves[|moves| - 1] == move;
      }
    }
  }

  /** Whatever is resolved and answered from here on, no call comes before this time. */
  ghost predicate Holds(c: Config, s: State, until: int) {
    forall moves :: InClockOrder(moves) ==> CallsFrom(s, Run(c, s, moves), until)
  }

  ghost predicate CallsFrom(s: State, t: State, until: int) {
    forall i :: |s.calls| <= i < |t.calls| ==> t.calls[i] >= until
  }

  /** A key longer than those of all entries. */
  function LongKey(cache: seq<Entry>): (key: string)
    ensures forall e :: e in cache ==> |e.key| < |key|
  {
    if cache == [] then "k"
    else
      var rest, last := LongKey(cache[..|cache| - 1]), cache[|cache| - 1].key;
      if |last| < |rest| then rest else last + "k"
  }

  /** An outstanding success closes the backoff, and a resolve of a new key calls before its end. */
  lemma OutstandingSuccessEndsHold(c: Config, s: State)
    requires s.waiting != []
    ensures var w := s.waiting[0]; var key := LongKey(s.cache + [Entry(w.key, [], w.now)]);
      forall now :: now >= 0 ==> Run(c, s, [Finish(0, [], Fine), Begin(key, now)]).calls == s.calls + [now]
  {
    var w := s.waiting[0];
    var e := Entry(w.key, [], w.now);
    var key := LongKey(s.cache + [e]);
    var t := Step(c, s, Finish(0, [], Fine));
    assert Find(t.cache, key).None? by {
      WithoutIs(s.cache, w.key);
      FindIs(t.cache, key);
    }
    hide Find, AfterWrite, AfterRead, Without;
    forall now | now >= 0
      ensures Run(c, s, [Finish(0, [], Fine), Begin(key, now)]).calls == s.calls + [now]
    {
      var moves := [Finish(0, [], Fine), Begin(key, now)];
      assert moves[..1] == [Finish(0, [], Fine)] && [Finish(0, [], Fine)][..0] == [];
      assert Run(c, s, [Finish(0, [], Fine)]) == t;
    }
  }

  /**
   * After a failed extraction asked for at `t` its backoff is kept to, whatever comes, if and only if no
   * other answer was outstanding: another's success would close it.
   */
  lemma FailureHoldsIff(c: Config, s: State, index: nat, edges: seq<Edge>, reason: Reason)
    requires index < |s.waiting| && Backoff(c, reason) > 0 && s.waiting[index].now >= 0
    ensures Holds(c, Step(c, s, Finish(index, edges, reason)), s.waiting[index].now + Backoff(c, reason)) <==>
      |s.waiting| == 1
  {
    var t, until := Step(c, s, Finish(index, edges, reason)), s.waiting[index].now + Backoff(c, reason);
    if |s.waiting| == 1 {
      forall moves | InClockOrder(moves)
        ensures CallsFrom(t, Run(c, t, moves), until)
      {
        HeldWhenAlone(c, t, moves);
      }
    } else {
      OutstandingSuccessEndsHold(c, t);
      var w := t.waiting[0];
      var moves := [Finish(0, [], Fine), Begin(LongKey(t.cache + [Entry(w.key, [], w.now)]), until - 1)];
      assert Run(c, t, moves).calls[|t.calls|] == until - 1;
      assert InClockOrder(moves) && !CallsFrom(t, Run(c, t, moves), until);
    }
  }

  // ------------------------------------------------------------------ the code

  /** What a resolve knows when it ends or when it must ask the extractor. */
  datatype Begun = Answered(edges: seq<Edge>, status: Status) | Ask(entry: Option<Entry>)

  class DependencyResolver {
    const config: Config
    var llmCache: seq<Entry>
    var llmBackoffUntilMs: int

    constructor (config: Config)
      ensures this.config == config && llmCache == [] && llmBackoffUntilMs == 0
    {
      this.config := config;
      llmCache, llmBackoffUntilMs := [], 0;
    }

    method TouchCacheEntry(entry: Entry)
      modifies this`llmCache
      ensures llmCache == Without(old(llmCache), entry.key) + [entry]
    {
      llmCache := Without(llmCache, entry.key);
      llmCache := llmCache + [entry];
    }

    method ReadCachedEdges(key: string, now: int) returns (status: Status, entry: Option<Entry>)
      modifies this`llmCache
      ensures (status, entry) == Lookup(config, old(llmCache), key, now)
      ensures llmCache == AfterRead(config, old(llmCache), key, now)
      ensures var found := Find(old(llmCache), key);
        && (status == Hit <==> found.Some? && now - found.value.updatedAt <= config.ttl)
        && (status == Stale <==>
              found.Some? && config.ttl < now - found.value.updatedAt <= config.ttl + config.grace)
        && entry == (if status == Miss then None else found)
    {
      var cached := Find(llmCache, key);
      FindIs(llmCache, key);
      if cached.None? {
        NothingToDelete(llmCache, key);
        return Miss, None;
      }
      var age := MaxInt(0, now - cached.value.updatedAt);
      if age <= config.ttl {
        TouchCacheEntry(cached.value);
        return Hit, cached;
      }
      if age <= config.ttl + config.grace {
        TouchCacheEntry(cached.value);
        return Stale, cached;
      }
      llmCache := Without(llmCache, key);
      return Miss, None;
    }

    method WriteCachedEdges(key: string, edges: seq<Edge>, now: int)
      modifies this`llmCache
      ensures llmCache == AfterWrite(config, old(llmCache), Entry(key, edges, now))
    {
      llmCache := Without(llmCache, key);
      llmCache := llmCache + [Entry(key, edges, now)];
      ghost var all := llmCache;
      ghost var n: nat := 0;
      while |llmCache| > config.maxEntries
        invariant n <= |all| && llmCache == all[n..]
        invariant n == 0 || |llmCache| >= config.maxEntries
      {
        llmCache := llmCache[1..];
        n := n + 1;
      }
    }

    /** The part of a resolve before the extractor; `staticEdges` stand in for it while the backoff is open. */
    method BeginResolve(key: string, now: int, staticEdges: seq<Edge>, llmOnly: bool, ghost s: State)
      returns (begun: Begun)
      requires s.cache == llmCache && s.backoffUntil == llmBackoffUntilMs
      modifies this`llmCache
      ensures llmCache == Step(config, s, Begin(key, now)).cache
      ensures begun.Answered? ==> begun.status == Lookup(config, s.cache, key, now).0
      ensures begun.Ask? <==> Step(config, s, Begin(key, now)).calls == s.calls + [now]
      ensures begun.Ask? ==> Step(config, s, Begin(key, now)).waiting == s.waiting + [Waiting(key, now, begun.entry)]
      ensures begun.Answered? && Lookup(config, s.cache, key, now).1.Some? ==>
        begun.edges == Lookup(config, s.cache, key, now).1.value.edges
      ensures begun.Answered? && Lookup(config, s.cache, key, now).1.None? ==>
        begun.edges == if llmOnly then staticEdges else []
    {
      var status, entry := ReadCachedEdges(key, now);
      var backoffOpen := now < llmBackoffUntilMs;
      if !backoffOpen && status.Hit? {
        return Answered(entry.value.edges, Hit);
      } else if backoffOpen {
        if entry.Some? {
          return Answered(entry.value.edges, status);
        }
        return Answered(if llmOnly then staticEdges else [], status);
      }
      return Ask(entry);
    }

    /** The part of a resolve after the extractor's answer. */
    method FinishResolve(key: string, now: int, entry: Option<Entry>, edges: seq<Edge>, reason: Reason,
        staticEdges: seq<Edge>, llmOnly: bool, ghost s: State, ghost index: nat)
      returns (llmEdges: seq<Edge>)
      requires s.cache == llmCache && s.backoffUntil == llmBackoffUntilMs
      requires index < |s.waiting| && s.waiting[index] == Waiting(key, now, entry)
      modifies this`llmCache, this`llmBackoffUntilMs
      ensures llmCache == Step(config, s, Finish(index, edges, reason)).cache
      ensures llmBackoffUntilMs == Step(config, s, Finish(index, edges, reason)).backoffUntil
      ensures Backoff(config, reason) == 0 ==> llmEdges == edges
      ensures Backoff(config, reason) > 0 && entry.Some? ==> llmEdges == entry.value.edges
      ensures Backoff(config, reason) > 0 && entry.None? ==> llmEdges == if llmOnly then staticEdges else []
    {
      llmEdges := edges;
      var backoff := Backoff(config, reason);
      if backoff > 0 {
        llmBackoffUntilMs := now + backoff;
        if entry.Some? {
          llmEdges := entry.value.edges;
        } else {
          llmEdges := if llmOnly then staticEdges else [];
        }
      } else {
        llmBackoffUntilMs := 0;
        WriteCachedEdges(key, llmEdges, now);
      }
    }
  }

  lemma {:induction false} NothingToDelete(cache: seq<Entry>, key: string)
    requires Find(cache, key).None?
    ensures Without(cache, key) == cache
  {
    if cache != [] {
      NothingToDelete(cache[..|cache| - 1], key);
      assert cache == cache[..|cache| - 1] + [cache[|cache| - 1]];
    }
  }
}
