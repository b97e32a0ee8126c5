/** The sliding-window order throttle: the velocity check of the preflight over the metrics' sample list. */
module OrderThrottle {
  import opened Prelude

  /** An attempt checked at one time that, if it passes, records `planned` orders at another. */
  datatype Attempt = Attempt(checkedAt: int, recordedAt: int, planned: nat)

  datatype Throttle = Throttle(window: int, limit: int, cap: int)

  /** The sample list, and every order ever recorded. */
  datatype Samples = Samples(kept: seq<int>, history: seq<int>)

  /** Drops the samples at the front that are older than `cutoff`. */
  function Pruned(values: seq<int>, cutoff: int): seq<int> {
    if values != [] && values[0] < cutoff then Pruned(values[1..], cutoff) else values
  }

  function Capped(values: seq<int>, cap: int): seq<int> {
    var limit := MaxInt(cap, 1);
    if |values| > limit then values[|values| - limit..] else values
  }

  function Copies(n: nat, at: int): seq<int> {
    seq(n, _ => at)
  }

  predicate Passes(c: Throttle, s: Samples, a: Attempt) {
    |Pruned(s.kept, a.checkedAt - c.window)| + a.planned <= c.limit
  }

  /** Checking prunes the list it reads, whether or not the attempt passes. */
  function Checked(c: Throttle, s: Samples, a: Attempt): Samples {
    s.(kept := Pruned(s.kept, a.checkedAt - c.window))
  }

  /** `planned` pushes, each followed by the cap. */
  function Recorded(c: Throttle, s: Samples, planned: nat, at: int): Samples
    decreases planned
  {
    if planned == 0 then s
    else
      var before := Recorded(c, s, planned - 1, at);
      Samples(Capped(before.kept + [at], c.cap), before.history + [at])
  }

  function Step(c: Throttle, s: Samples, a: Attempt): Samples {
    if Passes(c, s, a) then Recorded(c, Checked(c, s, a), a.planned, a.recordedAt) else Checked(c, s, a)
  }

  function Run(c: Throttle, attempts: seq<Attempt>): Samples {
    if attempts == [] then Samples([], [])
    else Step(c, Run(c, attempts[..|attempts| - 1]), attempts[|attempts| - 1])
  }

  /** How many orders fall in the closed window of length `window` that ends at `t`. */
  function Count(h: seq<int>, window: int, t: int): nat {
    if h == [] then 0
    else Count(h[..|h| - 1], window, t) + if t - window <= h[|h| - 1] <= t then 1 else 0
  }

  /** Each attempt records no earlier than it checked, and the next checks no earlier than that. */
  ghost predicate InTimeOrder(attempts: seq<Attempt>) {
    && (forall i :: 0 <= i < |attempts| ==> attempts[i].checkedAt <= attempts[i].recordedAt)
    && (forall i, j :: 0 <= i < j < |attempts| ==> attempts[i].recordedAt <= attempts[j].checkedAt)
  }

  ghost predicate Ascending(h: seq<int>) {
    forall i, j :: 0 <= i < j < |h| ==> h[i] <= h[j]
  }

  /**
   * The samples kept are the newest of the history; those dropped are out of every window from `now`
   * on, unless the list is full.
   */
  ghost predicate Faithful(c: Throttle, s: Samples, now: int, dropped: nat) {
    && dropped <= |s.history| && s.kept == s.history[dropped..]
    && Ascending(s.history)
    && (|s.kept| >= c.cap || forall i :: 0 <= i < dropped ==> s.history[i] < now - c.window)
  }

  ghost predicate Bounded(c: Throttle, h: seq<int>) {
    forall t :: Count(h, c.window, t) <= c.limit
  }

  lemma {:induction false} PrunedIsSuffix(values: seq<int>, cutoff: int) returns (n: nat)
    requires Ascending(values)
    ensures n <= |values| && Pruned(values, cutoff) == values[n..]
    ensures forall i :: 0 <= i < n ==> values[i] < cutoff
    ensures forall i :: n <= i < |values| ==> values[i] >= cutoff
  {
    if values != [] && values[0] < cutoff {
      var m := PrunedIsSuffix(values[1..], cutoff);
      n := m + 1;
      assert values[1..][m..] == values[n..];
      forall i | n <= i < |values|
        ensures values[i] >= cutoff
      {
        assert values[i] == values[1..][i - 1];
      }
    } else {
      n := 0;
    }
  }

  lemma CheckKeepsFaith(c: Throttle, s: Samples, a: Attempt, now: int, dropped: nat) returns (n: nat)
    requires Faithful(c, s, now, dropped) && now <= a.checkedAt && c.cap >= 1
    ensures Faithful(c, Checked(c, s, a), a.checkedAt, n)
    ensures forall i :: n <= i < |s.history| ==> s.history[i] >= a.checkedAt - c.window
  {
    var cutoff := a.checkedAt - c.window;
    var m := PrunedIsSuffix(s.kept, cutoff);
    n := dropped + m;
    assert s.history[dropped..][m..] == s.history[n..];
    forall i | n <= i < |s.history|
      ensures s.history[i] >= cutoff
    {
      assert s.history[i] == s.kept[i - dropped];
    }
    if m > 0 {
      forall i | 0 <= i < n
        ensures s.history[i] < cutoff
      {
        assert s.history[dropped + m - 1] == s.kept[m - 1];
      }
    }
  }

  lemma PushKeepsFaith(c: Throttle, s: Samples, at: int, now: int, dropped: nat) returns (n: nat)
    requires Faithful(c, s, now, dropped) && c.cap >= 1
    requires forall i :: 0 <= i < |s.history| ==> s.history[i] <= at
    ensures Faithful(c, Samples(Capped(s.kept + [at], c.cap), s.history + [at]), now, n)
  {
    n := if |s.kept| + 1 > c.cap then dropped + |s.kept| + 1 - c.cap else dropped;
    assert s.kept + [at] == (s.history + [at])[dropped..];
    assert Capped(s.kept + [at], c.cap) == (s.history + [at])[n..];
  }

  lemma {:induction false} RecordKeepsFaith(c: Throttle, s: Samples, planned: nat, at: int, now: int, dropped: nat)
    returns (n: nat)
    requires Faithful(c, s, now, dropped) && c.cap >= 1
    requires forall i :: 0 <= i < |s.history| ==> s.history[i] <= at
    ensures Faithful(c, Recorded(c, s, planned, at), now, n)
    ensures Recorded(c, s, planned, at).history == s.history + Copies(planned, at)
    ensures forall i :: 0 <= i < |s.history| + planned ==> Recorded(c, s, planned, at).history[i] <= at
  {
    if planned == 0 {
      n := dropped;
      assert s.history + Copies(0, at) == s.history;
    } else {
      n := RecordKeepsFaith(c, s, planned - 1, at, now, dropped);
      n := PushKeepsFaith(c, Recorded(c, s, planned - 1, at), at, now, n);
      assert s.history + Copies(planned - 1, at) + [at] == s.history + Copies(planned, at);
    }
  }

  lemma {:induction false} CountAppend(h: seq<int>, k: nat, at: int, window: int, t: int)
    ensures Count(h + Copies(k, at), window, t) == Count(h, window, t) + if t - window <= at <= t then k else 0
  {
    if k == 0 {
      assert h + Copies(0, at) == h;
    } else {
      CountAppend(h, k - 1, at, window, t);
      assert (h + Copies(k, at))[..|h| + k - 1] == h + Copies(k - 1, at);
    }
  }

  lemma {:induction false} CountAtMost(h: seq<int>, dropped: nat, window: int, t: int)
    requires dropped <= |h| && forall i :: 0 <= i < dropped ==> h[i] < t - window
    ensures Count(h, window, t) <= |h| - dropped
  {
    if |h| > dropped {
      CountAtMost(h[..|h| - 1], dropped, window, t);
    } else if h != [] {
      CountAtMost(h[..|h| - 1], dropped - 1, window, t);
    }
  }

  lemma PassKeepsBound(c: Throttle, h: seq<int>, a: Attempt, dropped: nat)
    requires Bounded(c, h) && dropped <= |h| && a.checkedAt <= a.recordedAt
    requires forall i :: 0 <= i < dropped ==> h[i] < a.checkedAt - c.window
    requires |h| - dropped + a.planned <= c.limit
    ensures Bounded(c, h + Copies(a.planned, a.recordedAt))
  {
    forall t
      ensures Count(h + Copies(a.planned, a.recordedAt), c.window, t) <= c.limit
    {
      CountAppend(h, a.planned, a.recordedAt, c.window, t);
      if t >= a.recordedAt {
        CountAtMost(h, dropped, c.window, t);
      }
    }
  }

  lemma StepKeepsBound(c: Throttle, s: Samples, a: Attempt, now: int, dropped: nat) returns (n: nat)
    requires Faithful(c, s, now, dropped) && Bounded(c, s.history)
    requires now <= a.checkedAt <= a.recordedAt && c.cap >= 1 && c.window > 0
    requires forall i :: 0 <= i < |s.history| ==> s.history[i] <= a.checkedAt
    requires c.cap + a.planned > c.limit
    ensures Faithful(c, Step(c, s, a), a.checkedAt, n) && Bounded(c, Step(c, s, a).history)
    ensures forall i :: 0 <= i < |Step(c, s, a).history| ==> Step(c, s, a).history[i] <= a.recordedAt
  {
    n := CheckKeepsFaith(c, s, a, now, dropped);
    if Passes(c, s, a) {
      PassKeepsBound(c, s.history, a, n);
      n := RecordKeepsFaith(c, Checked(c, s, a), a.planned, a.recordedAt, a.checkedAt, n);
    }
  }

  lemma {:induction false} RunsStayBounded(c: Throttle, attempts: seq<Attempt>) returns (now: int, dropped: nat)
    requires c.cap >= 1 && c.window > 0 && c.limit > 0 && InTimeOrder(attempts)
    requires forall i :: 0 <= i < |attempts| ==> c.cap + attempts[i].planned > c.limit
    ensures Faithful(c, Run(c, attempts), now, dropped) && Bounded(c, Run(c, attempts).history)
    ensures attempts != [] ==> now <= attempts[|attempts| - 1].checkedAt
    ensures forall i :: 0 <= i < |Run(c, attempts).history| ==>
      attempts != [] && Run(c, attempts).history[i] <= attempts[|attempts| - 1].recordedAt
  {
    if attempts == [] {
      now, dropped := 0, 0;
    } else {
      var front, last := attempts[..|attempts| - 1], attempts[|attempts| - 1];
      now, dropped := RunsStayBounded(c, front);
      if front == [] {
        now := last.checkedAt;
      } else {
        assert front[|front| - 1] == attempts[|attempts| - 2];
      }
      dropped := StepKeepsBound(c, Run(c, front), last, now, dropped);
      now := last.checkedAt;
    }
  }

  /**
   * Over the whole run, no closed window of that length holds more orders than the limit, provided the
   * sample cap plus each attempt's planned orders exceeds the limit.
   */
  lemma ThrottleHolds(c: Throttle, attempts: seq<Attempt>, t: int)
    requires c.cap >= 1 && c.window > 0 && c.limit > 0 && InTimeOrder(attempts)
    requires forall i :: 0 <= i < |attempts| ==> c.cap + attempts[i].planned > c.limit
    ensures Count(Run(c, attempts).history, c.window, t) <= c.limit
  {
    var now, dropped := RunsStayBounded(c, attempts);
  }

  function Burst(n: nat, planned: nat): seq<Attempt> {
    seq(n, _ => Attempt(0, 0, planned))
  }

  ghost predicate AllZero(s: seq<int>) {
    forall i :: 0 <= i < |s| ==> s[i] == 0
  }

  lemma {:induction false} BurstPasses(c: Throttle, n: nat, planned: nat)
    requires c.cap >= 1 && c.window > 0 && c.cap + planned <= c.limit && planned >= 1
    ensures var r := Run(c, Burst(n, planned));
      AllZero(r.history) && |r.history| >= n && |r.kept| <= c.cap && AllZero(r.kept)
  {
    if n > 0 {
      BurstPasses(c, n - 1, planned);
      assert Burst(n, planned)[..n - 1] == Burst(n - 1, planned);
      var before := Run(c, Burst(n - 1, planned));
      assert Pruned(before.kept, 0 - c.window) == before.kept;
      RecordBurst(c, before, planned);
    }
  }

  lemma {:induction false} RecordBurst(c: Throttle, s: Samples, planned: nat)
    requires c.cap >= 1 && |s.kept| <= c.cap && AllZero(s.kept) && AllZero(s.history)
    ensures var r := Recorded(c, s, planned, 0);
      AllZero(r.history) && |r.history| == |s.history| + planned && |r.kept| <= c.cap && AllZero(r.kept)
  {
    if planned > 0 {
      RecordBurst(c, s, planned - 1);
    }
  }

  lemma {:induction false} CountZeros(h: seq<int>, window: int)
    requires AllZero(h) && window > 0
    ensures Count(h, window, 0) == |h|
  {
    if h != [] {
      CountZeros(h[..|h| - 1], window);
    }
  }

  ghost predicate AllPlan(attempts: seq<Attempt>, planned: nat) {
    forall i :: 0 <= i < |attempts| ==> attempts[i].planned == planned
  }

  /** With a smaller cap the list forgets too soon: a burst at one instant passes any number of times. */
  lemma SmallCapFails(c: Throttle, planned: nat) returns (attempts: seq<Attempt>)
    requires c.cap >= 1 && c.window > 0 && planned >= 1 && 0 < c.limit && c.cap + planned <= c.limit
    ensures InTimeOrder(attempts) && AllPlan(attempts, planned)
    ensures Count(Run(c, attempts).history, c.window, 0) > c.limit
  {
    attempts := Burst(c.limit + 1, planned);
    BurstPasses(c, c.limit + 1, planned);
    CountZeros(Run(c, attempts).history, c.window);
  }

  ghost predicate AlwaysBounded(c: Throttle, planned: nat) {
    forall attempts, t :: InTimeOrder(attempts) && AllPlan(attempts, planned) ==>
      Count(Run(c, attempts).history, c.window, t) <= c.limit
  }

  /**
   * For attempts of `planned` orders each, the throttle bounds every window of every run exactly when
   * the sample cap plus `planned` exceeds the limit.
   */
  lemma ThrottleHoldsIff(c: Throttle, planned: nat)
    requires c.cap >= 1 && c.window > 0 && c.limit > 0 && planned >= 1
    ensures c.cap + planned > c.limit <==> AlwaysBounded(c, planned)
  {
    if c.cap + planned > c.limit {
      forall attempts, t | InTimeOrder(attempts) && AllPlan(attempts, planned)
        ensures Count(Run(c, attempts).history, c.window, t) <= c.limit
      {
        ThrottleHolds(c, attempts, t);
      }
    } else {
      var attempts := SmallCapFails(c, planned);
    }
  }

  /** The order samples of the metrics store. */
  /** The newest of the samples, as many as the cap allows, and one at least. */
  ghost predicate NewestOf(all: seq<int>, cap: int, kept: seq<int>) {
    && |kept| <= |all| && kept == all[|all| - |kept|..]
    && |kept| == (if cap < 1 then (if |all| < 1 then |all| else 1) else if |all| < cap then |all| else cap)
  }

  /** What is left starts with the first sample that is not older than the cutoff. */
  ghost predicate DropsOld(all: seq<int>, cutoff: int, kept: seq<int>) {
    && |kept| <= |all| && kept == all[|all| - |kept|..]
    && (forall i :: 0 <= i < |all| - |kept| ==> all[i] < cutoff)
    && (kept != [] ==> kept[0] >= cutoff)
  }

  /** An attempt passes exactly when the recent samples leave room for all it plans, and only then adds them. */
  ghost predicate Goes(recent: seq<int>, c: Throttle, a: Attempt, passed: bool, after: seq<int>) {
    && (passed <==> |recent| + a.planned <= c.limit)
    && (!passed || a.planned == 0 ==> after == recent)
    && (passed && a.planned > 0 ==> NewestOf(recent + Copies(a.planned, a.recordedAt), c.cap, after))
  }

  lemma {:induction false} PrunedDropsOld(all: seq<int>, cutoff: int)
    ensures DropsOld(all, cutoff, Pruned(all, cutoff))
  {
    if all != [] && all[0] < cutoff {
      PrunedDropsOld(all[1..], cutoff);
      var kept := Pruned(all, cutoff);
      forall i | 0 <= i < |all| - |kept|
        ensures all[i] < cutoff
      {
        assert i > 0 ==> all[i] == all[1..][i - 1];
      }
    }
  }

  lemma CappedIsNewest(all: seq<int>, cap: int)
    ensures NewestOf(all, cap, Capped(all, cap))
  {
  }

  lemma NewestOfNewest(all: seq<int>, cap: int, now: seq<int>, at: int)
    requires NewestOf(all, cap, now)
    ensures NewestOf(all + [at], cap, Capped(now + [at], cap))
  {
    CappedIsNewest(now + [at], cap);
    var kept := Capped(now + [at], cap);
    assert now + [at] == (all + [at])[|all| - |now|..];
    hide Capped;
    assert |now + [at]| - |kept| >= 0;
    assert kept == (all + [at])[|all| + 1 - |kept|..];
  }

  lemma NewestPush(kept: seq<int>, n: nat, cap: int, now: seq<int>, at: int)
    requires if n == 0 then now == kept else NewestOf(kept + Copies(n, at), cap, now)
    ensures NewestOf(kept + Copies(n + 1, at), cap, Capped(now + [at], cap))
  {
    assert Copies(n + 1, at) == Copies(n, at) + [at];
    assert kept + Copies(n + 1, at) == (kept + Copies(n, at)) + [at];
    assert n == 0 ==> kept + Copies(n, at) == kept;
    hide NewestOf, Capped, Copies;
    if n == 0 {
      CappedIsNewest(kept + [at], cap);
    } else {
      NewestOfNewest(kept + Copies(n, at), cap, now, at);
    }
  }

  class MetricsStore {
    const maxOrderSamples: int
    var orderAttempts: seq<int>

    constructor (maxEvents: int)
      ensures orderAttempts == [] && maxOrderSamples == MaxInt(maxEvents, 1)
    {
      maxOrderSamples := MaxInt(maxEvents, 1);
      orderAttempts := [];
    }

    method RecordOrderAttempt(now: int)
      modifies this`orderAttempts
      ensures orderAttempts == Capped(old(orderAttempts) + [now], maxOrderSamples)
      ensures NewestOf(old(orderAttempts) + [now], maxOrderSamples, orderAttempts)
    {
      orderAttempts := orderAttempts + [now];
      var limit := MaxInt(maxOrderSamples, 1);
      ghost var all := orderAttempts;
      ghost var k: nat := 0;
      while |orderAttempts| > limit
        invariant k <= |all| && orderAttempts == all[k..]
        invariant |all| > limit ==> |orderAttempts| >= limit
        invariant |all| <= limit ==> k == 0
      {
        k := k + 1;
        orderAttempts := orderAttempts[1..];
      }
    }

    method GetOrderVelocity(window: int, now: int) returns (n: nat)
      modifies this`orderAttempts
      ensures window > 0 ==> orderAttempts == Pruned(old(orderAttempts), now - window) && n == |orderAttempts|
      ensures window > 0 ==> DropsOld(old(orderAttempts), now - window, orderAttempts)
      ensures window <= 0 ==> orderAttempts == old(orderAttempts) && n == 0
    {
      if window <= 0 {
        return 0;
      }
      var cutoff := now - window;
      PrunedDropsOld(orderAttempts, cutoff);
      while |orderAttempts| > 0 && orderAttempts[0] < cutoff
        invariant Pruned(orderAttempts, cutoff) == Pruned(old(orderAttempts), cutoff)
        decreases |orderAttempts|
      {
        orderAttempts := orderAttempts[1..];
      }
      return |orderAttempts|;
    }

    /** The preflight's velocity check followed, if it passes, by the runner's records. */
    method Attempt(c: Throttle, a: Attempt, ghost history: seq<int>) returns (passed: bool, ghost recent: seq<int>)
      requires c.window > 0 && c.limit > 0 && c.cap == maxOrderSamples
      modifies this`orderAttempts
      ensures passed == old(Passes(c, Samples(orderAttempts, history), a))
      ensures orderAttempts == old(Step(c, Samples(orderAttempts, history), a)).kept
      ensures DropsOld(old(orderAttempts), a.checkedAt - c.window, recent)
      ensures Goes(recent, c, a, passed, orderAttempts)
    {
      hide NewestOf, DropsOld, Pruned, Capped, Copies;
      var current := GetOrderVelocity(c.window, a.checkedAt);
      recent := orderAttempts;
      if current + a.planned > c.limit {
        return false, recent;
      }
      ghost var checked := Samples(orderAttempts, history);
      var i := 0;
      while i < a.planned
        invariant 0 <= i <= a.planned
        invariant orderAttempts == Recorded(c, checked, i, a.recordedAt).kept
        invariant i == 0 ==> orderAttempts == recent
        invariant i > 0 ==> NewestOf(recent + Copies(i, a.recordedAt), c.cap, orderAttempts)
      {
        NewestPush(recent, i, c.cap, orderAttempts, a.recordedAt);
        RecordOrderAttempt(a.recordedAt);
        i := i + 1;
      }
      return true, recent;
    }
  }
}
