/** The token-bucket rate limiter and its serial queue of requests. */
module TokenBucket {
  import opened Prelude

  datatype Bucket = Bucket(capacity: real, rate: real, tokens: real, lastRefill: int)

  /** The bucket, the requests not yet granted in call order, and those granted so far. */
  datatype Limiter = Limiter(bucket: Bucket, queue: seq<int>, granted: seq<int>)

  /** A call of `acquire`, or the head of the queue looking at the clock. */
  datatype Move = Call(count: real) | Poll(now: int)

  function Requested(count: real): int {
    MaxInt(1, count.Floor)
  }

  function New(maxRequests: real, windowMs: real, now: int): Bucket {
    var capacity := Max(maxRequests, 1.0);
    Bucket(capacity, capacity / Max(windowMs, 1.0), capacity, now)
  }

  function Refilled(b: Bucket, now: int): Bucket {
    if now <= b.lastRefill then b
    else b.(tokens := Min(b.capacity, b.tokens + (now - b.lastRefill) as real * b.rate), lastRefill := now)
  }

  function Step(l: Limiter, move: Move): Limiter {
    match move
    case Call(count) => l.(queue := l.queue + [Requested(count)])
    case Poll(now) =>
      if l.queue == [] then l
      else
        var b := Refilled(l.bucket, now);
        if b.tokens >= l.queue[0] as real then
          Limiter(b.(tokens := b.tokens - l.queue[0] as real), l.queue[1..], l.granted + [l.queue[0]])
        else l.(bucket := b)
  }

  function Run(l: Limiter, moves: seq<Move>): Limiter
    decreases |moves|
  {
    if moves == [] then l else Run(Step(l, moves[0]), moves[1..])
  }

  function Sum(s: seq<int>): (r: int)
    ensures s == [] ==> r == 0
  {
    if s == [] then 0 else Sum(s[..|s| - 1]) + s[|s| - 1]
  }

  ghost predicate Valid(b: Bucket) {
    b.capacity >= 1.0 && b.rate > 0.0 && 0.0 <= b.tokens <= b.capacity
  }

  /** All looks at the clock fall between the two moments, in order. */
  ghost predicate Between(moves: seq<Move>, from: int, to: int)
    decreases |moves|
  {
    if moves == [] then from <= to
    else if moves[0].Poll? then from <= moves[0].now && Between(moves[1..], moves[0].now, to)
    else Between(moves[1..], from, to)
  }

  lemma QuotientTimes(x: real, d: real)
    requires d > 0.0
    ensures x / d * d == x
  {
  }

  lemma NewIsValid(maxRequests: real, windowMs: real, now: int)
    ensures Valid(New(maxRequests, windowMs, now))
  {
    assert Max(windowMs, 1.0) >= 1.0;
    assert Max(maxRequests, 1.0) / Max(windowMs, 1.0) > 0.0;
  }

  lemma RefillIsValid(b: Bucket, now: int)
    requires Valid(b)
    ensures Valid(Refilled(b, now))
  {
    if b.lastRefill < now {
      assert (now - b.lastRefill) as real * b.rate > 0.0;
    }
  }

  lemma RefillGains(b: Bucket, from: int, to: int)
    requires Valid(b) && from <= to
    ensures Valid(Refilled(b, from)) && Valid(Refilled(b, to))
    ensures Refilled(b, to).tokens <= Refilled(b, from).tokens + (to - from) as real * b.rate
    ensures 0.0 <= (to - from) as real * b.rate
  {
    if b.lastRefill < to {
      assert (to - b.lastRefill) as real * b.rate > 0.0;
    }
    if b.lastRefill < from {
      assert (from - b.lastRefill) as real * b.rate > 0.0;
      assert (to - b.lastRefill) as real * b.rate
        == (from - b.lastRefill) as real * b.rate + (to - from) as real * b.rate;
    } else if b.lastRefill < to {
      assert (to - b.lastRefill) as real * b.rate <= (to - from) as real * b.rate;
    }
    assert (to - from) as real * b.rate >= 0.0;
  }

  lemma {:induction false} SumPush(s: seq<int>, x: int)
    ensures Sum(s + [x]) == Sum(s) + x
  {
    assert (s + [x])[..|s|] == s;
  }

  /** One look moves `spent` from the bucket, as refilled at that time, to the grants. */
  lemma PollSpends(l: Limiter, now: int) returns (spent: int)
    requires Valid(l.bucket) && forall i :: 0 <= i < |l.queue| ==> l.queue[i] >= 1
    ensures var next := Step(l, Poll(now));
      && Valid(next.bucket) && next.bucket.rate == l.bucket.rate
      && (forall i :: 0 <= i < |next.queue| ==> next.queue[i] >= 1)
      && Refilled(next.bucket, now).tokens + spent as real == Refilled(l.bucket, now).tokens
      && Sum(next.granted) == Sum(l.granted) + spent
  {
    spent := 0;
    RefillGains(l.bucket, now, now);
    if l.queue != [] && Refilled(l.bucket, now).tokens >= l.queue[0] as real {
      spent := l.queue[0];
      SumPush(l.granted, spent);
    }
  }

  lemma SplitTime(from: int, now: int, to: int, rate: real)
    ensures (to - from) as real * rate == (to - now) as real * rate + (now - from) as real * rate
  {
    assert (to - from) as real == (to - now) as real + (now - from) as real;
  }

  /** What can have been granted by `to`, seen from `from`: the grants, the tokens, and the refill between. */
  function Cover(l: Limiter, from: int, to: int): real {
    Sum(l.granted) as real + Refilled(l.bucket, from).tokens + (to - from) as real * l.bucket.rate
  }

  ghost predicate Sound(l: Limiter) {
    Valid(l.bucket) && forall i :: 0 <= i < |l.queue| ==> l.queue[i] >= 1
  }

  lemma MoveKeepsCover(l: Limiter, move: Move, from: int, to: int)
    requires Sound(l) && (move.Poll? ==> from <= move.now)
    ensures Sound(Step(l, move))
    ensures Cover(Step(l, move), if move.Poll? then move.now else from, to) <= Cover(l, from, to)
  {
    if move.Poll? {
      var spent := PollSpends(l, move.now);
      CoverDrops(l, Step(l, move), spent, from, move.now, to);
    }
  }

  lemma CoverDrops(l: Limiter, next: Limiter, spent: int, from: int, now: int, to: int)
    requires Sound(l) && from <= now && next.bucket.rate == l.bucket.rate
    requires Refilled(next.bucket, now).tokens + spent as real == Refilled(l.bucket, now).tokens
    requires Sum(next.granted) == Sum(l.granted) + spent
    ensures Cover(next, now, to) <= Cover(l, from, to)
  {
    RefillGains(l.bucket, from, now);
    SplitTime(from, now, to, l.bucket.rate);
  }

  /** A run grants at most what its start covers. */
  lemma {:induction false} GrantsAreCovered(l: Limiter, moves: seq<Move>, from: int, to: int)
    requires Sound(l) && Between(moves, from, to)
    ensures Sum(Run(l, moves).granted) as real <= Cover(l, from, to)
    decreases |moves|
  {
    if moves == [] {
      RefillGains(l.bucket, from, to);
    } else {
      MoveKeepsCover(l, moves[0], from, to);
      GrantsAreCovered(Step(l, moves[0]), moves[1..], if moves[0].Poll? then moves[0].now else from, to);
    }
  }

  lemma CoverIsCapped(l: Limiter, from: int, to: int)
    requires Sound(l)
    ensures Cover(l, from, to) <= Sum(l.granted) as real + l.bucket.capacity + (to - from) as real * l.bucket.rate
  {
    RefillIsValid(l.bucket, from);
  }

  /** Between any two moments at most the capacity plus the refill of the time between them is granted. */
  lemma GrantsAreLimited(l: Limiter, moves: seq<Move>, from: int, to: int)
    requires Sound(l) && Between(moves, from, to)
    ensures Sum(Run(l, moves).granted) as real
      <= Sum(l.granted) as real + l.bucket.capacity + (to - from) as real * l.bucket.rate
  {
    GrantsAreCovered(l, moves, from, to);
    CoverIsCapped(l, from, to);
  }

  /** What each call asks for, in turn: its count rounded down, and one for anything below two. */
  function Calls(moves: seq<Move>): seq<int>
    decreases |moves|
  {
    if moves == [] then []
    else if moves[0].Call? then
      [if moves[0].count < 2.0 then 1 else moves[0].count.Floor] + Calls(moves[1..])
    else Calls(moves[1..])
  }

  /** Requests are granted in call order: what was granted, then what still waits, is every call in turn. */
  lemma {:induction false} GrantedInCallOrder(l: Limiter, moves: seq<Move>)
    ensures Run(l, moves).granted + Run(l, moves).queue == l.granted + l.queue + Calls(moves)
    decreases |moves|
  {
    if moves != [] {
      GrantedInCallOrder(Step(l, moves[0]), moves[1..]);
      if moves[0].Poll? && l.queue != [] {
        assert l.queue == [l.queue[0]] + l.queue[1..];
      }
    }
  }

  /** How long a refused head waits before it looks again. */
  function WaitMs(b: Bucket, requested: int): int
    requires b.rate > 0.0
  {
    var deficit := requested as real - b.tokens;
    MaxInt(1, Ceiling(deficit / b.rate))
  }

  /** The tokens that come in so many milliseconds. */
  ghost function Gain(ms: int, rate: real): real {
    ms as real * rate
  }

  lemma GainsAt(ms: int, missing: real, rate: real)
    requires rate > 0.0
    ensures ms as real >= missing / rate ==> Gain(ms, rate) >= missing
    ensures ms as real < missing / rate ==> Gain(ms, rate) < missing
  {
    var q := missing / rate;
    assert q * rate == missing;
    TimesRate(q, ms as real, rate);
    TimesRate(ms as real, q, rate);
  }

  /** The wait is the least whole number of milliseconds, one at least, that brings what is missing. */
  lemma WaitIsLeast(b: Bucket, requested: int)
    requires b.rate > 0.0
    ensures var wait, missing := WaitMs(b, requested), requested as real - b.tokens;
      wait >= 1 && Gain(wait, b.rate) >= missing && (wait > 1 ==> Gain(wait - 1, b.rate) < missing)
  {
    var wait, missing := WaitMs(b, requested), requested as real - b.tokens;
    GainsAt(wait, missing, b.rate);
    GainsAt(wait - 1, missing, b.rate);
    hide Gain;
  }

  lemma TimesRate(a: real, b: real, rate: real)
    requires rate > 0.0
    ensures a <= b ==> a * rate <= b * rate
    ensures a < b ==> a * rate < b * rate
  {
  }

  function Ceiling(x: real): int {
    if x.Floor as real == x then x.Floor else x.Floor + 1
  }

  /** A request no larger than the capacity is granted at once, or at its first look after one full wait. */
  lemma GrantedAfterOneWait(l: Limiter, now: int, later: int)
    requires Valid(l.bucket) && l.queue != [] && 1 <= l.queue[0]
    requires l.queue[0] as real <= l.bucket.capacity && l.bucket.lastRefill <= now
    requires var b := Refilled(l.bucket, now); later >= now + WaitMs(b, l.queue[0])
    ensures Step(l, Poll(now)).granted == l.granted + [l.queue[0]]
      || Step(Step(l, Poll(now)), Poll(later)).granted == l.granted + [l.queue[0]]
  {
    var b := Refilled(l.bucket, now);
    RefillGains(l.bucket, now, now);
    if b.tokens < l.queue[0] as real {
      var deficit := l.queue[0] as real - b.tokens;
      var waited := (later - b.lastRefill) as real;
      assert b.lastRefill == now;
      assert waited >= deficit / b.rate;
      assert waited * b.rate >= deficit by {
        assert deficit / b.rate * b.rate == deficit;
        MulMonotone(deficit / b.rate, waited, b.rate);
      }
    }
  }

  lemma MulMonotone(a: real, b: real, c: real)
    requires a <= b && c > 0.0
    ensures a * c <= b * c
  {
  }

  /** A request larger than the capacity is never granted, and nothing behind it is either. */
  lemma {:induction false} OversizedRequestBlocks(l: Limiter, moves: seq<Move>)
    requires Valid(l.bucket) && l.queue != [] && l.queue[0] as real > l.bucket.capacity
    ensures Run(l, moves).granted == l.granted
    decreases |moves|
  {
    if moves != [] {
      if moves[0].Poll? {
        RefillGains(l.bucket, moves[0].now, moves[0].now);
      }
      OversizedRequestBlocks(Step(l, moves[0]), moves[1..]);
    }
  }

  /** So the head of the queue can be granted exactly when it is no larger than the capacity. */
  lemma GrantableIff(l: Limiter)
    requires Valid(l.bucket) && l.queue != [] && 1 <= l.queue[0]
    ensures l.queue[0] as real <= l.bucket.capacity <==> exists moves :: Run(l, moves).granted != l.granted
  {
    if l.queue[0] as real <= l.bucket.capacity {
      var now := l.bucket.lastRefill;
      var later := now + WaitMs(l.bucket, l.queue[0]);
      GrantedAfterOneWait(l, now, later);
      var once := [Poll(now)];
      var twice := once + [Poll(later)];
      assert Run(l, once) == Step(l, Poll(now));
      RunAppend(l, once, [Poll(later)]);
      assert Run(Run(l, once), [Poll(later)]) == Step(Run(l, once), Poll(later));
      assert Run(l, once).granted != l.granted || Run(l, twice).granted != l.granted;
    } else {
      forall moves
        ensures Run(l, moves).granted == l.granted
      {
        OversizedRequestBlocks(l, moves);
      }
    }
  }

  /** The limiter object. Each waiting turn is one look at the clock: the readings stand for it. */
  class RateLimiter {
    const capacity: real
    const refillRatePerMs: real
    var tokens: real
    var lastRefill: int

    function View(): Bucket
      reads this
    {
      Bucket(capacity, refillRatePerMs, tokens, lastRefill)
    }

    constructor (maxRequests: real, windowMs: real, now: int)
      ensures View() == New(maxRequests, windowMs, now) && Valid(View())
      ensures capacity == (if maxRequests > 1.0 then maxRequests else 1.0) == tokens && lastRefill == now
      ensures refillRatePerMs * (if windowMs > 1.0 then windowMs else 1.0) == capacity
    {
      capacity := Max(maxRequests, 1.0);
      refillRatePerMs := Max(maxRequests, 1.0) / Max(windowMs, 1.0);
      tokens := Max(maxRequests, 1.0);
      lastRefill := now;
      new;
      NewIsValid(maxRequests, windowMs, now);
      QuotientTimes(capacity, Max(windowMs, 1.0));
    }

    method Refill(now: int)
      modifies this
      ensures View() == old(Refilled(View(), now))
      ensures now <= old(lastRefill) ==> tokens == old(tokens) && lastRefill == old(lastRefill)
      ensures now > old(lastRefill) ==> lastRefill == now
      ensures now > old(lastRefill) ==>
        var full := old(tokens) + (now - old(lastRefill)) as real * refillRatePerMs;
        tokens == if full > capacity then capacity else full
      ensures old(Valid(View())) ==> Valid(View())
    {
      if Valid(View()) {
        RefillIsValid(View(), now);
      }
      var elapsed := MaxInt(0, now - lastRefill);
      if elapsed <= 0 {
        return;
      }
      tokens := Min(capacity, tokens + elapsed as real * refillRatePerMs);
      lastRefill := now;
    }

    /** Looks at each reading in turn until the request fits; `used` counts the readings taken. */
    method Acquire(count: real, readings: seq<int>) returns (done: bool, used: nat)
      modifies this
      ensures used <= |readings| && (!done ==> used == |readings|)
      ensures var start := Limiter(old(View()), [if count < 2.0 then 1 else count.Floor], []);
        var end := Run(start, Polls(readings[..used]));
        && View() == end.bucket
        && (done <==> end.queue == [])
      ensures old(Valid(View())) ==> Valid(View())
    {
      var requested := MaxInt(1, count.Floor);
      ghost var start := Limiter(View(), [requested], []);
      used := 0;
      assert readings[..0] == [];
      while used < |readings|
        invariant used <= |readings|
        invariant Run(start, Polls(readings[..used])) == Limiter(View(), [requested], [])
        invariant old(Valid(View())) ==> Valid(View())
      {
        ghost var before := readings[..used];
        var now := readings[used];
        used := used + 1;
        assert readings[..used] == before + [now];
        RunPush(start, before, now);
        Refill(now);
        if tokens >= requested as real {
          tokens := tokens - requested as real;
          return true, used;
        }
      }
      return false, used;
    }
  }

  function Polls(readings: seq<int>): seq<Move> {
    seq(|readings|, i requires 0 <= i < |readings| => Poll(readings[i]))
  }

  lemma {:induction false} RunAppend(l: Limiter, a: seq<Move>, b: seq<Move>)
    ensures Run(l, a + b) == Run(Run(l, a), b)
    decreases |a|
  {
    if a == [] {
      assert a + b == b;
    } else {
      assert (a + b)[1..] == a[1..] + b;
      RunAppend(Step(l, a[0]), a[1..], b);
    }
  }

  lemma RunPush(l: Limiter, before: seq<int>, now: int)
    ensures Run(l, Polls(before + [now])) == Step(Run(l, Polls(before)), Poll(now))
  {
    assert Polls(before + [now]) == Polls(before) + [Poll(now)];
    RunAppend(l, Polls(before), [Poll(now)]);
  }
}
