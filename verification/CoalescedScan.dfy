/** The supervisor's coalesced universe scan with its one deferred timer, between a start and a stop. */
module CoalescedScan {
  import opened Prelude

  const MIN_INTERVAL: int := 250

  /**
   * The flags, the timer and the last start time; then what has happened so far: the number of scans
   * under way, all start times, and whether a request came after the last start.
   */
  datatype Scan = Scan(
    inFlight: bool, pending: bool, timer: Option<int>, lastStart: int,
    underWay: nat, starts: seq<int>, unserved: bool)

  /** `Tick` is the timer's callback: it counts only while a timer is set. */
  datatype Move = Request(now: int) | Tick(now: int) | Done(now: int)

  const INITIAL: Scan := Scan(false, false, None, 0, 0, [], false)

  function Scheduled(s: Scan, now: int, delay: int): Scan {
    if s.timer.Some? then s else s.(timer := Some(now + MaxInt(0, delay)))
  }

  /** One call of `scanFwUniverseCoalesced` up to its first await. */
  function Call(s: Scan, now: int): Scan {
    if s.inFlight then s.(pending := true)
    else if now - s.lastStart < MIN_INTERVAL then
      Scheduled(s.(pending := true), now, MIN_INTERVAL - (now - s.lastStart))
    else
      s.(lastStart := now, inFlight := true, underWay := s.underWay + 1, starts := s.starts + [now], unserved := false)
  }

  function Step(s: Scan, move: Move): Scan {
    match move
    case Request(now) => Call(s.(unserved := true), now)
    case Tick(now) =>
      if s.timer.None? then s else Call(s.(timer := None), now)
    case Done(now) =>
      if s.underWay == 0 then s
      else
        var t := s.(inFlight := false, underWay := s.underWay - 1);
        if t.pending then Scheduled(t.(pending := false), now, MIN_INTERVAL) else t
  }

  function Run(s: Scan, moves: seq<Move>): Scan {
    if moves == [] then s else Step(Run(s, moves[..|moves| - 1]), moves[|moves| - 1])
  }

  ghost predicate Inv(s: Scan) {
    && s.underWay == (if s.inFlight then 1 else 0)
    && (s.unserved ==> s.timer.Some? || (s.inFlight && s.pending))
    && (s.pending ==> s.timer.Some? || s.inFlight)
    && (s.starts != [] ==> s.lastStart == s.starts[|s.starts| - 1])
    && (forall i :: 0 < i < |s.starts| ==> s.starts[i] - s.starts[i - 1] >= MIN_INTERVAL)
  }

  lemma StepKeepsInv(s: Scan, move: Move)
    requires Inv(s)
    ensures Inv(Step(s, move))
  {
  }

  /**
   * For every order of requests, timer callbacks and scan ends: at most one scan is under way, and a
   * request not yet followed by a start has a timer set, or a running scan with the pending flag set.
   */
  lemma {:induction false} NoRequestIsLost(moves: seq<Move>)
    ensures Inv(Run(INITIAL, moves))
    ensures Run(INITIAL, moves).underWay <= 1
    ensures var s := Run(INITIAL, moves); s.unserved ==> s.timer.Some? || (s.underWay == 1 && s.pending)
  {
    if moves != [] {
      NoRequestIsLost(moves[..|moves| - 1]);
      StepKeepsInv(Run(INITIAL, moves[..|moves| - 1]), moves[|moves| - 1]);
    }
  }

  /** Any two scan starts are at least the minimum interval apart for each start between them. */
  lemma {:induction false} StartsAreSpaced(moves: seq<Move>, i: nat, j: nat)
    requires i < j < |Run(INITIAL, moves).starts|
    ensures Run(INITIAL, moves).starts[j] - Run(INITIAL, moves).starts[i] >= MIN_INTERVAL * (j - i)
    decreases j
  {
    NoRequestIsLost(moves);
    if i < j - 1 {
      StartsAreSpaced(moves, i, j - 1);
    }
  }

  /** A timer that was set for the end of the interval starts the scan, if no other scan started since. */
  lemma DeferredScanStarts(s: Scan, requested: int, fired: int)
    requires !s.inFlight && s.timer.None? && requested - s.lastStart < MIN_INTERVAL
    requires Step(s, Request(requested)).timer.value <= fired
    ensures Step(Step(s, Request(requested)), Tick(fired)).starts == s.starts + [fired]
    ensures !Step(Step(s, Request(requested)), Tick(fired)).unserved
  {
  }

  predicate Starts(s: Scan, move: Move) {
    |Step(s, move).starts| > |s.starts|
  }

  /**
   * Since the last scan start: whether anyone asked, whether the flag was set then, whether a timer fired,
   * and whether the flag or a timer was set then.
   */
  datatype History = History(asked: bool, flagged: bool, fired: bool, armed: bool)

  function SinceStart(moves: seq<Move>): History {
    if moves == [] then History(false, false, false, false)
    else
      var h, s, move := SinceStart(moves[..|moves| - 1]), Run(INITIAL, moves[..|moves| - 1]), moves[|moves| - 1];
      if Starts(s, move) then History(false, s.pending, false, s.pending || Step(s, move).timer.Some?)
      else h.(asked := h.asked || move.Request?, fired := h.fired || (move.Tick? && s.timer.Some?))
  }

  lemma {:induction false} FlagsAreHistory(moves: seq<Move>)
    ensures var s, h := Run(INITIAL, moves), SinceStart(moves);
      s.underWay > 0 ==> (s.unserved <==> h.asked) && (s.pending <==> h.asked || h.flagged || h.fired)
  {
    if moves != [] {
      FlagsAreHistory(moves[..|moves| - 1]);
      NoRequestIsLost(moves[..|moves| - 1]);
    }
  }

  /**
   * Over every run, a scan under way holds a pending flag that nobody waits for, which its end turns into
   * a timer, if and only if nobody asked since it started and either the flag was already set then or a
   * timer fired since.
   */
  lemma IdleTimerIff(moves: seq<Move>, now: int)
    requires Run(INITIAL, moves).underWay > 0
    ensures var s, h := Run(INITIAL, moves), SinceStart(moves);
      s.pending && !s.unserved <==> !h.asked && (h.flagged || h.fired)
    ensures var s := Run(INITIAL, moves);
      s.pending && !s.unserved ==> Step(s, Done(now)).timer.Some? && !Step(s, Done(now)).unserved
  {
    FlagsAreHistory(moves);
  }

  lemma {:induction false} WaitingIsAsked(moves: seq<Move>)
    ensures var s := Run(INITIAL, moves); s.starts != [] ==> (s.unserved <==> SinceStart(moves).asked)
  {
    if moves != [] {
      WaitingIsAsked(moves[..|moves| - 1]);
    }
  }

  /** While nobody asks, what was set when the last scan started stays in some form: flag or timer. */
  ghost predicate StaysArmed(s: Scan, h: History) {
    s.starts != [] && !h.asked ==> (h.armed <==> s.timer.Some? || (s.underWay > 0 && s.pending))
  }

  lemma StepStaysArmed(s: Scan, move: Move, h: History)
    requires Inv(s) && StaysArmed(s, h) && !Starts(s, move)
    ensures StaysArmed(Step(s, move), h.(asked := h.asked || move.Request?))
  {
  }

  lemma {:induction false} RunsStayArmed(moves: seq<Move>)
    ensures StaysArmed(Run(INITIAL, moves), SinceStart(moves))
  {
    if moves != [] {
      var front, move := moves[..|moves| - 1], moves[|moves| - 1];
      RunsStayArmed(front);
      NoRequestIsLost(front);
      if !Starts(Run(INITIAL, front), move) {
        StepStaysArmed(Run(INITIAL, front), move, SinceStart(front));
      }
    }
  }

  /**
   * Over every run, between scans once one has started, a timer is set that nobody waits for if and only
   * if the flag or a timer was already set when the last scan started, and nobody asked since.
   */
  lemma IdleBetweenScansIff(moves: seq<Move>)
    requires Run(INITIAL, moves).underWay == 0 && Run(INITIAL, moves).starts != []
    ensures var s, h := Run(INITIAL, moves), SinceStart(moves); s.timer.Some? && !s.unserved <==> h.armed && !h.asked
  {
    RunsStayArmed(moves);
    WaitingIsAsked(moves);
  }

  /**
   * Over every run, a scan starts for nobody if and only if a timer starts it, the flag or a timer was
   * already set when the last scan started, and nobody asked since.
   */
  lemma IdleStartIff(moves: seq<Move>, move: Move)
    requires Starts(Run(INITIAL, moves), move)
    ensures var s := Run(INITIAL, moves);
      !move.Request? && !s.unserved <==> move.Tick? && SinceStart(moves).armed && !SinceStart(moves).asked
  {
    WaitingIsAsked(moves);
    RunsStayArmed(moves);
    FirstIsAsked(moves);
  }

  lemma {:induction false} FirstIsAsked(moves: seq<Move>)
    ensures var s := Run(INITIAL, moves); s.starts == [] && (s.timer.Some? || s.underWay > 0) ==> s.unserved
    ensures Run(INITIAL, moves).starts == [] ==> !SinceStart(moves).armed
  {
    if moves != [] {
      FirstIsAsked(moves[..|moves| - 1]);
    }
  }

  lemma RunPush(s: Scan, moves: seq<Move>, move: Move)
    ensures Run(s, moves + [move]) == Step(Run(s, moves), move)
  {
    assert (moves + [move])[..|moves|] == moves;
  }

  lemma RunOne(s: Scan, move: Move)
    ensures Run(s, [move]) == Step(s, move)
  {
    assert [] + [move] == [move];
    RunPush(s, [], move);
  }

  /** The flag set by a deferred request outlives the scan that serves it: one request, two scans. */
  lemma DeferredRequestScansTwice(s: Scan, requested: int, fired: int, done: int, firedAgain: int)
    requires Inv(s) && !s.inFlight && s.timer.None? && requested - s.lastStart < MIN_INTERVAL
    requires requested <= fired <= done && s.lastStart + MIN_INTERVAL <= fired && done + MIN_INTERVAL <= firedAgain
    ensures Run(s, [Request(requested), Tick(fired), Done(done), Tick(firedAgain)]).starts
      == s.starts + [fired, firedAgain]
  {
    var a, b := [Request(requested)], [Request(requested), Tick(fired)];
    var c := [Request(requested), Tick(fired), Done(done)];
    RunOne(s, Request(requested));
    RunPush(s, a, Tick(fired));
    RunPush(s, b, Done(done));
    RunPush(s, c, Tick(firedAgain));
    assert a + [Tick(fired)] == b && b + [Done(done)] == c;
    assert c + [Tick(firedAgain)] == [Request(requested), Tick(fired), Done(done), Tick(firedAgain)];
  }

  /**
   * A timer left over from an earlier scan fires during one that began with no flag and nobody waiting,
   * and sets the flag: the scan at 1850 is for nobody.
   */
  lemma LeftoverTimerScansAgain()
    ensures Run(INITIAL, [Request(1000), Request(1010), Done(1300), Request(1400)]) ==
      Scan(true, false, Some(1550), 1400, 1, [1000, 1400], false)
    ensures Run(INITIAL,
      [Request(1000), Request(1010), Done(1300), Request(1400), Tick(1550), Done(1600), Tick(1850)]).starts
      == [1000, 1400, 1850]
  {
    var a, b := [Request(1000)], [Request(1000), Request(1010)];
    var c := [Request(1000), Request(1010), Done(1300)];
    var d := [Request(1000), Request(1010), Done(1300), Request(1400)];
    RunOne(INITIAL, Request(1000));
    RunPush(INITIAL, a, Request(1010));
    RunPush(INITIAL, b, Done(1300));
    RunPush(INITIAL, c, Request(1400));
    assert a + [Request(1010)] == b && b + [Done(1300)] == c && c + [Request(1400)] == d;
    var e, f := d + [Tick(1550)], d + [Tick(1550)] + [Done(1600)];
    RunPush(INITIAL, d, Tick(1550));
    RunPush(INITIAL, e, Done(1600));
    RunPush(INITIAL, f, Tick(1850));
    assert f + [Tick(1850)]
      == [Request(1000), Request(1010), Done(1300), Request(1400), Tick(1550), Done(1600), Tick(1850)];
  }

  /** An older timer outlives the last scan, whose end sets none, and starts one more. */
  lemma LeftoverTimerStartsScan()
    ensures Run(INITIAL, [Request(1000), Request(1010), Done(1300), Request(1400), Done(1450)]) ==
      Scan(false, false, Some(1550), 1400, 0, [1000, 1400], false)
    ensures Run(INITIAL,
      [Request(1000), Request(1010), Done(1300), Request(1400), Done(1450), Tick(1550), Tick(1650)]).starts
      == [1000, 1400, 1650]
  {
    var d := [Request(1000), Request(1010), Done(1300), Request(1400)];
    LeftoverTimerScansAgain();
    RunPush(INITIAL, d, Done(1450));
    var e := [Request(1000), Request(1010), Done(1300), Request(1400), Done(1450)];
    assert d + [Done(1450)] == e;
    RunPush(INITIAL, e, Tick(1550));
    RunPush(INITIAL, e + [Tick(1550)], Tick(1650));
    assert e + [Tick(1550)] + [Tick(1650)]
      == [Request(1000), Request(1010), Done(1300), Request(1400), Done(1450), Tick(1550), Tick(1650)];
  }

  /** The supervisor's scan fields; the scan itself is whatever happens between `Scan` and `ScanDone`. */
  class ScanCoordinator {
    var fwScanInFlight: bool
    var fwScanPending: bool
    var fwDeferredScanTimer: Option<int>
    var lastFwScanStartedAtMs: int
    ghost var underWay: nat
    ghost var starts: seq<int>
    ghost var unserved: bool

    ghost function View(): Scan
      reads this
    {
      Scan(fwScanInFlight, fwScanPending, fwDeferredScanTimer, lastFwScanStartedAtMs, underWay, starts, unserved)
    }

    constructor ()
      ensures View() == INITIAL
    {
      fwScanInFlight, fwScanPending, fwDeferredScanTimer, lastFwScanStartedAtMs := false, false, None, 0;
      underWay, starts, unserved := 0, [], false;
    }

    method ScheduleDeferredScan(now: int, delay: int)
      modifies this`fwDeferredScanTimer
      ensures View() == old(Scheduled(View(), now, delay))
    {
      if fwDeferredScanTimer.Some? {
        return;
      }
      fwDeferredScanTimer := Some(now + MaxInt(0, delay));
    }

    /** Returns whether a scan was started. */
    method ScanCoalesced(now: int) returns (started: bool)
      modifies this
      ensures View() == old(Call(View(), now))
      ensures started <==> starts != old(starts)
      ensures started <==> !old(fwScanInFlight) && now >= old(lastFwScanStartedAtMs) + 250
      ensures started ==>
        fwScanInFlight && lastFwScanStartedAtMs == now
        && fwScanPending == old(fwScanPending) && fwDeferredScanTimer == old(fwDeferredScanTimer)
      ensures !started ==>
        fwScanPending && fwScanInFlight == old(fwScanInFlight) && lastFwScanStartedAtMs == old(lastFwScanStartedAtMs)
      ensures !started ==>
        fwDeferredScanTimer ==
        if old(fwScanInFlight) || old(fwDeferredScanTimer).Some? then old(fwDeferredScanTimer)
        else Some(lastFwScanStartedAtMs + 250)
    {
      if fwScanInFlight {
        fwScanPending := true;
        return false;
      }
      var sinceLastStart := now - lastFwScanStartedAtMs;
      if sinceLastStart < MIN_INTERVAL {
        fwScanPending := true;
        ScheduleDeferredScan(now, MIN_INTERVAL - sinceLastStart);
        return false;
      }
      lastFwScanStartedAtMs := now;
      fwScanInFlight := true;
      underWay, starts, unserved := underWay + 1, starts + [now], false;
      return true;
    }

    method HandleMarketUpdated(now: int) returns (started: bool)
      modifies this
      ensures View() == old(Step(View(), Request(now)))
    {
      unserved := true;
      started := ScanCoalesced(now);
    }

    method RunDeferredScan(now: int) returns (started: bool)
      requires fwDeferredScanTimer.Some?
      modifies this
      ensures View() == old(Step(View(), Tick(now)))
    {
      fwDeferredScanTimer := None;
      started := ScanCoalesced(now);
    }

    method ScanDone(now: int)
      requires underWay > 0
      modifies this
      ensures View() == old(Step(View(), Done(now)))
      ensures !fwScanInFlight && !fwScanPending && lastFwScanStartedAtMs == old(lastFwScanStartedAtMs)
      ensures fwDeferredScanTimer ==
        if old(fwScanPending) && old(fwDeferredScanTimer).None? then Some(now + 250) else old(fwDeferredScanTimer)
    {
      fwScanInFlight := false;
      underWay := underWay - 1;
      if fwScanPending {
        fwScanPending := false;
        ScheduleDeferredScan(now, MIN_INTERVAL);
      }
    }
  }
}
