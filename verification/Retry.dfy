/** What the idempotency store does with a leg when its opportunity is attempted again. */
module Retry {
  import opened Prelude
  import E = Execution
  import opened Idempotency
  import opened PairedRunner

  lemma {:induction false} RunLast(s: Store, ops: seq<Op>)
    requires ops != []
    ensures Run(s, ops) == Step(Run(s, ops[..|ops| - 1]), ops[|ops| - 1])
    decreases |ops|
  {
    if |ops| > 1 {
      RunLast(Step(s, ops[0]), ops[1..]);
      assert ops[1..][..|ops| - 2] == ops[..|ops| - 1][1..];
    }
  }

  lemma RunLastTwo(s: Store, ops: seq<Op>)
    requires |ops| >= 2
    ensures Run(s, ops) == Step(Step(Run(s, ops[..|ops| - 2]), ops[|ops| - 2]), ops[|ops| - 1])
  {
    RunLast(s, ops);
    RunLast(s, ops[..|ops| - 1]);
    assert ops[..|ops| - 1][..|ops| - 2] == ops[..|ops| - 2];
  }

  lemma BothFailed(s: Store, first: string, second: string, at: int)
    requires Agree(s) && first != second
    ensures var t := Step(Step(s, Op.Fail(first, at)), Op.Fail(second, at)); Creates(t, first) && Creates(t, second)
  {
    StepKeepsAgreement(s, Op.Fail(first, at));
  }

  lemma StepStaysDead(s: Store, op: Op, key: string)
    requires Agree(s) && Creates(s, key) && Elsewhere(op, key)
    ensures Creates(Step(s, op), key)
  {
  }

  lemma {:induction false} StaysDead(s: Store, ops: seq<Op>, key: string)
    requires Agree(s) && Creates(s, key) && forall i :: 0 <= i < |ops| ==> Elsewhere(ops[i], key)
    ensures Creates(Run(s, ops), key)
    decreases |ops|
  {
    hide Step, Agree, Creates, Elsewhere;
    if ops != [] {
      StepKeepsAgreement(s, ops[0]);
      StepStaysDead(s, ops[0], key);
      StaysDead(Step(s, ops[0]), ops[1..], key);
    }
  }

  lemma EndsDead(s: Store, yes: LegAnswer, no: LegAnswer, yesRecord: LegRecord, noRecord: LegRecord, exit: Exit)
    requires Agree(s) && yesRecord.key != noRecord.key && !exit.Done?
    ensures var t := Run(s, RecordCalls(yes, no, yesRecord, noRecord, exit));
      Agree(t) && Creates(t, yesRecord.key) && Creates(t, noRecord.key)
  {
    hide Run, Agree, IdsOf, Acknowledgements;
    var ops := RecordCalls(yes, no, yesRecord, noRecord, exit);
    var n := |ops|;
    RunLastTwo(s, ops);
    RunsKeepAgreement(s, ops);
    RunsKeepAgreement(s, ops[..n - 2]);
    BothFailed(Run(s, ops[..n - 2]), yesRecord.key, noRecord.key, exit.at);
  }

  lemma CreatesNext(t: Store, first: string, second: string, now: int)
    requires Agree(t) && first != second && Creates(t, first) && Creates(t, second)
    ensures var a, b := Ensured(t, first, now), Ensured(Step(t, Ensure(first, now)), second, now);
      MustSend(a) && a.nonce == t.nextNonce && MustSend(b) && b.nonce == t.nextNonce + 1
  {
  }

  /**
   * A failed attempt leaves both legs to be sent again under the next two nonces, whatever others call
   * later: the sale of an unwound leg, too, takes a nonce of its own.
   */
  lemma RetryAfterFailure(s: Store, yes: LegAnswer, no: LegAnswer, yesRecord: LegRecord, noRecord: LegRecord,
        exit: Exit, later: seq<Op>, now: int)
    requires Agree(s) && yesRecord.key != noRecord.key && !exit.Done?
    requires forall i :: 0 <= i < |later| ==> Elsewhere(later[i], yesRecord.key) && Elsewhere(later[i], noRecord.key)
    ensures var t := Run(Run(s, RecordCalls(yes, no, yesRecord, noRecord, exit)), later);
      var yesNext := Ensured(t, yesRecord.key, now);
      var noNext := Ensured(Step(t, Ensure(yesRecord.key, now)), noRecord.key, now);
      MustSend(yesNext) && yesNext.nonce == t.nextNonce && MustSend(noNext) && noNext.nonce == t.nextNonce + 1
  {
    hide Run, Agree, RecordCalls, Creates;
    var u := Run(s, RecordCalls(yes, no, yesRecord, noRecord, exit));
    EndsDead(s, yes, no, yesRecord, noRecord, exit);
    StaysDead(u, later, yesRecord.key);
    StaysDead(u, later, noRecord.key);
    RunsKeepAgreement(u, later);
    CreatesNext(Run(u, later), yesRecord.key, noRecord.key, now);
  }

  /** These are nonces that no record known before the attempt, or at its end, or then, carries. */
  lemma RetryNoncesAreNew(s: Store, yes: LegAnswer, no: LegAnswer, yesRecord: LegRecord, noRecord: LegRecord,
        exit: Exit, later: seq<Op>, nonce: int)
    requires NoncesBelow(s, s.nextNonce) && yesRecord.nonce < s.nextNonce && noRecord.nonce < s.nextNonce
    requires SavesBelow(Run(s, RecordCalls(yes, no, yesRecord, noRecord, exit)), later)
    requires Run(Run(s, RecordCalls(yes, no, yesRecord, noRecord, exit)), later).nextNonce <= nonce
    ensures var u := Run(s, RecordCalls(yes, no, yesRecord, noRecord, exit));
      NonceFree(s, nonce) && NonceFree(u, nonce) && NonceFree(Run(u, later), nonce)
  {
    hide Run, RecordCalls, SavesBelow;
    var ops := RecordCalls(yes, no, yesRecord, noRecord, exit);
    var u := Run(s, ops);
    RunnersSavesAreBelow(s, yes, no, yesRecord, noRecord, exit);
    RunsKeepNoncesBelow(s, ops, |ops|);
    assert ops[..|ops|] == ops;
    RunsKeepNoncesBelow(u, later, |later|);
    assert later[..|later|] == later;
  }

  /** The runner saves nothing but its own two records, under their own nonces, and makes no new one. */
  lemma RunnersCalls(yes: LegAnswer, no: LegAnswer, yesRecord: LegRecord, noRecord: LegRecord, exit: Exit, op: Op)
    requires op in RecordCalls(yes, no, yesRecord, noRecord, exit)
    ensures op.Fail? || op.Save?
    ensures op.Save? ==>
      (op.record.key == yesRecord.key && op.record.nonce == yesRecord.nonce)
      || (op.record.key == noRecord.key && op.record.nonce == noRecord.nonce)
  {
    hide IdsOf;
  }

  lemma {:induction false} SmallSavesAreBelow(s: Store, ops: seq<Op>, limit: int)
    requires forall op :: op in ops && op.Save? ==> op.record.nonce < limit
    requires limit <= s.nextNonce
    ensures SavesBelow(s, ops)
    decreases |ops|
  {
    if ops != [] {
      assert s.nextNonce <= Step(s, ops[0]).nextNonce;
      SmallSavesAreBelow(Step(s, ops[0]), ops[1..], limit);
    }
  }

  lemma RunnersSavesAreBelow(s: Store, yes: LegAnswer, no: LegAnswer, yesRecord: LegRecord, noRecord: LegRecord,
      exit: Exit)
    requires yesRecord.nonce < s.nextNonce && noRecord.nonce < s.nextNonce
    ensures SavesBelow(s, RecordCalls(yes, no, yesRecord, noRecord, exit))
  {
    hide SavesBelow, RecordCalls;
    forall op | op in RecordCalls(yes, no, yesRecord, noRecord, exit) && op.Save?
      ensures op.record.nonce < s.nextNonce
    {
      RunnersCalls(yes, no, yesRecord, noRecord, exit, op);
    }
    SmallSavesAreBelow(s, RecordCalls(yes, no, yesRecord, noRecord, exit), s.nextNonce);
  }

  /** A call of another execution: it concerns other keys, or prunes. */
  predicate Elsewhere(op: Op, key: string) {
    match op
    case Get(_) | Prune(_) | Draw => true
    case Ensure(k, _) => k != key
    case Save(r) => r.key != key
    case Fail(k, _) => k != key
  }

  /**
   * A run never brings an old nonce back by itself: at every point of its record calls, interleaved with
   * any calls that leave the leg's key to it, the leg is known under the nonce of its own record.
   */
  lemma RunnerKeepsNonce(s: Store, ops: seq<Op>, yes: LegAnswer, no: LegAnswer, yesRecord: LegRecord,
      noRecord: LegRecord, exit: Exit, mine: LegRecord)
    requires Agree(s) && yesRecord.key != noRecord.key && (mine == yesRecord || mine == noRecord)
    requires Read(s, mine.key) == Some(mine)
    requires forall op :: op in ops ==> op in RecordCalls(yes, no, yesRecord, noRecord, exit) || Elsewhere(op, mine.key)
    ensures Under(Run(s, ops), mine.key, mine.nonce)
  {
    hide Run, Agree, RecordCalls;
    forall i | 0 <= i < |ops|
      ensures Respects(ops[i], mine.key, mine.nonce)
    {
      assert ops[i] in ops;
      if ops[i] in RecordCalls(yes, no, yesRecord, noRecord, exit) {
        RunnersCalls(yes, no, yesRecord, noRecord, exit, ops[i]);
      }
    }
    RespectedNonceStays(s, ops, mine.key, mine.nonce);
  }

  /** After a submitted attempt with named orders neither leg is sent again: each keeps its nonce and its order. */
  lemma RetryAfterSuccess(s: Store, yes: LegAnswer, no: LegAnswer, yesRecord: LegRecord, noRecord: LegRecord,
        exit: Exit, now: int, terms: E.Terms)
    requires yesRecord.key != noRecord.key && exit.Done? && yes.Answered? && no.Answered?
    requires BothNamed(IdsOf(yes, no, yesRecord, noRecord))
    ensures var t, ids := Run(s, RecordCalls(yes, no, yesRecord, noRecord, exit)), IdsOf(yes, no, yesRecord, noRecord);
      var yesNext, noNext := Ensured(t, yesRecord.key, now), Ensured(t, noRecord.key, now);
      BuysOf(terms, yesNext, noNext) == []
      && yesNext.nonce == yesRecord.nonce && yesNext.orderId == ids.yes
      && noNext.nonce == noRecord.nonce && noNext.orderId == ids.no
  {
    hide Run, IdsOf, Acknowledgements;
    RunLastTwo(s, RecordCalls(yes, no, yesRecord, noRecord, exit));
  }
}
