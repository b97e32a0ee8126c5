/** The idempotency cache in front of its SQL table, and the nonce counter of the venue client. */
module Idempotency {
  import opened Prelude

  datatype Status = Pending | Submitted | Confirmed | Failed

  datatype LegRecord = LegRecord(
    key: string, nonce: int, status: Status, orderId: Option<string>, createdAt: int, updatedAt: int)

  type Table = map<string, LegRecord>

  datatype Store = Store(cache: Table, table: Table, nextNonce: int)

  datatype Op =
    | Get(key: string)
    | Ensure(key: string, now: int)
    | Save(record: LegRecord)
    | Fail(key: string, now: int)
    | Prune(before: int)
    /** The venue client numbers a request that carries no nonce of its own. */
    | Draw

  /** INSERT .. ON CONFLICT: every column but the creation time is overwritten. */
  function Upsert(table: Table, r: LegRecord): Table {
    table[r.key := if r.key in table then r.(createdAt := table[r.key].createdAt) else r]
  }

  function Kept(table: Table, before: int): Table {
    map k | k in table && table[k].updatedAt >= before :: table[k]
  }

  function Read(s: Store, key: string): Option<LegRecord> {
    if key in s.cache then Some(s.cache[key])
    else if key in s.table then Some(s.table[key])
    else None
  }

  function Loaded(s: Store, key: string): Store {
    if key !in s.cache && key in s.table then s.(cache := s.cache[key := s.table[key]]) else s
  }

  function Saved(s: Store, r: LegRecord): Store {
    s.(cache := s.cache[r.key := r], table := Upsert(s.table, r))
  }

  predicate IsLive(r: Option<LegRecord>) {
    r.Some? && r.value.status != Failed
  }

  /** The record `ensureRecord` returns: the live one refreshed, or a new one under the next nonce. */
  function Ensured(s: Store, key: string, now: int): LegRecord {
    var existing := Read(s, key);
    if IsLive(existing) then existing.value.(updatedAt := now)
    else LegRecord(key, s.nextNonce, Pending, None, now, now)
  }

  function Creates(s: Store, key: string): bool {
    !IsLive(Read(s, key))
  }

  function Step(s: Store, op: Op): Store {
    match op
    case Get(key) => Loaded(s, key)
    case Ensure(key, now) =>
      var t := Saved(Loaded(s, key), Ensured(s, key, now));
      if Creates(s, key) then t.(nextNonce := s.nextNonce + 1) else t
    case Save(r) => Saved(s, r)
    case Fail(key, now) =>
      if Read(s, key).None? then s
      else Saved(Loaded(s, key), Read(s, key).value.(status := Failed, updatedAt := now))
    case Prune(before) => s.(cache := Kept(s.cache, before), table := Kept(s.table, before))
    case Draw => s.(nextNonce := s.nextNonce + 1)
  }

  function Run(s: Store, ops: seq<Op>): Store
    decreases |ops|
  {
    if ops == [] then s else Run(Step(s, ops[0]), ops[1..])
  }

  /** The nonces a run hands out, in order: to the records it creates and to requests without one. */
  function HandedOut(s: Store, ops: seq<Op>): seq<int>
    decreases |ops|
  {
    if ops == [] then []
    else
      var rest := HandedOut(Step(s, ops[0]), ops[1..]);
      if ops[0].Ensure? && Creates(s, ops[0].key) then [Ensured(s, ops[0].key, ops[0].now).nonce] + rest
      else if ops[0].Draw? then [s.nextNonce] + rest
      else rest
  }

  /** Cached records are in the table and agree with it on everything but the creation time. */
  ghost predicate Agree(s: Store) {
    && (forall k :: k in s.table ==> s.table[k].key == k)
    && (forall k :: k in s.cache ==> k in s.table && s.cache[k] == s.table[k].(createdAt := s.cache[k].createdAt))
  }

  lemma StepKeepsAgreement(s: Store, op: Op)
    requires Agree(s)
    ensures Agree(Step(s, op))
  {
  }

  /** After any sequence of calls the cache agrees with the table on all fields but creation time. */
  lemma {:induction false} RunsKeepAgreement(s: Store, ops: seq<Op>)
    requires Agree(s)
    ensures Agree(Run(s, ops))
    decreases |ops|
  {
    if ops != [] {
      StepKeepsAgreement(s, ops[0]);
      RunsKeepAgreement(Step(s, ops[0]), ops[1..]);
    }
  }

  predicate NoncesUnder(table: Table, limit: int) {
    forall k :: k in table ==> table[k].nonce < limit
  }

  /** Every record the store knows was made with a nonce handed out before. */
  predicate NoncesBelow(s: Store, limit: int) {
    NoncesUnder(s.cache, limit) && NoncesUnder(s.table, limit)
  }

  /** No record the store knows carries this nonce. */
  predicate NonceFree(s: Store, nonce: int) {
    && (forall k :: k in s.cache ==> s.cache[k].nonce != nonce)
    && (forall k :: k in s.table ==> s.table[k].nonce != nonce)
  }

  /** Callers save only records whose nonce has been handed out. */
  predicate SavesBelow(s: Store, ops: seq<Op>)
    decreases |ops|
  {
    ops == [] || ((ops[0].Save? ==> ops[0].record.nonce < s.nextNonce) && SavesBelow(Step(s, ops[0]), ops[1..]))
  }

  lemma StepKeepsNoncesBelow(s: Store, op: Op)
    requires NoncesBelow(s, s.nextNonce) && (op.Save? ==> op.record.nonce < s.nextNonce)
    ensures NoncesBelow(Step(s, op), Step(s, op).nextNonce) && s.nextNonce <= Step(s, op).nextNonce
  {
  }

  /**
   * After any calls every nonce known to the store at any moment of the run lies below the next one, so
   * a record created then carries a nonce that none has carried since the run began.
   */
  lemma {:induction false} RunsKeepNoncesBelow(s: Store, ops: seq<Op>, i: nat)
    requires NoncesBelow(s, s.nextNonce) && SavesBelow(s, ops) && i <= |ops|
    ensures NoncesBelow(Run(s, ops[..i]), Run(s, ops).nextNonce) && NonceFree(Run(s, ops[..i]), Run(s, ops).nextNonce)
    ensures s.nextNonce <= Run(s, ops).nextNonce
    decreases |ops|
  {
    hide Step;
    if ops != [] {
      StepKeepsNoncesBelow(s, ops[0]);
      RunsKeepNoncesBelow(Step(s, ops[0]), ops[1..], if i == 0 then 0 else i - 1);
      if i > 0 {
        assert ops[..i][1..] == ops[1..][..i - 1];
      }
    }
  }

  /**
   * No nonce is handed out twice in a run, whether to a record or a request, and none is one the store
   * already knew.
   */
  lemma {:induction false} HandedOutIncreases(s: Store, ops: seq<Op>)
    ensures NoncesBelow(s, s.nextNonce) ==> forall i :: 0 <= i < |HandedOut(s, ops)| ==>
      NonceFree(s, HandedOut(s, ops)[i])
    ensures forall i :: 0 <= i < |HandedOut(s, ops)| ==> s.nextNonce <= HandedOut(s, ops)[i]
    ensures forall i, j :: 0 <= i < j < |HandedOut(s, ops)| ==> HandedOut(s, ops)[i] < HandedOut(s, ops)[j]
    decreases |ops|
  {
    if ops != [] {
      HandedOutIncreases(Step(s, ops[0]), ops[1..]);
    }
  }

  /** A leg is sent unless its record is live and already names an order. */
  predicate MustSend(r: LegRecord) {
    r.status == Failed || r.orderId.None? || r.orderId.value == ""
  }

  /** The call neither fails nor prunes `key`, and a record saved under it is live with the same nonce. */
  predicate KeepsLive(s: Store, op: Op, key: string)
    requires Read(s, key).Some?
  {
    match op
    case Fail(k, _) => k != key
    case Prune(before) => Read(s, key).value.updatedAt >= before
    case Save(r) => r.key == key ==> r.nonce == Read(s, key).value.nonce && r.status != Failed
    case _ => true
  }

  /** And if it saves the record, no order id is forgotten. */
  predicate Leaves(s: Store, op: Op, key: string) {
    Read(s, key).Some? ==>
      KeepsLive(s, op, key)
      && (op.Save? && op.record.key == key && !MustSend(Read(s, key).value) ==> !MustSend(op.record))
  }

  predicate LeavesAll(s: Store, ops: seq<Op>, key: string)
    decreases |ops|
  {
    ops == [] || (Leaves(s, ops[0], key) && LeavesAll(Step(s, ops[0]), ops[1..], key))
  }

  lemma StepKeepsNonce(s: Store, op: Op, key: string)
    requires Agree(s) && IsLive(Read(s, key)) && Leaves(s, op, key)
    ensures IsLive(Read(Step(s, op), key))
    ensures Read(Step(s, op), key).value.nonce == Read(s, key).value.nonce
    ensures !MustSend(Read(s, key).value) ==> !MustSend(Read(Step(s, op), key).value)
  {
  }

  /**
   * One call leaves a live key live under its nonce exactly when it neither fails nor prunes it and saves
   * no record that is failed or carries another nonce.
   */
  lemma NonceIsKeptIff(s: Store, op: Op, key: string)
    requires Agree(s) && IsLive(Read(s, key))
    ensures KeepsLive(s, op, key) <==>
      IsLive(Read(Step(s, op), key)) && Read(Step(s, op), key).value.nonce == Read(s, key).value.nonce
  {
  }

  predicate SavesNothingOf(ops: seq<Op>, key: string) {
    forall i :: 0 <= i < |ops| && ops[i].Save? ==> ops[i].record.key != key
  }

  /** Some `ensureRecord` of the run makes a new record for this key. */
  predicate Recreated(s: Store, ops: seq<Op>, key: string)
    decreases |ops|
  {
    ops != [] && ((ops[0].Ensure? && ops[0].key == key && Creates(s, key)) || Recreated(Step(s, ops[0]), ops[1..], key))
  }

  predicate HasNonce(r: Option<LegRecord>, nonce: int) {
    r.Some? && r.value.nonce == nonce
  }

  lemma StepNonce(s: Store, op: Op, key: string)
    requires Agree(s) && (op.Save? ==> op.record.key != key)
    ensures var r, created := Read(Step(s, op), key), op.Ensure? && op.key == key && Creates(s, key);
      r.Some? ==> if created then r.value.nonce == s.nextNonce else HasNonce(Read(s, key), r.value.nonce)
    ensures s.nextNonce <= Step(s, op).nextNonce
    ensures op.Ensure? && op.key == key && Creates(s, key) ==> s.nextNonce < Step(s, op).nextNonce
  {
  }

  /** Without saves a key has its old nonce, or a new one if it was made anew. */
  lemma {:induction false} NonceInForce(s: Store, ops: seq<Op>, key: string)
    requires Agree(s) && SavesNothingOf(ops, key)
    ensures var r := Read(Run(s, ops), key);
      r.Some? ==> if Recreated(s, ops, key) then r.value.nonce >= s.nextNonce else HasNonce(Read(s, key), r.value.nonce)
    decreases |ops|
  {
    hide Step, Agree, Read;
    if ops != [] {
      StepKeepsAgreement(s, ops[0]);
      StepNonce(s, ops[0], key);
      NonceInForce(Step(s, ops[0]), ops[1..], key);
    }
  }

  /**
   * A caller keeps a record and saves it back later, changed in whatever but its nonce. That replaces
   * another nonce by the old one if and only if the key was made anew in between.
   */
  lemma SaveBringsNonceBackIff(s: Store, ops: seq<Op>, r: LegRecord)
    requires Agree(s) && NoncesBelow(s, s.nextNonce) && HasNonce(Read(s, r.key), r.nonce) && SavesNothingOf(ops, r.key)
    requires Read(Run(s, ops), r.key).Some?
    ensures Read(Run(s, ops), r.key).value.nonce != r.nonce <==> Recreated(s, ops, r.key)
    ensures Read(Step(Run(s, ops), Save(r)), r.key) == Some(r)
  {
    NonceInForce(s, ops, r.key);
  }

  /** For instance: failed, ensured anew, and then saved by someone who still holds the record from before. */
  lemma StaleSaveBringsNonceBack(s: Store, r: LegRecord, failedAt: int, now: int)
    requires Agree(s) && NoncesBelow(s, s.nextNonce) && Read(s, r.key) == Some(r)
    ensures var t := Run(s, [Fail(r.key, failedAt), Ensure(r.key, now)]);
      IsLive(Read(t, r.key)) && Read(t, r.key).value.nonce == s.nextNonce > r.nonce
      && Read(Step(t, Save(r)), r.key).value.nonce == r.nonce
  {
    StepKeepsAgreement(s, Fail(r.key, failedAt));
    var t := Step(s, Fail(r.key, failedAt));
    assert [Fail(r.key, failedAt), Ensure(r.key, now)][1..] == [Ensure(r.key, now)];
    assert Run(s, [Fail(r.key, failedAt), Ensure(r.key, now)]) == Run(t, [Ensure(r.key, now)]);
    assert [Ensure(r.key, now)][1..] == [];
    assert Run(t, [Ensure(r.key, now)]) == Step(t, Ensure(r.key, now));
  }

  /** The call makes no new record for `key` and saves none with another nonce. */
  predicate Respects(op: Op, key: string, nonce: int) {
    (op.Ensure? ==> op.key != key) && (op.Save? && op.record.key == key ==> op.record.nonce == nonce)
  }

  predicate Under(s: Store, key: string, nonce: int) {
    Read(s, key).Some? ==> Read(s, key).value.nonce == nonce
  }

  lemma StepRespects(s: Store, op: Op, key: string, nonce: int)
    requires Agree(s) && Under(s, key, nonce) && Respects(op, key, nonce)
    ensures Under(Step(s, op), key, nonce)
  {
  }

  lemma {:induction false} RespectedNonceStays(s: Store, ops: seq<Op>, key: string, nonce: int)
    requires Agree(s) && Under(s, key, nonce) && forall i :: 0 <= i < |ops| ==> Respects(ops[i], key, nonce)
    ensures Under(Run(s, ops), key, nonce)
    decreases |ops|
  {
    hide Step, Agree, Under, Respects;
    if ops != [] {
      StepKeepsAgreement(s, ops[0]);
      StepRespects(s, ops[0], key, nonce);
      RespectedNonceStays(Step(s, ops[0]), ops[1..], key, nonce);
    }
  }

  /** A live record keeps its nonce and its order through calls that neither fail nor prune it. */
  lemma {:induction false} LiveRecordKeepsNonce(s: Store, ops: seq<Op>, key: string)
    requires Agree(s) && IsLive(Read(s, key)) && LeavesAll(s, ops, key)
    ensures IsLive(Read(Run(s, ops), key))
    ensures Read(Run(s, ops), key).value.nonce == Read(s, key).value.nonce
    ensures !MustSend(Read(s, key).value) ==> !MustSend(Read(Run(s, ops), key).value)
    decreases |ops|
  {
    if ops != [] {
      StepKeepsAgreement(s, ops[0]);
      StepKeepsNonce(s, ops[0], key);
      LiveRecordKeepsNonce(Step(s, ops[0]), ops[1..], key);
    }
  }

  /** So a leg with a live order is not sent again: ensuring it later still returns that order. */
  lemma LiveOrderIsNotSentAgain(s: Store, ops: seq<Op>, key: string, now: int)
    requires Agree(s) && IsLive(Read(s, key)) && LeavesAll(s, ops, key)
    requires !MustSend(Read(s, key).value)
    ensures !MustSend(Ensured(Run(s, ops), key, now))
    ensures Ensured(Run(s, ops), key, now).nonce == Read(s, key).value.nonce
  {
    LiveRecordKeepsNonce(s, ops, key);
  }

  /** After a failure the next `ensureRecord` takes a new nonce and the leg is sent. */
  lemma FailedRecordIsSentAgain(s: Store, key: string, failedAt: int, now: int)
    requires Agree(s)
    ensures MustSend(Ensured(Step(s, Fail(key, failedAt)), key, now))
    ensures Ensured(Step(s, Fail(key, failedAt)), key, now).nonce == s.nextNonce
    ensures NoncesBelow(s, s.nextNonce) ==>
      NonceFree(s, s.nextNonce) && NonceFree(Step(s, Fail(key, failedAt)), s.nextNonce)
  {
    assert Read(s, key).Some? ==> Read(s, key).value.key == key;
  }

  /** What is known under a key: the cached record, or else the stored one. */
  ghost function Known(cache: Table, table: Table, key: string): Option<LegRecord> {
    if key in cache then Some(cache[key]) else if key in table then Some(table[key]) else None
  }

  /** The row takes all of the record but the time it was first stored at; no other row changes. */
  ghost predicate Overwrites(before: Table, after: Table, r: LegRecord) {
    && after.Keys == before.Keys + {r.key} && (forall k :: k in before && k != r.key ==> after[k] == before[k])
    && var row := after[r.key];
      && row.key == r.key && row.nonce == r.nonce && row.status == r.status && row.orderId == r.orderId
      && row.updatedAt == r.updatedAt
      && row.createdAt == (if r.key in before then before[r.key].createdAt else r.createdAt)
  }

  ghost predicate LosesOlder(before: Table, after: Table, time: int) {
    && (forall k :: k in after <==> k in before && !(before[k].updatedAt < time))
    && (forall k :: k in after ==> after[k] == before[k])
  }

  /** The class the agent uses; its fields are the abstract store's. */
  class ExecutionIdempotencyStore {
    var cache: Table
    var table: Table
    var nextNonce: int

    function View(): Store
      reads this
    {
      Store(cache, table, nextNonce)
    }

    constructor (stored: Table, firstNonce: int)
      ensures View() == Store(map[], stored, firstNonce)
    {
      cache, table, nextNonce := map[], stored, firstNonce;
    }

    method GetRecord(key: string) returns (r: Option<LegRecord>)
      modifies this`cache
      ensures r == old(Read(View(), key)) && View() == old(Step(View(), Get(key)))
      ensures r == Known(old(cache), table, key)
      ensures cache == if r.Some? then old(cache)[key := r.value] else old(cache)
    {
      if key in cache {
        return Some(cache[key]);
      }
      if key in table {
        cache := cache[key := table[key]];
        return Some(table[key]);
      }
      return None;
    }

    method SaveRecord(record: LegRecord)
      modifies this`cache, this`table
      ensures View() == old(Step(View(), Save(record)))
      ensures cache == old(cache)[record.key := record] && Overwrites(old(table), table, record)
    {
      cache := cache[record.key := record];
      table := Upsert(table, record);
    }

    method AllocateNonce() returns (nonce: int)
      modifies this`nextNonce
      ensures nonce == old(nextNonce) && View() == old(Step(View(), Draw))
      ensures nextNonce == old(nextNonce) + 1
    {
      nonce := nextNonce;
      nextNonce := nextNonce + 1;
    }

    method EnsureRecord(key: string, now: int) returns (r: LegRecord)
      modifies this
      ensures r == old(Ensured(View(), key, now)) && View() == old(Step(View(), Ensure(key, now)))
      ensures var known := Known(old(cache), old(table), key);
        if known.Some? && known.value.status != Failed then
          var was := known.value;
          r == LegRecord(was.key, was.nonce, was.status, was.orderId, was.createdAt, now) && nextNonce == old(nextNonce)
        else r == LegRecord(key, old(nextNonce), Pending, None, now, now) && nextNonce == old(nextNonce) + 1
      ensures r.key in cache && cache[r.key] == r && Overwrites(old(table), table, r)
    {
      var existing := GetRecord(key);
      if existing.Some? && existing.value.status != Failed {
        r := existing.value.(updatedAt := now);
        SaveRecord(r);
        return;
      }
      var nonce := AllocateNonce();
      r := LegRecord(key, nonce, Pending, None, now, now);
      SaveRecord(r);
    }

    method MarkFailed(key: string, now: int)
      modifies this`cache, this`table
      ensures View() == old(Step(View(), Fail(key, now)))
      ensures var known := Known(old(cache), old(table), key);
        if known.None? then cache == old(cache) && table == old(table)
        else
          var r := known.value;
          var failed := LegRecord(r.key, r.nonce, Failed, r.orderId, r.createdAt, now);
          r.key in cache && cache[r.key] == failed && Overwrites(old(table), table, failed)
    {
      var existing := GetRecord(key);
      if existing.Some? {
        SaveRecord(existing.value.(status := Failed, updatedAt := now));
      }
    }

    method PruneRecords(before: int)
      modifies this`cache, this`table
      ensures View() == old(Step(View(), Prune(before)))
      ensures LosesOlder(old(cache), cache, before) && LosesOlder(old(table), table, before)
      ensures nextNonce == old(nextNonce)
    {
      table := map k | k in table && table[k].updatedAt >= before :: table[k];
      var keys := cache.Keys;
      while keys != {}
        invariant keys <= cache.Keys
        invariant cache.Keys <= old(cache).Keys
        invariant forall k :: k in cache ==> cache[k] == old(cache)[k]
        invariant forall k :: k in old(cache) && k !in keys ==> (k in cache <==> old(cache)[k].updatedAt >= before)
        invariant table == Kept(old(table), before) && nextNonce == old(nextNonce)
      {
        var key :| key in keys;
        keys := keys - {key};
        if cache[key].updatedAt < before {
          cache := cache - {key};
        }
      }
      assert cache == Kept(old(cache), before);
    }
  }
}
