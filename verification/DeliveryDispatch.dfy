/** The dispatcher's pass over the queue: the batch it takes, the worker's cycle on each
    delivery, and how many passes empty the queue. */
module DeliveryDispatch {
  import opened Prelude
  import opened DeliveryModel

  type Attempts = Id -> Attempt

  // ---------- A pass as a relation on rows ----------

  function DueIds(rows: map<Id, Delivery>, now: Time): set<Id> {
    set id | id in rows && Due(rows[id], now)
  }

  function Min(a: nat, b: nat): nat {
    if a < b then a else b
  }

  predicate Distinct(ids: seq<Id>) {
    forall i, j :: 0 <= i < j < |ids| ==> ids[i] != ids[j]
  }

  /** A result of the dispatcher's query: the oldest due rows, oldest first, rows of
      one age in any order. */
  ghost predicate OldestDue(rows: map<Id, Delivery>, now: Time, limit: nat, ids: seq<Id>) {
    && Distinct(ids)
    && (forall i :: 0 <= i < |ids| ==> ids[i] in DueIds(rows, now))
    && |ids| == Min(limit, |DueIds(rows, now)|)
    && (forall i, j :: 0 <= i < j < |ids| ==> ids[i] in rows && ids[j] in rows && rows[ids[i]].createdAt <= rows[ids[j]].createdAt)
    && (forall i, id :: 0 <= i < |ids| && id in DueIds(rows, now) && id !in ids ==>
          ids[i] in rows && rows[ids[i]].createdAt <= rows[id].createdAt)
  }

  function ProcessOne(rows: map<Id, Delivery>, id: Id, attempts: Attempts, now: Time): map<Id, Delivery> {
    if id in rows && Due(rows[id], now) then rows[id := Processed(rows[id], attempts(id), now)] else rows
  }

  function ProcessAll(rows: map<Id, Delivery>, ids: seq<Id>, attempts: Attempts, now: Time): map<Id, Delivery>
    decreases |ids|
  {
    if ids == [] then rows
    else ProcessOne(ProcessAll(rows, ids[..|ids| - 1], attempts, now), ids[|ids| - 1], attempts, now)
  }

  ghost predicate NoneStale(rows: map<Id, Delivery>, now: Time) {
    forall id :: id in rows ==> !Stale(rows[id], now)
  }

  /** The loop of a pass ends after its batch, or with the first cycle that throws. */
  predicate EndsAfter(rows: map<Id, Delivery>, ids: seq<Id>, taken: nat, attempts: Attempts)
    requires forall i :: 0 <= i < |ids| ==> ids[i] in rows
  {
    && taken <= |ids|
    && (forall i :: 0 <= i < taken - 1 ==> !Throws(rows[ids[i]], attempts(ids[i])))
    && (taken < |ids| ==> taken > 0 && Throws(rows[ids[taken - 1]], attempts(ids[taken - 1])))
  }

  /** Whether the last cycle of a pass threw. */
  predicate ThrewLast(rows: map<Id, Delivery>, ids: seq<Id>, taken: nat, attempts: Attempts)
    requires forall i :: 0 <= i < |ids| ==> ids[i] in rows
  {
    0 < taken <= |ids| && Throws(rows[ids[taken - 1]], attempts(ids[taken - 1]))
  }

  ghost predicate Pass(rows: map<Id, Delivery>, after: map<Id, Delivery>, ids: seq<Id>, taken: nat, attempts: Attempts, now: Time) {
    var queued := RequeueAll(rows, now);
    && OldestDue(queued, now, BATCH, ids)
    && EndsAfter(queued, ids, taken, attempts)
    && after == ProcessAll(queued, ids[..taken], attempts, now)
  }

  // ---------- What a pass does ----------

  /** Each listed row goes through one whole cycle; every other row is unchanged. */
  lemma {:induction false} RowAfterPass(rows: map<Id, Delivery>, ids: seq<Id>, attempts: Attempts, now: Time, id: Id)
    requires id in rows
    ensures var after := ProcessAll(rows, ids, attempts, now);
            && id in after
            && after[id] == if id in ids && Due(rows[id], now) then Processed(rows[id], attempts(id), now) else rows[id]
    decreases |ids|
  {
    if ids != [] {
      var last, rest := ids[|ids| - 1], ids[..|ids| - 1];
      assert ids == rest + [last];
      RowAfterPass(rows, rest, attempts, now, id);
      if Due(rows[id], now) {
        ProcessedIsNotDue(rows[id], attempts(id), now);
      }
    }
  }

  /** The next delivery of a batch is still as it was queued. */
  lemma NextInBatch(rows: map<Id, Delivery>, ids: seq<Id>, taken: nat, attempts: Attempts, now: Time)
    requires Distinct(ids) && taken < |ids| && ids[taken] in rows
    ensures var before := ProcessAll(rows, ids[..taken], attempts, now);
            && ids[taken] in before && before[ids[taken]] == rows[ids[taken]]
            && ProcessAll(rows, ids[..taken + 1], attempts, now) == ProcessOne(before, ids[taken], attempts, now)
  {
    assert ids[..taken + 1][..taken] == ids[..taken];
    assert ids[taken] !in ids[..taken];
    RowAfterPass(rows, ids[..taken], attempts, now, ids[taken]);
  }

  lemma {:induction false} KeysAfterPass(rows: map<Id, Delivery>, ids: seq<Id>, attempts: Attempts, now: Time)
    ensures ProcessAll(rows, ids, attempts, now).Keys == rows.Keys
    decreases |ids|
  {
    if ids != [] {
      KeysAfterPass(rows, ids[..|ids| - 1], attempts, now);
    }
  }

  function Elements(ids: seq<Id>): set<Id> {
    set id | id in ids
  }

  lemma {:induction false} DistinctCount(ids: seq<Id>)
    requires Distinct(ids)
    ensures |Elements(ids)| == |ids|
    decreases |ids|
  {
    if ids != [] {
      var last, rest := ids[|ids| - 1], ids[..|ids| - 1];
      assert ids == rest + [last];
      DistinctCount(rest);
      assert Elements(ids) == Elements(rest) + {last};
      assert last !in Elements(rest);
    }
  }

  lemma NothingToRequeue(rows: map<Id, Delivery>, now: Time)
    requires NoneStale(rows, now)
    ensures RequeueAll(rows, now) == rows
  {
  }

  /** With nothing stale, a pass takes out of the due rows exactly the oldest ones it gets
      to: its whole batch of at most fifty, or up to a cycle that throws, and at least
      one if any is due. It leaves nothing stale and no row newly due. */
  lemma PassRemovesOldest(rows: map<Id, Delivery>, after: map<Id, Delivery>, ids: seq<Id>, taken: nat, attempts: Attempts, now: Time)
    requires NoneStale(rows, now) && Pass(rows, after, ids, taken, attempts, now)
    ensures var batch := Elements(ids[..taken]);
            && DueIds(after, now) == DueIds(rows, now) - batch && batch <= DueIds(rows, now)
            && (forall done, left :: done in batch && left in DueIds(after, now) ==>
                  done in rows && left in rows && rows[done].createdAt <= rows[left].createdAt)
    ensures |DueIds(after, now)| == |DueIds(rows, now)| - taken
    ensures taken <= Min(50, |DueIds(rows, now)|) && (DueIds(rows, now) != {} ==> taken > 0)
    ensures (forall id :: attempts(id).records) ==> taken == Min(50, |DueIds(rows, now)|)
    ensures NoneStale(after, now)
  {
    NothingToRequeue(rows, now);
    BatchSize(rows, ids, taken, attempts, now);
    OldestFirst(rows, ids, taken, now);
    BatchIsTaken(rows, ids[..taken], attempts, now);
    TakenAway(DueIds(rows, now), DueIds(after, now), Elements(ids[..taken]));
  }

  lemma TakenAway(before: set<Id>, after: set<Id>, taken: set<Id>)
    requires taken <= before && after == before - taken
    ensures |after| == |before| - |taken|
  {
    assert before == after + taken;
  }

  lemma BatchSize(rows: map<Id, Delivery>, ids: seq<Id>, taken: nat, attempts: Attempts, now: Time)
    requires OldestDue(rows, now, BATCH, ids) && EndsAfter(rows, ids, taken, attempts)
    ensures Elements(ids[..taken]) <= DueIds(rows, now) && |Elements(ids[..taken])| == taken
    ensures taken <= Min(BATCH, |DueIds(rows, now)|) && (DueIds(rows, now) != {} ==> taken > 0)
    ensures (forall id :: attempts(id).records) ==> taken == Min(BATCH, |DueIds(rows, now)|)
  {
    DistinctCount(ids[..taken]);
  }

  lemma BatchIsTaken(rows: map<Id, Delivery>, batch: seq<Id>, attempts: Attempts, now: Time)
    requires NoneStale(rows, now) && Elements(batch) <= DueIds(rows, now)
    ensures var after := ProcessAll(rows, batch, attempts, now);
            DueIds(after, now) == DueIds(rows, now) - Elements(batch) && NoneStale(after, now)
  {
    var after := ProcessAll(rows, batch, attempts, now);
    KeysAfterPass(rows, batch, attempts, now);
    forall id | id in rows
      ensures !Stale(after[id], now)
      ensures Due(after[id], now) <==> Due(rows[id], now) && id !in batch
    {
      RowAfterPass(rows, batch, attempts, now, id);
      if Due(rows[id], now) {
        ProcessedIsNotDue(rows[id], attempts(id), now);
      }
    }
  }

  lemma OldestFirst(rows: map<Id, Delivery>, ids: seq<Id>, taken: nat, now: Time)
    requires OldestDue(rows, now, BATCH, ids) && taken <= |ids|
    ensures forall done, left :: done in Elements(ids[..taken]) && left in DueIds(rows, now) - Elements(ids[..taken]) ==>
              done in rows && left in rows && rows[done].createdAt <= rows[left].createdAt
  {
    forall done, left | done in Elements(ids[..taken]) && left in DueIds(rows, now) - Elements(ids[..taken])
      ensures done in rows && left in rows && rows[done].createdAt <= rows[left].createdAt
    {
      var i :| 0 <= i < taken && ids[i] == done;
      if left in ids {
        var j :| 0 <= j < |ids| && ids[j] == left;
        assert j >= taken;
      }
    }
  }

  /** A sequence of states joined by passes; how attempts go may differ in each. */
  ghost predicate Passes(states: seq<map<Id, Delivery>>, plans: seq<Attempts>, now: Time) {
    && |states| == |plans| + 1
    && NoneStale(states[0], now)
    && (forall i :: 0 <= i < |plans| ==> Joined(states[i], states[i + 1], plans[i], now))
  }

  ghost predicate Joined(rows: map<Id, Delivery>, after: map<Id, Delivery>, attempts: Attempts, now: Time) {
    exists ids, taken :: Pass(rows, after, ids, taken, attempts, now)
  }

  /** After k passes at one moment, with no arrivals and every failure written, n due
      deliveries are down to n - 50k, and none is due once 50k reaches n. */
  lemma {:induction false} PassesDrainQueue(states: seq<map<Id, Delivery>>, plans: seq<Attempts>, now: Time, k: nat)
    requires Passes(states, plans, now) && k < |states|
    requires forall i, id :: 0 <= i < k ==> plans[i](id).records
    ensures |DueIds(states[k], now)|
         == if 50 * k < |DueIds(states[0], now)| then |DueIds(states[0], now)| - 50 * k else 0
    ensures (|DueIds(states[0], now)| + 49) / 50 <= k <==> DueIds(states[k], now) == {}
    ensures NoneStale(states[k], now)
  {
    if k > 0 {
      PassesDrainQueue(states, plans, now, k - 1);
      assert Joined(states[k - 1], states[k - 1 + 1], plans[k - 1], now);
      var ids, taken :| Pass(states[k - 1], states[k], ids, taken, plans[k - 1], now);
      PassRemovesOldest(states[k - 1], states[k], ids, taken, plans[k - 1], now);
    }
  }

  /** Whatever throws, n passes at one moment leave none of n deliveries due. */
  lemma {:induction false} ThrowsOnlyDelay(states: seq<map<Id, Delivery>>, plans: seq<Attempts>, now: Time, k: nat)
    requires Passes(states, plans, now) && k < |states|
    ensures k <= |DueIds(states[0], now)| ==> |DueIds(states[k], now)| <= |DueIds(states[0], now)| - k
    ensures k >= |DueIds(states[0], now)| ==> DueIds(states[k], now) == {}
    ensures NoneStale(states[k], now)
  {
    if k > 0 {
      ThrowsOnlyDelay(states, plans, now, k - 1);
      assert Joined(states[k - 1], states[k - 1 + 1], plans[k - 1], now);
      var ids, taken :| Pass(states[k - 1], states[k], ids, taken, plans[k - 1], now);
      PassRemovesOldest(states[k - 1], states[k], ids, taken, plans[k - 1], now);
    }
  }

  // ---------- The services ----------

  class DeliveryRepository {
    var rows: map<Id, Delivery>

    constructor (rows: map<Id, Delivery>)
      ensures this.rows == rows
    {
      this.rows := rows;
    }

    /** The compare-and-set of a claim. */
    method Claim(id: Id, now: Time) returns (claimed: Option<Delivery>)
      modifies this
      ensures claimed.Some? <==> id in old(rows) && Due(old(rows)[id], now)
      ensures claimed.Some? <==>
                && id in old(rows)
                && var d := old(rows)[id];
                   || d.status == QUEUED
                   || (d.status == RETRY_SCHEDULED && d.nextAttemptAt.Some? && d.nextAttemptAt.value <= now)
      ensures claimed.Some? ==> claimed.value == Claimed(old(rows)[id], now) && rows == old(rows)[id := claimed.value]
      ensures claimed.Some? ==>
                claimed.value == old(rows)[id].(status := PROCESSING, attempts := old(rows)[id].attempts + 1, updatedAt := now)
      ensures claimed.None? ==> rows == old(rows)
    {
      if id !in rows || !Due(rows[id], now) {
        return None;
      }
      rows := rows[id := rows[id].(status := PROCESSING, attempts := rows[id].attempts + 1, updatedAt := now)];
      return Some(rows[id]);
    }

    method Complete(id: Id, now: Time)
      requires id in rows
      modifies this
      ensures rows == old(rows)[id := Completed(old(rows)[id], now)]
    {
      rows := rows[id := Completed(rows[id], now)];
    }

    method Fail(id: Id, decision: Decision, now: Time)
      requires id in rows
      modifies this
      ensures rows == old(rows)[id := FailedWith(old(rows)[id], decision, now)]
    {
      rows := rows[id := FailedWith(rows[id], decision, now)];
    }

    /** Each round takes an oldest row among the due ones not yet taken. */
    method FindDue(limit: nat, now: Time) returns (ids: seq<Id>)
      ensures OldestDue(rows, now, limit, ids)
    {
      ids := [];
      var left := DueIds(rows, now);
      while left != {} && |ids| < limit
        invariant left <= DueIds(rows, now)
        invariant Distinct(ids) && |ids| + |left| == |DueIds(rows, now)| && |ids| <= limit
        invariant forall id :: id in DueIds(rows, now) <==> id in ids || id in left
        invariant forall i :: 0 <= i < |ids| ==> ids[i] !in left
        invariant forall i, j :: 0 <= i < j < |ids| ==> rows[ids[i]].createdAt <= rows[ids[j]].createdAt
        invariant forall i, id :: 0 <= i < |ids| && id in left ==> rows[ids[i]].createdAt <= rows[id].createdAt
        decreases left
      {
        var oldest := Oldest(left);
        ids := ids + [oldest];
        left := left - {oldest};
      }
    }

    method Oldest(candidates: set<Id>) returns (oldest: Id)
      requires candidates != {} && candidates <= rows.Keys
      ensures oldest in candidates
      ensures forall id :: id in candidates ==> rows[oldest].createdAt <= rows[id].createdAt
    {
      oldest :| oldest in candidates;
      var unseen := candidates - {oldest};
      while unseen != {}
        invariant oldest in candidates && unseen <= candidates
        invariant forall id :: id in candidates - unseen ==> rows[oldest].createdAt <= rows[id].createdAt
        decreases unseen
      {
        var id :| id in unseen;
        unseen := unseen - {id};
        if rows[id].createdAt < rows[oldest].createdAt {
          oldest := id;
        }
      }
    }

    method RequeueStale(now: Time)
      modifies this
      ensures rows == RequeueAll(old(rows), now)
      ensures rows.Keys == old(rows).Keys
      ensures forall id :: id in rows ==>
                var d := old(rows)[id];
                rows[id] == if d.status == PROCESSING && d.updatedAt < now - 300_000
                            then d.(status := QUEUED, updatedAt := now) else d
    {
      rows := map id | id in rows :: if rows[id].status == PROCESSING && rows[id].updatedAt < now - STALE_AFTER
                                     then rows[id].(status := QUEUED, updatedAt := now) else rows[id];
    }
  }

  class DeliveryWorker {
    const repository: DeliveryRepository
    const attempts: Attempts

    constructor (repository: DeliveryRepository, attempts: Attempts)
      ensures this.repository == repository && this.attempts == attempts
    {
      this.repository := repository;
      this.attempts := attempts;
    }

    method Process(id: Id, now: Time) returns (thrown: bool)
      modifies repository
      ensures repository.rows == ProcessOne(old(repository.rows), id, attempts, now)
      ensures thrown <==> id in old(repository.rows) && Due(old(repository.rows)[id], now)
                          && Throws(old(repository.rows)[id], attempts(id))
    {
      var delivery := repository.Claim(id, now);
      if delivery.None? {
        return false;
      }
      var attempt := attempts(id);
      var error := Some(UnexpectedError);
      if delivery.value.content {
        if attempt.provider.None? && attempt.completes {
          repository.Complete(id, now);
          return false;
        }
        if attempt.provider.Some? {
          error := attempt.provider;
        }
      }
      if !attempt.records {
        return true;
      }
      repository.Fail(id, DecideRetry(error.value, delivery.value.attempts, now), now);
      return false;
    }
  }

  class DeliveryDispatcher {
    const worker: DeliveryWorker
    var running: bool

    constructor (worker: DeliveryWorker)
      ensures this.worker == worker && !running
    {
      this.worker := worker;
      running := false;
    }

    /** The loop of a pass over its batch. */
    method ProcessEach(ids: seq<Id>, now: Time) returns (taken: nat, thrown: bool)
      requires Distinct(ids)
      requires forall i :: 0 <= i < |ids| ==> ids[i] in worker.repository.rows && Due(worker.repository.rows[ids[i]], now)
      modifies worker.repository
      ensures var queued := old(worker.repository.rows);
              && EndsAfter(queued, ids, taken, worker.attempts)
              && worker.repository.rows == ProcessAll(queued, ids[..taken], worker.attempts, now)
              && (thrown <==> ThrewLast(queued, ids, taken, worker.attempts))
    {
      ghost var queued := worker.repository.rows;
      taken, thrown := 0, false;
      while taken < |ids| && !thrown
        invariant 0 <= taken <= |ids|
        invariant worker.repository.rows == ProcessAll(queued, ids[..taken], worker.attempts, now)
        invariant forall i :: 0 <= i < taken - 1 ==> !Throws(queued[ids[i]], worker.attempts(ids[i]))
        invariant thrown <==> ThrewLast(queued, ids, taken, worker.attempts)
      {
        NextInBatch(queued, ids, taken, worker.attempts, now);
        thrown := worker.Process(ids[taken], now);
        taken := taken + 1;
      }
    }

    /** One pass, unless another is running; the flag ends as it began, also when a
        cycle throws and ends the pass. */
    method DispatchDue(now: Time) returns (ids: seq<Id>, taken: nat, thrown: bool)
      modifies this, worker.repository
      ensures running == old(running)
      ensures old(running) ==> worker.repository.rows == old(worker.repository.rows) && !thrown
      ensures !old(running) ==>
                && Pass(old(worker.repository.rows), worker.repository.rows, ids, taken, worker.attempts, now)
                && (thrown <==> ThrewLast(RequeueAll(old(worker.repository.rows), now), ids, taken, worker.attempts))
    {
      if running {
        return [], 0, false;
      }
      running := true;
      worker.repository.RequeueStale(now);
      ids := worker.repository.FindDue(BATCH, now);
      taken, thrown := ProcessEach(ids, now);
      running := false;
    }
  }
}
