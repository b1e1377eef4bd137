/** What holds of a delivery in every run, however late its workers are: how often it is
    claimed and retried, and how far apart its claims are while it is never queued
    again. */
module DeliveryBounds {
  import opened Prelude
  import opened DeliveryModel
  import opened DeliveryRuns

  predicate Open(d: Delivery) {
    d.status == QUEUED || d.status == RETRY_SCHEDULED
  }

  predicate Held(workers: map<Id, Claim>, id: Id, attempt: nat) {
    exists w :: w in workers && workers[w].delivery == id && workers[w].attempt == attempt
  }

  /** The attempts up to a limit that are over: no live worker holds them, and the row
      is not in processing for them. */
  function Over(d: Delivery, workers: map<Id, Claim>, id: Id, limit: nat): set<nat> {
    set a: nat | 1 <= a <= limit && a <= d.attempts && !Held(workers, id, a) && !(d.status == PROCESSING && a == d.attempts)
  }

  /** A result uses up its worker's attempt, a retry one of the first five; a claim uses
      up an opening, which only a retry or a requeue gives back. */
  predicate Bounded(d: Delivery, t: Tally, workers: map<Id, Claim>, id: Id) {
    && t.claims == d.attempts && (d.status == PROCESSING ==> 1 <= d.attempts)
    && t.claims + (if Open(d) then 1 else 0) <= 1 + t.requeues + t.retries
    && t.results <= |Over(d, workers, id, d.attempts)|
    && t.retries <= |Over(d, workers, id, |DELAYS|)|
  }

  predicate WorkersSound(rows: map<Id, Delivery>, workers: map<Id, Claim>) {
    && (forall w :: w in workers ==> workers[w].delivery in rows && 1 <= workers[w].attempt <= rows[workers[w].delivery].attempts)
    && (forall w, v :: w in workers && v in workers && w != v && workers[w].delivery == workers[v].delivery ==>
          workers[w].attempt != workers[v].attempt)
  }

  /** Without a requeue, a delivery's live worker holds its row. */
  predicate HeldBy(rows: map<Id, Delivery>, t: Tally, workers: map<Id, Claim>, id: Id) {
    t.requeues == 0 ==> forall w :: w in workers && workers[w].delivery == id ==> ClaimHolds(rows, workers[w])
  }

  /** The sum of the first n delays. */
  function DelaySum(n: nat): Time {
    if n == 0 || n > |DELAYS| then 0 else DelaySum(n - 1) + DELAYS[n - 1]
  }

  /** Without a requeue, claims keep the distance that the delays prescribe. */
  predicate Spaced(d: Delivery, t: Tally, clock: Time) {
    && (d.status == PROCESSING ==> d.updatedAt <= clock)
    && (t.requeues == 0 ==>
          match d.status
          case QUEUED => d.attempts == 0
          case PROCESSING => 1 <= d.attempts <= 6 && d.updatedAt >= t.firstClaim + DelaySum(d.attempts - 1)
          case RETRY_SCHEDULED =>
            1 <= d.attempts <= 5 && d.nextAttemptAt.Some? && d.nextAttemptAt.value >= t.firstClaim + DelaySum(d.attempts)
          case _ => true)
  }

  predicate RowBounded(q: Queue, id: Id)
    requires id in q.rows
  {
    var t := TallyOf(q, id);
    Bounded(q.rows[id], t, q.workers, id) && HeldBy(q.rows, t, q.workers, id) && Spaced(q.rows[id], t, q.clock)
  }

  predicate BoundsInv(q: Queue) {
    WorkersSound(q.rows, q.workers) && forall id :: id in q.rows ==> RowBounded(q, id)
  }

  // ---------- Counting attempts ----------

  function UpTo(n: nat): set<nat> {
    if n == 0 then {} else UpTo(n - 1) + {n}
  }

  lemma {:induction false} UpToSize(n: nat)
    ensures forall a :: a in UpTo(n) <==> 1 <= a <= n
    ensures |UpTo(n)| == n
  {
    if n > 0 {
      UpToSize(n - 1);
    }
  }

  lemma {:induction false} SubsetSize(a: set<nat>, b: set<nat>)
    requires a <= b
    ensures |a| <= |b|
  {
    if a != {} {
      var x :| x in a;
      SubsetSize(a - {x}, b - {x});
    }
  }

  /** No more attempts are over than there are; one fewer while one is in processing. */
  lemma OverSize(d: Delivery, workers: map<Id, Claim>, id: Id, limit: nat)
    ensures |Over(d, workers, id, limit)| <= limit
    ensures limit == d.attempts && d.status == PROCESSING && limit > 0 ==> |Over(d, workers, id, limit)| < limit
  {
    UpToSize(limit);
    SubsetSize(Over(d, workers, id, limit), UpTo(limit));
    if limit == d.attempts && d.status == PROCESSING && limit > 0 {
      UpToSize(limit - 1);
      SubsetSize(Over(d, workers, id, limit), UpTo(limit - 1));
    }
  }

  /** Attempts that are over stay so while attempts are not taken back, no worker takes
      up an old one, and the row enters processing only with a new one. */
  lemma OverGrows(d: Delivery, d': Delivery, workers: map<Id, Claim>, workers': map<Id, Claim>, id: Id, limit: nat, limit': nat)
    requires d.attempts <= d'.attempts && limit <= limit'
    requires d'.status == PROCESSING ==> d'.attempts > d.attempts || d.status == PROCESSING
    requires forall a :: 1 <= a <= d.attempts && Held(workers', id, a) ==> Held(workers, id, a)
    ensures |Over(d, workers, id, limit)| <= |Over(d', workers', id, limit')|
  {
    SubsetSize(Over(d, workers, id, limit), Over(d', workers', id, limit'));
  }

  /** A result ends its worker's attempt. */
  lemma OverByResult(d: Delivery, d': Delivery, workers: map<Id, Claim>, worker: Id, limit: nat)
    requires worker in workers && 1 <= workers[worker].attempt <= d.attempts
    requires forall w :: w in workers && w != worker && workers[w].delivery == workers[worker].delivery ==>
               workers[w].attempt != workers[worker].attempt
    requires d'.attempts == d.attempts && d'.status != PROCESSING
    ensures var id := workers[worker].delivery;
            |Over(d', workers - {worker}, id, limit)|
            >= |Over(d, workers, id, limit)| + if workers[worker].attempt <= limit then 1 else 0
  {
    var id, a := workers[worker].delivery, workers[worker].attempt;
    assert Held(workers, id, a);
    if a <= limit {
      SubsetSize(Over(d, workers, id, limit) + {a}, Over(d', workers - {worker}, id, limit));
    } else {
      SubsetSize(Over(d, workers, id, limit), Over(d', workers - {worker}, id, limit));
    }
  }

  // ---------- Preservation ----------

  /** Rows that a step leaves alone, as it leaves their tallies and their workers. */
  lemma UntouchedRow(q: Queue, v: Queue, id: Id)
    requires id in q.rows && RowBounded(q, id) && q.clock <= v.clock
    requires id in v.rows && v.rows[id] == q.rows[id] && TallyOf(v, id) == TallyOf(q, id)
    requires forall w :: w in v.workers && v.workers[w].delivery == id ==> w in q.workers && v.workers[w] == q.workers[w]
    ensures RowBounded(v, id)
  {
    OverGrows(q.rows[id], v.rows[id], q.workers, v.workers, id, q.rows[id].attempts, q.rows[id].attempts);
    OverGrows(q.rows[id], v.rows[id], q.workers, v.workers, id, |DELAYS|, |DELAYS|);
  }

  lemma ClaimedRow(q: Queue, worker: Id, id: Id)
    requires BoundsInv(q) && worker !in q.workers && id in q.rows && Due(q.rows[id], q.clock)
    ensures RowBounded(ClaimStep(q, worker, id), id)
  {
    assert RowBounded(q, id);
    var v := ClaimStep(q, worker, id);
    OverGrows(q.rows[id], v.rows[id], q.workers, v.workers, id, q.rows[id].attempts, v.rows[id].attempts);
    OverGrows(q.rows[id], v.rows[id], q.workers, v.workers, id, |DELAYS|, |DELAYS|);
  }

  lemma ClaimKeepsWorkers(q: Queue, worker: Id, id: Id)
    requires WorkersSound(q.rows, q.workers) && worker !in q.workers && id in q.rows
    ensures WorkersSound(ClaimStep(q, worker, id).rows, ClaimStep(q, worker, id).workers)
  {
  }

  lemma ClaimKeepsBounds(q: Queue, worker: Id, id: Id)
    requires BoundsInv(q) && worker !in q.workers && id in q.rows && Due(q.rows[id], q.clock)
    ensures BoundsInv(ClaimStep(q, worker, id))
  {
    var v := ClaimStep(q, worker, id);
    ClaimKeepsWorkers(q, worker, id);
    ClaimedRow(q, worker, id);
    forall x | x in v.rows ensures RowBounded(v, x) {
      if x != id {
        assert RowBounded(q, x);
        UntouchedRow(q, v, x);
      }
    }
  }

  lemma ResultRow(q: Queue, worker: Id, error: Option<SendError>)
    requires BoundsInv(q) && worker in q.workers
    ensures RowBounded(ResultStep(q, worker, error), q.workers[worker].delivery)
  {
    var id := q.workers[worker].delivery;
    assert RowBounded(q, id);
    var v := ResultStep(q, worker, error);
    OverByResult(q.rows[id], v.rows[id], q.workers, worker, q.rows[id].attempts);
    OverByResult(q.rows[id], v.rows[id], q.workers, worker, |DELAYS|);
  }

  lemma ResultKeepsBounds(q: Queue, worker: Id, error: Option<SendError>)
    requires BoundsInv(q) && worker in q.workers
    ensures BoundsInv(ResultStep(q, worker, error))
  {
    var v := ResultStep(q, worker, error);
    ResultRow(q, worker, error);
    forall x | x in v.rows ensures RowBounded(v, x) {
      if x != q.workers[worker].delivery { UntouchedRow(q, v, x); }
    }
  }

  lemma RequeueKeepsBounds(q: Queue)
    requires BoundsInv(q)
    ensures BoundsInv(QueueStep(q, RequeueStale))
  {
    var v := QueueStep(q, RequeueStale);
    forall id | id in v.rows ensures RowBounded(v, id) {
      assert RowBounded(q, id);
      OverGrows(q.rows[id], v.rows[id], q.workers, v.workers, id, q.rows[id].attempts, q.rows[id].attempts);
      OverGrows(q.rows[id], v.rows[id], q.workers, v.workers, id, |DELAYS|, |DELAYS|);
    }
  }

  lemma EnqueueKeepsBounds(q: Queue, id: Id, email: bool, content: bool)
    requires BoundsInv(q)
    ensures BoundsInv(QueueStep(q, Enqueue(id, email, content)))
  {
    var v := QueueStep(q, Enqueue(id, email, content));
    forall x | x in v.rows ensures RowBounded(v, x) {
      if x in q.rows {
        assert RowBounded(q, x);
        UntouchedRow(q, v, x);
      }
    }
  }

  lemma StepKeepsBounds(q: Queue, e: QueueEvent)
    requires BoundsInv(q)
    ensures BoundsInv(QueueStep(q, e))
  {
    match e
    case Enqueue(id, email, content) => EnqueueKeepsBounds(q, id, email, content);
    case ClaimBy(worker, id) =>
      if worker !in q.workers && id in q.rows && Due(q.rows[id], q.clock) { ClaimKeepsBounds(q, worker, id); }
    case Complete(worker) => if worker in q.workers { ResultKeepsBounds(q, worker, None); }
    case Fail(worker, error) => if worker in q.workers { ResultKeepsBounds(q, worker, Some(error)); }
    case RequeueStale => RequeueKeepsBounds(q);
    case _ =>
      forall x | x in q.rows ensures RowBounded(QueueStep(q, e), x) { UntouchedRow(q, QueueStep(q, e), x); }
  }

  lemma {:induction false} RunKeepsBounds(q: Queue, events: seq<QueueEvent>)
    requires BoundsInv(q)
    ensures BoundsInv(QueueRun(q, events))
    decreases |events|
  {
    if events != [] {
      StepKeepsBounds(q, events[0]);
      RunKeepsBounds(QueueStep(q, events[0]), events[1..]);
    }
  }

  // ---------- Main results ----------

  /** In every run, a delivery is claimed at most six times plus once for each stale
      requeue, scheduled for retry at most five times, and gets at most one result for
      each claim, fewer while it is in processing. */
  lemma BoundedAttempts(start: Queue, events: seq<QueueEvent>, id: Id)
    requires QueueInitial(start)
    ensures var q := QueueRun(start, events);
            id in q.rows ==>
              var t := TallyOf(q, id);
              && t.claims == q.rows[id].attempts <= 6 + t.requeues && t.retries <= 5
              && t.results <= t.claims && (q.rows[id].status == PROCESSING ==> t.results < t.claims)
  {
    RunKeepsBounds(start, events);
    if id in QueueRun(start, events).rows {
      BoundedRow(QueueRun(start, events), id);
    }
  }

  lemma BoundedRow(q: Queue, id: Id)
    requires BoundsInv(q) && id in q.rows
    ensures var t := TallyOf(q, id);
            && t.claims == q.rows[id].attempts <= 6 + t.requeues - (if Open(q.rows[id]) then 1 else 0)
            && t.retries <= 5 && t.results <= t.claims && (q.rows[id].status == PROCESSING ==> t.results < t.claims)
  {
    assert RowBounded(q, id);
    OverSize(q.rows[id], q.workers, id, q.rows[id].attempts);
    OverSize(q.rows[id], q.workers, id, |DELAYS|);
  }

  /** How many more claims and results a delivery can take before the next requeue. */
  function Budget(q: Queue, id: Id): int {
    12 + 2 * TallyOf(q, id).requeues - TallyOf(q, id).claims - TallyOf(q, id).results
  }

  function Acts(q: Queue, e: QueueEvent, id: Id): bool {
    match e
    case ClaimBy(worker, d) => d == id && worker !in q.workers && id in q.rows && Due(q.rows[id], q.clock)
    case Complete(worker) => worker in q.workers && q.workers[worker].delivery == id
    case Fail(worker, _) => worker in q.workers && q.workers[worker].delivery == id
    case _ => false
  }

  /** In every run, each claim and each result takes one off a delivery's budget, only a
      stale requeue adds to it, by two, and nothing else changes the row; it is never
      negative, and 0 only on settled rows. */
  lemma BudgetDecreases(start: Queue, events: seq<QueueEvent>, e: QueueEvent, id: Id)
    requires QueueInitial(start) && id in QueueRun(start, events).rows
    ensures var q := QueueRun(start, events);
            var v := QueueStep(q, e);
            && id in v.rows && Budget(q, id) >= 0
            && (Budget(q, id) == 0 ==> Settled(q.rows[id]))
            && (if Acts(q, e, id) then Budget(v, id) == Budget(q, id) - 1
                else if e == RequeueStale && Stale(q.rows[id], q.clock) then
                  Budget(v, id) == Budget(q, id) + 2 && v.rows[id] == q.rows[id].(status := QUEUED, updatedAt := q.clock)
                else Budget(v, id) == Budget(q, id) && v.rows[id] == q.rows[id])
  {
    RunKeepsBounds(start, events);
    var q := QueueRun(start, events);
    BoundedRow(q, id);
    BudgetStep(q, e, id);
  }

  lemma BudgetStep(q: Queue, e: QueueEvent, id: Id)
    requires id in q.rows && WorkersSound(q.rows, q.workers)
    ensures var v := QueueStep(q, e);
            && id in v.rows
            && (if Acts(q, e, id) then Budget(v, id) == Budget(q, id) - 1
                else if e == RequeueStale && Stale(q.rows[id], q.clock) then
                  Budget(v, id) == Budget(q, id) + 2 && v.rows[id] == q.rows[id].(status := QUEUED, updatedAt := q.clock)
                else Budget(v, id) == Budget(q, id) && v.rows[id] == q.rows[id])
  {
  }

  /** In every run, while a delivery has not been queued again, its claims are at least
      the delays apart: the sixth comes at least 25,950,000 milliseconds after the first,
      and there is no seventh. */
  lemma SixthClaimSpacing(start: Queue, events: seq<QueueEvent>, worker: Id, id: Id)
    requires QueueInitial(start)
    requires var q := QueueRun(start, events);
             worker !in q.workers && id in q.rows && Due(q.rows[id], q.clock) && TallyOf(q, id).requeues == 0
    ensures var v := QueueStep(QueueRun(start, events), ClaimBy(worker, id));
            && 1 <= v.rows[id].attempts <= 6
            && v.clock >= TallyOf(v, id).firstClaim + DelaySum(v.rows[id].attempts - 1)
            && (v.rows[id].attempts == 6 ==> v.clock >= TallyOf(v, id).firstClaim + 25_950_000)
  {
    RunKeepsBounds(start, events);
    var q := QueueRun(start, events);
    assert RowBounded(q, id);
    assert DelaySum(5) == 25_950_000;
  }
}
