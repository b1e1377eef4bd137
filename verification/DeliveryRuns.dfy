/** Many workers on one queue. A worker claims a row, and later records a result on it
    or dies without one; rows that stay in processing too long are queued again. The
    tallies count what happened to each row; no write reads them. */
module DeliveryRuns {
  import opened Prelude
  import opened DeliveryModel

  datatype Claim = Claim(delivery: Id, attempt: nat, at: Time)

  datatype Tally = Tally(claims: nat, results: nat, retries: nat, requeues: nat, firstClaim: Time)

  datatype Queue = Queue(
    rows: map<Id, Delivery>,
    clock: Time,
    workers: map<Id, Claim>,
    tallies: map<Id, Tally>)

  datatype QueueEvent =
    | Wait(elapsed: nat)
    | Enqueue(delivery: Id, email: bool, content: bool)
    | ClaimBy(worker: Id, delivery: Id)
    | Complete(worker: Id)
    | Fail(worker: Id, error: SendError)
    | Crash(worker: Id)
    | RequeueStale

  function TallyOf(q: Queue, id: Id): Tally {
    if id in q.tallies then q.tallies[id] else Tally(0, 0, 0, 0, 0)
  }

  function ClaimStep(q: Queue, worker: Id, id: Id): Queue
    requires id in q.rows
  {
    var row := Claimed(q.rows[id], q.clock);
    var t := TallyOf(q, id);
    q.(rows := q.rows[id := row],
       workers := q.workers[worker := Claim(id, row.attempts, q.clock)],
       tallies := q.tallies[id := t.(claims := t.claims + 1, firstClaim := if t.claims == 0 then q.clock else t.firstClaim)])
  }

  /** The write of a result goes to the claimed row, whatever its status is by then. */
  function ResultStep(q: Queue, worker: Id, error: Option<SendError>): Queue
    requires worker in q.workers
  {
    var claim := q.workers[worker];
    if claim.delivery !in q.rows then q.(workers := q.workers - {worker})
    else
      var row := q.rows[claim.delivery];
      var t := TallyOf(q, claim.delivery);
      var after := match error
        case None => Completed(row, q.clock)
        case Some(e) => FailedWith(row, DecideRetry(e, claim.attempt, q.clock), q.clock);
      q.(rows := q.rows[claim.delivery := after],
         workers := q.workers - {worker},
         tallies := q.tallies[claim.delivery :=
           t.(results := t.results + 1, retries := t.retries + if after.status == RETRY_SCHEDULED then 1 else 0)])
  }

  function RequeueTallies(q: Queue): map<Id, Tally> {
    map id | id in q.rows :: (var t := TallyOf(q, id);
      if Stale(q.rows[id], q.clock) then t.(requeues := t.requeues + 1) else t)
  }

  function QueueStep(q: Queue, e: QueueEvent): Queue {
    match e
    case Wait(elapsed) => q.(clock := q.clock + elapsed)
    case Enqueue(id, email, content) =>
      if id in q.rows then q
      else q.(rows := q.rows[id := Delivery(QUEUED, 0, None, q.clock, q.clock, email, content)],
              tallies := q.tallies[id := Tally(0, 0, 0, 0, 0)])
    case ClaimBy(worker, id) =>
      if worker !in q.workers && id in q.rows && Due(q.rows[id], q.clock) then ClaimStep(q, worker, id) else q
    case Complete(worker) => if worker in q.workers then ResultStep(q, worker, None) else q
    case Fail(worker, error) => if worker in q.workers then ResultStep(q, worker, Some(error)) else q
    case Crash(worker) => q.(workers := q.workers - {worker})
    case RequeueStale => q.(rows := RequeueAll(q.rows, q.clock), tallies := RequeueTallies(q))
  }

  function QueueRun(q: Queue, events: seq<QueueEvent>): Queue
    decreases |events|
  {
    if events == [] then q else QueueRun(QueueStep(q, events[0]), events[1..])
  }

  /** No live worker is more than five minutes past its claim. */
  predicate Prompt(q: Queue) {
    forall w :: w in q.workers ==> q.clock <= q.workers[w].at + STALE_AFTER
  }

  /** Every worker of a run finishes, or dies, within five minutes of its claim. */
  predicate PromptThroughout(q: Queue, events: seq<QueueEvent>)
    decreases |events|
  {
    Prompt(q) && (events == [] || PromptThroughout(QueueStep(q, events[0]), events[1..]))
  }

  // ---------- The invariant ----------

  /** A live worker's row is in processing, exactly as its claim left it. */
  predicate ClaimHolds(rows: map<Id, Delivery>, claim: Claim) {
    && claim.delivery in rows
    && rows[claim.delivery].status == PROCESSING
    && rows[claim.delivery].updatedAt == claim.at
    && rows[claim.delivery].attempts == claim.attempt
  }

  predicate ClaimsHold(q: Queue) {
    && (forall w :: w in q.workers ==> ClaimHolds(q.rows, q.workers[w]))
    && (forall w, v :: w in q.workers && v in q.workers && w != v ==> q.workers[w].delivery != q.workers[v].delivery)
  }

  function Max(a: int, b: int): int {
    if a < b then b else a
  }

  /** How many more claims and results a row can take if it is never queued again. */
  function Remaining(d: Delivery): int {
    match d.status
    case SENT => 0
    case FAILED => 0
    case PROCESSING => 2 * Max(6 - d.attempts, 0) + 1
    case RETRY_SCHEDULED => 2 * Max(6 - d.attempts, 1)
    case QUEUED => 2 * Max(6 - d.attempts, 1)
  }

  predicate Counted(d: Delivery, t: Tally) {
    && t.claims == d.attempts
    && t.retries <= 5
    && t.retries <= d.attempts
    && (d.status == PROCESSING ==> t.retries < d.attempts)
    && (d.status == RETRY_SCHEDULED ==> 1 <= d.attempts <= 5)
    && (d.status == QUEUED ==> d.attempts <= 5 + t.requeues)
    && d.attempts <= 6 + t.requeues
    && t.claims + t.results + Remaining(d) <= 12 + t.requeues
  }

  predicate RowOk(q: Queue, id: Id)
    requires id in q.rows
  {
    Counted(q.rows[id], TallyOf(q, id))
  }

  predicate RowsOk(q: Queue) {
    forall id :: id in q.rows ==> RowOk(q, id)
  }

  predicate QueueInv(q: Queue) {
    ClaimsHold(q) && RowsOk(q)
  }

  predicate QueueInitial(q: Queue) {
    q.rows == map[] && q.workers == map[] && q.tallies == map[]
  }

  // ---------- Claims ----------

  /** A requeue that reaches the row of a live worker. */
  predicate RequeuesLive(q: Queue, e: QueueEvent) {
    e == RequeueStale && exists w :: w in q.workers && q.clock > q.workers[w].at + STALE_AFTER
  }

  predicate EverRequeuesLive(q: Queue, events: seq<QueueEvent>)
    decreases |events|
  {
    events != [] && (RequeuesLive(q, events[0]) || EverRequeuesLive(QueueStep(q, events[0]), events[1..]))
  }

  predicate ClaimsThroughout(q: Queue, events: seq<QueueEvent>)
    decreases |events|
  {
    ClaimsHold(q) && (events == [] || ClaimsThroughout(QueueStep(q, events[0]), events[1..]))
  }

  lemma ClaimKeepsClaims(q: Queue, worker: Id, id: Id)
    requires ClaimsHold(q) && worker !in q.workers && id in q.rows && Due(q.rows[id], q.clock)
    ensures ClaimsHold(ClaimStep(q, worker, id))
  {
    var v := ClaimStep(q, worker, id);
    forall w | w in v.workers ensures ClaimHolds(v.rows, v.workers[w]) {
      assert w in q.workers ==> ClaimHolds(q.rows, q.workers[w]);
    }
    forall w | w in q.workers ensures q.workers[w].delivery != id {
      assert ClaimHolds(q.rows, q.workers[w]);
    }
  }

  /** A requeue takes the row from a live worker exactly when it reaches one. */
  lemma RequeueClaimsExactly(q: Queue)
    requires ClaimsHold(q)
    ensures ClaimsHold(QueueStep(q, RequeueStale)) <==> !RequeuesLive(q, RequeueStale)
  {
    var v := QueueStep(q, RequeueStale);
    forall w | w in q.workers
      ensures ClaimHolds(v.rows, v.workers[w]) <==> q.clock <= q.workers[w].at + STALE_AFTER
    {
      assert ClaimHolds(q.rows, q.workers[w]);
    }
  }

  /** A step keeps every live worker in sole hold of the row it claimed exactly when it
      does not queue the row of a live worker again. */
  lemma ClaimsKeptExactly(q: Queue, e: QueueEvent)
    requires ClaimsHold(q)
    ensures ClaimsHold(QueueStep(q, e)) <==> !RequeuesLive(q, e)
  {
    match e
    case ClaimBy(worker, id) =>
      if worker !in q.workers && id in q.rows && Due(q.rows[id], q.clock) { ClaimKeepsClaims(q, worker, id); }
    case RequeueStale => RequeueClaimsExactly(q);
    case _ =>
  }

  /** The same for runs: live workers hold their rows in every state of a run exactly
      when it never queues the row of a live worker again. */
  lemma {:induction false} ClaimsThroughoutExactly(q: Queue, events: seq<QueueEvent>)
    requires ClaimsHold(q)
    ensures ClaimsThroughout(q, events) <==> !EverRequeuesLive(q, events)
    ensures !EverRequeuesLive(q, events) ==> ClaimsHold(QueueRun(q, events))
    decreases |events|
  {
    if events != [] {
      ClaimsKeptExactly(q, events[0]);
      if !RequeuesLive(q, events[0]) {
        ClaimsThroughoutExactly(QueueStep(q, events[0]), events[1..]);
      }
    }
  }

  /** Workers that finish, or die, within five minutes are enough for that. */
  lemma {:induction false} PromptIsSafe(q: Queue, events: seq<QueueEvent>)
    requires PromptThroughout(q, events)
    ensures !EverRequeuesLive(q, events)
    decreases |events|
  {
    if events != [] {
      PromptIsSafe(QueueStep(q, events[0]), events[1..]);
    }
  }

  // ---------- Preservation ----------

  lemma ClaimRowOk(d: Delivery, t: Tally, clock: Time)
    requires Counted(d, t) && Due(d, clock)
    ensures var t' := t.(claims := t.claims + 1, firstClaim := if t.claims == 0 then clock else t.firstClaim);
            Counted(Claimed(d, clock), t')
    ensures Remaining(Claimed(d, clock)) == Remaining(d) - 1
  {
  }

  lemma RequeueRowOk(d: Delivery, t: Tally, clock: Time)
    requires Counted(d, t) && Stale(d, clock)
    ensures Counted(Requeued(d, clock), t.(requeues := t.requeues + 1))
    ensures Remaining(Requeued(d, clock)) <= Remaining(d) + 1
  {
  }

  lemma OtherRowsOk(q: Queue, v: Queue, id: Id)
    requires RowsOk(q) && v.clock == q.clock
    requires forall x :: x in v.rows && x != id ==> x in q.rows && v.rows[x] == q.rows[x] && TallyOf(v, x) == TallyOf(q, x)
    requires id in v.rows ==> RowOk(v, id)
    ensures RowsOk(v)
  {
  }

  lemma ClaimInv(q: Queue, worker: Id, id: Id)
    requires QueueInv(q) && worker !in q.workers && id in q.rows && Due(q.rows[id], q.clock)
    ensures QueueInv(ClaimStep(q, worker, id))
  {
    assert RowOk(q, id);
    ClaimKeepsClaims(q, worker, id);
    ClaimRowOk(q.rows[id], TallyOf(q, id), q.clock);
    OtherRowsOk(q, ClaimStep(q, worker, id), id);
  }

  lemma ResultInv(q: Queue, worker: Id, error: Option<SendError>)
    requires QueueInv(q) && worker in q.workers
    ensures QueueInv(ResultStep(q, worker, error))
  {
  }

  lemma RequeueInv(q: Queue)
    requires QueueInv(q) && !RequeuesLive(q, RequeueStale)
    ensures QueueInv(QueueStep(q, RequeueStale))
  {
    var v := QueueStep(q, RequeueStale);
    RequeueClaimsExactly(q);
    forall id | id in v.rows ensures RowOk(v, id) {
      assert RowOk(q, id);
      if Stale(q.rows[id], q.clock) {
        RequeueRowOk(q.rows[id], TallyOf(q, id), q.clock);
      }
    }
  }

  lemma WaitInv(q: Queue, elapsed: nat)
    requires QueueInv(q)
    ensures QueueInv(QueueStep(q, Wait(elapsed)))
  {
  }

  lemma EnqueueInv(q: Queue, id: Id, email: bool, content: bool)
    requires QueueInv(q)
    ensures QueueInv(QueueStep(q, Enqueue(id, email, content)))
  {
  }

  lemma CrashInv(q: Queue, worker: Id)
    requires QueueInv(q)
    ensures QueueInv(QueueStep(q, Crash(worker)))
  {
  }

  lemma QueueStepInv(q: Queue, e: QueueEvent)
    requires QueueInv(q) && !RequeuesLive(q, e)
    ensures QueueInv(QueueStep(q, e))
  {
    match e
    case Wait(elapsed) => WaitInv(q, elapsed);
    case Enqueue(id, email, content) => EnqueueInv(q, id, email, content);
    case ClaimBy(worker, id) =>
      if worker !in q.workers && id in q.rows && Due(q.rows[id], q.clock) { ClaimInv(q, worker, id); }
    case Complete(worker) => if worker in q.workers { ResultInv(q, worker, None); }
    case Fail(worker, error) => if worker in q.workers { ResultInv(q, worker, Some(error)); }
    case Crash(worker) => CrashInv(q, worker);
    case RequeueStale => RequeueInv(q);
  }

  lemma {:induction false} QueueRunInv(q: Queue, events: seq<QueueEvent>)
    requires QueueInv(q) && !EverRequeuesLive(q, events)
    ensures QueueInv(QueueRun(q, events))
    decreases |events|
  {
    if events != [] {
      QueueStepInv(q, events[0]);
      QueueRunInv(QueueStep(q, events[0]), events[1..]);
    }
  }
}
