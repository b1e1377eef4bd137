/** Which runs keep a delivery with one worker and a settled one as it is, exactly; the
    sharper bounds that hold in those runs; and what goes wrong in the others. */
module DeliveryTheorems {
  import opened Prelude
  import opened DeliveryModel
  import opened DeliveryRuns

  /** Unless the row of a live worker is queued again, a delivery has at most one live
      worker; that worker's result lands on the processing row it claimed, unchanged
      since. */
  lemma OneWorkerPerDelivery(start: Queue, events: seq<QueueEvent>, w: Id, v: Id)
    requires QueueInitial(start) && !EverRequeuesLive(start, events)
    ensures var q := QueueRun(start, events);
            && (w in q.workers && v in q.workers && q.workers[w].delivery == q.workers[v].delivery ==> w == v)
            && (w in q.workers ==>
                  var claim := q.workers[w];
                  && claim.delivery in q.rows
                  && q.rows[claim.delivery].status == PROCESSING
                  && q.rows[claim.delivery].attempts == claim.attempt
                  && q.rows[claim.delivery].updatedAt == claim.at)
  {
    ClaimsThroughoutExactly(start, events);
    var q := QueueRun(start, events);
    if w in q.workers {
      assert ClaimHolds(q.rows, q.workers[w]);
    }
  }

  /** A live worker's failure leaves its delivery waiting for the time its attempt and its
      error call for, or failed; its success leaves it sent; either way the worker is done
      and no other row changes. */
  lemma ResultExactly(q: Queue, w: Id, error: SendError)
    requires w in q.workers && q.workers[w].delivery in q.rows
    ensures var id, attempt := q.workers[w].delivery, q.workers[w].attempt;
            var failed, done := QueueStep(q, Fail(w, error)), QueueStep(q, Complete(w));
            && id in failed.rows && failed.rows == q.rows[id := failed.rows[id]] && failed.workers == q.workers - {w}
            && FailedRow(q.rows[id], failed.rows[id], error, attempt, q.clock)
            && done.workers == q.workers - {w}
            && done.rows == q.rows[id := q.rows[id].(status := SENT, nextAttemptAt := None, updatedAt := q.clock,
                                                     content := q.rows[id].content && !q.rows[id].email)]
  {
    FailedExactly(q.rows[q.workers[w].delivery], error, q.workers[w].attempt, q.clock);
  }

  // ---------- Settled deliveries ----------

  /** A live worker's result that differs from the one a settled row has. */
  predicate Overrules(q: Queue, e: QueueEvent, id: Id)
    requires id in q.rows
  {
    match e
    case Complete(w) => w in q.workers && q.workers[w].delivery == id && q.rows[id].status == FAILED
    case Fail(w, error) =>
      && w in q.workers && q.workers[w].delivery == id
      && (q.rows[id].status == SENT || (Passing(error) && 1 <= q.workers[w].attempt <= 5))
    case _ => false
  }

  /** A settled status is left exactly by such a result, and none can come while live
      workers hold their rows. */
  lemma SettledLeftExactly(q: Queue, e: QueueEvent, id: Id)
    requires id in q.rows && Settled(q.rows[id])
    ensures id in QueueStep(q, e).rows
    ensures QueueStep(q, e).rows[id].status != q.rows[id].status <==> Overrules(q, e, id)
    ensures ClaimsHold(q) ==> QueueStep(q, e).rows[id] == q.rows[id]
  {
  }

  /** Until the row of a live worker is queued again, SENT and FAILED are never left:
      the row stays exactly as it is. */
  lemma {:induction false} SettledForever(q: Queue, events: seq<QueueEvent>, id: Id)
    requires ClaimsHold(q) && !EverRequeuesLive(q, events) && id in q.rows && Settled(q.rows[id])
    ensures id in QueueRun(q, events).rows && QueueRun(q, events).rows[id] == q.rows[id]
    decreases |events|
  {
    if events != [] {
      SettledLeftExactly(q, events[0], id);
      ClaimsKeptExactly(q, events[0]);
      SettledForever(QueueStep(q, events[0]), events[1..], id);
    }
  }

  /** And every such requeue can have that effect: a second worker sends the delivery,
      and the first one's failure takes it out of SENT. */
  lemma LiveRequeueUnsettles(q: Queue, w: Id, v: Id)
    requires ClaimsHold(q) && w in q.workers && q.clock > q.workers[w].at + STALE_AFTER && v !in q.workers
    ensures var id := q.workers[w].delivery;
            var sent := QueueStep(QueueStep(QueueStep(q, RequeueStale), ClaimBy(v, id)), Complete(v));
            && id in sent.rows && sent.rows[id].status == SENT
            && Overrules(sent, Fail(w, UnexpectedError), id)
  {
    var id := q.workers[w].delivery;
    assert ClaimHolds(q.rows, q.workers[w]);
    var queued := QueueStep(q, RequeueStale);
    assert Due(queued.rows[id], queued.clock);
    var claimed := QueueStep(queued, ClaimBy(v, id));
    assert claimed.workers[w] == q.workers[w] && v in claimed.workers;
  }

  // ---------- Sharper bounds ----------

  /** Unless the row of a live worker is queued again, claims and results together are
      bounded by twelve plus the requeues, less what the row can still take. */
  lemma PromptAttempts(start: Queue, events: seq<QueueEvent>, id: Id)
    requires QueueInitial(start) && !EverRequeuesLive(start, events)
    ensures var q := QueueRun(start, events);
            id in q.rows ==>
              var t := TallyOf(q, id);
              && t.claims + t.results + Remaining(q.rows[id]) <= 12 + t.requeues
              && (Remaining(q.rows[id]) == 0 <==> Settled(q.rows[id]))
  {
    QueueRunInv(start, events);
    var q := QueueRun(start, events);
    if id in q.rows {
      assert RowOk(q, id);
    }
  }

  /** In such runs every claim and every result on a row uses up some of what it can
      still take, a requeue gives back at most one, and no other event changes the row. */
  lemma RemainingDecreases(q: Queue, e: QueueEvent, id: Id)
    requires QueueInv(q) && !RequeuesLive(q, e) && id in q.rows
    ensures var v := QueueStep(q, e);
            && id in v.rows
            && var before, after := Remaining(q.rows[id]), Remaining(v.rows[id]);
               var acted := TallyOf(v, id).claims + TallyOf(v, id).results
                            > TallyOf(q, id).claims + TallyOf(q, id).results;
               && (acted ==> 0 <= after < before)
               && (!acted && v.rows[id] != q.rows[id] ==>
                     e == RequeueStale && Stale(q.rows[id], q.clock) && v.rows[id].status == QUEUED && after <= before + 1)
  {
    assert RowOk(q, id);
    match e
    case ClaimBy(worker, d) =>
      if d == id && worker !in q.workers && Due(q.rows[id], q.clock) {
        ClaimRowOk(q.rows[id], TallyOf(q, id), q.clock);
      }
    case Complete(worker) => ResultDecreases(q, worker, None, id);
    case Fail(worker, error) => ResultDecreases(q, worker, Some(error), id);
    case RequeueStale =>
      if Stale(q.rows[id], q.clock) {
        RequeueRowOk(q.rows[id], TallyOf(q, id), q.clock);
      }
    case _ =>
  }

  lemma ResultDecreases(q: Queue, worker: Id, error: Option<SendError>, id: Id)
    requires QueueInv(q) && id in q.rows
    ensures worker in q.workers && q.workers[worker].delivery == id ==>
              0 <= Remaining(ResultStep(q, worker, error).rows[id]) < Remaining(q.rows[id])
    ensures worker in q.workers && q.workers[worker].delivery != id ==>
              ResultStep(q, worker, error).rows[id] == q.rows[id]
              && TallyOf(ResultStep(q, worker, error), id) == TallyOf(q, id)
  {
  }

  // ---------- A late worker ----------

  /** One worker a millisecond late is enough: its row is queued again and sent by a
      second worker, and the late failure then takes it out of SENT. */
  function LateRun(): seq<QueueEvent> {
    [Enqueue(0, false, true), ClaimBy(1, 0), Wait(STALE_AFTER + 1), RequeueStale, ClaimBy(2, 0), Complete(2)]
  }

  lemma LateWorkerUnsendsDelivery(q0: Queue)
    requires QueueInitial(q0) && q0.clock == 0
    ensures var sent := QueueRun(q0, LateRun());
            && 0 in sent.rows && sent.rows[0].status == SENT
            && var v := QueueStep(sent, Fail(1, UnexpectedError));
               0 in v.rows && v.rows[0].status == RETRY_SCHEDULED
    ensures EverRequeuesLive(q0, LateRun())
  {
    var events := LateRun();
    var q1 := QueueStep(q0, events[0]);
    var q2 := QueueStep(q1, events[1]);
    var q3 := QueueStep(q2, events[2]);
    var q4 := QueueStep(q3, events[3]);
    var q5 := QueueStep(q4, events[4]);
    var q6 := QueueStep(q5, events[5]);
    assert q6.rows[0].status == SENT && q6.workers == map[1 := Claim(0, 1, 0)];
    RunsTo(q0, events, q1, q2, q3, q4, q5, q6);
  }

  lemma RunsTo(q0: Queue, events: seq<QueueEvent>, q1: Queue, q2: Queue, q3: Queue, q4: Queue, q5: Queue, q6: Queue)
    requires |events| == 6
    requires q1 == QueueStep(q0, events[0]) && q2 == QueueStep(q1, events[1]) && q3 == QueueStep(q2, events[2])
    requires q4 == QueueStep(q3, events[3]) && q5 == QueueStep(q4, events[4]) && q6 == QueueStep(q5, events[5])
    ensures QueueRun(q0, events) == q6
  {
    assert events[1..][1..] == events[2..] && events[2..][1..] == events[3..] && events[3..][1..] == events[4..];
    assert events[4..][1..] == events[5..] && events[5..][1..] == [];
    assert QueueRun(q0, events) == QueueRun(q1, events[1..]) == QueueRun(q2, events[2..]);
    assert QueueRun(q2, events[2..]) == QueueRun(q3, events[3..]) == QueueRun(q4, events[4..]);
    assert QueueRun(q4, events[4..]) == QueueRun(q5, events[5..]) == QueueRun(q6, []);
  }
}
