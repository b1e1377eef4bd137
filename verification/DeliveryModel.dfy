/** Notification deliveries: the rows of the queue, the retry table, and each write of
    the delivery repository as a function on a row. */
module DeliveryModel {
  import opened Prelude

  datatype DeliveryStatus = QUEUED | PROCESSING | RETRY_SCHEDULED | SENT | FAILED

  datatype Delivery = Delivery(
    status: DeliveryStatus,
    attempts: nat,
    nextAttemptAt: Option<Time>,
    updatedAt: Time,
    createdAt: Time,
    email: bool,
    content: bool)

  /** Why a send failed: a provider's own error, or any other thrown value. */
  datatype SendError = ProviderError(transient: bool) | UnexpectedError

  datatype Decision = Decision(retry: bool, nextAttemptAt: Option<Time>)

  const DELAYS: seq<Time> := [30_000, 120_000, 600_000, 3_600_000, 21_600_000]
  const STALE_AFTER: Time := 5 * 60_000
  const BATCH: nat := 50

  function DecideRetry(error: SendError, attempts: nat, now: Time): Decision {
    var transient := if error.ProviderError? then error.transient else true;
    if transient && 1 <= attempts <= |DELAYS| then Decision(true, Some(now + DELAYS[attempts - 1]))
    else Decision(false, None)
  }

  /** The rows a claim and the dispatcher's query accept. */
  predicate Due(d: Delivery, now: Time) {
    d.status == QUEUED || (d.status == RETRY_SCHEDULED && d.nextAttemptAt.Some? && d.nextAttemptAt.value <= now)
  }

  predicate Stale(d: Delivery, now: Time) {
    d.status == PROCESSING && d.updatedAt < now - STALE_AFTER
  }

  predicate Settled(d: Delivery) {
    d.status == SENT || d.status == FAILED
  }

  function Claimed(d: Delivery, now: Time): Delivery {
    d.(status := PROCESSING, attempts := d.attempts + 1, updatedAt := now)
  }

  /** A sent row; the content of an e-mail is scrubbed. */
  function Completed(d: Delivery, now: Time): Delivery {
    d.(status := SENT, nextAttemptAt := None, updatedAt := now, content := d.content && !d.email)
  }

  /** A failed attempt; without a next time the column is left as it is. */
  function FailedWith(d: Delivery, decision: Decision, now: Time): Delivery {
    d.(status := if decision.retry then RETRY_SCHEDULED else FAILED,
       nextAttemptAt := if decision.nextAttemptAt.Some? then decision.nextAttemptAt else d.nextAttemptAt,
       updatedAt := now)
  }

  function Requeued(d: Delivery, now: Time): Delivery {
    if Stale(d, now) then d.(status := QUEUED, updatedAt := now) else d
  }

  function RequeueAll(rows: map<Id, Delivery>, now: Time): map<Id, Delivery> {
    map id | id in rows :: Requeued(rows[id], now)
  }

  /** How one attempt goes: what the provider answers, whether the write of a success
      goes through, and whether the write of a failure does. */
  datatype Attempt = Attempt(provider: Option<SendError>, completes: bool, records: bool)

  /** The error that a worker's try block ends with, if any; a success that cannot be
      written is one too. */
  function Outcome(d: Delivery, attempt: Attempt): Option<SendError> {
    if !d.content then Some(UnexpectedError)
    else if attempt.provider.None? && !attempt.completes then Some(UnexpectedError)
    else attempt.provider
  }

  /** A failure that cannot be written leaves the worker's cycle as an exception. */
  predicate Throws(d: Delivery, attempt: Attempt) {
    Outcome(d, attempt).Some? && !attempt.records
  }

  /** A whole claim-send-record cycle on a due row. */
  function Processed(d: Delivery, attempt: Attempt, now: Time): Delivery {
    var claimed := Claimed(d, now);
    match Outcome(d, attempt)
    case None => Completed(claimed, now)
    case Some(error) =>
      if attempt.records then FailedWith(claimed, DecideRetry(error, claimed.attempts, now), now) else claimed
  }

  /** A fault that passes: any error but a provider's permanent one. */
  predicate Passing(error: SendError) {
    error != ProviderError(false)
  }

  /** The row of a delivery after a failed attempt that is written: waiting for the next
      attempt exactly after a passing fault in one of the first five, for half a minute,
      two minutes, ten minutes, an hour, or six hours; failed otherwise. */
  predicate FailedRow(before: Delivery, after: Delivery, error: SendError, attempt: nat, now: Time) {
    if Passing(error) && 1 <= attempt <= 5 then
      && after == before.(status := RETRY_SCHEDULED, nextAttemptAt := after.nextAttemptAt, updatedAt := now)
      && after.nextAttemptAt == Some(now + (match attempt
           case 1 => 30_000
           case 2 => 120_000
           case 3 => 600_000
           case 4 => 3_600_000
           case _ => 21_600_000))
    else
      after == before.(status := FAILED, updatedAt := now)
  }

  lemma FailedExactly(d: Delivery, error: SendError, attempt: nat, now: Time)
    ensures FailedRow(d, FailedWith(d, DecideRetry(error, attempt, now), now), error, attempt, now)
  {
  }

  /** What a cycle makes of a row: claimed with one more attempt if a failure cannot be
      written; sent, its content scrubbed from an e-mail, if there was content, the
      provider took it and the success could be written; and otherwise the row of a
      failure, by the provider's error if it was reached and gave one. */
  lemma CycleExactly(d: Delivery, attempt: Attempt, now: Time)
    ensures var after, n := Processed(d, attempt, now), d.attempts + 1;
            var claimed := d.(status := PROCESSING, attempts := n, updatedAt := now);
            if d.content && attempt.provider.None? && attempt.completes then
              after == claimed.(status := SENT, nextAttemptAt := None, content := !d.email)
            else if !attempt.records then after == claimed
            else FailedRow(claimed, after, if d.content && attempt.provider.Some? then attempt.provider.value else UnexpectedError, n, now)
  {
    if Outcome(d, attempt).Some? {
      FailedExactly(Claimed(d, now), Outcome(d, attempt).value, d.attempts + 1, now);
    }
  }

  /** A cycle leaves its row settled or waiting for a later time; if it throws, claimed,
      to be found by a requeue five minutes later. */
  lemma ProcessedIsNotDue(d: Delivery, attempt: Attempt, now: Time)
    ensures var after := Processed(d, attempt, now);
            && !Due(after, now) && !Stale(after, now + 300_000)
            && (if Throws(d, attempt) then after.status == PROCESSING && Stale(after, now + 300_001)
                else Settled(after) || (after.status == RETRY_SCHEDULED && after.nextAttemptAt.value >= now + 30_000))
            && after.createdAt == d.createdAt && after.attempts == d.attempts + 1
  {
  }
}
