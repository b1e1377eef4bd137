# ResourceHive in Dafny

A model of the stateful core of ResourceHive, with proofs about whole runs of it.
`dafny verify dfyconfig.toml` checks everything.

- **Bookings, slots and points** (`BookingModel`, `Rules`, `BookingRuns`, `BookingInvariant`,
  `BookingTheorems`, `Reevaluation`, `StaleWrites`, `Deadlines`; in place: `PointLedger`,
  `BookingService`). The tables are one value; each transaction is a function from the tables
  it starts on to the tables it commits. A run is any sequence of transactions and of changes
  around them: time passing, credits, resource edits and removals, new slots, memberships. A
  cancellation is two steps, its reads and its compare-and-set writes, with any other steps
  in between; a re-evaluation may end early. History variables record what each booking was
  charged and who ended it; no transaction reads them. The classes update fields step by step
  as the services do, and their methods are proved to commit exactly what the functions say.
  `Rules` says who may do what by the rows alone; the results on when a transaction is
  accepted use it and name none of the lookups of the transactions.
- **Disputes** (`DisputeModel`, `DisputeRuns`, `DisputeTheorems`, `DisputeNotes`,
  `DisputeWitnesses`, `StaleDisputes`; in place: `DisputeService`). The same, on top of the
  booking tables. A transition is two steps, or one where a result needs it.
- **Deliveries** (`DeliveryModel`, `DeliveryRuns`, `DeliveryBounds`, `DeliveryTheorems`; in
  place and for the dispatcher: `DeliveryDispatch`). Many workers on one queue against a
  clock.
- **Organizations, catalogue, cookies** (`Hierarchy`, `Organizations`,
  `AllocationTargets`, `Catalogue`, `Text`, `Cookies`). The hand-written loops, against
  definitions that do not mention them.

## What the model assumes

- A transaction that throws changes nothing, and a transaction is one step except where it
  is split. Foreign keys hold. Identifiers of new rows are inputs; one already in use breaks
  a unique index.
- The unique index on live bookings of a slot is the one in
  `db/schema/migrations/20260724000000_initial/migration.sql`, lines 288-290. The proofs do
  not rely on it: creation checks the slot inside a serializable transaction. `StaleWrites`
  does rely on that file's check constraints (lines 270-279) and on its unique index on
  refunds (lines 341-343).
- Credits are positive; the only other ledger entries are those of bookings.
- `updatedAt` is stamped on every write to a delivery. A dispute starts as OPEN.
- The clock never runs backwards. `now` is an input of each step.
- A parent organization is in the tenant of its child, as the foreign key in lines 56-57 of
  that file demands.
- Percent-decoding, provider outcomes and name collation are abstract: a function that may
  fail, a function from deliveries to results, an integer key.

## Where the code falls short of its purpose

Each of these has a concrete run, and the exact condition under which it happens.

- **Resolution notes.** The check on notes reads the dispute row and the write only compares
  its status. Two interleaved updates can therefore leave a resolved dispute without notes
  (`DisputeWitnesses.InterleavedNotesCanBeLost`). It takes a commit that ends the dispute
  without notes of its own on a row that lost the notes it read, and nothing else does it
  (`DisputeNotes.NotesThroughoutExactly`).
- **Holds.** A resource edit may carry a status
  (services/resource-service/src/resources/dto/update-resource.dto.ts:5-12), so it can set a
  resource active that a dispute holds (`DisputeWitnesses.HoldCanBeBroken`). Nothing else can
  (`DisputeTheorems.HoldsThroughoutExactly`).
- **Late workers.** A result is written to a delivery whatever its status is by then, so a
  sent delivery can be sent again (`DeliveryTheorems.LateWorkerUnsendsDelivery`). Workers keep
  sole hold of their rows exactly until a stale requeue reaches the row of a live worker
  (`DeliveryRuns.ClaimsThroughoutExactly`); before that no settled row changes, and each such
  requeue can lead to it (`DeliveryTheorems.LiveRequeueUnsettles`).
- **Stale revocations.** Re-evaluation writes each revocation without looking at the
  booking's status again. The database rejects the write on a completed booking, and on a
  cancelled one that has had its refund. A free booking has none: if it was cancelled
  meanwhile and its slot booked again, the write withdraws the slot under the new booking
  (`StaleWrites.HarmfulRunExists`). Nothing else goes wrong, however late completions and
  revocations are written (`StaleWrites.LateRunsExactly`).
- **Deadline.** The deadline of a cancellation by the user is checked with its reads, not
  with its writes, so it can take effect after the start (`Deadlines.LateCancellationExists`).
  That is so exactly if its writes find the booking confirmed and the deadline past
  (`Deadlines.OnTimeThroughoutExactly`).
- **Retries.** A conflict inside validation or the ledger comes back as that service's own
  error and ends the call (`BookingService.ConflictNotRetried`); only conflicts on the insert
  or the commit are retried (`BookingService.RetriedExactly`).

## Model

| member | source | states |
|---|---|---|
| `BookingTheorems.CreationAcceptedExactly` | services/booking-service/src/bookings/booking.service.ts:137-209 | A creation is accepted exactly when the caller acts in an active organization of the tenant, the slot is published, free and in the future, the caller is an approved member, within the tenant, of the owner or of an allowed organization of its active resource, and the balance covers a price that is not negative; it then adds exactly the row of the booking and its deduction; a refusal changes nothing |
| `BookingTheorems.CreationRefusals` | services/booking-service/src/bookings/booking.service.ts:142-195 | Which error each refused creation gives: that of the first condition that fails, with the balance and the price if it is the points |
| `BookingTheorems.BalanceInEveryState` | services/booking-service/src/points/point-ledger.repository.ts:13-54 | In every state of every run, with cancellations split into reads and writes, each balance is the user's credits less the net charges of their bookings (all of the charge while live, half rounded down after a cancellation by the user, nothing after any other ending) and is never negative |
| `BookingTheorems.SlotsInEveryState` | services/booking-service/src/bookings/booking.service.ts:267-291 | In every state a slot has at most one booking that is not cancelled, such a booking sits on a published slot, and a slot is withdrawn exactly when its withdrawal time is set and then has no live booking |
| `BookingTheorems.RefundInEveryState` | services/booking-service/src/bookings/booking.service.ts:255-306 | In every state a booking has at most one refund entry, exactly when it is cancelled and cost something, for the whole charge or half of it rounded up; so between half of the charge and the charge |
| `BookingTheorems.OneCancellationCommits` | services/booking-service/src/bookings/booking.service.ts:267-282 | Over any interleaving of reads and writes of cancellations of one booking with all other steps at most one cancellation commits, and one does exactly when the booking ends up cancelled by its user or an administrator |
| `BookingTheorems.CommitOnlyWhileConfirmed` | services/booking-service/src/bookings/booking.service.ts:271-282 | A pending cancellation commits exactly while its booking is confirmed; otherwise the tables stay as they are; after any ending every later one is refused with the conflict error |
| `BookingTheorems.CancellationExactly` | services/booking-service/src/bookings/booking.service.ts:225-306 | A cancellation is accepted exactly from the user of a confirmed booking, without a choice about the slot and before the deadline, or from a user with an approved ADMIN membership in the owner, with such a choice; an uninterrupted one writes exactly the row, the slot and half of the charge rounded up, or all of it, as a refund |
| `BookingTheorems.CancellationRefusals` | services/booking-service/src/bookings/booking.service.ts:225-253 | Which error each refused cancellation gives |
| `BookingTheorems.CompletionExactly` | services/booking-service/src/bookings/booking.service.ts:349-371 | A completion is accepted exactly from a user with an approved ADMIN membership in the owner, for a booking that is confirmed or completed; it sets status and time of a confirmed one and changes nothing else; and the error of every other |
| `BookingTheorems.PriceAndNoticeFixedAtCreation` | services/booking-service/src/bookings/booking.service.ts:197-206 | Whatever is edited after a booking is made, its ledger entries follow the price at creation, and a cancellation by the user was read strictly before the start less the notice period at creation |
| `BookingTheorems.CompletedSlotNeverRebooked` | services/booking-service/src/bookings/booking.service.ts:361-371 | A completed booking keeps its row for the rest of every run, and its slot never gets another booking |
| `BookingTheorems.RunEvolves` | services/booking-service/src/bookings/booking.service.ts:267-306 | No run rewrites the ledger (it only grows), a charge, an ending, a customer, a notice period, a start time, or a booking that is no longer confirmed |
| `BookingInvariant.RunInv` | services/booking-service/src/bookings/booking.service.ts:588-619 | The whole invariant behind these results, including that each booking's ledger entries are exactly its deduction and its refund and that every pending cancellation holds the right refund, is kept by every run |
| `BookingInvariant.DeductedIsCharged` | services/booking-service/src/bookings/booking.service.ts:255-262 | The deduction that a cancellation or revocation looks up is the amount charged at creation, and 0 for a free booking |
| `Reevaluation.ReevaluationEffect` | services/booking-service/src/bookings/booking.service.ts:493-560 | Re-evaluation cancels a booking exactly when it is confirmed, in the future, on the resource, and the resource is not active or its user has no approved membership in the owner or an allowed organization; withdraws exactly those bookings' slots; appends exactly their full refunds after the old ledger; and changes nothing else |
| `Reevaluation.RefundedOnce` | services/booking-service/src/bookings/booking.service.ts:521-558 | Among the new entries, each revoked booking that cost something has exactly one, its full charge, and no other booking has any |
| `Reevaluation.NoRevokedBookingLeft` | services/booking-service/src/bookings/booking.service.ts:471-510 | Afterwards every future confirmed booking of the resource is held by a user with an approved membership in the owner or an allowed organization, and none is left on a resource that is not active |
| `Reevaluation.RemovalCancelsAll` | services/resource-service/src/resources/resources.service.ts:191-214 | Once a removed resource has been re-evaluated, each booking of it that was still to come is cancelled |
| `Reevaluation.EditRevokesOthers` | services/resource-service/src/resources/resources.service.ts:132-189 | Once an edited resource has been re-evaluated, its row has the values of the edit, and its bookings still to come belong to members of the owner or of the organizations that the edit allows |
| `Reevaluation.SecondRunDoesNothing` | services/booking-service/src/bookings/booking.service.ts:466-517 | A second run at the same or a later time changes nothing |
| `Reevaluation.AcceptedNowNeverCancelled` | services/booking-service/src/slots/slot.repository.ts:101-133 | A booking whose user has the access that creation demands is never cancelled by re-evaluation |
| `Reevaluation.OrderDoesNotMatter` | services/booking-service/src/bookings/booking.service.ts:471-493 | The order in which the query lists the bookings does not affect bookings, slots or any balance |
| `Reevaluation.InterruptedRunResumes` | services/booking-service/src/bookings/booking.service.ts:513-583 | A re-evaluation that a failing transaction cut short, repeated, leaves the same bookings, slots and balances as one that was not |
| `StaleWrites.LateCompleteKeepsInv` | services/booking-service/src/bookings/booking.service.ts:361-371 | However late a completion is written, over whatever the booking has become, every balance, slot and ledger property of the invariant still holds |
| `StaleWrites.EndedIsRefunded` | services/booking-service/src/bookings/booking.service.ts:295-306 | A cancelled booking that cost something already has its refund entry, which is what the unique index stops a late revocation with |
| `StaleWrites.LateRevokeKeepsInvExactly` | services/booking-service/src/bookings/booking.service.ts:521-558 | A late revocation keeps the invariant exactly unless the booking was free and cancelled meanwhile and its slot is taken again |
| `StaleWrites.LateRunsExactly` | services/booking-service/src/bookings/booking.service.ts:493-558 | With completions and revocations written to any booking at any time, among all other steps, the invariant holds in every state of a run exactly when the run has no such revocation |
| `StaleWrites.UninterruptedCompletion` | services/booking-service/src/bookings/booking.service.ts:349-371 | The reads of a completion followed at once by its unconditional write are the completion in one step, whenever the table's checks hold |
| `StaleWrites.HarmfulRunExists` | services/booking-service/src/bookings/booking.service.ts:533-545 | A concrete run from an empty system that ends in such a revocation of a booking its re-evaluation did list |
| `Deadlines.OnTimeThroughoutExactly` | services/booking-service/src/bookings/booking.service.ts:236-282 | Every cancellation by the user in a run takes effect before its deadline exactly when no writes of one find the booking confirmed and the deadline past |
| `Deadlines.LateCancellationExists` | services/booking-service/src/bookings/booking.service.ts:236-247 | A concrete run from an empty system in which a user's cancellation takes effect after the slot has started |
| `PointLedger.Ledger.GetBalance` | services/booking-service/src/points/point-ledger.repository.ts:13-23 | The balance is the sum of the user's entries in the tenant |
| `PointLedger.Ledger.AssertSufficientBalance` | services/booking-service/src/points/point-ledger.service.ts:36-58 | Succeeds exactly for a non-negative requirement that the balance covers, and names the error otherwise |
| `PointLedger.Ledger.AppendBookingDeduction` | services/booking-service/src/points/point-ledger.service.ts:60-72 | Appends one BOOKING entry exactly for a negative amount, and nothing otherwise |
| `PointLedger.Ledger.AppendBookingRefund` | services/booking-service/src/points/point-ledger.service.ts:74-86 | Appends one BOOKING_REFUND entry exactly for a positive amount, and nothing otherwise |
| `BookingService.Service.CreateBooking` | services/booking-service/src/bookings/booking.service.ts:88-135 | At most three transactions run, each after the first because the one before reported a serialization conflict of its insert, its commit or its confirmation message; the tables end with the booking of the last one, or as that one found them; the answer is exactly that booking, or the error for what went wrong |
| `BookingService.AnsweredExactly` | services/booking-service/src/bookings/booking.service.ts:98-131 | What each way of ending gives the caller: the identifier of the new booking, the conflict errors, the refusal, the ledger's error or the general one, each under its exact condition |
| `BookingService.OneOutcome` | services/booking-service/src/bookings/booking.service.ts:92-131 | The attempts decide with which of them the call ends and what it answers |
| `BookingService.PromisedExactly` | services/booking-service/src/bookings/booking.service.ts:92-131 | The call returns the very booking that exactly its last transaction committed, or fails and none committed one, exactly when no confirmation message fails after a commit |
| `BookingService.CommitsExactly` | services/booking-service/src/bookings/booking.service.ts:98-107 | An attempt commits exactly when the user may book the slot, the identifier is new and no failing call meets it; then it adds just that booking and its deduction, otherwise nothing |
| `BookingService.RetriedExactly` | services/booking-service/src/bookings/booking.service.ts:120-128 | A serialization conflict in an acceptable creation is retried exactly when it comes with the insert or the commit |
| `BookingService.ConflictNotRetried` | services/booking-service/src/points/point-ledger.service.ts:60-91 | A concrete creation that ends without a retry because its conflict came in the deduction |
| `BookingService.Service.CreateWithinTransaction` | services/booking-service/src/bookings/booking.service.ts:588-619 | The in-place body ends as the model's transaction does under the failure it meets, and if it commits it has written exactly the model's creation |
| `BookingService.Service.CancelBooking` | services/booking-service/src/bookings/booking.service.ts:212-342 | The in-place cancellation is its reads followed by its guarded writes; it turns a confirmed booking into a cancelled one or changes nothing |
| `BookingService.Service.CompleteBooking` | services/booking-service/src/bookings/booking.service.ts:345-389 | The in-place completion is its reads followed by its unconditional write under the table's checks, which is the model's completion in one step when those hold |
| `BookingService.Service.WriteCompletion` | services/booking-service/src/bookings/booking.service.ts:367-371 | The unconditional write alone, on whatever the booking has become: it goes through exactly when the row passes the table's checks |
| `BookingService.Service.FindFutureBookings` | services/booking-service/src/bookings/booking.service.ts:471-491 | The query lists each future confirmed booking of the resource once and nothing else |
| `BookingService.Service.ReevaluateBookings` | services/booking-service/src/bookings/booking.service.ts:466-586 | The in-place loop over a listing of the query ends in the state the re-evaluation results are about, or in that of the part it reached before a transaction failed |
| `DisputeTheorems.OpenExactly` | services/booking-service/src/disputes/dispute.service.ts:43-112 | A dispute is opened exactly by an active approved member of the tenant, about a completed booking of theirs there without a dispute; it is written, OPEN, with its first event; every other opening changes nothing and gives the error of the first condition that fails |
| `DisputeTheorems.TransitionAcceptedExactly` | services/booking-service/src/disputes/dispute.service.ts:154-189 | A transition is planned exactly by an active user with an approved ADMIN membership in the active owner, for one of the five moves or none, with written notes, new or old, if it ends in RESOLVED or REJECTED; and what the plan is; and the error of every other |
| `DisputeTheorems.CommitExactly` | services/booking-service/src/disputes/dispute.repository.ts:122-174 | The writes of a transition go through exactly if the status is still the one read and the action can be taken; exactly which dispute, event and resource rows they leave; otherwise nothing changes |
| `DisputeTheorems.ChainInEveryState` | services/booking-service/src/disputes/dispute.service.ts:24-30 | However transitions interleave, each dispute's event log is a connected chain of the five allowed moves from its opening to its status, of at most three events, and the status is RESOLVED or REJECTED exactly when resolvedAt is set |
| `DisputeTheorems.ResolvedOnce` | services/booking-service/src/disputes/dispute.repository.ts:131-142 | Once set, the resolution time and the terminal status never change, and the event log only grows |
| `DisputeTheorems.DisputedBookingIsSettled` | services/booking-service/src/disputes/dispute.service.ts:58-91 | A booking has at most one dispute; once disputed, its row stays exactly as it is, completed, and it is never refunded |
| `DisputeTheorems.HoldKeptExactly` | services/booking-service/src/disputes/dispute.repository.ts:156-174 | A step keeps every linked resource inactive exactly when it is not a resource edit that sets a linked resource active |
| `DisputeTheorems.HoldsThroughoutExactly` | services/resource-service/src/resources/resources.service.ts:163-170 | Linked resources are inactive in every state of a run exactly when the run has no such edit |
| `DisputeTheorems.HeldResourceNotBooked` | services/booking-service/src/bookings/booking.service.ts:155-157 | While a resource is linked to a dispute, no step adds a booking on any of its slots |
| `DisputeTheorems.RestoreExactly` | services/booking-service/src/disputes/dispute.repository.ts:167-173 | RESTORE goes through exactly for the dispute that holds the link, if its status is still the one read; a refusal leaves dispute, event log and resource as they were |
| `DisputeNotes.CommitKeepsNotesExactly` | services/booking-service/src/disputes/dispute.service.ts:169-176 | A commit keeps the notes of terminal disputes non-blank exactly when it brings notes, or the row still has some, or it is not terminal |
| `DisputeNotes.NotesInEveryState` | services/booking-service/src/disputes/dispute.service.ts:169-189 | With transitions in one step, every terminal dispute has non-blank notes in every state |
| `DisputeNotes.NotesThroughoutExactly` | services/booking-service/src/disputes/dispute.repository.ts:131-142 | However transitions interleave, terminal disputes have non-blank notes in every state of a run exactly when no commit ends a dispute without notes of its own on a row that has none left |
| `DisputeWitnesses.InterleavedNotesCanBeLost` | services/booking-service/src/disputes/dispute.repository.ts:131-142 | A concrete run from a desk without disputes that ends with a resolved dispute without notes: a resolution relies on notes that another update blanks before it commits |
| `DisputeWitnesses.HoldCanBeBroken` | services/resource-service/src/resources/resources.service.ts:163-170 | A concrete run from a desk without disputes that ends with an active resource that a dispute still holds |
| `StaleDisputes.DisputedStaysSettled` | services/booking-service/src/bookings/booking.service.ts:521-558 | Also with completions and revocations of any bookings written arbitrarily late, a disputed booking stays completed and is never refunded |
| `DisputeService.Desk.Open` | services/booking-service/src/disputes/dispute.service.ts:39-112 | The in-place opening is exactly the model's |
| `DisputeService.Desk.CommitTransition` | services/booking-service/src/disputes/dispute.repository.ts:122-154 | The compare-and-set, the resource action and the event are written together or not at all |
| `DisputeService.Desk.Transition` | services/booking-service/src/disputes/dispute.service.ts:148-206 | The in-place transition is exactly the model's reads followed by its writes |
| `DeliveryRuns.ClaimsThroughoutExactly` | services/notification-service/src/delivery/delivery.repository.ts:69-77 | In all interleavings, every live worker is its delivery's only one and its row is the PROCESSING row its claim wrote, in every state of a run, exactly when no stale requeue of the run reaches the row of a live worker |
| `DeliveryRuns.PromptIsSafe` | services/notification-service/src/delivery/delivery.repository.ts:69-77 | Workers that finish or die within five minutes of their claims never meet such a requeue |
| `DeliveryTheorems.OneWorkerPerDelivery` | services/notification-service/src/delivery/delivery.repository.ts:8-25 | In every run without such a requeue a delivery has at most one live worker, on the PROCESSING row its claim wrote |
| `DeliveryTheorems.SettledLeftExactly` | services/notification-service/src/delivery/delivery.repository.ts:27-52 | SENT or FAILED is left in a step exactly by the differing result of another worker that is still live, which cannot be while live workers hold their rows |
| `DeliveryTheorems.SettledForever` | services/notification-service/src/delivery/delivery.repository.ts:27-52 | In every run without such a requeue SENT and FAILED are never left |
| `DeliveryTheorems.LiveRequeueUnsettles` | services/notification-service/src/delivery/delivery.repository.ts:69-77 | Every requeue that reaches a live worker's row can lead to it: a second worker sends the delivery and the first one's failure takes it out of SENT |
| `DeliveryTheorems.LateWorkerUnsendsDelivery` | services/notification-service/src/delivery/delivery.repository.ts:69-77 | One millisecond later that is false: a concrete run in which a sent delivery is scheduled for retry again |
| `DeliveryBounds.BoundedAttempts` | services/notification-service/src/delivery/retry-policy.ts:3-22 | In every run, late workers included, a delivery is claimed at most six times plus once per stale requeue, scheduled for retry at most five times, and gets at most one result per claim |
| `DeliveryBounds.BudgetDecreases` | services/notification-service/src/delivery/delivery.repository.ts:8-52 | In every run twelve plus twice the requeues less claims less results is never negative, drops by one with every claim and every result, and is 0 only on settled rows; no other event but a stale requeue changes the row or the measure |
| `DeliveryTheorems.PromptAttempts` | services/notification-service/src/delivery/retry-policy.ts:3-22 | In runs whose requeues reach no live worker's row, claims, results and what the row can still take stay within twelve plus the requeues |
| `DeliveryTheorems.RemainingDecreases` | services/notification-service/src/delivery/delivery.repository.ts:8-52 | There each claim and each result strictly decreases what the row can still take, which is 0 exactly on settled rows, and a stale requeue raises it by at most one |
| `DeliveryBounds.SixthClaimSpacing` | services/notification-service/src/delivery/retry-policy.ts:3-18 | In every run, a delivery that was never queued again is claimed at most six times, each claim at least the sum of the delays so far after the first: 25,950,000 ms for the sixth |
| `DeliveryModel.CycleExactly` | services/notification-service/src/delivery/delivery-worker.service.ts:15-38 | Which row a claim-send-record cycle leaves: sent and scrubbed, claimed if nothing could be written, or that of a failure, by the error it ended with |
| `DeliveryModel.FailedExactly` | services/notification-service/src/delivery/retry-policy.ts:3-22 | The row of a failure waits exactly after a passing or unexpected error in one of the first five attempts, for 30 s, 2 min, 10 min, 1 h or 6 h in that order; otherwise it is FAILED |
| `DeliveryTheorems.ResultExactly` | services/notification-service/src/delivery/delivery.repository.ts:27-52 | In a run with many workers, what a live worker's failure or success makes of its delivery's row, and that no other row changes |
| `DeliveryModel.ProcessedIsNotDue` | services/notification-service/src/delivery/delivery-worker.service.ts:15-38 | A claim-send-record cycle leaves its row settled or waiting at least 30 seconds, with one more attempt; if it throws, claimed, for a requeue to find five minutes later |
| `DeliveryDispatch.PassRemovesOldest` | services/notification-service/src/delivery/delivery-dispatcher.service.ts:41-53 | With nothing stale, a pass takes the oldest due deliveries: fifty or all of them, or as many as it gets to before a cycle throws, and at least one if any is due |
| `DeliveryDispatch.PassesDrainQueue` | services/notification-service/src/delivery/delivery-dispatcher.service.ts:41-53 | While every failure can be written, after k passes at one moment n due deliveries are down to n - 50k, and none is due exactly from the ceil(n/50)-th pass on |
| `DeliveryDispatch.ThrowsOnlyDelay` | services/notification-service/src/delivery/delivery-dispatcher.service.ts:41-53 | Whatever throws, n passes at one moment leave none of n deliveries due |
| `DeliveryDispatch.DeliveryRepository.Claim` | services/notification-service/src/delivery/delivery.repository.ts:8-25 | The claim succeeds exactly on a due row, and then marks it and counts the attempt |
| `DeliveryDispatch.DeliveryRepository.FindDue` | services/notification-service/src/delivery/delivery.repository.ts:54-67 | The query returns the oldest due deliveries, oldest first, as many as there are up to the limit |
| `DeliveryDispatch.DeliveryRepository.RequeueStale` | services/notification-service/src/delivery/delivery.repository.ts:69-77 | Exactly the rows in processing for more than five minutes are queued again |
| `DeliveryDispatch.DeliveryWorker.Process` | services/notification-service/src/delivery/delivery-worker.service.ts:15-38 | One cycle: an undue row is left alone, a due one gets the outcome of its send, where a success that cannot be written counts as a failure; it throws exactly when a failure cannot be written |
| `DeliveryDispatch.DeliveryDispatcher.DispatchDue` | services/notification-service/src/delivery/delivery-dispatcher.service.ts:41-53 | A pass when none is running, nothing otherwise; the flag ends as it began, also when a cycle throws and ends the pass |
| `Organizations.IsOrganizationManaged` | apps/web/src/components/resource-creation-form.tsx:648-671 | The walk ends on every finite table, cycles included, and decides exactly whether an administered organization is reachable by parent links |
| `Organizations.AncestorIds` | apps/web/src/components/organization-details-view.tsx:208-213 | The walk collects exactly an organization and its ancestors, on every finite map |
| `Organizations.CanManageResource` | services/booking-service/src/slots/slot.repository.ts:135-178 | On acyclic links the walk ends, and allows exactly for an active resource of the tenant whose owner has an administered organization at or above it |
| `Organizations.ClientAgreesWithServer` | services/booking-service/src/slots/slot.repository.ts:148-162 | The form's walk over all tenants it knows, with administrator roles in all of them, and the server's walk within the tenant give the same answer about an owner |
| `AllocationTargets.EnabledExactly` | apps/web/src/components/allocate-points-dialog.tsx:104-131 | A box can be selected exactly if its organization is not covered yet, and deselected exactly if it is itself a target |
| `AllocationTargets.ToggleKeepsAntichain` | apps/web/src/components/allocate-points-dialog.tsx:126-136 | Every enabled toggle keeps the targets distinct with none below another |
| `AllocationTargets.ToggleChangesExactlySubtree` | apps/web/src/components/allocate-points-dialog.tsx:107-136 | Selecting adds exactly that organization's subtree to what is covered, deselecting removes exactly it, and the root's box does so for everyone |
| `AllocationTargets.AntichainAfterToggles` | apps/web/src/components/allocate-points-dialog.tsx:107-136 | Over any sequence of toggles no organization is covered by two targets |
| `AllocationTargets.CoveredOnceInDialog` | apps/web/src/components/allocate-points-dialog.tsx:107-136 | So in the dialog, which opens with the root selected, nobody is ever covered by two targets |
| `AllocationTargets.Dialog.IsDescendantOf` | apps/web/src/components/allocate-points-dialog.tsx:43-50 | The walk decides exactly whether one organization is strictly below another |
| `AllocationTargets.Dialog.IsCoveredByAncestor` | apps/web/src/components/allocate-points-dialog.tsx:52-61 | The walk decides exactly whether the root or a strict ancestor is selected |
| `AllocationTargets.Dialog.OnCheckedChange` | apps/web/src/components/allocate-points-dialog.tsx:107-136 | The dialog's update of its target list is the toggle these results are about |
| `Catalogue.CombinedExactlyOnce` | apps/web/src/components/resource-catalogue.tsx:571-582 | The combined catalogue is sorted by name, holds each resource that some organization offers exactly once and nothing else, and tags it with the first organization offering it |
| `Catalogue.SortSorts` | apps/web/src/components/resource-catalogue.tsx:579-581 | The sort orders by name, keeps every item, and keeps items of one name in order |
| `Catalogue.PageIsClamped` | apps/web/src/components/resource-catalogue.tsx:582-593 | Any requested page is clamped to one that exists, holds at most ten items, is empty only when the catalogue is, and pages 1 to totalPages together are the whole catalogue |
| `Catalogue.FetchAll` | apps/web/src/components/resource-catalogue.tsx:541-569 | Fetching page by page yields the organization's whole list |
| `Catalogue.GetCombinedCatalogue` | apps/web/src/components/resource-catalogue.tsx:533-594 | The loops compute that page of that catalogue |
| `Cookies.ScannersReadWhatIsPrinted` | packages/service-auth/src/access-token-extractor.ts:41-66 | For any list of legal pairs printed as a Cookie header, the scanners return the decoded value of the first pair with the wanted name, or none if it is absent or empty |
| `Cookies.SplitExactly` | packages/service-auth/src/access-token-extractor.ts:42 | Splitting any header gives pieces without a separator that, joined by separators, are the header |
| `Cookies.FindCookie` | packages/service-auth/src/access-token-extractor.ts:41-66 | The first scanner returns the common header value |
| `Cookies.ExtractGoogleOAuthFlow` | services/identity-service/src/auth/auth-cookie.ts:63-81 | The second scanner returns the same header value for its name |
| `Cookies.ExtractRefreshToken` | services/identity-service/src/auth/auth-cookie.ts:83-107 | The third scanner returns the same header value for its name |

## Left out

- The content of messages about bookings. Sending one never throws
  (services/booking-service/src/notifications/booking-notification.service.ts:329-342), so
  the condition of `BookingService.PromisedExactly` holds.
- Stale lists: in the main runs a completion and a re-evaluation are one step each.
  `StaleWrites` and `StaleDisputes` let each of their writes come late and cover the invariant
  of balances, slots and ledger entries, and disputed bookings; that a settled row never
  changes at all is proved for writes on time only, since a late one may rewrite the time of
  an ending.
- Checks that compare an ending's time with the row's creation time; the model has no
  creation times.
- The two statements of a delivery claim are one step; a claim, a requeue or the query for
  due deliveries that throws changes nothing and is left out.
- Slot overlap, ratings, images, analytics queries, listing endpoints and their paging.
- Row-level security and the stored balance table with its trigger: the balance is the sum.
- Events on the message bus, consumer offsets and dead letters.
- Authentication, password hashing, e-mail, push and image providers.
- Page layout, dialogs, charts and date formatting; only the named algorithms are taken from
  the web client.
- The bearer header and the parsed cookie map, which are tried before the Cookie header is
  scanned.
- Parsing of token lifetimes and of notice periods entered in minutes, hours, days or weeks:
  short expressions.
- Creating, publishing and removing resources, slots and memberships are steps of a run
  without their own permission checks; who may manage a resource is in `Organizations`.
