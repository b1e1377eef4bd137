/** Disputes beside completions and revocations that are written arbitrarily late: a
    disputed booking is still never cancelled or refunded. Nothing here needs the
    booking invariant, which a harmful revocation may have broken. */
module StaleDisputes {
  import opened Prelude
  import opened BookingModel
  import opened BookingRuns
  import opened BookingInvariant
  import opened BookingTheorems
  import opened Reevaluation
  import opened StaleWrites
  import opened DisputeRuns
  import opened DisputeTheorems

  datatype LateDeskEvent = AtDesk(event: DeskEvent) | Late(write: LateEvent)

  lemma LateKeys(w: World, e: LateEvent)
    ensures w.db.bookings.Keys <= LateStep(w, e).db.bookings.Keys
  {
    if e.OnTime? {
      BookingsAfterStep(w, e.event);
    }
  }

  ghost function LateDeskStep(w: DeskWorld, e: LateDeskEvent): DeskWorld {
    match e
    case AtDesk(event) => DeskStep(w, event)
    case Late(write) =>
      LateKeys(w.world, write);
      if write.OnTime? then w else BaseStep(w, LateStep(w.world, write))
  }

  ghost function LateDeskRun(w: DeskWorld, events: seq<LateDeskEvent>): DeskWorld
    decreases |events|
  {
    if events == [] then w else LateDeskRun(LateDeskStep(w, events[0]), events[1..])
  }

  /** A completed booking without a refund. */
  predicate SettledIn(db: Tables, b: Id) {
    b in db.bookings && db.bookings[b].status == COMPLETED && !Refunded(db.ledger, b)
  }

  // ---------- On time ----------

  lemma CreateKeepsSettled(w: World, slot: Id, user: Id, activeOrganization: Option<Id>, id: Id, b: Id)
    requires SettledIn(w.db, b)
    ensures SettledIn(CreateStep(w, slot, user, activeOrganization, id).db, b)
  {
    if CreateBooking(w.db, slot, user, activeOrganization, id, w.clock).1.Ok? {
      CreateEffect(w.db, slot, user, activeOrganization, id, w.clock);
    }
  }

  /** Ending another booking leaves this one alone. */
  lemma ReleaseKeepsSettled(db: Database, id: Id, actor: Option<Id>, slotStatus: SlotStatus, refund: int, now: Time, b: Id)
    requires id in db.bookings && b in db.bookings && b != id && !Refunded(db.ledger, b)
    ensures var after := Release(db, id, actor, slotStatus, refund, now);
            b in after.bookings && after.bookings[b] == db.bookings[b] && !Refunded(after.ledger, b)
  {
  }

  lemma {:induction false} LoopKeepsSettled(db: Database, resource: Id, listed: seq<Id>, now: Time, b: Id)
    requires Listed(db, listed) && b in db.bookings && b !in listed && !Refunded(db.ledger, b)
    ensures var after := RevokeEach(db, resource, listed, now);
            after.bookings[b] == db.bookings[b] && !Refunded(after.ledger, b)
    decreases |listed|
  {
    if listed != [] {
      var last, rest := listed[|listed| - 1], listed[..|listed| - 1];
      LoopKeepsSettled(db, resource, rest, now, b);
      var before := RevokeEach(db, resource, rest, now);
      ReleaseKeepsSettled(before, last, before.bookings[last].cancelledBy, WITHDRAWN,
                          DeductedPoints(before.ledger, last, before.bookings[last].user), now, b);
    }
  }

  lemma ReevaluateKeepsSettled(w: World, resource: Id, listed: seq<Id>, b: Id)
    requires SettledIn(w.db, b) && ListsSome(w.db, resource, w.clock, listed)
    ensures SettledIn(RevokeStep(w, resource, listed).db, b)
  {
    LoopKeepsSettled(w.db, resource, listed, w.clock, b);
  }

  lemma CommitKeepsSettled(w: World, tx: Id, b: Id)
    requires SettledIn(w.db, b) && tx in w.plans
    ensures SettledIn(CommitStep(w, tx).db, b)
  {
    var plan := w.plans[tx];
    if CommitCancellation(w.db, plan).1.Ok? {
      ReleaseKeepsSettled(w.db, plan.booking, Some(plan.actor), plan.slotStatus, plan.refund, plan.now, b);
    }
  }

  lemma CompleteKeepsSettled(w: World, id: Id, administrator: Id, b: Id)
    requires SettledIn(w.db, b)
    ensures SettledIn(CompleteBooking(w.db, id, administrator, w.clock).0, b)
  {
  }

  lemma GrantKeepsSettled(w: World, e: Entry, b: Id)
    requires SettledIn(w.db, b) && e.kind != BOOKING_REFUND
    ensures SettledIn(w.db.(ledger := w.db.ledger + [e]), b)
  {
  }

  lemma EnvironmentKeepsSettled(w: World, e: Event, b: Id)
    requires SettledIn(w.db, b)
    ensures SettledIn(EnvironmentStep(w.db, e), b)
  {
    EnvironmentFrame(w.db, e);
  }

  lemma OtherStepKeepsSettled(w: World, e: Event, b: Id)
    requires SettledIn(w.db, b) && !e.Create? && !e.CommitCancel? && !e.Reevaluate? && !e.Complete?
    ensures SettledIn(Step(w, e).db, b)
  {
    match e
    case Tick(_) =>
    case ReadCancel(_, _, _, _) =>
    case GrantPoints(user, root, amount) => GrantKeepsSettled(w, Entry(user, root, None, amount, CREDIT), b);
    case _ => EnvironmentKeepsSettled(w, e, b);
  }

  lemma StepKeepsSettled(w: World, e: Event, b: Id)
    requires SettledIn(w.db, b)
    ensures SettledIn(Step(w, e).db, b)
  {
    match e
    case Create(slot, user, activeOrganization, id) => CreateKeepsSettled(w, slot, user, activeOrganization, id, b);
    case CommitCancel(tx) => if tx in w.plans { CommitKeepsSettled(w, tx, b); }
    case Reevaluate(resource, listed) =>
      if ListsSome(w.db, resource, w.clock, listed) { ReevaluateKeepsSettled(w, resource, listed, b); }
    case Complete(id, administrator) => CompleteKeepsSettled(w, id, administrator, b);
    case _ => OtherStepKeepsSettled(w, e, b);
  }

  // ---------- Late ----------

  /** The check on completion times stops a late revocation of this booking; one of
      another booking leaves it alone. */
  lemma LateRevokeKeepsSettled(db: Database, id: Id, at: Time, b: Id)
    requires ChecksHold(db.bookings) && b in db.bookings && db.bookings[b].status == COMPLETED && !Refunded(db.ledger, b)
    ensures var after := LateRevoke(db, id, at);
            b in after.bookings && after.bookings[b] == db.bookings[b] && !Refunded(after.ledger, b)
  {
    if id in db.bookings {
      if id == b {
        assert RowChecks(db.bookings[b]);
      } else {
        var refund := DeductedPoints(db.ledger, id, db.bookings[id].user);
        ReleaseKeepsSettled(db, id, db.bookings[id].cancelledBy, WITHDRAWN, refund, at, b);
      }
    }
  }

  lemma LateKeepsSettled(w: World, e: LateEvent, b: Id)
    requires ChecksHold(w.db.bookings) && SettledIn(w.db, b)
    ensures SettledIn(LateStep(w, e).db, b)
  {
    match e
    case OnTime(event) => StepKeepsSettled(w, event, b);
    case WriteComplete(id) =>
    case WriteRevocation(id, readAt) => LateRevokeKeepsSettled(w.db, id, readAt, b);
  }

  lemma LateKeepsChecks(w: World, e: LateEvent)
    requires ChecksHold(w.db.bookings)
    ensures ChecksHold(LateStep(w, e).db.bookings)
  {
    if e.OnTime? {
      StepKeepsChecks(w, e.event);
    }
  }

  // ---------- Runs ----------

  lemma LateDeskStepSettled(w: DeskWorld, e: LateDeskEvent, b: Id)
    requires ChecksHold(w.world.db.bookings) && SettledIn(w.world.db, b)
    ensures ChecksHold(LateDeskStep(w, e).world.db.bookings) && SettledIn(LateDeskStep(w, e).world.db, b)
  {
    match e
    case AtDesk(event) =>
      var base := WorldAfterDeskStep(w, event);
      StepKeepsChecks(w.world, base);
      StepKeepsSettled(w.world, base, b);
    case Late(write) =>
      LateKeepsChecks(w.world, write);
      LateKeepsSettled(w.world, write, b);
  }

  lemma {:induction false} LateDeskRunSettled(w: DeskWorld, events: seq<LateDeskEvent>, b: Id)
    requires ChecksHold(w.world.db.bookings) && SettledIn(w.world.db, b)
    ensures SettledIn(LateDeskRun(w, events).world.db, b)
    decreases |events|
  {
    if events != [] {
      LateDeskStepSettled(w, events[0], b);
      LateDeskRunSettled(LateDeskStep(w, events[0]), events[1..], b);
    }
  }

  /** Once disputed, a booking stays completed and is never refunded, however late
      completions and revocations of any bookings are written. */
  lemma DisputedStaysSettled(w: DeskWorld, events: seq<LateDeskEvent>, d: Id)
    requires DeskInv(w) && ChecksHold(w.world.db.bookings) && d in w.disputes
    ensures var v, b := LateDeskRun(w, events).world, w.disputes[d].booking;
            b in v.db.bookings && v.db.bookings[b].status == COMPLETED && !Refunded(v.db.ledger, b)
  {
    var b := w.disputes[d].booking;
    NoRefundOfCompleted(w.world, b);
    NotRefunded(w.world.db.ledger, b);
    LateDeskRunSettled(w, events, b);
  }

  lemma {:induction false} NotRefunded(ledger: seq<Entry>, b: Id)
    requires Refunds(EntriesFor(ledger, b)) == []
    ensures !Refunded(ledger, b)
  {
    if ledger != [] {
      var entries, rest := EntriesFor(ledger, b), EntriesFor(ledger[1..], b);
      if ledger[0].booking == Some(b) {
        assert entries[0] == ledger[0] && entries[1..] == rest;
        assert |Refunds(entries)| == |Refunds(rest)| + if ledger[0].kind == BOOKING_REFUND then 1 else 0;
      } else {
        assert entries == rest;
      }
      NotRefunded(ledger[1..], b);
    }
  }
}
