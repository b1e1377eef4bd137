/** The main results about disputes: their event logs, the bookings they concern, the
    holds they put on resources, and the notes that close them. */
module DisputeTheorems {
  import opened Prelude
  import opened BookingModel
  import opened BookingRuns
  import opened BookingInvariant
  import opened BookingTheorems
  import opened DisputeModel
  import opened DisputeRuns
  import opened Rules
  import opened Text

  // ---------- When a transaction is accepted ----------

  /** An active user with an approved membership in an active organization of the tenant. */
  predicate ActiveMemberIn(t: Tables, user: Id, org: Id, root: Id) {
    && user in t.activeUsers && ApprovedIn(t, user, org)
    && org in t.organizations && t.organizations[org] == Organization(root, true)
  }

  /** A dispute is opened exactly by an active member of the tenant, about a completed
      booking of theirs there that has no dispute; it is written with its first event.
      Every other opening changes nothing and names the first condition that fails. */
  lemma OpenExactly(desk: Desk, booking: Id, user: Id, root: Option<Id>, id: Id)
    ensures var (after, result) := Open(desk, booking, user, root, id);
            var t := desk.db;
            && (result.Err? ==> after == desk)
            && if root.None? || !exists o :: ActiveMemberIn(t, user, o, root.value) then result == Err(NoOrganization)
               else if booking !in t.bookings || t.bookings[booking].user != user || t.bookings[booking].root != root.value then
                 result == Err(DisputedBookingNotFound)
               else if t.bookings[booking].status != COMPLETED then result == Err(BookingNotEligible)
               else if id in desk.disputes || exists d :: d in desk.disputes && desk.disputes[d].booking == booking then
                 result == Err(AlreadyExists)
               else
                 && result == Ok(id)
                 && after == DeskTables(t, desk.disputes[id := Dispute(booking, root.value, user, OPEN, None, None, None)],
                                        desk.events + [DisputeEvent(id, None, OPEN, Some("Dispute opened"))])
  {
    if root.Some? {
      forall o: Id ensures ActiveMemberIn(desk.db, user, o, root.value) <==> ActiveIn(desk.db, user, o, root.value) {
      }
      if exists o :: ActiveMemberIn(desk.db, user, o, root.value) {
        var o :| ActiveMemberIn(desk.db, user, o, root.value);
        assert o in desk.db.organizations && ActiveIn(desk.db, user, o, root.value);
      }
    }
  }

  /** An active user with an approved administrator's membership in an active
      organization of the tenant. */
  predicate Reviews(t: Tables, user: Id, org: Id, root: Option<Id>) {
    && root.Some? && user in t.activeUsers && AdministratorOf(t, user, org)
    && org in t.organizations && t.organizations[org] == Organization(root.value, true)
  }

  /** Notes with something in them. */
  predicate Written(notes: Option<string>) {
    notes.Some? && !AllSpaces(notes.value)
  }

  /** A transition is planned exactly by a reviewer of the resource's owner, for a move
      that the dispute may make or none, with notes, new or old, if the dispute is then
      resolved or rejected; and this is the plan. */
  lemma TransitionAcceptedExactly(desk: Desk, id: Id, update: Update, user: Id, root: Option<Id>)
    ensures var r := PlanTransition(desk, id, update, user, root);
            if id !in desk.disputes then r == Err(NotFound)
            else
              var dispute := desk.disputes[id];
              var resource := desk.db.slots[desk.db.bookings[dispute.booking].slot].resource;
              var next := if update.status.Some? then update.status.value else dispute.status;
              var ends := next in {RESOLVED, DisputeStatus.REJECTED};
              if !Reviews(desk.db, user, desk.db.resources[resource].owner, root) then r == Err(Forbidden)
              else if update.status.Some? && !MayMove(dispute.status, next) then r == Err(InvalidTransition)
              else if ends && !Written(if update.notes.Some? then update.notes else dispute.notes) then
                r == Err(ResolutionNotesRequired)
              else
                var notes := if update.notes.Some? then Some(Trim(update.notes.value)) else None;
                r == Ok(TransitionPlan(id, dispute.status, resource, user, update.status, notes, update.action, ends))
  {
    if id in desk.disputes {
      if update.notes.Some? {
        TrimIsTight(update.notes.value);
        BlankExactly(update.notes.value);
      }
      if desk.disputes[id].notes.Some? {
        BlankExactly(desk.disputes[id].notes.value);
      }
    }
  }

  /** A commit goes through exactly if the status is still the one read and the action
      can be taken, and then it writes exactly this; otherwise it changes nothing. */
  lemma CommitExactly(desk: Desk, plan: TransitionPlan, now: Time)
    ensures var (after, result) := CommitTransition(desk, plan, now);
            if plan.dispute !in desk.disputes || desk.disputes[plan.dispute].status != plan.expected then
              after == desk && result == Err(ConcurrentUpdate)
            else if plan.action != NONE && (plan.resource !in desk.db.resources
                    || (plan.action == RESTORE && desk.db.resources[plan.resource].unavailableDispute != Some(plan.dispute))) then
              after == desk && result == Err(ResourceActionInvalid)
            else
              var row := desk.disputes[plan.dispute];
              && result == Ok(())
              && after.disputes == desk.disputes[plan.dispute := Dispute(
                   row.booking, row.root, row.submitter,
                   if plan.status.Some? then plan.status.value else row.status,
                   if plan.notes.Some? then plan.notes else row.notes,
                   Some(plan.reviewer),
                   if plan.terminal && plan.status.Some? then Some(now) else row.resolvedAt)]
              && after.events == desk.events
                   + (if plan.status.Some? && plan.status.value != plan.expected
                      then [DisputeEvent(plan.dispute, Some(plan.expected), plan.status.value, plan.notes)] else [])
              && after.db == (match plan.action
                   case NONE => desk.db
                   case MARK_UNAVAILABLE => desk.db.(resources := desk.db.resources[plan.resource :=
                     desk.db.resources[plan.resource].(status := INACTIVE, unavailableDispute := Some(plan.dispute))])
                   case RESTORE => desk.db.(resources := desk.db.resources[plan.resource :=
                     desk.db.resources[plan.resource].(status := ACTIVE, unavailableDispute := None)]))
  {
  }

  // ---------- Event logs ----------

  lemma ChainOfSound(disputes: map<Id, Dispute>, events: seq<DisputeEvent>, d: Id)
    requires DisputeOk(disputes, events, d) && d in disputes
    ensures var log := LogOf(events, d);
            && Connected(log) && log[|log| - 1].to == disputes[d].status && |log| <= 3
            && (disputes[d].status in {RESOLVED, DisputeStatus.REJECTED} <==> disputes[d].resolvedAt.Some?)
  {
    var log := LogOf(events, d);
    ConnectedRank(log, |log| - 1);
  }

  /** However transitions interleave, each dispute's log is a connected chain of
      allowed moves from its opening to its status, at most three events long, and
      the status is terminal exactly when a resolution time is set. */
  lemma ChainInEveryState(start: DeskWorld, events: seq<DeskEvent>, d: Id)
    requires DeskInitial(start)
    ensures var w := DeskRun(start, events);
            var log := LogOf(w.events, d);
            if d in w.disputes then
              && Connected(log) && log[|log| - 1].to == w.disputes[d].status && |log| <= 3
              && (w.disputes[d].status in {RESOLVED, DisputeStatus.REJECTED} <==> w.disputes[d].resolvedAt.Some?)
            else log == []
  {
    DeskInitialInv(start);
    DeskRunInv(start, events);
    var w := DeskRun(start, events);
    assert DisputeOk(w.disputes, w.events, d);
    if d in w.disputes {
      ChainOfSound(w.disputes, w.events, d);
    }
  }

  /** What no later step undoes: a dispute's booking, and the status and time of its
      resolution. */
  predicate DisputeEvolves(before: map<Id, Dispute>, after: map<Id, Dispute>, d: Id)
    requires d in before
  {
    && d in after && after[d].booking == before[d].booking && after[d].submitter == before[d].submitter
    && (Terminal(before[d].status) ==> after[d].status == before[d].status && after[d].resolvedAt == before[d].resolvedAt)
  }

  ghost predicate DisputesEvolve(w: DeskState, v: DeskState) {
    && w.events <= v.events
    && (forall d :: d in w.disputes ==> DisputeEvolves(w.disputes, v.disputes, d))
  }

  lemma CommitDisputesEvolve(w: DeskWorld, plan: TransitionPlan)
    requires DeskSound(w) && TransitionSound(w, plan)
    ensures DisputesEvolve(w, WriteBack(w, CommitTransition(DeskOf(w), plan, w.world.clock).0))
  {
    if CommitTransition(DeskOf(w), plan, w.world.clock).1.Ok? {
      CommitWrites(DeskOf(w), plan, w.world.clock);
    }
  }

  lemma OpenEvolves(w: DeskWorld, booking: Id, user: Id, root: Option<Id>, id: Id)
    ensures DisputesEvolve(w, DeskStep(w, OpenDispute(booking, user, root, id)))
  {
    OpenStepIs(w, booking, user, root, id);
    if Open(DeskOf(w), booking, user, root, id).1.Ok? {
      OpenWrites(DeskOf(w), booking, user, root, id);
    }
  }

  lemma AtOnceEvolves(w: DeskWorld, id: Id, update: Update, user: Id, root: Option<Id>)
    requires DeskSound(w)
    ensures DisputesEvolve(w, DeskStep(w, TransitionAtOnce(id, update, user, root)))
  {
    var plan := PlanTransition(DeskOf(w), id, update, user, root);
    if plan.Ok? {
      PlanIsSound(w, id, update, user, root);
      CommitDisputesEvolve(w, plan.value);
    }
  }

  lemma StepDisputesEvolve(w: DeskWorld, e: DeskEvent)
    requires DeskSound(w)
    ensures DisputesEvolve(w, DeskStep(w, e))
  {
    match e
    case OpenDispute(booking, user, root, id) => OpenEvolves(w, booking, user, root, id);
    case CommitPending(tx) => if tx in w.pending { CommitDisputesEvolve(w, w.pending[tx]); }
    case TransitionAtOnce(id, update, user, root) => AtOnceEvolves(w, id, update, user, root);
    case _ =>
  }

  lemma DisputesEvolveTransitive(u: DeskState, v: DeskState, w: DeskState)
    requires DisputesEvolve(u, v) && DisputesEvolve(v, w)
    ensures DisputesEvolve(u, w)
  {
  }

  lemma {:induction false} RunDisputesEvolve(w: DeskWorld, events: seq<DeskEvent>)
    requires DeskInv(w)
    ensures DisputesEvolve(w, DeskRun(w, events))
    decreases |events|
  {
    if events != [] {
      var next := DeskStep(w, events[0]);
      StepDisputesEvolve(w, events[0]);
      DeskStepInv(w, events[0]);
      RunDisputesEvolve(next, events[1..]);
      DisputesEvolveTransitive(w, next, DeskRun(next, events[1..]));
    }
  }

  /** A resolution is written once: nothing later changes its status or its time, and
      the log only grows. */
  lemma ResolvedOnce(w: DeskWorld, events: seq<DeskEvent>, d: Id)
    requires DeskInv(w) && d in w.disputes && w.disputes[d].resolvedAt.Some?
    ensures var v := DeskRun(w, events);
            && w.events <= v.events && d in v.disputes
            && v.disputes[d].status == w.disputes[d].status && v.disputes[d].resolvedAt == w.disputes[d].resolvedAt
  {
    RunDisputesEvolve(w, events);
    assert DisputeOk(w.disputes, w.events, d);
    assert DisputeEvolves(w.disputes, DeskRun(w, events).disputes, d);
  }

  // ---------- Disputed bookings ----------

  /** A step of bookings and disputes is, for the booking tables, one booking step or
      none. */
  lemma WorldAfterDeskStep(w: DeskWorld, e: DeskEvent) returns (event: Event)
    ensures var v := DeskStep(w, e).world; v == w.world || v == Step(w.world, event)
  {
    event := Tick(0);
    match e
    case Base(base) => event := base;
    case OpenDispute(booking, user, root, id) =>
      if Open(DeskOf(w), booking, user, root, id).1.Ok? {
        OpenWrites(DeskOf(w), booking, user, root, id);
      }
    case ReadTransition(_, _, _, _, _) =>
    case CommitPending(tx) =>
      if tx in w.pending {
        CommitMovesWorld(w, w.pending[tx]);
        event := ActionEvent(w.pending[tx]);
      }
    case TransitionAtOnce(id, update, user, root) =>
      var plan := PlanTransition(DeskOf(w), id, update, user, root);
      if plan.Ok? {
        CommitMovesWorld(w, plan.value);
        event := ActionEvent(plan.value);
      }
  }

  lemma SettledAcrossDeskStep(w: DeskWorld, e: DeskEvent, b: Id)
    requires Inv(w.world) && b in w.world.db.bookings && w.world.db.bookings[b].status != CONFIRMED
    ensures var v := DeskStep(w, e).world; b in v.db.bookings && v.db.bookings[b] == w.world.db.bookings[b]
  {
    var event := WorldAfterDeskStep(w, e);
    StepEvolves(w.world, event);
    assert RowEvolves(w.world.db.bookings, Step(w.world, event).db.bookings, b);
  }

  lemma {:induction false} SettledAcrossDeskRun(w: DeskWorld, events: seq<DeskEvent>, b: Id)
    requires DeskInv(w) && b in w.world.db.bookings && w.world.db.bookings[b].status != CONFIRMED
    ensures var v := DeskRun(w, events).world; b in v.db.bookings && v.db.bookings[b] == w.world.db.bookings[b]
    decreases |events|
  {
    if events != [] {
      SettledAcrossDeskStep(w, events[0], b);
      DeskStepInv(w, events[0]);
      SettledAcrossDeskRun(DeskStep(w, events[0]), events[1..], b);
    }
  }

  /** A booking has at most one dispute; once disputed it stays exactly as it is,
      completed, and it is never refunded. */
  lemma DisputedBookingIsSettled(w: DeskWorld, events: seq<DeskEvent>, d: Id, other: Id)
    requires DeskInv(w) && d in w.disputes
    ensures var v, b := DeskRun(w, events), w.disputes[d].booking;
            && d in v.disputes && v.disputes[d].booking == b
            && b in v.world.db.bookings && v.world.db.bookings[b] == w.world.db.bookings[b]
            && v.world.db.bookings[b].status == COMPLETED
            && Refunds(EntriesFor(v.world.db.ledger, b)) == []
            && (other in v.disputes && v.disputes[other].booking == b ==> other == d)
  {
    var v, b := DeskRun(w, events), w.disputes[d].booking;
    DeskRunInv(w, events);
    RunDisputesEvolve(w, events);
    assert DisputeEvolves(w.disputes, v.disputes, d);
    SettledAcrossDeskRun(w, events, b);
    NoRefundOfCompleted(v.world, b);
  }

  lemma NoRefundOfCompleted(w: World, b: Id)
    requires Inv(w) && b in w.db.bookings && w.db.bookings[b].status == COMPLETED
    ensures Refunds(EntriesFor(w.db.ledger, b)) == []
  {
    assert EntriesExact(w.db.bookings, w.db.ledger, w.history, b);
    RefundsOfExact(w.db.bookings[b], b, w.history.charged[b], EndingIn(w.history, b));
  }

  // ---------- Holds ----------

  /** Every resource linked to a dispute is inactive, and is the one the dispute is
      about. */
  ghost predicate HoldsKept(w: DeskState) {
    forall r, d :: r in w.world.db.resources && w.world.db.resources[r].unavailableDispute == Some(d) ==>
      && w.world.db.resources[r].status == INACTIVE
      && Concerns(w.disputes, w.world.db.bookings, w.world.db.slots, d, r)
  }

  /** The one event that breaks a hold: an edit that sets a linked resource active. */
  predicate Reactivates(w: DeskState, e: DeskEvent) {
    && e.Base? && e.event.UpdateResource? && e.event.newStatus == Some(ACTIVE)
    && e.event.resource in w.world.db.resources
    && w.world.db.resources[e.event.resource].unavailableDispute.Some?
  }

  /** A step that creates no link and keeps a linked resource inactive. */
  predicate LinkUnchangedOrGone(w: World, v: World, r: Id) {
    && r in v.db.resources
    && (v.db.resources[r].unavailableDispute.Some? ==>
          && r in w.db.resources && v.db.resources[r].unavailableDispute == w.db.resources[r].unavailableDispute
          && (w.db.resources[r].status == INACTIVE ==> v.db.resources[r].status == INACTIVE))
  }

  lemma LinkedConcerns(w: DeskState, v: DeskState, d: Id, r: Id)
    requires Concerns(w.disputes, w.world.db.bookings, w.world.db.slots, d, r) && Carries(w, v)
    ensures Concerns(v.disputes, v.world.db.bookings, v.world.db.slots, d, r)
  {
  }

  lemma HoldsAcross(w: DeskState, v: DeskState)
    requires HoldsKept(w) && Carries(w, v)
    requires forall r :: r in v.world.db.resources ==> LinkUnchangedOrGone(w.world, v.world, r)
    ensures HoldsKept(v)
  {
  }

  /** Outside dispute steps and that edit, no link appears and no linked resource
      becomes active. */
  lemma LinksAfterBase(w: World, e: Event, r: Id)
    requires !e.HoldResource? && !e.ReleaseHold? && r in Step(w, e).db.resources
    requires !(e.UpdateResource? && e.newStatus == Some(ACTIVE) && e.resource == r
               && r in w.db.resources && w.db.resources[r].unavailableDispute.Some?)
    ensures LinkUnchangedOrGone(w, Step(w, e), r)
  {
    ResourcesAfterTransactions(w, e);
  }

  /** Booking transactions never write a resource. */
  lemma ResourcesAfterTransactions(w: World, e: Event)
    requires !e.HoldResource? && !e.ReleaseHold?
    ensures !(e.AddResource? || e.UpdateResource? || e.RemoveResource?) ==>
              Step(w, e).db.resources == w.db.resources
  {
    match e
    case Reevaluate(resource, listed) =>
      if ListsSome(w.db, resource, w.clock, listed) {
        ResourcesAfterLoop(w.db, resource, listed, w.clock);
      }
    case Create(slot, user, activeOrganization, id) =>
      if CreateBooking(w.db, slot, user, activeOrganization, id, w.clock).1.Ok? {
        CreateEffect(w.db, slot, user, activeOrganization, id, w.clock);
      }
    case _ =>
  }

  lemma {:induction false} ResourcesAfterLoop(db: Database, resource: Id, listed: seq<Id>, now: Time)
    requires forall i :: 0 <= i < |listed| ==> listed[i] in db.bookings
    ensures RevokeEach(db, resource, listed, now).resources == db.resources
    decreases |listed|
  {
    if listed != [] {
      ResourcesAfterLoop(db, resource, listed[..|listed| - 1], now);
    }
  }

  lemma BaseCarries(w: DeskWorld, event: Event)
    requires Inv(w.world)
    ensures Carries(w, DeskStep(w, Base(event)))
  {
    WorldMoves(w.world, DeskStep(w, Base(event)).world, event);
  }

  lemma BaseHolds(w: DeskWorld, event: Event)
    requires DeskInv(w) && HoldsKept(w) && !Reactivates(w, Base(event))
    ensures HoldsKept(DeskStep(w, Base(event)))
  {
    var v := DeskStep(w, Base(event));
    BaseCarries(w, event);
    if !event.HoldResource? && !event.ReleaseHold? {
      forall r | r in v.world.db.resources ensures LinkUnchangedOrGone(w.world, v.world, r) {
        LinksAfterBase(w.world, event, r);
      }
      HoldsAcross(w, v);
    }
  }

  lemma CommitCarries(w: DeskWorld, plan: TransitionPlan)
    requires Inv(w.world) && DeskSound(w) && TransitionSound(w, plan)
    ensures Carries(w, WriteBack(w, CommitTransition(DeskOf(w), plan, w.world.clock).0))
  {
    var v := WriteBack(w, CommitTransition(DeskOf(w), plan, w.world.clock).0);
    CommitMovesWorld(w, plan);
    WorldMoves(w.world, v.world, ActionEvent(plan));
    CommitDisputesEvolve(w, plan);
    forall d | d in w.disputes ensures d in v.disputes && v.disputes[d].booking == w.disputes[d].booking {
      assert DisputeEvolves(w.disputes, v.disputes, d);
    }
  }

  /** A commit leaves every resource but its own alone, and leaves its own as it was,
      without a link, or inactive and linked to its dispute. */
  predicate ResourceAfterCommit(before: map<Id, Resource>, after: map<Id, Resource>, plan: TransitionPlan, r: Id)
    requires r in after
  {
    && r in before
    && (|| after[r] == before[r]
        || (r == plan.resource && after[r].unavailableDispute == None)
        || (r == plan.resource && after[r].unavailableDispute == Some(plan.dispute) && after[r].status == INACTIVE))
  }

  lemma CommitResources(desk: Desk, plan: TransitionPlan, now: Time)
    ensures var resources := CommitTransition(desk, plan, now).0.db.resources;
            forall r :: r in resources ==> ResourceAfterCommit(desk.db.resources, resources, plan, r)
  {
  }

  lemma CommitHolds(w: DeskState, v: DeskState, plan: TransitionPlan)
    requires HoldsKept(w) && Carries(w, v) && TransitionSound(w, plan)
    requires forall r :: r in v.world.db.resources ==>
               ResourceAfterCommit(w.world.db.resources, v.world.db.resources, plan, r)
    ensures HoldsKept(v)
  {
    forall r, d | r in v.world.db.resources && v.world.db.resources[r].unavailableDispute == Some(d)
      ensures v.world.db.resources[r].status == INACTIVE
      ensures Concerns(v.disputes, v.world.db.bookings, v.world.db.slots, d, r)
    {
      assert ResourceAfterCommit(w.world.db.resources, v.world.db.resources, plan, r);
      if v.world.db.resources[r] == w.world.db.resources[r] {
        LinkedConcerns(w, v, d, r);
      } else {
        LinkedConcerns(w, v, plan.dispute, plan.resource);
      }
    }
  }

  lemma CommitKeepsHolds(w: DeskWorld, plan: TransitionPlan)
    requires Inv(w.world) && DeskSound(w) && HoldsKept(w) && TransitionSound(w, plan)
    ensures HoldsKept(WriteBack(w, CommitTransition(DeskOf(w), plan, w.world.clock).0))
  {
    CommitCarries(w, plan);
    CommitResources(DeskOf(w), plan, w.world.clock);
    CommitHolds(w, WriteBack(w, CommitTransition(DeskOf(w), plan, w.world.clock).0), plan);
  }

  lemma OpenKeepsHolds(w: DeskWorld, booking: Id, user: Id, root: Option<Id>, id: Id)
    requires HoldsKept(w)
    ensures HoldsKept(DeskStep(w, OpenDispute(booking, user, root, id)))
  {
    if Open(DeskOf(w), booking, user, root, id).1.Ok? {
      OpenWrites(DeskOf(w), booking, user, root, id);
    }
  }

  lemma ReadKeepsHolds(w: DeskWorld, tx: Id, id: Id, update: Update, user: Id, root: Option<Id>)
    requires HoldsKept(w)
    ensures HoldsKept(DeskStep(w, ReadTransition(tx, id, update, user, root)))
  {
  }

  lemma PendingHolds(w: DeskState, tx: Id)
    requires HoldsKept(w)
    ensures HoldsKept(w.(pending := w.pending - {tx}))
  {
  }

  lemma CommitPendingKeepsHolds(w: DeskWorld, tx: Id)
    requires Inv(w.world) && DeskSound(w) && HoldsKept(w)
    ensures HoldsKept(DeskStep(w, CommitPending(tx)))
  {
    if tx in w.pending {
      CommitKeepsHolds(w, w.pending[tx]);
      PendingHolds(WriteBack(w, CommitTransition(DeskOf(w), w.pending[tx], w.world.clock).0), tx);
    }
  }

  lemma AtOnceKeepsHolds(w: DeskWorld, id: Id, update: Update, user: Id, root: Option<Id>)
    requires Inv(w.world) && DeskSound(w) && HoldsKept(w)
    ensures HoldsKept(DeskStep(w, TransitionAtOnce(id, update, user, root)))
  {
    var plan := PlanTransition(DeskOf(w), id, update, user, root);
    if plan.Ok? {
      PlanIsSound(w, id, update, user, root);
      CommitKeepsHolds(w, plan.value);
    }
  }

  lemma ReactivationBreaksHold(w: DeskWorld, e: DeskEvent)
    requires Reactivates(w, e)
    ensures !HoldsKept(DeskStep(w, e))
  {
    var resources := DeskStep(w, e).world.db.resources;
    var r := e.event.resource;
    assert resources[r].status == ACTIVE;
    assert resources[r].unavailableDispute == Some(resources[r].unavailableDispute.value);
  }

  /** A step keeps every hold exactly when it is not an edit that sets a linked
      resource active. */
  lemma HoldKeptExactly(w: DeskWorld, e: DeskEvent)
    requires DeskInv(w) && HoldsKept(w)
    ensures HoldsKept(DeskStep(w, e)) <==> !Reactivates(w, e)
  {
    match e
    case Base(event) => if Reactivates(w, e) { ReactivationBreaksHold(w, e); } else { BaseHolds(w, event); }
    case OpenDispute(booking, user, root, id) => OpenKeepsHolds(w, booking, user, root, id);
    case ReadTransition(tx, id, update, user, root) => ReadKeepsHolds(w, tx, id, update, user, root);
    case CommitPending(tx) => CommitPendingKeepsHolds(w, tx);
    case TransitionAtOnce(id, update, user, root) => AtOnceKeepsHolds(w, id, update, user, root);
  }

  /** Whether some event of a run reactivates a linked resource. */
  ghost predicate EverReactivates(w: DeskWorld, events: seq<DeskEvent>)
    decreases |events|
  {
    events != [] && (Reactivates(w, events[0]) || EverReactivates(DeskStep(w, events[0]), events[1..]))
  }

  /** Whether holds are kept in every state of a run. */
  ghost predicate HoldsThroughout(w: DeskWorld, events: seq<DeskEvent>)
    decreases |events|
  {
    HoldsKept(w) && (events == [] || HoldsThroughout(DeskStep(w, events[0]), events[1..]))
  }

  /** Holds are kept in every state of a run exactly when no edit in it sets a linked
      resource active. */
  lemma {:induction false} HoldsThroughoutExactly(w: DeskWorld, events: seq<DeskEvent>)
    requires DeskInv(w) && HoldsKept(w)
    ensures HoldsThroughout(w, events) <==> !EverReactivates(w, events)
    decreases |events|
  {
    if events != [] {
      DeskStepInv(w, events[0]);
      HoldKeptExactly(w, events[0]);
      if !Reactivates(w, events[0]) {
        HoldsThroughoutExactly(DeskStep(w, events[0]), events[1..]);
      }
    }
  }

  /** A new booking is on a slot of a resource that is active at the time. */
  lemma NewBookingOnActive(w: World, event: Event, b: Id)
    requires b in Step(w, event).db.bookings && b !in w.db.bookings
    ensures var db := Step(w, event).db;
            var slot := db.bookings[b].slot;
            && db.slots == w.db.slots && db.resources == w.db.resources
            && slot in db.slots && SlotResource(db, slot).status == ACTIVE
  {
    BookingsAfterStep(w, event);
    CreateEffect(w.db, event.slot, event.user, event.activeOrganization, event.booking, w.clock);
  }

  lemma InactiveNotBooked(w: World, v: World, event: Event, r: Id, b: Id)
    requires v == w || v == Step(w, event)
    requires r in w.db.resources && w.db.resources[r].status == INACTIVE
    requires b in v.db.bookings && b !in w.db.bookings
    ensures v.db.bookings[b].slot in v.db.slots && v.db.slots[v.db.bookings[b].slot].resource != r
  {
    NewBookingOnActive(w, event, b);
  }

  lemma HeldIsInactive(w: DeskState, r: Id)
    requires HoldsKept(w) && r in w.world.db.resources && w.world.db.resources[r].unavailableDispute.Some?
    ensures w.world.db.resources[r].status == INACTIVE
  {
    var held := w.world.db.resources[r].unavailableDispute;
    assert held == Some(held.value);
  }

  /** While a resource is held, no step adds a booking on any of its slots. */
  lemma HeldResourceNotBooked(w: DeskWorld, e: DeskEvent, r: Id, b: Id)
    requires HoldsKept(w)
    requires r in w.world.db.resources && w.world.db.resources[r].unavailableDispute.Some?
    requires b in DeskStep(w, e).world.db.bookings && b !in w.world.db.bookings
    ensures var db := DeskStep(w, e).world.db;
            db.bookings[b].slot in db.slots && db.slots[db.bookings[b].slot].resource != r
  {
    HeldIsInactive(w, r);
    var event := WorldAfterDeskStep(w, e);
    InactiveNotBooked(w.world, DeskStep(w, e).world, event, r, b);
  }

  /** RESTORE goes through exactly for the dispute that holds the link, when the
      status is still the one read; a refusal changes nothing at all. */
  lemma RestoreExactly(desk: Desk, plan: TransitionPlan, now: Time)
    requires plan.action == RESTORE
    ensures var (after, result) := CommitTransition(desk, plan, now);
            && (result.Ok? <==>
                  && plan.dispute in desk.disputes && desk.disputes[plan.dispute].status == plan.expected
                  && plan.resource in desk.db.resources
                  && desk.db.resources[plan.resource].unavailableDispute == Some(plan.dispute))
            && (result.Err? ==> after == desk)
            && (result.Ok? ==> after.db.resources[plan.resource].status == ACTIVE
                               && after.db.resources[plan.resource].unavailableDispute == None)
  {
  }
}
