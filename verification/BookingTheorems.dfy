/** The main results about bookings: what holds in every state of every run, and
    what no later step can undo. */
module BookingTheorems {
  import opened Prelude
  import opened BookingModel
  import opened BookingRuns
  import opened BookingInvariant
  import opened Rules

  // ---------- Every state ----------

  /** Each balance is the user's credits less the net charges of their bookings,
      and is never negative. */
  lemma BalanceInEveryState(start: World, events: seq<Event>, user: Id, root: Id)
    requires Initial(start)
    ensures var w := Run(start, events);
            && Balance(w.db.ledger, user, root)
               == Credits(w.db.ledger, user, root) - Total(NetMap(w.db.bookings, w.history, user, root))
            && Balance(w.db.ledger, user, root) >= 0
  {
    InitialInv(start);
    RunInv(start, events);
    var w := Run(start, events);
    assert ConservedFor(w.db.bookings, w.db.ledger, w.history, user, root);
  }

  /** Each slot has at most one booking that is not cancelled, such a booking sits
      on a published slot, and a withdrawn slot is one with a withdrawal time and
      without a live booking. */
  lemma SlotsInEveryState(start: World, events: seq<Event>, a: Id, b: Id)
    requires Initial(start)
    ensures var db := Run(start, events).db;
            && (Live(db, a) && Live(db, b) && db.bookings[a].slot == db.bookings[b].slot ==> a == b)
            && (Live(db, a) ==> db.slots[db.bookings[a].slot].status == PUBLISHED)
            && (forall s :: s in db.slots ==>
                  && (db.slots[s].status == WITHDRAWN <==> db.slots[s].withdrawnAt.Some?)
                  && (db.slots[s].status == WITHDRAWN ==> !Occupied(db, s)))
  {
    InitialInv(start);
    RunInv(start, events);
  }

  /** The amounts refunded for a booking, in ledger order. */
  function Refunds(entries: seq<Entry>): seq<int> {
    if entries == [] then []
    else (if entries[0].kind == BOOKING_REFUND then [entries[0].amount] else []) + Refunds(entries[1..])
  }

  /** At most one refund is ever appended for a booking, only for a cancelled one,
      and it is the whole charge or half of it rounded up. */
  lemma RefundInEveryState(start: World, events: seq<Event>, b: Id)
    requires Initial(start) && b in Run(start, events).db.bookings
    ensures var w := Run(start, events);
            && b in w.history.charged
            && var refunds := Refunds(EntriesFor(w.db.ledger, b));
               var charge := w.history.charged[b];
               && |refunds| == (if w.db.bookings[b].status == CANCELLED && charge > 0 then 1 else 0)
               && (refunds != [] ==>
                     && b in w.history.ended
                     && refunds[0] == (if w.history.ended[b] == ByUser then (charge + 1) / 2 else charge)
                     && charge <= 2 * refunds[0] && refunds[0] <= charge)
  {
    InitialInv(start);
    RunInv(start, events);
    var w := Run(start, events);
    assert EntriesExact(w.db.bookings, w.db.ledger, w.history, b);
    RefundsOfExact(w.db.bookings[b], b, w.history.charged[b], EndingIn(w.history, b));
  }

  lemma RefundsOfExact(row: Booking, b: Id, charge: int, ending: Option<Ending>)
    requires charge >= 0
    ensures Refunds(DeductionEntry(row, b, charge) + RefundEntry(row, b, charge, ending))
         == if ending.Some? && charge > 0 then [RefundDue(charge, ending.value)] else []
  {
    var entries := DeductionEntry(row, b, charge) + RefundEntry(row, b, charge, ending);
    if charge > 0 {
      assert entries[1..] == RefundEntry(row, b, charge, ending);
      assert Refunds(entries) == Refunds(entries[1..]);
      if ending.Some? {
        assert entries[1..][1..] == [];
      } else {
        assert entries[1..] == [];
      }
    } else {
      assert entries == [];
    }
  }

  // ---------- What later steps keep ----------

  predicate RowEvolves(before: map<Id, Booking>, after: map<Id, Booking>, b: Id)
    requires b in before
  {
    && b in after && SameCustomer(before[b], after[b])
    && (before[b].status != CONFIRMED ==> after[b] == before[b])
  }

  predicate SlotEvolves(before: map<Id, Slot>, after: map<Id, Slot>, s: Id)
    requires s in before
  {
    s in after && after[s].resource == before[s].resource && after[s].startsAt == before[s].startsAt
  }

  ghost predicate RowsEvolve(before: map<Id, Booking>, after: map<Id, Booking>) {
    forall b :: b in before ==> RowEvolves(before, after, b)
  }

  ghost predicate SlotsEvolve(before: map<Id, Slot>, after: map<Id, Slot>) {
    forall s :: s in before ==> SlotEvolves(before, after, s)
  }

  ghost predicate HistoryGrows(before: History, after: History) {
    && (forall b :: b in before.charged ==> b in after.charged && after.charged[b] == before.charged[b])
    && (forall b :: b in before.ended ==> b in after.ended && after.ended[b] == before.ended[b])
  }

  /** What a step, and so a run, never undoes. */
  ghost predicate Evolves(w: World, v: World) {
    && w.db.ledger <= v.db.ledger
    && HistoryGrows(w.history, v.history)
    && RowsEvolve(w.db.bookings, v.db.bookings)
    && SlotsEvolve(w.db.slots, v.db.slots)
  }

  lemma EvolvesTransitive(u: World, v: World, w: World)
    requires Evolves(u, v) && Evolves(v, w)
    ensures Evolves(u, w)
  {
  }

  lemma ReleaseEvolves(db: Database, id: Id, actor: Option<Id>, slotStatus: SlotStatus, refund: int, now: Time)
    requires id in db.bookings && db.bookings[id].status == CONFIRMED
    ensures var db' := Release(db, id, actor, slotStatus, refund, now);
            && db.ledger <= db'.ledger && RowsEvolve(db.bookings, db'.bookings) && SlotsEvolve(db.slots, db'.slots)
  {
  }

  lemma CommitEvolves(w: World, tx: Id)
    requires Inv(w) && tx in w.plans
    ensures Evolves(w, CommitStep(w, tx))
  {
    var plan := w.plans[tx];
    if CommitCancellation(w.db, plan).1.Ok? {
      ReleaseEvolves(w.db, plan.booking, Some(plan.actor), plan.slotStatus, plan.refund, plan.now);
    }
  }

  lemma RevokeOneEvolves(u: World, last: Id)
    requires Inv(u) && last in u.db.bookings && u.db.bookings[last].status == CONFIRMED
    ensures Evolves(u, u.(db := Revoke(u.db, last, u.clock),
                          history := u.history.(ended := u.history.ended[last := ByRevocation])))
  {
    var row := u.db.bookings[last];
    ReleaseEvolves(u.db, last, row.cancelledBy, WITHDRAWN, DeductedPoints(u.db.ledger, last, row.user), u.clock);
  }

  lemma {:induction false} RevokeEvolves(w: World, resource: Id, listed: seq<Id>)
    requires Inv(w) && ConfirmedEach(w.db, listed)
    ensures Evolves(w, RevokeStep(w, resource, listed))
    decreases |listed|
  {
    if listed != [] {
      var last, rest := listed[|listed| - 1], listed[..|listed| - 1];
      assert listed == rest + [last];
      RevokeEvolves(w, resource, rest);
      RevokeInv(w, resource, rest);
      RevokeStepLast(w, resource, rest, last);
      RevokeFrame(w.db, resource, rest, w.clock, last);
      if !KeepsAccess(w.db, resource, w.db.bookings[last].user) {
        var u := RevokeStep(w, resource, rest);
        RevokeOneEvolves(u, last);
        EvolvesTransitive(w, u, RevokeStep(w, resource, listed));
      }
    }
  }

  lemma CreateEvolves(w: World, slot: Id, user: Id, activeOrganization: Option<Id>, id: Id)
    requires Inv(w)
    ensures Evolves(w, CreateStep(w, slot, user, activeOrganization, id))
  {
    if CreateBooking(w.db, slot, user, activeOrganization, id, w.clock).1.Ok? {
      CreateEffect(w.db, slot, user, activeOrganization, id, w.clock);
      AddingEvolves(w, CreateStep(w, slot, user, activeOrganization, id), id);
    }
  }

  lemma AddingEvolves(w: World, v: World, id: Id)
    requires id !in w.db.bookings && id !in w.history.charged && id in v.db.bookings && id in v.history.charged
    requires v.db.bookings == w.db.bookings[id := v.db.bookings[id]] && v.db.slots == w.db.slots
    requires v.history == w.history.(charged := w.history.charged[id := v.history.charged[id]])
    requires w.db.ledger <= v.db.ledger
    ensures Evolves(w, v)
  {
  }

  lemma EnvironmentEvolves(w: World, e: Event)
    ensures Evolves(w, w.(db := EnvironmentStep(w.db, e)))
  {
    EnvironmentFrame(w.db, e);
  }

  lemma CompleteEvolves(w: World, id: Id, administrator: Id)
    ensures Evolves(w, Step(w, Complete(id, administrator)))
  {
  }

  lemma ReevaluateEvolves(w: World, resource: Id, listed: seq<Id>)
    requires Inv(w) && ListsSome(w.db, resource, w.clock, listed)
    ensures Evolves(w, Step(w, Reevaluate(resource, listed)))
  {
    ReevaluateIs(w, resource, listed);
    RevokeEvolves(w, resource, listed);
  }

  /** No step rewrites the ledger, a charge, an ending, a customer, a notice
      period, a start time, or a booking that is no longer confirmed. */
  lemma StepEvolves(w: World, e: Event)
    requires Inv(w)
    ensures Evolves(w, Step(w, e))
  {
    match e
    case Create(slot, user, activeOrganization, id) => CreateEvolves(w, slot, user, activeOrganization, id);
    case CommitCancel(tx) => if tx in w.plans { CommitEvolves(w, tx); }
    case Reevaluate(resource, listed) =>
      if ListsSome(w.db, resource, w.clock, listed) { ReevaluateEvolves(w, resource, listed); }
    case Complete(id, administrator) => CompleteEvolves(w, id, administrator);
    case Tick(_) =>
    case ReadCancel(_, _, _, _) =>
    case GrantPoints(_, _, _) =>
    case _ =>
      EnvironmentIs(w, e);
      EnvironmentEvolves(w, e);
  }

  lemma {:induction false} RunEvolves(w: World, events: seq<Event>)
    requires Inv(w)
    ensures Evolves(w, Run(w, events))
    decreases |events|
  {
    if events != [] {
      var next := Step(w, events[0]);
      StepEvolves(w, events[0]);
      StepInv(w, events[0]);
      RunEvolves(next, events[1..]);
      EvolvesTransitive(w, next, Run(next, events[1..]));
    }
  }

  /** Only a creation adds a booking. */
  lemma BookingsAfterStep(w: World, e: Event)
    ensures Step(w, e).db.bookings.Keys
         == w.db.bookings.Keys
            + if e.Create? && CreateBooking(w.db, e.slot, e.user, e.activeOrganization, e.booking, w.clock).1.Ok?
              then {e.booking} else {}
  {
    match e
    case Create(slot, user, activeOrganization, id) => CreateKeys(w, slot, user, activeOrganization, id);
    case Reevaluate(_, _) =>
    case CommitCancel(tx) => if tx in w.plans { CommitKeys(w, tx); }
    case Complete(id, administrator) =>
      assert CompleteBooking(w.db, id, administrator, w.clock).0.bookings.Keys == w.db.bookings.Keys;
    case Tick(_) =>
    case ReadCancel(_, _, _, _) =>
    case GrantPoints(_, _, _) =>
    case _ => EnvironmentFrame(w.db, e);
  }

  lemma CreateKeys(w: World, slot: Id, user: Id, activeOrganization: Option<Id>, id: Id)
    ensures CreateStep(w, slot, user, activeOrganization, id).db.bookings.Keys
         == w.db.bookings.Keys
            + if CreateBooking(w.db, slot, user, activeOrganization, id, w.clock).1.Ok? then {id} else {}
  {
    if CreateBooking(w.db, slot, user, activeOrganization, id, w.clock).1.Ok? {
      CreateEffect(w.db, slot, user, activeOrganization, id, w.clock);
    }
  }

  lemma CommitKeys(w: World, tx: Id)
    requires tx in w.plans
    ensures CommitStep(w, tx).db.bookings.Keys == w.db.bookings.Keys
  {
  }

  /** A new booking never lands on an occupied slot. */
  lemma NewBookingOnFreeSlot(w: World, e: Event, b: Id, other: Id)
    requires Live(w.db, b)
    requires other in Step(w, e).db.bookings && other !in w.db.bookings
    ensures Step(w, e).db.bookings[other].slot != w.db.bookings[b].slot
  {
    BookingsAfterStep(w, e);
    CreateEffect(w.db, e.slot, e.user, e.activeOrganization, e.booking, w.clock);
  }

  lemma CompletedStep(w: World, e: Event, b: Id, other: Id)
    requires Inv(w) && b in w.db.bookings && w.db.bookings[b].status == COMPLETED
    ensures var v := Step(w, e);
            && b in v.db.bookings && v.db.bookings[b] == w.db.bookings[b]
            && (other in v.db.bookings && v.db.bookings[other].slot == w.db.bookings[b].slot ==> other in w.db.bookings)
  {
    StepEvolves(w, e);
    assert RowEvolves(w.db.bookings, Step(w, e).db.bookings, b);
    if other in Step(w, e).db.bookings && other !in w.db.bookings {
      NewBookingOnFreeSlot(w, e, b, other);
    }
  }

  /** A completed booking stays as it is, and its slot never takes another one. */
  lemma {:induction false} CompletedSlotNeverRebooked(w: World, events: seq<Event>, b: Id, other: Id)
    requires Inv(w) && b in w.db.bookings && w.db.bookings[b].status == COMPLETED
    ensures var v := Run(w, events);
            && b in v.db.bookings && v.db.bookings[b] == w.db.bookings[b]
            && (other in v.db.bookings && v.db.bookings[other].slot == w.db.bookings[b].slot ==> other in w.db.bookings)
    decreases |events|
  {
    if events != [] {
      var next := Step(w, events[0]);
      StepInv(w, events[0]);
      CompletedStep(w, events[0], b, other);
      CompletedSlotNeverRebooked(next, events[1..], b, other);
      SlotOfBookingFixed(next, events[1..], other);
    }
  }

  lemma SlotOfBookingFixed(w: World, events: seq<Event>, b: Id)
    requires Inv(w)
    ensures b in w.db.bookings ==>
              b in Run(w, events).db.bookings && Run(w, events).db.bookings[b].slot == w.db.bookings[b].slot
  {
    RunEvolves(w, events);
    if b in w.db.bookings {
      assert RowEvolves(w.db.bookings, Run(w, events).db.bookings, b);
    }
  }

  // ---------- Cancellations in a race ----------

  /** Whether an event is a cancellation of a booking that commits. */
  predicate CommitsCancel(w: World, e: Event, b: Id) {
    && e.CommitCancel? && e.tx in w.plans && w.plans[e.tx].booking == b
    && CommitCancellation(w.db, w.plans[e.tx]).1.Ok?
  }

  ghost function CommitCount(w: World, events: seq<Event>, b: Id): nat
    decreases |events|
  {
    if events == [] then 0
    else (if CommitsCancel(w, events[0], b) then 1 else 0) + CommitCount(Step(w, events[0]), events[1..], b)
  }

  predicate EndedByCancel(w: World, b: Id) {
    b in w.history.ended && w.history.ended[b] != ByRevocation
  }

  /** Of any number of cancellations of one booking, however their reads and writes
      interleave with each other and with everything else, at most one commits; one
      does exactly when the booking ends up cancelled by its user or by an
      administrator. */
  lemma {:induction false} OneCancellationCommits(w: World, events: seq<Event>, b: Id)
    requires Inv(w)
    ensures CommitCount(w, events, b) <= 1
    ensures b in w.db.bookings && w.db.bookings[b].status != CONFIRMED ==> CommitCount(w, events, b) == 0
    ensures !EndedByCancel(w, b) ==> (CommitCount(w, events, b) == 1 <==> EndedByCancel(Run(w, events), b))
    decreases |events|
  {
    if events != [] {
      var next := Step(w, events[0]);
      StepInv(w, events[0]);
      OneCancellationCommits(next, events[1..], b);
      SettledStays(w, events[0], b);
      EndingStays(next, events[1..], b);
      if !EndedByCancel(w, b) {
        EndedByCancelStep(w, events[0], b);
      }
    }
  }

  lemma SettledStays(w: World, e: Event, b: Id)
    requires Inv(w)
    ensures b in w.db.bookings && w.db.bookings[b].status != CONFIRMED ==>
              && !CommitsCancel(w, e, b)
              && b in Step(w, e).db.bookings && Step(w, e).db.bookings[b].status != CONFIRMED
    ensures EndedByCancel(w, b) ==> b in w.db.bookings && w.db.bookings[b].status != CONFIRMED
  {
    StepEvolves(w, e);
    if b in w.db.bookings {
      assert RowEvolves(w.db.bookings, Step(w, e).db.bookings, b);
    }
  }

  lemma EndingStays(w: World, events: seq<Event>, b: Id)
    requires Inv(w)
    ensures EndedByCancel(w, b) ==> EndedByCancel(Run(w, events), b)
  {
    RunEvolves(w, events);
  }

  lemma EndedByCancelStep(w: World, e: Event, b: Id)
    requires Inv(w) && !EndedByCancel(w, b)
    ensures CommitsCancel(w, e, b) <==> EndedByCancel(Step(w, e), b)
    ensures CommitsCancel(w, e, b) ==> b in Step(w, e).db.bookings && Step(w, e).db.bookings[b].status == CANCELLED
  {
    match e
    case Reevaluate(resource, listed) =>
      if ListsSome(w.db, resource, w.clock, listed) {
        RevokedByRevocation(w.db, resource, listed, w.history.ended, b);
      }
    case _ =>
  }

  lemma {:induction false} RevokedByRevocation(db: Database, resource: Id, listed: seq<Id>, ended: map<Id, Ending>, b: Id)
    requires forall i :: 0 <= i < |listed| ==> listed[i] in db.bookings
    ensures var after := EndEach(db, resource, listed, ended);
            b in after ==> after[b] == ByRevocation || (b in ended && after[b] == ended[b])
    decreases |listed|
  {
    if listed != [] {
      RevokedByRevocation(db, resource, listed[..|listed| - 1], ended, b);
    }
  }

  /** A pending cancellation commits exactly while its booking is confirmed; after a
      refusal nothing has changed, and after any ending every later one is refused. */
  lemma CommitOnlyWhileConfirmed(w: World, tx: Id, events: seq<Event>, later: Id)
    requires Inv(w) && tx in w.plans
    ensures var plan := w.plans[tx];
            && plan.booking in w.db.bookings
            && (CommitsCancel(w, CommitCancel(tx), plan.booking) <==> w.db.bookings[plan.booking].status == CONFIRMED)
            && (!CommitsCancel(w, CommitCancel(tx), plan.booking) ==> Step(w, CommitCancel(tx)).db == w.db)
            && var v := Run(Step(w, CommitCancel(tx)), events);
               later in v.plans && v.plans[later].booking == plan.booking ==>
                 CommitCancellation(v.db, v.plans[later]) == (v.db, Err(CancellationConflict))
  {
    var plan := w.plans[tx];
    assert PlanSound(w.db.bookings, w.db.slots, w.history, plan);
    CommitSettles(w, tx);
    StepInv(w, CommitCancel(tx));
    SettledForever(Step(w, CommitCancel(tx)), events, plan.booking);
  }

  lemma CommitSettles(w: World, tx: Id)
    requires tx in w.plans && w.plans[tx].booking in w.db.bookings
    ensures var next := Step(w, CommitCancel(tx));
            w.plans[tx].booking in next.db.bookings && next.db.bookings[w.plans[tx].booking].status != CONFIRMED
  {
  }

  lemma SettledForever(w: World, events: seq<Event>, b: Id)
    requires Inv(w) && b in w.db.bookings && w.db.bookings[b].status != CONFIRMED
    ensures var v := Run(w, events); b in v.db.bookings && v.db.bookings[b] == w.db.bookings[b]
  {
    RunEvolves(w, events);
    assert RowEvolves(w.db.bookings, Run(w, events).db.bookings, b);
  }

  // ---------- Fixed at creation ----------

  /** Whatever prices and notice periods are edited after a booking is made, its
      entries follow the price at creation, and a cancellation by the user was read
      strictly before the start less the notice at creation. */
  lemma PriceAndNoticeFixedAtCreation(w: World, slot: Id, user: Id, activeOrganization: Option<Id>, id: Id, events: seq<Event>)
    requires Inv(w)
    requires CreateBooking(w.db, slot, user, activeOrganization, id, w.clock).1.Ok?
    ensures slot in w.db.slots
    ensures var price, notice := SlotResource(w.db, slot).pointCost, SlotResource(w.db, slot).noticeMinutes;
            var v := Run(Step(w, Create(slot, user, activeOrganization, id)), events);
            && id in v.db.bookings && v.db.bookings[id].slot == slot
            && EntriesFor(v.db.ledger, id)
               == DeductionEntry(v.db.bookings[id], id, price) + RefundEntry(v.db.bookings[id], id, price, EndingIn(v.history, id))
            && (EndingIn(v.history, id) == Some(ByUser) ==>
                  && v.db.bookings[id].cancelledAt.Some?
                  && v.db.bookings[id].cancelledAt.value < w.db.slots[slot].startsAt - notice * 60_000)
  {
    var e := Create(slot, user, activeOrganization, id);
    var next := Step(w, e);
    CreatedRow(w, slot, user, activeOrganization, id);
    StepInv(w, e);
    FixedFor(next, events, id);
  }

  lemma CreatedRow(w: World, slot: Id, user: Id, activeOrganization: Option<Id>, id: Id)
    requires CreateBooking(w.db, slot, user, activeOrganization, id, w.clock).1.Ok?
    ensures slot in w.db.slots
    ensures var next := Step(w, Create(slot, user, activeOrganization, id));
            && next.db.slots == w.db.slots && id in next.history.charged
            && next.history.charged[id] == SlotResource(w.db, slot).pointCost
            && id in next.db.bookings && next.db.bookings[id].slot == slot
            && next.db.bookings[id].noticeMinutes == SlotResource(w.db, slot).noticeMinutes
  {
    CreateEffect(w.db, slot, user, activeOrganization, id, w.clock);
  }

  /** The charge, the notice period and the start time of a booking never change. */
  lemma FixedFor(w: World, events: seq<Event>, id: Id)
    requires Inv(w) && id in w.db.bookings
    ensures id in w.history.charged
    ensures var v, row := Run(w, events), w.db.bookings[id];
            && id in v.db.bookings && v.db.bookings[id].slot == row.slot
            && EntriesFor(v.db.ledger, id)
               == DeductionEntry(v.db.bookings[id], id, w.history.charged[id])
                  + RefundEntry(v.db.bookings[id], id, w.history.charged[id], EndingIn(v.history, id))
            && (EndingIn(v.history, id) == Some(ByUser) ==>
                  && v.db.bookings[id].cancelledAt.Some?
                  && v.db.bookings[id].cancelledAt.value < w.db.slots[row.slot].startsAt - row.noticeMinutes * 60_000)
  {
    RunInv(w, events);
    RunEvolves(w, events);
    var v := Run(w, events);
    assert RowEvolves(w.db.bookings, v.db.bookings, id);
    assert SlotEvolves(w.db.slots, v.db.slots, w.db.bookings[id].slot);
    assert EntriesExact(v.db.bookings, v.db.ledger, v.history, id);
  }

  // ---------- When a transaction is accepted ----------

  /** A creation is accepted exactly when the user may book the slot and the new
      identifier is new; then it writes just the booking and its deduction, and every
      other creation changes nothing. */
  lemma CreationAcceptedExactly(db: Database, slot: Id, user: Id, activeOrganization: Option<Id>, id: Id, now: Time)
    ensures var (after, result) := CreateBooking(db, slot, user, activeOrganization, id, now);
            && (result.Ok? <==> MayBook(db, slot, user, activeOrganization, now) && id !in db.bookings)
            && (result.Ok? ==> result.value == id && after == WithBooking(db, slot, user, activeOrganization, id, now))
            && (result.Err? ==> after == db)
  {
    ValidatesExactly(db, slot, user, activeOrganization, now);
    if MayBook(db, slot, user, activeOrganization, now) {
      assert !Occupied(db, slot);
    }
  }

  /** Validation accepts exactly the bookings a user may make. */
  lemma ValidatesExactly(db: Database, slot: Id, user: Id, activeOrganization: Option<Id>, now: Time)
    ensures var r := Validate(db, slot, user, activeOrganization, now);
            && (r.Ok? <==> MayBook(db, slot, user, activeOrganization, now))
            && (r.Ok? || r.error.InsufficientPoints? <==> OpenFor(db, slot, user, activeOrganization, now))
            && (r.Ok? ==>
                  var root, resource := db.organizations[activeOrganization.value].root, SlotResource(db, slot);
                  r.value == BookingContext(user, root, db.slots[slot].resource, slot, resource.pointCost, resource.noticeMinutes))
  {
    ActsExactly(db, user, activeOrganization);
    if Acts(db, user, activeOrganization) && slot in db.slots {
      AccessExactly(db, db.slots[slot].resource, user, db.organizations[activeOrganization.value].root);
      assert Free(db, slot) <==> !Occupied(db, slot);
    }
  }

  lemma ActsExactly(db: Database, user: Id, activeOrganization: Option<Id>)
    ensures ResolveTenant(db, user, activeOrganization)
         == if Acts(db, user, activeOrganization) then Ok(db.organizations[activeOrganization.value].root) else Err(Unauthorized)
  {
  }

  lemma AccessExactly(db: Database, resource: Id, user: Id, root: Id)
    ensures CanAccess(db, resource, user, root) <==> MayUseIn(db, resource, user, root)
    ensures KeepsAccess(db, resource, user) <==> MayUse(db, resource, user)
  {
    if MayUseIn(db, resource, user, root) {
      var o :| && (o == db.resources[resource].owner || o in db.resources[resource].allowed) && ApprovedIn(db, user, o)
               && o in db.organizations && db.organizations[o].root == root;
      assert o in BookableBy(db.resources[resource]) && Approved(db, user, o);
    }
    if MayUse(db, resource, user) {
      var o :| (o == db.resources[resource].owner || o in db.resources[resource].allowed) && ApprovedIn(db, user, o);
      assert o in BookableBy(db.resources[resource]) && Approved(db, user, o);
    }
    if CanAccess(db, resource, user, root) {
      var o :| && o in BookableBy(db.resources[resource]) && Approved(db, user, o)
               && o in db.organizations && db.organizations[o].root == root;
      assert ApprovedIn(db, user, o);
    }
    if KeepsAccess(db, resource, user) {
      var o :| o in BookableBy(db.resources[resource]) && Approved(db, user, o);
      assert ApprovedIn(db, user, o);
    }
  }

  /** The error of a refused creation names the first condition that fails. */
  lemma CreationRefusals(db: Database, slot: Id, user: Id, activeOrganization: Option<Id>, id: Id, now: Time)
    ensures var r := CreateBooking(db, slot, user, activeOrganization, id, now).1;
            if !Acts(db, user, activeOrganization) then r == Err(Unauthorized)
            else
              var root := db.organizations[activeOrganization.value].root;
              if !Visible(db, slot, root) then r == Err(SlotNotFound)
              else
                var resource := db.resources[db.slots[slot].resource];
                && (resource.status == INACTIVE ==> r == Err(ResourceInactive))
                && (resource.status == ACTIVE && !MayUseIn(db, db.slots[slot].resource, user, root) ==> r == Err(AccessDenied))
                && (MayUseIn(db, db.slots[slot].resource, user, root) ==>
                      && (db.slots[slot].startsAt <= now ==> r == Err(SlotStarted))
                      && (db.slots[slot].startsAt > now && !Free(db, slot) ==> r == Err(SlotUnavailable))
                      && (db.slots[slot].startsAt > now && Free(db, slot) && resource.pointCost < 0 ==> r == Err(PointCostInvalid)))
                && (OpenFor(db, slot, user, activeOrganization, now) ==>
                      var balance := Balance(db.ledger, user, root);
                      r == if balance < resource.pointCost then Err(InsufficientPoints(balance, resource.pointCost))
                           else if id in db.bookings then Err(ConcurrentConflict) else Ok(id))
  {
    ActsExactly(db, user, activeOrganization);
    if Acts(db, user, activeOrganization) && slot in db.slots {
      AccessExactly(db, db.slots[slot].resource, user, db.organizations[activeOrganization.value].root);
      assert Free(db, slot) <==> !Occupied(db, slot);
    }
  }

  /** Who may cancel a booking now: its user, without a choice about the slot and
      before the deadline; or an administrator of the owner, with such a choice. */
  predicate MayCancel(t: Tables, id: Id, actor: Id, makeSlotAvailable: Option<bool>, now: Time) {
    && id in t.bookings && t.bookings[id].status == CONFIRMED
    && t.bookings[id].slot in t.slots && t.slots[t.bookings[id].slot].resource in t.resources
    && (if t.bookings[id].user == actor && makeSlotAvailable == None then
          now < t.slots[t.bookings[id].slot].startsAt - t.bookings[id].noticeMinutes * 60_000
        else
          makeSlotAvailable.Some? && AdministratorOf(t, actor, t.resources[t.slots[t.bookings[id].slot].resource].owner))
  }

  /** A cancellation that nothing interrupts is accepted exactly then, and writes
      exactly this: the row, the slot published again unless an administrator withdraws
      it, and half the charge back to a user, all of it after an administrator. */
  lemma CancellationExactly(w: World, id: Id, actor: Id, makeSlotAvailable: Option<bool>)
    requires Inv(w)
    ensures var plan := PlanCancellation(w.db, id, actor, makeSlotAvailable, w.clock);
            && (plan.Ok? <==> MayCancel(w.db, id, actor, makeSlotAvailable, w.clock))
            && (plan.Ok? ==>
                  && id in w.history.charged
                  && var (after, result) := CommitCancellation(w.db, plan.value);
                     var row, charge := w.db.bookings[id], w.history.charged[id];
                     var withdrawn := makeSlotAvailable == Some(false);
                     var refund := if makeSlotAvailable == None then (charge + 1) / 2 else charge;
                     && result.Ok?
                     && after == w.db.(bookings := after.bookings, slots := after.slots, ledger := after.ledger)
                     && after.bookings == w.db.bookings[id :=
                          row.(status := CANCELLED, cancelledAt := Some(w.clock), cancelledBy := Some(actor))]
                     && after.slots == w.db.slots[row.slot := w.db.slots[row.slot].(
                          status := if withdrawn then WITHDRAWN else PUBLISHED,
                          withdrawnAt := if withdrawn then Some(w.clock) else None)]
                     && after.ledger == w.db.ledger + if refund > 0
                          then [Entry(row.user, row.root, Some(id), refund, BOOKING_REFUND)] else [])
  {
    if id in w.db.bookings && w.db.bookings[id].status == CONFIRMED {
      assert EntriesExact(w.db.bookings, w.db.ledger, w.history, id);
      DeductedIsCharged(w.db.bookings, w.db.ledger, w.history, id);
      var plan := PlanCancellation(w.db, id, actor, makeSlotAvailable, w.clock);
      if plan.Ok? {
        ReleaseWrites(w.db, id, Some(actor), plan.value.slotStatus, w.history.charged[id], w.clock, EndingOf(plan.value));
      }
    }
  }

  /** The error of a refused cancellation names the first condition that fails. */
  lemma CancellationRefusals(db: Database, id: Id, actor: Id, makeSlotAvailable: Option<bool>, now: Time)
    ensures var plan := PlanCancellation(db, id, actor, makeSlotAvailable, now);
            if id !in db.bookings then plan == Err(BookingNotFound)
            else if db.bookings[id].status != CONFIRMED then plan == Err(CannotBeCancelled)
            else if db.bookings[id].user == actor && makeSlotAvailable == None then
              plan.Err? ==> plan.error == CancellationStarted
            else if !AdministratorOf(db, actor, db.resources[db.slots[db.bookings[id].slot].resource].owner) then
              plan == Err(AdministratorRequired)
            else plan.Err? ==> plan.error == CancellationInput
  {
  }

  /** A completion is accepted exactly from an administrator of the owner, for a booking
      that is confirmed or completed already. It completes a confirmed one, at this
      time, and changes nothing else. */
  lemma CompletionExactly(db: Database, id: Id, actor: Id, now: Time)
    ensures var (after, result) := CompleteBooking(db, id, actor, now);
            if id !in db.bookings then after == db && result == Err(BookingNotFound)
            else if !AdministratorOf(db, actor, db.resources[db.slots[db.bookings[id].slot].resource].owner) then
              after == db && result == Err(AdministratorRequired)
            else match db.bookings[id].status
              case CANCELLED => after == db && result == Err(CannotBeCompleted)
              case COMPLETED => after == db && result == Ok(())
              case CONFIRMED =>
                && result == Ok(())
                && after == db.(bookings := db.bookings[id :=
                     db.bookings[id].(status := COMPLETED, completedAt := Some(now))])
  {
  }
}
