/** Completion and revocation write a booking without looking at its status again, so
    their writes can come arbitrarily late. What then keeps the tables consistent is
    the database: the check constraints on a booking row, and the unique index on its
    refund. This module says exactly how far that goes. */
module StaleWrites {
  import opened Prelude
  import opened BookingModel
  import opened BookingRuns
  import opened BookingInvariant
  import opened Reevaluation

  /** The check constraints on a booking row. */
  predicate RowChecks(row: Booking) {
    && (row.status == CANCELLED <==> row.cancelledAt.Some?)
    && (row.status == COMPLETED <==> row.completedAt.Some?)
  }

  ghost predicate ChecksHold(bookings: map<Id, Booking>) {
    forall b :: b in bookings ==> RowChecks(bookings[b])
  }

  /** Whether a booking has a refund entry; the unique index allows no second one. */
  predicate Refunded(ledger: seq<Entry>, id: Id) {
    exists i :: 0 <= i < |ledger| && ledger[i].booking == Some(id) && ledger[i].kind == BOOKING_REFUND
  }

  /** What the reads of a completion decide: whether to write at all. */
  function PlanCompletion(db: Database, id: Id, administrator: Id): Result<bool, BookingError> {
    if id !in db.bookings then Err(BookingNotFound)
    else if !IsAdministrator(db, administrator, SlotResource(db, db.bookings[id].slot).owner) then Err(AdministratorRequired)
    else match db.bookings[id].status
      case COMPLETED => Ok(false)
      case CANCELLED => Err(CannotBeCompleted)
      case CONFIRMED => Ok(true)
  }

  function CompletedRow(row: Booking, now: Time): Booking {
    row.(status := COMPLETED, completedAt := Some(now))
  }

  /** The write of a completion, whatever the status is by now. */
  function LateComplete(db: Database, id: Id, now: Time): Database {
    if id in db.bookings && RowChecks(CompletedRow(db.bookings[id], now))
    then db.(bookings := db.bookings[id := CompletedRow(db.bookings[id], now)]) else db
  }

  /** The transaction of a revocation, whatever the status is by now; a broken
      constraint rolls all of it back. */
  function LateRevoke(db: Database, id: Id, now: Time): Database {
    if id !in db.bookings then db
    else
      var after := Revoke(db, id, now);
      if RowChecks(after.bookings[id]) && !(after.ledger != db.ledger && Refunded(db.ledger, id)) then after else db
  }

  /** Any booking may have been read while it was confirmed, so the late writes may
      happen to any booking at any time. A revocation is stamped with the time of its
      reads. */
  datatype LateEvent = OnTime(event: Event) | WriteComplete(booking: Id) | WriteRevocation(booking: Id, readAt: Time)

  ghost function LateStep(w: World, e: LateEvent): World {
    match e
    case OnTime(event) => Step(w, event)
    case WriteComplete(id) => w.(db := LateComplete(w.db, id, w.clock))
    case WriteRevocation(id, readAt) =>
      var db := LateRevoke(w.db, id, readAt);
      if db == w.db then w else w.(db := db, history := w.history.(ended := w.history.ended[id := ByRevocation]))
  }

  /** The one late write that does harm: the revocation of a free booking that was
      cancelled meanwhile, on a slot that was booked again. */
  predicate Harmful(w: World, e: LateEvent) {
    && e.WriteRevocation? && e.booking in w.db.bookings && w.db.bookings[e.booking].status == CANCELLED
    && e.booking in w.history.charged && w.history.charged[e.booking] == 0
    && Occupied(w.db, w.db.bookings[e.booking].slot)
  }

  // ---------- The constraints hold on time ----------

  lemma CreateKeepsChecks(w: World, slot: Id, user: Id, activeOrganization: Option<Id>, id: Id)
    requires ChecksHold(w.db.bookings)
    ensures ChecksHold(CreateBooking(w.db, slot, user, activeOrganization, id, w.clock).0.bookings)
  {
    if CreateBooking(w.db, slot, user, activeOrganization, id, w.clock).1.Ok? {
      CreateEffect(w.db, slot, user, activeOrganization, id, w.clock);
    }
  }

  lemma CommitKeepsChecks(w: World, tx: Id)
    requires ChecksHold(w.db.bookings) && tx in w.plans
    ensures ChecksHold(CommitStep(w, tx).db.bookings)
  {
  }

  lemma RevokeKeepsChecks(w: World, resource: Id, listed: seq<Id>)
    requires ListsSome(w.db, resource, w.clock, listed) && ChecksHold(w.db.bookings)
    ensures ChecksHold(Step(w, Reevaluate(resource, listed)).db.bookings)
  {
    LoopKeepsChecks(w.db, resource, listed, w.clock);
  }

  lemma CompleteKeepsChecks(w: World, id: Id, administrator: Id)
    requires ChecksHold(w.db.bookings)
    ensures ChecksHold(CompleteBooking(w.db, id, administrator, w.clock).0.bookings)
  {
  }

  /** On time, no step breaks the constraints. */
  lemma StepKeepsChecks(w: World, e: Event)
    requires ChecksHold(w.db.bookings)
    ensures ChecksHold(Step(w, e).db.bookings)
  {
    match e
    case Create(slot, user, activeOrganization, id) => CreateKeepsChecks(w, slot, user, activeOrganization, id);
    case Reevaluate(resource, listed) =>
      if ListsSome(w.db, resource, w.clock, listed) { RevokeKeepsChecks(w, resource, listed); }
    case CommitCancel(tx) => if tx in w.plans { CommitKeepsChecks(w, tx); }
    case Complete(id, administrator) => CompleteKeepsChecks(w, id, administrator);
    case Tick(_) =>
    case ReadCancel(_, _, _, _) =>
    case GrantPoints(_, _, _) =>
    case _ => EnvironmentFrame(w.db, e);
  }

  lemma LoopKeepsChecks(db: Database, resource: Id, listed: seq<Id>, now: Time)
    requires Listed(db, listed) && ConfirmedEach(db, listed) && ChecksHold(db.bookings)
    ensures ChecksHold(RevokeEach(db, resource, listed, now).bookings)
  {
    forall b | b in db.bookings ensures RowChecks(RevokeEach(db, resource, listed, now).bookings[b]) {
      RowAfterLoop(db, resource, listed, now, b);
    }
  }

  // ---------- Late completions ----------

  /** A late completion completes a confirmed booking, rewrites the completion time of
      a completed one, and is rejected on a cancelled one. */
  lemma LateCompletion(db: Database, id: Id, now: Time)
    requires ChecksHold(db.bookings) && id in db.bookings
    ensures LateComplete(db, id, now)
         == if db.bookings[id].status == CANCELLED then db
            else db.(bookings := db.bookings[id := CompletedRow(db.bookings[id], now)])
  {
  }

  /** Reads and write with nothing in between are the completion in one step. */
  lemma UninterruptedCompletion(db: Database, id: Id, administrator: Id, now: Time)
    requires ChecksHold(db.bookings)
    ensures var plan, after := PlanCompletion(db, id, administrator), CompleteBooking(db, id, administrator, now);
            match plan
            case Err(e) => after == (db, Err(e))
            case Ok(false) => after == (db, Ok(()))
            case Ok(true) => after == (LateComplete(db, id, now), Ok(())) && RowChecks(CompletedRow(db.bookings[id], now))
  {
    if id in db.bookings {
      LateCompletion(db, id, now);
    }
  }

  /** So however late a completion is written, it keeps the whole invariant. */
  lemma LateCompleteKeepsInv(w: World, id: Id)
    requires Inv(w) && ChecksHold(w.db.bookings)
    ensures Inv(LateStep(w, WriteComplete(id)))
  {
    if id in w.db.bookings {
      LateCompletion(w.db, id, w.clock);
      if w.db.bookings[id].status == CANCELLED {
        assert LateStep(w, WriteComplete(id)) == w;
      } else {
        var row' := CompletedRow(w.db.bookings[id], w.clock);
        LiveKeepsInv(w, id, row');
      }
    }
  }

  // ---------- Late revocations ----------

  lemma {:induction false} RefundedIn(ledger: seq<Entry>, id: Id)
    ensures Refunded(EntriesFor(ledger, id), id) ==> Refunded(ledger, id)
  {
    if ledger != [] {
      RefundedIn(ledger[1..], id);
      var rest := EntriesFor(ledger[1..], id);
      if Refunded(EntriesFor(ledger, id), id) {
        if ledger[0].booking == Some(id) && ledger[0].kind == BOOKING_REFUND {
        } else {
          LaterEntry(EntriesFor(ledger, id), rest, id);
          var i :| 0 <= i < |ledger[1..]| && ledger[1..][i].booking == Some(id) && ledger[1..][i].kind == BOOKING_REFUND;
          assert ledger[i + 1] == ledger[1..][i];
        }
      }
    }
  }

  lemma LaterEntry(entries: seq<Entry>, rest: seq<Entry>, id: Id)
    requires Refunded(entries, id)
    requires entries == rest || (entries != [] && entries[1..] == rest && entries[0].kind != BOOKING_REFUND)
    ensures Refunded(rest, id)
  {
    var i :| 0 <= i < |entries| && entries[i].booking == Some(id) && entries[i].kind == BOOKING_REFUND;
    if entries != rest {
      assert rest[i - 1] == entries[i];
    }
  }

  /** A booking that cost something and was ended has its refund already. */
  lemma EndedIsRefunded(w: World, id: Id)
    requires Inv(w) && id in w.db.bookings && w.db.bookings[id].status == CANCELLED && w.history.charged[id] > 0
    ensures Refunded(w.db.ledger, id)
  {
    assert EntriesExact(w.db.bookings, w.db.ledger, w.history, id);
    var row, charge := w.db.bookings[id], w.history.charged[id];
    var entries := DeductionEntry(row, id, charge) + RefundEntry(row, id, charge, EndingIn(w.history, id));
    assert entries[1].kind == BOOKING_REFUND && entries[1].booking == Some(id);
    assert Refunded(entries, id);
    RefundedIn(w.db.ledger, id);
  }

  /** What is in the way of a late revocation: a completed row fails its check, and a
      second refund fails the unique index. */
  lemma LateRevokeRejected(w: World, id: Id, at: Time)
    requires Inv(w) && ChecksHold(w.db.bookings) && id in w.db.bookings
    requires w.db.bookings[id].status == COMPLETED || (w.db.bookings[id].status == CANCELLED && w.history.charged[id] > 0)
    ensures LateStep(w, WriteRevocation(id, at)) == w
  {
    assert EntriesExact(w.db.bookings, w.db.ledger, w.history, id);
    DeductedIsCharged(w.db.bookings, w.db.ledger, w.history, id);
    if w.db.bookings[id].status == CANCELLED {
      EndedIsRefunded(w, id);
    }
  }

  /** The revocation of a free booking cancelled before: the row's time and the slot
      change, nothing is refunded. */
  lemma FreeRevocation(w: World, id: Id, at: Time)
    requires Inv(w) && ChecksHold(w.db.bookings) && id in w.db.bookings
    requires w.db.bookings[id].status == CANCELLED && w.history.charged[id] == 0
    ensures var row := w.db.bookings[id];
            LateRevoke(w.db, id, at)
            == w.db.(bookings := w.db.bookings[id := row.(cancelledAt := Some(at))],
                     slots := w.db.slots[row.slot := SlotAfter(w.db.slots[row.slot], WITHDRAWN, at)])
  {
    assert EntriesExact(w.db.bookings, w.db.ledger, w.history, id);
    DeductedIsCharged(w.db.bookings, w.db.ledger, w.history, id);
  }

  lemma FreeKeepsSlots(bookings: map<Id, Booking>, slots: map<Id, Slot>, id: Id, row': Booking, slot': Slot)
    requires SlotsConsistent(bookings, slots)
    requires id in bookings && bookings[id].status == CANCELLED && row'.status == CANCELLED && row'.slot in slots
    requires slot'.status == WITHDRAWN && slot'.withdrawnAt.Some?
    ensures SlotsConsistent(bookings[id := row'], slots[row'.slot := slot'])
       <==> forall b :: b in bookings && bookings[b].slot == row'.slot ==> bookings[b].status == CANCELLED || b == id
  {
    var bookings', slots' := bookings[id := row'], slots[row'.slot := slot'];
    if !(forall b :: b in bookings && bookings[b].slot == row'.slot ==> bookings[b].status == CANCELLED || b == id) {
      var b :| b in bookings && bookings[b].slot == row'.slot && bookings[b].status != CANCELLED && b != id;
      assert bookings'[b].status != CANCELLED && slots'[bookings'[b].slot].status == WITHDRAWN;
    }
  }

  lemma FreeKeepsLedger(bookings: map<Id, Booking>, ledger: seq<Entry>, h: History, id: Id, row': Booking)
    requires id in bookings && id in h.charged && h.charged[id] == 0 && id in h.ended && SameCustomer(bookings[id], row')
    requires LedgerMatches(bookings, ledger, h) && Conserved(bookings, ledger, h)
    ensures LedgerMatches(bookings[id := row'], ledger, h.(ended := h.ended[id := ByRevocation]))
    ensures Conserved(bookings[id := row'], ledger, h.(ended := h.ended[id := ByRevocation]))
  {
    var bookings', h' := bookings[id := row'], h.(ended := h.ended[id := ByRevocation]);
    forall b: Id ensures EntriesExact(bookings', ledger, h', b) {
      assert EntriesExact(bookings, ledger, h, b);
      assert b != id ==> EndingIn(h', b) == EndingIn(h, b);
    }
    forall u: Id, r: Id ensures ConservedFor(bookings', ledger, h', u, r) {
      assert ConservedFor(bookings, ledger, h, u, r);
      assert NetMap(bookings', h', u, r) == NetMap(bookings, h, u, r);
    }
  }

  lemma FreeKeepsRest(bookings: map<Id, Booking>, slots: map<Id, Slot>, h: History, id: Id, row': Booking, slot': Slot)
    requires HistoryMatches(bookings, h) && DeadlinesKept(bookings, slots, h)
    requires id in bookings && bookings[id].status == CANCELLED && row'.status == CANCELLED
    requires SameCustomer(bookings[id], row') && row'.slot in slots && slot'.startsAt == slots[row'.slot].startsAt
    ensures HistoryMatches(bookings[id := row'], h.(ended := h.ended[id := ByRevocation]))
    ensures DeadlinesKept(bookings[id := row'], slots[row'.slot := slot'], h.(ended := h.ended[id := ByRevocation]))
  {
  }

  lemma FreeKeepsInvExactly(w: World, v: World, id: Id, row': Booking, slot': Slot, at: Time)
    requires Inv(w) && id in w.db.bookings && id in w.history.charged && id in w.history.ended && w.history.charged[id] == 0
    requires w.db.bookings[id].status == CANCELLED && row'.status == CANCELLED && SameCustomer(w.db.bookings[id], row')
    requires row'.slot in w.db.slots && slot' == SlotAfter(w.db.slots[row'.slot], WITHDRAWN, at)
    requires v == w.(db := w.db.(bookings := w.db.bookings[id := row'], slots := w.db.slots[row'.slot := slot']),
                     history := w.history.(ended := w.history.ended[id := ByRevocation]))
    ensures Inv(v) <==> !Occupied(w.db, row'.slot)
  {
    FreeKeepsSlots(w.db.bookings, w.db.slots, id, row', slot');
    FreeKeepsLedger(w.db.bookings, w.db.ledger, w.history, id, row');
    PutKeepsPlans(w.plans, w.db.bookings, w.db.slots, w.history, id, row', slot', v.history);
    FreeKeepsRest(w.db.bookings, w.db.slots, w.history, id, row', slot');
  }

  lemma FreeRevocationExactly(w: World, id: Id, at: Time)
    requires Inv(w) && ChecksHold(w.db.bookings) && id in w.db.bookings
    requires w.db.bookings[id].status == CANCELLED && w.history.charged[id] == 0
    ensures Inv(LateStep(w, WriteRevocation(id, at))) <==> !Occupied(w.db, w.db.bookings[id].slot)
  {
    var row := w.db.bookings[id];
    FreeRevocation(w, id, at);
    if LateRevoke(w.db, id, at) == w.db {
      assert w.db.slots[row.slot].status == WITHDRAWN;
    } else {
      FreeKeepsInvExactly(w, LateStep(w, WriteRevocation(id, at)), id, row.(cancelledAt := Some(at)),
                          SlotAfter(w.db.slots[row.slot], WITHDRAWN, at), at);
    }
  }

  lemma ConfirmedRevocation(w: World, id: Id, at: Time)
    requires Inv(w) && ChecksHold(w.db.bookings) && id in w.db.bookings && w.db.bookings[id].status == CONFIRMED
    ensures Inv(LateStep(w, WriteRevocation(id, at)))
  {
    RevokeLastInv(w.(clock := at), id);
  }

  /** A late revocation keeps the whole invariant exactly when it is not the harmful
      one. */
  lemma LateRevokeKeepsInvExactly(w: World, id: Id, at: Time)
    requires Inv(w) && ChecksHold(w.db.bookings)
    ensures Inv(LateStep(w, WriteRevocation(id, at))) <==> !Harmful(w, WriteRevocation(id, at))
  {
    if id in w.db.bookings {
      if w.db.bookings[id].status == CONFIRMED {
        ConfirmedRevocation(w, id, at);
      } else if w.db.bookings[id].status == COMPLETED || w.history.charged[id] > 0 {
        LateRevokeRejected(w, id, at);
      } else {
        FreeRevocationExactly(w, id, at);
      }
    }
  }

  // ---------- Runs with late writes ----------

  lemma LateStepChecks(w: World, e: LateEvent)
    requires Inv(w) && ChecksHold(w.db.bookings)
    ensures ChecksHold(LateStep(w, e).db.bookings)
  {
    match e
    case OnTime(event) => StepKeepsChecks(w, event);
    case _ =>
  }

  /** A step with late writes keeps the invariant exactly when it is not harmful. */
  lemma LateStepExactly(w: World, e: LateEvent)
    requires Inv(w) && ChecksHold(w.db.bookings)
    ensures Inv(LateStep(w, e)) <==> !Harmful(w, e)
  {
    match e
    case OnTime(event) => StepInv(w, event);
    case WriteComplete(id) => LateCompleteKeepsInv(w, id);
    case WriteRevocation(id, readAt) => LateRevokeKeepsInvExactly(w, id, readAt);
  }

  ghost predicate InvThroughout(w: World, events: seq<LateEvent>)
    decreases |events|
  {
    Inv(w) && (events == [] || InvThroughout(LateStep(w, events[0]), events[1..]))
  }

  ghost predicate EverHarmful(w: World, events: seq<LateEvent>)
    decreases |events|
  {
    events != [] && (Harmful(w, events[0]) || EverHarmful(LateStep(w, events[0]), events[1..]))
  }

  /** With completions and revocations written arbitrarily late, the invariant holds in
      every state of a run exactly when the run has no harmful revocation. */
  lemma {:induction false} LateRunsExactly(w: World, events: seq<LateEvent>)
    requires Inv(w) && ChecksHold(w.db.bookings)
    ensures InvThroughout(w, events) <==> !EverHarmful(w, events)
    decreases |events|
  {
    if events != [] {
      LateStepChecks(w, events[0]);
      LateStepExactly(w, events[0]);
      if !Harmful(w, events[0]) {
        LateRunsExactly(LateStep(w, events[0]), events[1..]);
      }
    }
  }

  // ---------- A harmful run ----------

  /** User 1 books a free slot and loses access, which a re-evaluation reads; the user
      cancels, user 2 books the slot, and only then the revocation is written. */
  function Opening(): World {
    var resource := Resource(5, 5, {}, ACTIVE, 0, 0, None);
    World(Tables({1, 2}, map[5 := Organization(5, true)],
                 map[(1, 5) := Membership(MEMBER, APPROVED), (2, 5) := Membership(MEMBER, APPROVED)],
                 map[7 := resource], map[9 := Slot(7, 1_000, PUBLISHED, None)], map[], []),
          0, map[], History(map[], map[]))
  }

  function Booked(): World {
    Opening().(db := Opening().db.(bookings := map[20 := Booking(9, 1, 5, CONFIRMED, 0, None, None, None)]),
               history := History(map[20 := 0], map[]))
  }

  function AccessLost(): World {
    Booked().(db := Booked().db.(memberships := Booked().db.memberships[(1, 5) := Membership(MEMBER, SUSPENDED)]))
  }

  function CancellationRead(): World {
    AccessLost().(plans := map[30 := CancelPlan(20, 1, true, 0, PUBLISHED, 0)])
  }

  function CancelledByUser(): World {
    AccessLost().(db := AccessLost().db.(bookings := map[20 := Booking(9, 1, 5, CANCELLED, 0, Some(0), Some(1), None)]),
                  history := History(map[20 := 0], map[20 := ByUser]))
  }

  function BookedAgain(): World {
    var w := CancelledByUser();
    w.(db := w.db.(bookings := w.db.bookings[21 := Booking(9, 2, 5, CONFIRMED, 0, None, None, None)]),
       history := w.history.(charged := map[20 := 0, 21 := 0]))
  }

  /** An approved member may book the slot while it is free. */
  lemma Accepts(db: Database, user: Id)
    requires db == Opening().db.(memberships := db.memberships, bookings := db.bookings)
    requires user in db.activeUsers && (user, 5) in db.memberships && db.memberships[(user, 5)].status == APPROVED
    requires !Occupied(db, 9)
    ensures Validate(db, 9, user, Some(5), 0) == Ok(BookingContext(user, 5, 7, 9, 0, 0))
  {
    assert Approved(db, user, 5) && 5 in BookableBy(db.resources[7]);
    assert CanAccess(db, 7, user, 5);
  }

  lemma FirstSteps()
    ensures Step(Opening(), Create(9, 1, Some(5), 20)) == Booked()
    ensures Step(Booked(), SetMembership(1, 5, Membership(MEMBER, SUSPENDED))) == AccessLost()
  {
    Accepts(Opening().db, 1);
  }

  lemma CancelSteps()
    ensures Step(AccessLost(), ReadCancel(30, 20, 1, None)) == CancellationRead()
    ensures Step(CancellationRead(), CommitCancel(30)) == CancelledByUser()
  {
    assert CancellationRead().plans - {30} == map[];
  }

  lemma LastStep()
    ensures Step(CancelledByUser(), Create(9, 2, Some(5), 21)) == BookedAgain()
  {
    Accepts(CancelledByUser().db, 2);
  }

  lemma BookedAgainInv()
    ensures Initial(Opening()) && Inv(BookedAgain())
  {
    FirstSteps();
    CancelSteps();
    LastStep();
    InitialInv(Opening());
    StepInv(Opening(), Create(9, 1, Some(5), 20));
    StepInv(Booked(), SetMembership(1, 5, Membership(MEMBER, SUSPENDED)));
    StepInv(AccessLost(), ReadCancel(30, 20, 1, None));
    StepInv(CancellationRead(), CommitCancel(30));
    StepInv(CancelledByUser(), Create(9, 2, Some(5), 21));
  }

  lemma AgainIsHarmful()
    ensures Harmful(BookedAgain(), WriteRevocation(20, 0))
  {
    assert BookedAgain().db.bookings[21].slot == BookedAgain().db.bookings[20].slot;
  }

  /** The listing finds the booking after these steps. */
  function BeforeListing(): seq<Event> {
    [Create(9, 1, Some(5), 20), SetMembership(1, 5, Membership(MEMBER, SUSPENDED))]
  }

  function AfterListing(): seq<Event> {
    [ReadCancel(30, 20, 1, None), CommitCancel(30), Create(9, 2, Some(5), 21)]
  }

  lemma RunsThere()
    ensures Run(Opening(), BeforeListing()) == AccessLost()
    ensures Run(Opening(), BeforeListing() + AfterListing()) == BookedAgain()
  {
    FirstSteps();
    CancelSteps();
    LastStep();
    RunAppend(Opening(), BeforeListing(), AfterListing());
    assert Run(AccessLost(), AfterListing()) == BookedAgain();
  }

  lemma ListedForRevocation()
    ensures FutureConfirmed(AccessLost().db, 7, AccessLost().clock, 20) && !KeepsAccess(AccessLost().db, 7, 1)
  {
  }

  lemma AgainChecks()
    ensures ChecksHold(BookedAgain().db.bookings)
  {
  }

  lemma HarmfulBreaksInv(w: World, id: Id, at: Time)
    requires Inv(w) && ChecksHold(w.db.bookings) && Harmful(w, WriteRevocation(id, at))
    ensures !Inv(LateStep(w, WriteRevocation(id, at)))
  {
    LateRevokeKeepsInvExactly(w, id, at);
  }

  lemma AgainBreaksInv()
    ensures !Inv(LateStep(BookedAgain(), WriteRevocation(20, 0)))
  {
    BookedAgainInv();
    AgainIsHarmful();
    AgainChecks();
    HarmfulBreaksInv(BookedAgain(), 20, 0);
  }

  /** The harmful revocation does occur: it is listed while the booking is confirmed,
      and its write leaves a live booking on a withdrawn slot. */
  lemma HarmfulRunExists()
    ensures Initial(Opening()) && Run(Opening(), BeforeListing()) == AccessLost()
    ensures FutureConfirmed(AccessLost().db, 7, AccessLost().clock, 20) && !KeepsAccess(AccessLost().db, 7, 1)
    ensures Run(Opening(), BeforeListing() + AfterListing()) == BookedAgain()
    ensures Harmful(BookedAgain(), WriteRevocation(20, 0)) && !Inv(LateStep(BookedAgain(), WriteRevocation(20, 0)))
  {
    RunsThere();
    ListedForRevocation();
    AgainIsHarmful();
    AgainBreaksInv();
  }
}
