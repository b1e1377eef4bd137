/** What holds in every state of every run of the booking system: who occupies a
    slot, what the ledger holds for each booking, and what every balance is. */
module BookingInvariant {
  import opened Prelude
  import opened BookingModel
  import opened BookingRuns

  // ---------- What a booking costs ----------

  /** What a booking has cost its user so far: all of the charge, or what an
      ending left of it. */
  function NetCharge(charge: int, ending: Option<Ending>): int {
    match ending
    case None => charge
    case Some(ByUser) => charge / 2
    case Some(_) => 0
  }

  /** The refund that an ending owes. */
  function RefundDue(charge: int, ending: Ending): int {
    if ending == ByUser then HalfUp(charge) else charge
  }

  function EndingIn(h: History, id: Id): Option<Ending> {
    if id in h.ended then Some(h.ended[id]) else None
  }

  function NetMap(bookings: map<Id, Booking>, h: History, user: Id, root: Id): map<Id, int> {
    map b | b in bookings && b in h.charged && bookings[b].user == user && bookings[b].root == root
      :: NetCharge(h.charged[b], EndingIn(h, b))
  }

  ghost function Total(m: map<Id, int>): int
    decreases |m|
  {
    if m == map[] then 0
    else
      var k :| k in m;
      m[k] + Total(m - {k})
  }

  lemma {:induction false} TotalSplit(m: map<Id, int>, k: Id)
    requires k in m
    ensures Total(m) == m[k] + Total(m - {k})
    decreases |m|
  {
    var j :| j in m && Total(m) == m[j] + Total(m - {j});
    if j != k {
      TotalSplit(m - {j}, k);
      TotalSplit(m - {k}, j);
      assert m - {j} - {k} == m - {k} - {j};
    }
  }

  lemma TotalPut(m: map<Id, int>, k: Id, v: int)
    ensures Total(m[k := v]) == Total(m) + v - (if k in m then m[k] else 0)
  {
    TotalSplit(m[k := v], k);
    assert m[k := v] - {k} == m - {k};
    if k in m {
      TotalSplit(m, k);
    } else {
      assert m - {k} == m;
    }
  }

  // ---------- Reading the ledger ----------

  /** The sum of one user's credits in one tenant. */
  function Credits(ledger: seq<Entry>, user: Id, root: Id): int {
    if ledger == [] then 0
    else
      var e := ledger[|ledger| - 1];
      Credits(ledger[..|ledger| - 1], user, root)
      + (if e.user == user && e.root == root && e.kind == CREDIT then e.amount else 0)
  }

  function EntriesFor(ledger: seq<Entry>, id: Id): seq<Entry> {
    if ledger == [] then []
    else (if ledger[0].booking == Some(id) then [ledger[0]] else []) + EntriesFor(ledger[1..], id)
  }

  lemma LedgerAppend(ledger: seq<Entry>, e: Entry, user: Id, root: Id)
    ensures Balance(ledger + [e], user, root)
         == Balance(ledger, user, root) + (if e.user == user && e.root == root then e.amount else 0)
    ensures Credits(ledger + [e], user, root)
         == Credits(ledger, user, root) + (if e.user == user && e.root == root && e.kind == CREDIT then e.amount else 0)
  {
  }

  lemma {:induction false} EntriesAppend(ledger: seq<Entry>, e: Entry, id: Id)
    ensures EntriesFor(ledger + [e], id) == EntriesFor(ledger, id) + (if e.booking == Some(id) then [e] else [])
  {
    if ledger == [] {
      assert ledger + [e] == [e];
    } else {
      var first := if ledger[0].booking == Some(id) then [ledger[0]] else [];
      var last := if e.booking == Some(id) then [e] else [];
      assert (ledger + [e])[1..] == ledger[1..] + [e];
      EntriesAppend(ledger[1..], e, id);
      assert first + (EntriesFor(ledger[1..], id) + last) == (first + EntriesFor(ledger[1..], id)) + last;
    }
  }

  lemma {:induction false} FindDeductionInEntries(ledger: seq<Entry>, id: Id, user: Id)
    ensures FindDeduction(ledger, id, user) == FindDeduction(EntriesFor(ledger, id), id, user)
  {
    if ledger != [] {
      FindDeductionInEntries(ledger[1..], id, user);
      var rest := EntriesFor(ledger[1..], id);
      if ledger[0].booking == Some(id) {
        assert EntriesFor(ledger, id) == [ledger[0]] + rest;
        assert ([ledger[0]] + rest)[1..] == rest;
      } else {
        assert EntriesFor(ledger, id) == rest;
      }
    }
  }

  function DeductionEntry(row: Booking, id: Id, charge: int): seq<Entry> {
    if charge > 0 then [Entry(row.user, row.root, Some(id), -charge, BOOKING)] else []
  }

  function RefundEntry(row: Booking, id: Id, charge: int, ending: Option<Ending>): seq<Entry> {
    if ending.Some? && RefundDue(charge, ending.value) > 0 then [Refund(row, id, RefundDue(charge, ending.value))] else []
  }

  // ---------- The invariant ----------

  /** At most one live booking on a slot, and only on a published one. */
  ghost predicate SlotsConsistent(bookings: map<Id, Booking>, slots: map<Id, Slot>) {
    && (forall a, b :: a in bookings && b in bookings && a != b
                       && bookings[a].status != CANCELLED && bookings[b].status != CANCELLED
                       ==> bookings[a].slot != bookings[b].slot)
    && (forall b :: b in bookings && bookings[b].status != CANCELLED ==>
          bookings[b].slot in slots && slots[bookings[b].slot].status == PUBLISHED)
    && (forall s :: s in slots ==> (slots[s].status == WITHDRAWN <==> slots[s].withdrawnAt.Some?))
  }

  /** Every booking has a charge, and exactly the cancelled ones have an ending. */
  ghost predicate HistoryMatches(bookings: map<Id, Booking>, h: History) {
    && h.charged.Keys == bookings.Keys
    && (forall b :: b in h.charged ==> h.charged[b] >= 0)
    && h.ended.Keys <= bookings.Keys
    && (forall b :: b in bookings ==> (b in h.ended <==> bookings[b].status == CANCELLED))
  }

  predicate BeforeDeadline(slots: map<Id, Slot>, row: Booking, at: Time) {
    row.slot in slots && at < slots[row.slot].startsAt - row.noticeMinutes * 60_000
  }

  /** A cancellation by the user was read before the deadline fixed at creation. */
  ghost predicate DeadlinesKept(bookings: map<Id, Booking>, slots: map<Id, Slot>, h: History) {
    forall b :: b in h.ended && h.ended[b] == ByUser ==>
      b in bookings && bookings[b].cancelledAt.Some? && BeforeDeadline(slots, bookings[b], bookings[b].cancelledAt.value)
  }

  /** The entries of one booking are exactly its deduction and its refund. */
  predicate EntriesExact(bookings: map<Id, Booking>, ledger: seq<Entry>, h: History, b: Id) {
    if b in bookings && b in h.charged then
      EntriesFor(ledger, b)
      == DeductionEntry(bookings[b], b, h.charged[b]) + RefundEntry(bookings[b], b, h.charged[b], EndingIn(h, b))
    else
      EntriesFor(ledger, b) == []
  }

  ghost predicate LedgerMatches(bookings: map<Id, Booking>, ledger: seq<Entry>, h: History) {
    forall b: Id :: EntriesExact(bookings, ledger, h, b)
  }

  ghost predicate ConservedFor(bookings: map<Id, Booking>, ledger: seq<Entry>, h: History, user: Id, root: Id) {
    && Balance(ledger, user, root) == Credits(ledger, user, root) - Total(NetMap(bookings, h, user, root))
    && Balance(ledger, user, root) >= 0
  }

  ghost predicate Conserved(bookings: map<Id, Booking>, ledger: seq<Entry>, h: History) {
    forall user: Id, root: Id :: ConservedFor(bookings, ledger, h, user, root)
  }

  /** A pending cancellation still holds the right refund and deadline. */
  predicate PlanSound(bookings: map<Id, Booking>, slots: map<Id, Slot>, h: History, plan: CancelPlan) {
    && plan.booking in bookings
    && plan.booking in h.charged
    && plan.refund == RefundDue(h.charged[plan.booking], EndingOf(plan))
    && (plan.byUser ==> plan.slotStatus == PUBLISHED && BeforeDeadline(slots, bookings[plan.booking], plan.now))
  }

  ghost predicate PlansSound(plans: map<Id, CancelPlan>, bookings: map<Id, Booking>, slots: map<Id, Slot>, h: History) {
    forall tx :: tx in plans ==> PlanSound(bookings, slots, h, plans[tx])
  }

  ghost predicate Inv(w: World) {
    var bookings, slots, ledger, h := w.db.bookings, w.db.slots, w.db.ledger, w.history;
    && SlotsConsistent(bookings, slots)
    && HistoryMatches(bookings, h)
    && DeadlinesKept(bookings, slots, h)
    && LedgerMatches(bookings, ledger, h)
    && Conserved(bookings, ledger, h)
    && PlansSound(w.plans, bookings, slots, h)
  }

  /** A system that has taken no booking yet. */
  ghost predicate Initial(w: World) {
    && w.db.bookings == map[] && w.db.ledger == [] && w.plans == map[]
    && w.history == History(map[], map[])
    && forall s :: s in w.db.slots ==> (w.db.slots[s].status == WITHDRAWN <==> w.db.slots[s].withdrawnAt.Some?)
  }

  lemma InitialInv(w: World)
    requires Initial(w)
    ensures Inv(w)
  {
  }

  /** The deduction that a cancellation or a revocation finds is the charge. */
  lemma DeductedIsCharged(bookings: map<Id, Booking>, ledger: seq<Entry>, h: History, id: Id)
    requires HistoryMatches(bookings, h) && EntriesExact(bookings, ledger, h, id)
    requires id in bookings
    ensures DeductedPoints(ledger, id, bookings[id].user) == h.charged[id]
  {
    FindDeductionInEntries(ledger, id, bookings[id].user);
    var entries := EntriesFor(ledger, id);
    if h.charged[id] > 0 {
      assert entries[0] == DeductionEntry(bookings[id], id, h.charged[id])[0];
    } else {
      assert entries == [];
    }
  }

  // ---------- Putting a new booking ----------

  lemma CreateKeepsLedger(bookings: map<Id, Booking>, ledger: seq<Entry>, h: History, id: Id, row: Booking, charge: int)
    requires id !in bookings && id !in h.ended && charge >= 0
    requires LedgerMatches(bookings, ledger, h)
    ensures LedgerMatches(bookings[id := row], ledger + DeductionEntry(row, id, charge), h.(charged := h.charged[id := charge]))
  {
    var h' := h.(charged := h.charged[id := charge]);
    var ledger' := ledger + DeductionEntry(row, id, charge);
    assert charge == 0 ==> ledger' == ledger;
    var bookings' := bookings[id := row];
    forall b: Id ensures EntriesExact(bookings', ledger', h', b) {
      assert EntriesExact(bookings, ledger, h, b);
      EntriesAppend(ledger, Entry(row.user, row.root, Some(id), -charge, BOOKING), b);
      assert EndingIn(h', b) == EndingIn(h, b);
    }
  }

  lemma CreateKeepsConserved(bookings: map<Id, Booking>, ledger: seq<Entry>, h: History, id: Id, row: Booking, charge: int)
    requires id !in bookings && id !in h.ended && charge >= 0
    requires Balance(ledger, row.user, row.root) >= charge
    requires Conserved(bookings, ledger, h)
    ensures Conserved(bookings[id := row], ledger + DeductionEntry(row, id, charge), h.(charged := h.charged[id := charge]))
  {
    var h' := h.(charged := h.charged[id := charge]);
    var ledger' := ledger + DeductionEntry(row, id, charge);
    assert charge == 0 ==> ledger' == ledger;
    var bookings' := bookings[id := row];
    forall u: Id, r: Id ensures ConservedFor(bookings', ledger', h', u, r) {
      assert ConservedFor(bookings, ledger, h, u, r);
      LedgerAppend(ledger, Entry(row.user, row.root, Some(id), -charge, BOOKING), u, r);
      var before, after := NetMap(bookings, h, u, r), NetMap(bookings', h', u, r);
      if u == row.user && r == row.root {
        assert after == before[id := charge];
        TotalPut(before, id, charge);
      } else {
        assert after == before;
      }
    }
  }

  lemma CreateKeepsSlots(bookings: map<Id, Booking>, slots: map<Id, Slot>, h: History, id: Id, row: Booking, charge: int)
    requires id !in bookings && charge >= 0 && row.status == CONFIRMED
    requires row.slot in slots && slots[row.slot].status == PUBLISHED
    requires forall b :: b in bookings && bookings[b].slot == row.slot ==> bookings[b].status == CANCELLED
    requires SlotsConsistent(bookings, slots) && HistoryMatches(bookings, h) && DeadlinesKept(bookings, slots, h)
    ensures SlotsConsistent(bookings[id := row], slots)
    ensures HistoryMatches(bookings[id := row], h.(charged := h.charged[id := charge]))
    ensures DeadlinesKept(bookings[id := row], slots, h.(charged := h.charged[id := charge]))
  {
  }

  lemma CreateKeepsPlans(plans: map<Id, CancelPlan>, bookings: map<Id, Booking>, slots: map<Id, Slot>, h: History,
                         id: Id, row: Booking, charge: int)
    requires id !in bookings && PlansSound(plans, bookings, slots, h)
    ensures PlansSound(plans, bookings[id := row], slots, h.(charged := h.charged[id := charge]))
  {
  }

  /** What an accepted creation has checked, and what it wrote. */
  lemma CreateEffect(db: Database, slot: Id, user: Id, activeOrganization: Option<Id>, id: Id, now: Time)
    requires CreateBooking(db, slot, user, activeOrganization, id, now).1.Ok?
    ensures var context := Validate(db, slot, user, activeOrganization, now);
            var db' := CreateBooking(db, slot, user, activeOrganization, id, now).0;
            && context.Ok? && id !in db.bookings
            && slot in db.slots && db.slots[slot].status == PUBLISHED && db.slots[slot].startsAt > now
            && SlotResource(db, slot).status == ACTIVE
            && context.value.slot == slot
            && 0 <= context.value.pointCost == SlotResource(db, slot).pointCost
            && context.value.noticeMinutes == SlotResource(db, slot).noticeMinutes
            && Balance(db.ledger, context.value.user, context.value.root) >= context.value.pointCost
            && (forall b :: b in db.bookings && db.bookings[b].slot == slot ==> db.bookings[b].status == CANCELLED)
            && db' == db.(bookings := db.bookings[id := NewBooking(context.value)],
                          ledger := db.ledger + DeductionEntry(NewBooking(context.value), id, context.value.pointCost))
  {
  }

  lemma CreateInv(w: World, slot: Id, user: Id, activeOrganization: Option<Id>, id: Id)
    requires Inv(w)
    ensures Inv(CreateStep(w, slot, user, activeOrganization, id))
  {
    if CreateBooking(w.db, slot, user, activeOrganization, id, w.clock).1.Ok? {
      CreateEffect(w.db, slot, user, activeOrganization, id, w.clock);
      var context := Validate(w.db, slot, user, activeOrganization, w.clock).value;
      var row, charge := NewBooking(context), context.pointCost;
      CreateKeepsSlots(w.db.bookings, w.db.slots, w.history, id, row, charge);
      CreateKeepsLedger(w.db.bookings, w.db.ledger, w.history, id, row, charge);
      CreateKeepsConserved(w.db.bookings, w.db.ledger, w.history, id, row, charge);
      CreateKeepsPlans(w.plans, w.db.bookings, w.db.slots, w.history, id, row, charge);
    }
  }

  // ---------- Ending a booking ----------

  /** A row that keeps everything the ledger depends on. */
  predicate SameCustomer(row: Booking, row': Booking) {
    row'.user == row.user && row'.root == row.root && row'.slot == row.slot && row'.noticeMinutes == row.noticeMinutes
  }

  lemma ReleaseKeepsLedger(bookings: map<Id, Booking>, ledger: seq<Entry>, h: History, id: Id, row': Booking, ending: Ending)
    requires id in bookings && id in h.charged && id !in h.ended && SameCustomer(bookings[id], row')
    requires LedgerMatches(bookings, ledger, h)
    ensures LedgerMatches(bookings[id := row'], ledger + RefundEntry(bookings[id], id, h.charged[id], Some(ending)),
                          h.(ended := h.ended[id := ending]))
  {
    var h' := h.(ended := h.ended[id := ending]);
    var due := RefundDue(h.charged[id], ending);
    var ledger' := ledger + RefundEntry(bookings[id], id, h.charged[id], Some(ending));
    assert due <= 0 ==> ledger' == ledger;
    var bookings' := bookings[id := row'];
    forall b: Id ensures EntriesExact(bookings', ledger', h', b) {
      assert EntriesExact(bookings, ledger, h, b);
      EntriesAppend(ledger, Refund(bookings[id], id, due), b);
      assert b != id ==> EndingIn(h', b) == EndingIn(h, b);
    }
  }

  lemma NetMapAfterRelease(bookings: map<Id, Booking>, h: History, id: Id, row': Booking, ending: Ending, u: Id, r: Id)
    requires id in bookings && id in h.charged && id !in h.ended && SameCustomer(bookings[id], row')
    ensures var before, net := NetMap(bookings, h, u, r), NetCharge(h.charged[id], Some(ending));
            var after := NetMap(bookings[id := row'], h.(ended := h.ended[id := ending]), u, r);
            if u == row'.user && r == row'.root
            then id in before && before[id] == h.charged[id] && after == before[id := net]
            else after == before
  {
  }

  lemma ReleaseKeepsConserved(bookings: map<Id, Booking>, ledger: seq<Entry>, h: History, id: Id, row': Booking, ending: Ending)
    requires id in bookings && id in h.charged && id !in h.ended && SameCustomer(bookings[id], row')
    requires h.charged[id] >= 0
    requires Conserved(bookings, ledger, h)
    ensures Conserved(bookings[id := row'], ledger + RefundEntry(bookings[id], id, h.charged[id], Some(ending)),
                      h.(ended := h.ended[id := ending]))
  {
    var h' := h.(ended := h.ended[id := ending]);
    var charge := h.charged[id];
    var due, net := RefundDue(charge, ending), NetCharge(charge, Some(ending));
    var ledger' := ledger + RefundEntry(bookings[id], id, charge, Some(ending));
    assert due == charge - net && due >= 0;
    assert due == 0 ==> ledger' == ledger;
    var bookings' := bookings[id := row'];
    forall u: Id, r: Id ensures ConservedFor(bookings', ledger', h', u, r) {
      assert ConservedFor(bookings, ledger, h, u, r);
      LedgerAppend(ledger, Refund(bookings[id], id, due), u, r);
      NetMapAfterRelease(bookings, h, id, row', ending, u, r);
      if u == row'.user && r == row'.root {
        TotalPut(NetMap(bookings, h, u, r), id, net);
      }
    }
  }

  lemma ReleaseKeepsSlots(bookings: map<Id, Booking>, slots: map<Id, Slot>, h: History, id: Id, row': Booking, slot': Slot,
                          ending: Ending)
    requires SlotsConsistent(bookings, slots) && HistoryMatches(bookings, h)
    requires id in bookings && bookings[id].status == CONFIRMED
    requires SameCustomer(bookings[id], row') && row'.status == CANCELLED
    requires slot'.status == WITHDRAWN <==> slot'.withdrawnAt.Some?
    ensures SlotsConsistent(bookings[id := row'], slots[row'.slot := slot'])
    ensures HistoryMatches(bookings[id := row'], h.(ended := h.ended[id := ending]))
  {
  }

  lemma ReleaseKeepsDeadlines(bookings: map<Id, Booking>, slots: map<Id, Slot>, h: History, id: Id, row': Booking,
                              slot': Slot, ending: Ending)
    requires DeadlinesKept(bookings, slots, h)
    requires id in bookings && SameCustomer(bookings[id], row') && row'.slot in slots
    requires slot'.startsAt == slots[row'.slot].startsAt
    requires ending == ByUser ==> row'.cancelledAt.Some? && BeforeDeadline(slots, row', row'.cancelledAt.value)
    requires id !in h.ended
    ensures DeadlinesKept(bookings[id := row'], slots[row'.slot := slot'], h.(ended := h.ended[id := ending]))
  {
  }

  lemma PutKeepsPlans(plans: map<Id, CancelPlan>, bookings: map<Id, Booking>, slots: map<Id, Slot>, h: History,
                      id: Id, row': Booking, slot': Slot, h': History)
    requires PlansSound(plans, bookings, slots, h) && h'.charged == h.charged
    requires id in bookings && SameCustomer(bookings[id], row')
    requires row'.slot in slots && slot'.startsAt == slots[row'.slot].startsAt
    ensures PlansSound(plans, bookings[id := row'], slots[row'.slot := slot'], h')
  {
  }

  /** Ending a confirmed booking with the refund its ending owes. */
  function ReleaseStep(w: World, id: Id, actor: Option<Id>, slotStatus: SlotStatus, now: Time, ending: Ending): World
    requires id in w.db.bookings && id in w.history.charged
  {
    w.(db := Release(w.db, id, actor, slotStatus, RefundDue(w.history.charged[id], ending), now),
       history := w.history.(ended := w.history.ended[id := ending]))
  }

  lemma ReleaseWrites(db: Database, id: Id, actor: Option<Id>, slotStatus: SlotStatus, charge: int, now: Time, ending: Ending)
    requires id in db.bookings && charge >= 0
    ensures var db' := Release(db, id, actor, slotStatus, RefundDue(charge, ending), now);
            var row := db.bookings[id];
            && db'.bookings == db.bookings[id := row.(status := CANCELLED, cancelledAt := Some(now), cancelledBy := actor)]
            && db'.slots == db.slots[row.slot := SlotAfter(db.slots[row.slot], slotStatus, now)]
            && db'.ledger == db.ledger + RefundEntry(row, id, charge, Some(ending))
  {
  }

  lemma ReleaseInv(w: World, id: Id, actor: Option<Id>, slotStatus: SlotStatus, now: Time, ending: Ending)
    requires Inv(w) && id in w.db.bookings && w.db.bookings[id].status == CONFIRMED
    requires ending == ByUser ==> BeforeDeadline(w.db.slots, w.db.bookings[id], now)
    ensures Inv(ReleaseStep(w, id, actor, slotStatus, now, ending))
  {
    var v := ReleaseStep(w, id, actor, slotStatus, now, ending);
    var row' := v.db.bookings[id];
    var slot' := SlotAfter(w.db.slots[row'.slot], slotStatus, now);
    ReleaseWrites(w.db, id, actor, slotStatus, w.history.charged[id], now, ending);
    ReleaseKeepsSlots(w.db.bookings, w.db.slots, w.history, id, row', slot', ending);
    ReleaseKeepsDeadlines(w.db.bookings, w.db.slots, w.history, id, row', slot', ending);
    ReleaseKeepsLedger(w.db.bookings, w.db.ledger, w.history, id, row', ending);
    ReleaseKeepsConserved(w.db.bookings, w.db.ledger, w.history, id, row', ending);
    PutKeepsPlans(w.plans, w.db.bookings, w.db.slots, w.history, id, row', slot', v.history);
  }

  lemma ReadCancelInv(w: World, tx: Id, id: Id, actor: Id, makeSlotAvailable: Option<bool>)
    requires Inv(w)
    ensures Inv(Step(w, ReadCancel(tx, id, actor, makeSlotAvailable)))
  {
    var plan := PlanCancellation(w.db, id, actor, makeSlotAvailable, w.clock);
    if plan.Ok? {
      assert EntriesExact(w.db.bookings, w.db.ledger, w.history, id);
      DeductedIsCharged(w.db.bookings, w.db.ledger, w.history, id);
      assert PlanSound(w.db.bookings, w.db.slots, w.history, plan.value);
    }
  }

  lemma CommitCancelInv(w: World, tx: Id)
    requires Inv(w) && tx in w.plans
    ensures Inv(CommitStep(w, tx))
  {
    var plan := w.plans[tx];
    assert PlanSound(w.db.bookings, w.db.slots, w.history, plan);
    var dropped := w.(plans := w.plans - {tx});
    assert Inv(dropped);
    if w.db.bookings[plan.booking].status == CONFIRMED {
      ReleaseInv(dropped, plan.booking, Some(plan.actor), plan.slotStatus, plan.now, EndingOf(plan));
      assert CommitStep(w, tx)
          == ReleaseStep(dropped, plan.booking, Some(plan.actor), plan.slotStatus, plan.now, EndingOf(plan));
    } else {
      assert CommitStep(w, tx) == dropped;
    }
  }

  /** A revocation by itself is the ending of one booking with a full refund. */
  lemma RevokeIsRelease(w: World, id: Id, now: Time)
    requires Inv(w) && id in w.db.bookings
    ensures Revoke(w.db, id, now)
         == ReleaseStep(w, id, w.db.bookings[id].cancelledBy, WITHDRAWN, now, ByRevocation).db
  {
    assert EntriesExact(w.db.bookings, w.db.ledger, w.history, id);
    DeductedIsCharged(w.db.bookings, w.db.ledger, w.history, id);
  }

  lemma RevokeStepLast(w: World, resource: Id, rest: seq<Id>, last: Id)
    requires forall i :: 0 <= i < |rest| ==> rest[i] in w.db.bookings
    requires last in w.db.bookings
    ensures var u := RevokeStep(w, resource, rest);
            var v := RevokeStep(w, resource, rest + [last]);
            if KeepsAccess(w.db, resource, w.db.bookings[last].user) then v == u
            else v == u.(db := Revoke(u.db, last, w.clock),
                         history := u.history.(ended := u.history.ended[last := ByRevocation]))
  {
  }

  ghost predicate ConfirmedEach(db: Database, listed: seq<Id>) {
    && (forall i, j :: 0 <= i < j < |listed| ==> listed[i] != listed[j])
    && (forall i :: 0 <= i < |listed| ==> listed[i] in db.bookings && db.bookings[listed[i]].status == CONFIRMED)
  }

  lemma RevokeLastInv(u: World, last: Id)
    requires Inv(u) && last in u.db.bookings && u.db.bookings[last].status == CONFIRMED
    ensures Inv(u.(db := Revoke(u.db, last, u.clock), history := u.history.(ended := u.history.ended[last := ByRevocation])))
  {
    RevokeIsRelease(u, last, u.clock);
    ReleaseInv(u, last, u.db.bookings[last].cancelledBy, WITHDRAWN, u.clock, ByRevocation);
  }

  lemma {:induction false} RevokeInv(w: World, resource: Id, listed: seq<Id>)
    requires Inv(w) && ConfirmedEach(w.db, listed)
    ensures Inv(RevokeStep(w, resource, listed))
    decreases |listed|
  {
    if listed != [] {
      var last, rest := listed[|listed| - 1], listed[..|listed| - 1];
      assert listed == rest + [last];
      RevokeInv(w, resource, rest);
      RevokeStepLast(w, resource, rest, last);
      RevokeFrame(w.db, resource, rest, w.clock, last);
      if !KeepsAccess(w.db, resource, w.db.bookings[last].user) {
        RevokeLastInv(RevokeStep(w, resource, rest), last);
      }
    }
  }

  /** The loop leaves a booking that is not on its list alone. */
  lemma {:induction false} RevokeFrame(db: Database, resource: Id, listed: seq<Id>, now: Time, b: Id)
    requires forall i :: 0 <= i < |listed| ==> listed[i] in db.bookings
    requires b in db.bookings && b !in listed
    ensures RevokeEach(db, resource, listed, now).bookings[b] == db.bookings[b]
    decreases |listed|
  {
    if listed != [] {
      RevokeFrame(db, resource, listed[..|listed| - 1], now, b);
    }
  }

  // ---------- The other steps ----------

  lemma CompleteInv(w: World, id: Id, administrator: Id)
    requires Inv(w)
    ensures Inv(Step(w, Complete(id, administrator)))
  {
    var v := Step(w, Complete(id, administrator));
    if v != w {
      LiveKeepsInv(w, id, v.db.bookings[id]);
      assert v.db.bookings == w.db.bookings[id := v.db.bookings[id]];
    }
  }

  lemma LiveKeepsInv(w: World, id: Id, row': Booking)
    requires Inv(w) && id in w.db.bookings && w.db.bookings[id].status != CANCELLED
    requires row'.status == COMPLETED && SameCustomer(w.db.bookings[id], row')
    ensures Inv(w.(db := w.db.(bookings := w.db.bookings[id := row'])))
  {
    LiveKeeps(w.db.bookings, w.db.slots, w.db.ledger, w.history, id, row');
    var slot := w.db.slots[row'.slot];
    PutKeepsPlans(w.plans, w.db.bookings, w.db.slots, w.history, id, row', slot, w.history);
    assert w.db.slots[row'.slot := slot] == w.db.slots;
  }

  /** Replacing a live row by a completed one of the same customer and slot. */
  lemma LiveKeeps(bookings: map<Id, Booking>, slots: map<Id, Slot>, ledger: seq<Entry>, h: History, id: Id, row': Booking)
    requires id in bookings && bookings[id].status != CANCELLED && row'.status == COMPLETED
    requires SameCustomer(bookings[id], row')
    requires SlotsConsistent(bookings, slots) && HistoryMatches(bookings, h) && DeadlinesKept(bookings, slots, h)
    requires LedgerMatches(bookings, ledger, h) && Conserved(bookings, ledger, h)
    ensures SlotsConsistent(bookings[id := row'], slots)
    ensures HistoryMatches(bookings[id := row'], h)
    ensures DeadlinesKept(bookings[id := row'], slots, h)
    ensures LedgerMatches(bookings[id := row'], ledger, h)
    ensures Conserved(bookings[id := row'], ledger, h)
  {
    LiveKeepsSlots(bookings, slots, h, id, row');
    LiveKeepsLedger(bookings, ledger, h, id, row');
  }

  lemma LiveKeepsSlots(bookings: map<Id, Booking>, slots: map<Id, Slot>, h: History, id: Id, row': Booking)
    requires id in bookings && bookings[id].status != CANCELLED && row'.status == COMPLETED
    requires SameCustomer(bookings[id], row')
    requires SlotsConsistent(bookings, slots) && HistoryMatches(bookings, h) && DeadlinesKept(bookings, slots, h)
    ensures SlotsConsistent(bookings[id := row'], slots)
    ensures HistoryMatches(bookings[id := row'], h)
    ensures DeadlinesKept(bookings[id := row'], slots, h)
  {
  }

  lemma LiveKeepsLedger(bookings: map<Id, Booking>, ledger: seq<Entry>, h: History, id: Id, row': Booking)
    requires id in bookings && SameCustomer(bookings[id], row')
    requires LedgerMatches(bookings, ledger, h) && Conserved(bookings, ledger, h)
    ensures LedgerMatches(bookings[id := row'], ledger, h)
    ensures Conserved(bookings[id := row'], ledger, h)
  {
    var bookings' := bookings[id := row'];
    forall b: Id ensures EntriesExact(bookings', ledger, h, b) {
      assert EntriesExact(bookings, ledger, h, b);
    }
    forall u: Id, r: Id ensures ConservedFor(bookings', ledger, h, u, r) {
      assert ConservedFor(bookings, ledger, h, u, r);
      assert NetMap(bookings', h, u, r) == NetMap(bookings, h, u, r);
    }
  }

  lemma GrantInv(w: World, user: Id, root: Id, amount: int)
    requires Inv(w) && amount > 0
    ensures Inv(Step(w, GrantPoints(user, root, amount)))
  {
    var e := Entry(user, root, None, amount, CREDIT);
    var bookings, ledger, h := w.db.bookings, w.db.ledger, w.history;
    forall b: Id ensures EntriesExact(bookings, ledger + [e], h, b) {
      assert EntriesExact(bookings, ledger, h, b);
      EntriesAppend(ledger, e, b);
    }
    forall u: Id, r: Id ensures ConservedFor(bookings, ledger + [e], h, u, r) {
      assert ConservedFor(bookings, ledger, h, u, r);
      LedgerAppend(ledger, e, u, r);
    }
  }

  /** Steps outside bookings and ledger leave both alone, keep every slot, and
      publish new ones only. */
  lemma EnvironmentFrame(db: Database, e: Event)
    ensures var db' := EnvironmentStep(db, e);
            && db'.bookings == db.bookings && db'.ledger == db.ledger
            && (forall s :: s in db.slots ==> s in db'.slots && db'.slots[s] == db.slots[s])
            && (forall s :: s in db'.slots && s !in db.slots ==>
                  db'.slots[s].status == PUBLISHED && db'.slots[s].withdrawnAt == None)
  {
  }

  lemma EnvironmentInv(w: World, e: Event)
    requires Inv(w)
    ensures Inv(w.(db := EnvironmentStep(w.db, e)))
  {
    EnvironmentFrame(w.db, e);
    var v := w.(db := EnvironmentStep(w.db, e));
    assert SlotsConsistent(v.db.bookings, v.db.slots);
    forall tx | tx in w.plans ensures PlanSound(v.db.bookings, v.db.slots, v.history, v.plans[tx]) {
      assert PlanSound(w.db.bookings, w.db.slots, w.history, w.plans[tx]);
    }
  }

  lemma ReevaluateInv(w: World, resource: Id, listed: seq<Id>)
    requires Inv(w) && ListsSome(w.db, resource, w.clock, listed)
    ensures Inv(Step(w, Reevaluate(resource, listed)))
  {
    ReevaluateIs(w, resource, listed);
    RevokeInv(w, resource, listed);
  }

  /** Every step keeps the invariant. */
  lemma StepInv(w: World, e: Event)
    requires Inv(w)
    ensures Inv(Step(w, e))
  {
    match e
    case Tick(_) =>
    case Create(slot, user, activeOrganization, id) => CreateInv(w, slot, user, activeOrganization, id);
    case ReadCancel(tx, id, actor, makeSlotAvailable) => ReadCancelInv(w, tx, id, actor, makeSlotAvailable);
    case CommitCancel(tx) => if tx in w.plans { CommitCancelInv(w, tx); }
    case Complete(id, administrator) => CompleteInv(w, id, administrator);
    case Reevaluate(resource, listed) =>
      if ListsSome(w.db, resource, w.clock, listed) { ReevaluateInv(w, resource, listed); }
    case GrantPoints(user, root, amount) => if amount > 0 { GrantInv(w, user, root, amount); }
    case _ =>
      EnvironmentIs(w, e);
      EnvironmentInv(w, e);
  }

  /** The invariant holds in every state of every run. */
  lemma {:induction false} RunInv(w: World, events: seq<Event>)
    requires Inv(w)
    ensures Inv(Run(w, events))
    decreases |events|
  {
    if events != [] {
      StepInv(w, events[0]);
      RunInv(Step(w, events[0]), events[1..]);
    }
  }
}
