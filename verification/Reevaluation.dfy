/** What re-evaluating a resource does to each booking, each slot and the ledger,
    whatever order its query lists the bookings in. */
module Reevaluation {
  import opened Prelude
  import opened BookingModel
  import opened BookingRuns
  import opened BookingInvariant
  import opened BookingTheorems
  import opened Rules

  /** A confirmed booking of the resource, still to start. */
  predicate StillToCome(t: Tables, resource: Id, now: Time, b: Id) {
    && b in t.bookings && t.bookings[b].status == CONFIRMED && t.bookings[b].slot in t.slots
    && t.slots[t.bookings[b].slot].resource == resource && t.slots[t.bookings[b].slot].startsAt > now
  }

  /** Such a booking whose user may no longer use the resource. */
  ghost predicate LosesAccess(t: Tables, resource: Id, now: Time, b: Id) {
    StillToCome(t, resource, now, b) && !MayUse(t, resource, t.bookings[b].user)
  }

  predicate RevokedIn(db: Database, resource: Id, listed: seq<Id>, b: Id) {
    b in listed && b in db.bookings && !KeepsAccess(db, resource, db.bookings[b].user)
  }

  function RevokedRow(row: Booking, now: Time): Booking {
    row.(status := CANCELLED, cancelledAt := Some(now))
  }

  ghost predicate Listed(db: Database, listed: seq<Id>) {
    forall i :: 0 <= i < |listed| ==> listed[i] in db.bookings
  }

  lemma {:induction false} RowAfterLoop(db: Database, resource: Id, listed: seq<Id>, now: Time, b: Id)
    requires Listed(db, listed) && b in db.bookings
    ensures RevokeEach(db, resource, listed, now).bookings[b]
         == if RevokedIn(db, resource, listed, b) then RevokedRow(db.bookings[b], now) else db.bookings[b]
    decreases |listed|
  {
    if listed != [] {
      var last, rest := listed[|listed| - 1], listed[..|listed| - 1];
      assert listed == rest + [last];
      RowAfterLoop(db, resource, rest, now, b);
    }
  }

  predicate SlotRevokedIn(db: Database, resource: Id, listed: seq<Id>, s: Id) {
    exists b :: b in listed && RevokedIn(db, resource, listed, b) && db.bookings[b].slot == s
  }

  lemma {:induction false} SlotAfterLoop(db: Database, resource: Id, listed: seq<Id>, now: Time, s: Id)
    requires Listed(db, listed) && s in db.slots
    ensures var after := RevokeEach(db, resource, listed, now).slots;
            s in after && after[s] == if SlotRevokedIn(db, resource, listed, s)
                                      then SlotAfter(db.slots[s], WITHDRAWN, now) else db.slots[s]
    decreases |listed|
  {
    if listed != [] {
      var last, rest := listed[|listed| - 1], listed[..|listed| - 1];
      assert listed == rest + [last];
      SlotAfterLoop(db, resource, rest, now, s);
      RowAfterLoop(db, resource, rest, now, last);
      SlotRevokedSplit(db, resource, rest, last, s);
      SlotAfterRevoke(RevokeEach(db, resource, rest, now), last, now, s);
    }
  }

  lemma SlotAfterRevoke(db: Database, id: Id, now: Time, s: Id)
    requires id in db.bookings && s in db.slots
    ensures Revoke(db, id, now).slots[s]
         == if db.bookings[id].slot == s then SlotAfter(db.slots[s], WITHDRAWN, now) else db.slots[s]
  {
  }

  lemma SlotRevokedSplit(db: Database, resource: Id, rest: seq<Id>, last: Id, s: Id)
    requires last in db.bookings
    ensures SlotRevokedIn(db, resource, rest + [last], s)
       <==> SlotRevokedIn(db, resource, rest, s)
            || (!KeepsAccess(db, resource, db.bookings[last].user) && db.bookings[last].slot == s)
  {
  }

  /** The loop writes nothing but bookings, slots and the ledger. */
  lemma {:induction false} RestAfterLoop(db: Database, resource: Id, listed: seq<Id>, now: Time)
    requires Listed(db, listed)
    ensures var after := RevokeEach(db, resource, listed, now);
            after == db.(bookings := after.bookings, slots := after.slots, ledger := after.ledger)
            && after.slots.Keys == db.slots.Keys
    decreases |listed|
  {
    if listed != [] {
      RestAfterLoop(db, resource, listed[..|listed| - 1], now);
    }
  }

  function FullRefund(row: Booking, b: Id, charge: int): Entry {
    Entry(row.user, row.root, Some(b), charge, BOOKING_REFUND)
  }

  /** One full refund per revoked booking that cost anything, in list order. */
  ghost function FullRefunds(db: Database, charged: map<Id, int>, resource: Id, listed: seq<Id>): seq<Entry>
    requires charged.Keys == db.bookings.Keys
    requires Listed(db, listed)
    decreases |listed|
  {
    if listed == [] then []
    else
      var id := listed[|listed| - 1];
      FullRefunds(db, charged, resource, listed[..|listed| - 1])
      + (if !MayUse(db, resource, db.bookings[id].user) && charged[id] > 0
         then [FullRefund(db.bookings[id], id, charged[id])] else [])
  }

  lemma LedgerAfterLast(db: Database, charged: map<Id, int>, resource: Id, rest: seq<Id>, last: Id, now: Time)
    requires charged.Keys == db.bookings.Keys && Listed(db, rest) && last in db.bookings
    requires var before := RevokeEach(db, resource, rest, now);
             && before.bookings[last] == db.bookings[last]
             && DeductedPoints(before.ledger, last, db.bookings[last].user) == charged[last]
             && before.ledger == db.ledger + FullRefunds(db, charged, resource, rest)
    ensures RevokeEach(db, resource, rest + [last], now).ledger
         == db.ledger + FullRefunds(db, charged, resource, rest + [last])
  {
    assert (rest + [last])[..|rest|] == rest;
    var refunds := FullRefunds(db, charged, resource, rest);
    var e := FullRefund(db.bookings[last], last, charged[last]);
    AccessExactly(db, resource, db.bookings[last].user, 0);
    assert db.ledger + refunds + [e] == db.ledger + (refunds + [e]);
    assert refunds + [] == refunds;
  }

  lemma {:induction false} LedgerAfterLoop(w: World, resource: Id, listed: seq<Id>)
    requires Inv(w) && ConfirmedEach(w.db, listed)
    ensures RevokeEach(w.db, resource, listed, w.clock).ledger
         == w.db.ledger + FullRefunds(w.db, w.history.charged, resource, listed)
    decreases |listed|
  {
    if listed == [] {
      assert w.db.ledger + [] == w.db.ledger;
    } else {
      var last, rest := listed[|listed| - 1], listed[..|listed| - 1];
      assert listed == rest + [last];
      LedgerAfterLoop(w, resource, rest);
      RevokeInv(w, resource, rest);
      RevokeFrame(w.db, resource, rest, w.clock, last);
      FindsCharge(RevokeStep(w, resource, rest), last);
      LedgerAfterLast(w.db, w.history.charged, resource, rest, last, w.clock);
    }
  }

  lemma FindsCharge(u: World, b: Id)
    requires Inv(u) && b in u.db.bookings
    ensures DeductedPoints(u.db.ledger, b, u.db.bookings[b].user) == u.history.charged[b]
  {
    assert EntriesExact(u.db.bookings, u.db.ledger, u.history, b);
    DeductedIsCharged(u.db.bookings, u.db.ledger, u.history, b);
  }

  lemma ListedAsFuture(db: Database, resource: Id, now: Time, listed: seq<Id>, b: Id)
    requires ListsFuture(db, resource, now, listed)
    ensures RevokedIn(db, resource, listed, b) <==> LosesAccess(db, resource, now, b)
    ensures Listed(db, listed) && ConfirmedEach(db, listed)
  {
    if b in db.bookings {
      AccessExactly(db, resource, db.bookings[b].user, 0);
    }
  }

  /** A booking is cancelled exactly when its user lost access and it lies in the
      future; a slot is withdrawn exactly when such a booking sits on it; the ledger
      gains exactly their full refunds; nothing else changes. */
  lemma ReevaluationEffect(w: World, resource: Id, listed: seq<Id>)
    requires Inv(w) && ListsFuture(w.db, resource, w.clock, listed)
    ensures Listed(w.db, listed)
    ensures var v := Step(w, Reevaluate(resource, listed));
            && v.db.bookings.Keys == w.db.bookings.Keys && v.db.slots.Keys == w.db.slots.Keys
            && (forall b :: b in w.db.bookings ==>
                  v.db.bookings[b] == if LosesAccess(w.db, resource, w.clock, b)
                                      then RevokedRow(w.db.bookings[b], w.clock) else w.db.bookings[b])
            && (forall s :: s in w.db.slots ==>
                  v.db.slots[s] == if exists b :: b in w.db.bookings && LosesAccess(w.db, resource, w.clock, b)
                                                  && w.db.bookings[b].slot == s
                                   then w.db.slots[s].(status := WITHDRAWN, withdrawnAt := Some(w.clock))
                                   else w.db.slots[s])
            && v.db.ledger == w.db.ledger + FullRefunds(w.db, w.history.charged, resource, listed)
            && v.db == w.db.(bookings := v.db.bookings, slots := v.db.slots, ledger := v.db.ledger)
  {
    forall b: Id
      ensures RevokedIn(w.db, resource, listed, b) <==> LosesAccess(w.db, resource, w.clock, b)
      ensures Listed(w.db, listed) && ConfirmedEach(w.db, listed)
    {
      ListedAsFuture(w.db, resource, w.clock, listed, b);
    }
    ListedAsFuture(w.db, resource, w.clock, listed, 0);
    RestAfterLoop(w.db, resource, listed, w.clock);
    LedgerAfterLoop(w, resource, listed);
    forall b | b in w.db.bookings
      ensures RevokeEach(w.db, resource, listed, w.clock).bookings[b]
           == if LosesAccess(w.db, resource, w.clock, b) then RevokedRow(w.db.bookings[b], w.clock) else w.db.bookings[b]
    {
      RowAfterLoop(w.db, resource, listed, w.clock, b);
    }
    forall s | s in w.db.slots
      ensures RevokeEach(w.db, resource, listed, w.clock).slots[s]
           == if exists b :: b in w.db.bookings && LosesAccess(w.db, resource, w.clock, b) && w.db.bookings[b].slot == s
              then w.db.slots[s].(status := WITHDRAWN, withdrawnAt := Some(w.clock)) else w.db.slots[s]
    {
      SlotAfterLoop(w.db, resource, listed, w.clock, s);
    }
  }

  lemma {:induction false} RefundsOnList(w: World, resource: Id, listed: seq<Id>, b: Id)
    requires Inv(w) && ConfirmedEach(w.db, listed) && b in w.db.bookings
    ensures EntriesFor(FullRefunds(w.db, w.history.charged, resource, listed), b)
         == if b in listed && !MayUse(w.db, resource, w.db.bookings[b].user) && w.history.charged[b] > 0
            then [FullRefund(w.db.bookings[b], b, w.history.charged[b])] else []
    decreases |listed|
  {
    if listed != [] {
      var last, rest := listed[|listed| - 1], listed[..|listed| - 1];
      assert listed == rest + [last];
      RefundsOnList(w, resource, rest, b);
      var refunds := FullRefunds(w.db, w.history.charged, resource, rest);
      if !MayUse(w.db, resource, w.db.bookings[last].user) && w.history.charged[last] > 0 {
        var e := FullRefund(w.db.bookings[last], last, w.history.charged[last]);
        assert FullRefunds(w.db, w.history.charged, resource, listed) == refunds + [e];
        EntriesAppend(refunds, e, b);
      } else {
        assert refunds + [] == refunds;
        assert FullRefunds(w.db, w.history.charged, resource, listed) == refunds;
      }
    }
  }

  /** Among the new entries, a booking that lost access and cost something has exactly
      one, its full charge; no other booking has any. */
  lemma RefundedOnce(w: World, resource: Id, listed: seq<Id>, b: Id)
    requires Inv(w) && ListsFuture(w.db, resource, w.clock, listed) && b in w.db.bookings
    ensures Listed(w.db, listed)
    ensures EntriesFor(FullRefunds(w.db, w.history.charged, resource, listed), b)
         == if LosesAccess(w.db, resource, w.clock, b) && w.history.charged[b] > 0
            then [Entry(w.db.bookings[b].user, w.db.bookings[b].root, Some(b), w.history.charged[b], BOOKING_REFUND)] else []
  {
    ListedAsFuture(w.db, resource, w.clock, listed, b);
    AccessExactly(w.db, resource, w.db.bookings[b].user, 0);
    RefundsOnList(w, resource, listed, b);
  }

  /** Afterwards every future confirmed booking of the resource belongs to an approved
      member of the owner or of an allowed organization, and none is left on a resource
      that is not active. */
  lemma NoRevokedBookingLeft(w: World, resource: Id, listed: seq<Id>, b: Id)
    requires Inv(w) && ListsFuture(w.db, resource, w.clock, listed)
    ensures var v := Step(w, Reevaluate(resource, listed));
            StillToCome(v.db, resource, v.clock, b) ==>
              && resource in v.db.resources && v.db.resources[resource].status == ACTIVE
              && exists o :: && (o == v.db.resources[resource].owner || o in v.db.resources[resource].allowed)
                             && (v.db.bookings[b].user, o) in v.db.memberships
                             && v.db.memberships[(v.db.bookings[b].user, o)].status == APPROVED
  {
    ReevaluationEffect(w, resource, listed);
    var v := Step(w, Reevaluate(resource, listed));
    if StillToCome(v.db, resource, v.clock, b) {
      assert StillToCome(w.db, resource, w.clock, b) && MayUse(w.db, resource, v.db.bookings[b].user);
      var o :| (o == w.db.resources[resource].owner || o in w.db.resources[resource].allowed)
               && ApprovedIn(w.db, v.db.bookings[b].user, o);
      assert (v.db.bookings[b].user, o) in v.db.memberships;
    }
  }

  // ---------- After a removal or an edit ----------

  /** A removed resource, re-evaluated: each booking of it that was still to come has been
      cancelled. */
  lemma RemovalCancelsAll(w: World, resource: Id, listed: seq<Id>, b: Id)
    requires Inv(w) && resource in w.db.resources
    requires ListsFuture(Step(w, RemoveResource(resource)).db, resource, w.clock, listed)
    ensures var v := Step(Step(w, RemoveResource(resource)), Reevaluate(resource, listed));
            && !StillToCome(v.db, resource, v.clock, b)
            && (StillToCome(w.db, resource, w.clock, b) ==> b in v.db.bookings && v.db.bookings[b].status == CANCELLED)
  {
    var u := Step(w, RemoveResource(resource));
    EnvironmentInv(w, RemoveResource(resource));
    RemovalShutsOut(w, resource, b);
    CancelsLost(u, resource, listed, b);
  }

  lemma RemovalShutsOut(w: World, resource: Id, b: Id)
    requires resource in w.db.resources
    ensures var u := Step(w, RemoveResource(resource));
            && resource in u.db.resources && u.db.resources[resource].status == INACTIVE && u.clock == w.clock
            && (StillToCome(w.db, resource, w.clock, b) ==> LosesAccess(u.db, resource, u.clock, b))
  {
  }

  /** On a resource that is not active, a re-evaluation leaves nothing to come. */
  lemma CancelsLost(w: World, resource: Id, listed: seq<Id>, b: Id)
    requires Inv(w) && ListsFuture(w.db, resource, w.clock, listed)
    requires resource in w.db.resources && w.db.resources[resource].status == INACTIVE
    ensures var v := Step(w, Reevaluate(resource, listed));
            && !StillToCome(v.db, resource, v.clock, b)
            && (LosesAccess(w.db, resource, w.clock, b) ==> b in v.db.bookings && v.db.bookings[b].status == CANCELLED)
  {
    NoRevokedBookingLeft(w, resource, listed, b);
    ReevaluationEffect(w, resource, listed);
  }

  /** An edited resource, re-evaluated: its row has the values of the edit, and its
      bookings that are still to come belong to members of the owner or of the
      organizations that the edit allows. */
  lemma EditRevokesOthers(w: World, resource: Id, cost: int, notice: int, allowed: set<Id>, status: Option<ResourceStatus>,
                          listed: seq<Id>, b: Id)
    requires Inv(w) && resource in w.db.resources
    requires ListsFuture(Step(w, UpdateResource(resource, cost, notice, allowed, status)).db, resource, w.clock, listed)
    ensures var v := Step(Step(w, UpdateResource(resource, cost, notice, allowed, status)), Reevaluate(resource, listed));
            var before := w.db.resources[resource];
            && v.db.resources == w.db.resources[resource := before.(
                 pointCost := cost, noticeMinutes := notice, allowed := allowed,
                 status := if status.Some? then status.value else before.status)]
            && (StillToCome(v.db, resource, v.clock, b) ==>
                  exists o :: (o == before.owner || o in allowed) && ApprovedIn(w.db, v.db.bookings[b].user, o))
  {
    var e := UpdateResource(resource, cost, notice, allowed, status);
    var u := Step(w, e);
    var v := Step(u, Reevaluate(resource, listed));
    EnvironmentInv(w, e);
    NoRevokedBookingLeft(u, resource, listed, b);
    ReevaluationEffect(u, resource, listed);
    if StillToCome(v.db, resource, v.clock, b) {
      var o :| && (o == v.db.resources[resource].owner || o in v.db.resources[resource].allowed)
               && (v.db.bookings[b].user, o) in v.db.memberships
               && v.db.memberships[(v.db.bookings[b].user, o)].status == APPROVED;
      assert ApprovedIn(w.db, v.db.bookings[b].user, o);
    }
  }

  // ---------- Repeated runs ----------

  /** A second run, at the same or a later time, changes nothing. */
  lemma SecondRunDoesNothing(w: World, resource: Id, listed: seq<Id>, later: nat, again: seq<Id>)
    requires Inv(w) && ListsFuture(w.db, resource, w.clock, listed)
    requires var v := Step(w, Reevaluate(resource, listed));
             ListsFuture(v.db, resource, v.clock + later, again)
    ensures var v := Step(Step(w, Reevaluate(resource, listed)), Tick(later));
            Step(v, Reevaluate(resource, again)) == v
  {
    var u := Step(w, Reevaluate(resource, listed));
    var v := Step(u, Tick(later));
    forall i | 0 <= i < |again| ensures KeepsAccess(v.db, resource, v.db.bookings[again[i]].user) {
      assert FutureConfirmed(u.db, resource, u.clock, again[i]);
      AccessKept(w, resource, listed, again[i]);
    }
    NothingToRevoke(v, resource, again);
  }

  lemma AccessKept(w: World, resource: Id, listed: seq<Id>, b: Id)
    requires Inv(w) && ListsFuture(w.db, resource, w.clock, listed)
    requires FutureConfirmed(Step(w, Reevaluate(resource, listed)).db, resource, w.clock, b)
    ensures var v := Step(w, Reevaluate(resource, listed)); KeepsAccess(v.db, resource, v.db.bookings[b].user)
  {
    var v := Step(w, Reevaluate(resource, listed));
    NoRevokedBookingLeft(w, resource, listed, b);
    var o :| && (o == v.db.resources[resource].owner || o in v.db.resources[resource].allowed)
             && (v.db.bookings[b].user, o) in v.db.memberships
             && v.db.memberships[(v.db.bookings[b].user, o)].status == APPROVED;
    assert ApprovedIn(v.db, v.db.bookings[b].user, o);
    AccessExactly(v.db, resource, v.db.bookings[b].user, 0);
  }

  lemma {:induction false} NothingToRevoke(w: World, resource: Id, listed: seq<Id>)
    requires Listed(w.db, listed)
    requires forall i :: 0 <= i < |listed| ==> KeepsAccess(w.db, resource, w.db.bookings[listed[i]].user)
    ensures RevokeStep(w, resource, listed) == w
    decreases |listed|
  {
    if listed != [] {
      var last, rest := listed[|listed| - 1], listed[..|listed| - 1];
      assert listed == rest + [last];
      NothingToRevoke(w, resource, rest);
      RevokeStepLast(w, resource, rest, last);
    }
  }

  /** A booking whose user has the access that creation demands is never cancelled. */
  lemma AcceptedNowNeverCancelled(w: World, resource: Id, listed: seq<Id>, b: Id, root: Id)
    requires Inv(w) && ListsFuture(w.db, resource, w.clock, listed)
    requires b in w.db.bookings && MayUseIn(w.db, resource, w.db.bookings[b].user, root)
    ensures Step(w, Reevaluate(resource, listed)).db.bookings[b] == w.db.bookings[b]
  {
    ReevaluationEffect(w, resource, listed);
  }

  /** The order of the query's list does not matter: bookings, slots and every
      balance come out the same. */
  lemma OrderDoesNotMatter(w: World, resource: Id, one: seq<Id>, other: seq<Id>, user: Id, root: Id)
    requires Inv(w) && ListsFuture(w.db, resource, w.clock, one) && ListsFuture(w.db, resource, w.clock, other)
    ensures var v, v' := Step(w, Reevaluate(resource, one)), Step(w, Reevaluate(resource, other));
            && v'.db.bookings == v.db.bookings && v'.db.slots == v.db.slots && v'.history == v.history
            && Balance(v'.db.ledger, user, root) == Balance(v.db.ledger, user, root)
  {
    var v, v' := Step(w, Reevaluate(resource, one)), Step(w, Reevaluate(resource, other));
    ReevaluateIs(w, resource, one);
    ReevaluateIs(w, resource, other);
    SameOutcome(w, resource, one, other);
    CreditsAfter(w, resource, one, user, root);
    CreditsAfter(w, resource, other, user, root);
    BalanceFromBookings(v, v', user, root);
  }

  lemma CreditsAfter(w: World, resource: Id, listed: seq<Id>, user: Id, root: Id)
    requires Inv(w) && ListsFuture(w.db, resource, w.clock, listed)
    ensures Credits(Step(w, Reevaluate(resource, listed)).db.ledger, user, root) == Credits(w.db.ledger, user, root)
    ensures Inv(Step(w, Reevaluate(resource, listed)))
  {
    ListedAsFuture(w.db, resource, w.clock, listed, 0);
    RefundsAreNoCredits(w, resource, listed, user, root);
    StepInv(w, Reevaluate(resource, listed));
  }

  lemma SameOutcome(w: World, resource: Id, one: seq<Id>, other: seq<Id>)
    requires ListsFuture(w.db, resource, w.clock, one) && ListsFuture(w.db, resource, w.clock, other)
    ensures var v, v' := RevokeStep(w, resource, one), RevokeStep(w, resource, other);
            v'.db.bookings == v.db.bookings && v'.db.slots == v.db.slots && v'.history == v.history
  {
    SameTables(w.db, resource, w.clock, one, other);
    EndedAlike(w, resource, one, other);
  }

  lemma SameTables(db: Database, resource: Id, now: Time, one: seq<Id>, other: seq<Id>)
    requires ListsFuture(db, resource, now, one) && ListsFuture(db, resource, now, other)
    ensures RevokeEach(db, resource, one, now).bookings == RevokeEach(db, resource, other, now).bookings
    ensures RevokeEach(db, resource, one, now).slots == RevokeEach(db, resource, other, now).slots
  {
    SameRevoked(db, resource, now, one, other);
    SameBookings(db, resource, now, one, other);
    SameSlots(db, resource, now, one, other);
  }

  /** Balances are a function of the bookings, their endings and the credits. */
  lemma BalanceFromBookings(v: World, v': World, user: Id, root: Id)
    requires Inv(v) && Inv(v')
    requires v'.db.bookings == v.db.bookings && v'.history == v.history
    requires Credits(v'.db.ledger, user, root) == Credits(v.db.ledger, user, root)
    ensures Balance(v'.db.ledger, user, root) == Balance(v.db.ledger, user, root)
  {
    assert ConservedFor(v.db.bookings, v.db.ledger, v.history, user, root);
    assert ConservedFor(v'.db.bookings, v'.db.ledger, v'.history, user, root);
  }

  /** Two lists of the same query agree on whose bookings and slots are revoked. */
  lemma SameRevoked(db: Database, resource: Id, now: Time, one: seq<Id>, other: seq<Id>)
    requires ListsFuture(db, resource, now, one) && ListsFuture(db, resource, now, other)
    ensures Listed(db, one) && Listed(db, other)
    ensures forall b :: RevokedIn(db, resource, one, b) <==> RevokedIn(db, resource, other, b)
    ensures forall s :: SlotRevokedIn(db, resource, one, s) <==> SlotRevokedIn(db, resource, other, s)
  {
    assert forall b :: b in one <==> b in other;
  }

  lemma SameBookings(db: Database, resource: Id, now: Time, one: seq<Id>, other: seq<Id>)
    requires Listed(db, one) && Listed(db, other)
    requires forall b :: RevokedIn(db, resource, one, b) <==> RevokedIn(db, resource, other, b)
    ensures RevokeEach(db, resource, one, now).bookings == RevokeEach(db, resource, other, now).bookings
  {
    var after, after' := RevokeEach(db, resource, one, now).bookings, RevokeEach(db, resource, other, now).bookings;
    forall b | b in db.bookings ensures after'[b] == after[b] {
      RowAfterLoop(db, resource, one, now, b);
      RowAfterLoop(db, resource, other, now, b);
    }
  }

  lemma SameSlots(db: Database, resource: Id, now: Time, one: seq<Id>, other: seq<Id>)
    requires Listed(db, one) && Listed(db, other)
    requires forall s :: SlotRevokedIn(db, resource, one, s) <==> SlotRevokedIn(db, resource, other, s)
    ensures RevokeEach(db, resource, one, now).slots == RevokeEach(db, resource, other, now).slots
  {
    var after, after' := RevokeEach(db, resource, one, now).slots, RevokeEach(db, resource, other, now).slots;
    RestAfterLoop(db, resource, one, now);
    RestAfterLoop(db, resource, other, now);
    forall s | s in db.slots ensures after'[s] == after[s] {
      SlotAfterLoop(db, resource, one, now, s);
      SlotAfterLoop(db, resource, other, now, s);
    }
  }

  function Revocations(db: Database, resource: Id, listed: seq<Id>): map<Id, Ending> {
    map b | b in db.bookings && RevokedIn(db, resource, listed, b) :: ByRevocation
  }

  lemma RevocationsLast(db: Database, resource: Id, rest: seq<Id>, last: Id)
    requires last in db.bookings
    ensures Revocations(db, resource, rest + [last])
         == if KeepsAccess(db, resource, db.bookings[last].user) then Revocations(db, resource, rest)
            else Revocations(db, resource, rest)[last := ByRevocation]
  {
  }

  lemma {:induction false} EndedAfterLoop(db: Database, resource: Id, listed: seq<Id>, ended: map<Id, Ending>)
    requires Listed(db, listed)
    ensures EndEach(db, resource, listed, ended) == ended + Revocations(db, resource, listed)
    decreases |listed|
  {
    if listed != [] {
      var last, rest := listed[|listed| - 1], listed[..|listed| - 1];
      assert listed == rest + [last];
      EndedAfterLoop(db, resource, rest, ended);
      RevocationsLast(db, resource, rest, last);
    }
  }

  lemma EndedAlike(w: World, resource: Id, one: seq<Id>, other: seq<Id>)
    requires ListsFuture(w.db, resource, w.clock, one) && ListsFuture(w.db, resource, w.clock, other)
    ensures RevokeStep(w, resource, one).history == RevokeStep(w, resource, other).history
  {
    SameRevoked(w.db, resource, w.clock, one, other);
    EndedAfterLoop(w.db, resource, one, w.history.ended);
    EndedAfterLoop(w.db, resource, other, w.history.ended);
    assert Revocations(w.db, resource, one) == Revocations(w.db, resource, other);
  }

  lemma {:induction false} RefundsAreNoCredits(w: World, resource: Id, listed: seq<Id>, user: Id, root: Id)
    requires Inv(w) && ConfirmedEach(w.db, listed)
    ensures Credits(RevokeStep(w, resource, listed).db.ledger, user, root) == Credits(w.db.ledger, user, root)
    decreases |listed|
  {
    if listed != [] {
      var last, rest := listed[|listed| - 1], listed[..|listed| - 1];
      assert listed == rest + [last];
      RefundsAreNoCredits(w, resource, rest, user, root);
      RevokeStepLast(w, resource, rest, last);
      var u := RevokeStep(w, resource, rest);
      var refund := DeductedPoints(u.db.ledger, last, u.db.bookings[last].user);
      LedgerAppend(u.db.ledger, Refund(u.db.bookings[last], last, refund), user, root);
    }
  }

  // ---------- A run that ends early ----------

  /** A second listing, after a run that ended early, finds what the first run left. */
  lemma RestIsListed(w: World, resource: Id, listed: seq<Id>, part: seq<Id>, again: seq<Id>, b: Id)
    requires ListsFuture(w.db, resource, w.clock, listed) && ListsSome(w.db, resource, w.clock, part)
    requires ListsFuture(RevokeStep(w, resource, part).db, resource, w.clock, again)
    ensures var u := RevokeStep(w, resource, part);
            && Listed(u.db, again)
            && (RevokedIn(u.db, resource, again, b) <==> RevokedIn(w.db, resource, listed, b) && !RevokedIn(w.db, resource, part, b))
            && (RevokedIn(w.db, resource, part, b) ==> RevokedIn(w.db, resource, listed, b))
            && (b in w.db.bookings ==> b in u.db.bookings && u.db.bookings[b].slot == w.db.bookings[b].slot)
  {
    var u := RevokeStep(w, resource, part);
    RestAfterLoop(w.db, resource, part, w.clock);
    ListedAsFuture(w.db, resource, w.clock, listed, b);
    ListedAsFuture(u.db, resource, w.clock, again, b);
    if b in w.db.bookings {
      RowAfterLoop(w.db, resource, part, w.clock, b);
      SlotAfterLoop(w.db, resource, part, w.clock, w.db.bookings[b].slot);
      assert KeepsAccess(u.db, resource, w.db.bookings[b].user) <==> KeepsAccess(w.db, resource, w.db.bookings[b].user);
    }
  }

  lemma ResumedBookings(w: World, resource: Id, listed: seq<Id>, part: seq<Id>, again: seq<Id>)
    requires ListsFuture(w.db, resource, w.clock, listed) && ListsSome(w.db, resource, w.clock, part)
    requires ListsFuture(RevokeStep(w, resource, part).db, resource, w.clock, again)
    ensures RevokeStep(RevokeStep(w, resource, part), resource, again).db.bookings == RevokeStep(w, resource, listed).db.bookings
  {
    var u := RevokeStep(w, resource, part);
    var after, after' := RevokeStep(w, resource, listed).db.bookings, RevokeStep(u, resource, again).db.bookings;
    forall b | b in w.db.bookings ensures after'[b] == after[b] {
      RestIsListed(w, resource, listed, part, again, b);
      RowAfterLoop(w.db, resource, listed, w.clock, b);
      RowAfterLoop(w.db, resource, part, w.clock, b);
      RowAfterLoop(u.db, resource, again, w.clock, b);
    }
  }

  lemma ResumedSlotRow(w: World, resource: Id, listed: seq<Id>, part: seq<Id>, again: seq<Id>, s: Id)
    requires ListsFuture(w.db, resource, w.clock, listed) && ListsSome(w.db, resource, w.clock, part)
    requires ListsFuture(RevokeStep(w, resource, part).db, resource, w.clock, again) && s in w.db.slots
    ensures var v, v' := RevokeStep(w, resource, listed), RevokeStep(RevokeStep(w, resource, part), resource, again);
            s in v.db.slots && s in v'.db.slots && v'.db.slots[s] == v.db.slots[s]
  {
    ResumedSlot(w, resource, listed, part, again, s);
    SlotAfterLoop(w.db, resource, listed, w.clock, s);
    SlotAfterLoop(w.db, resource, part, w.clock, s);
    SlotAfterLoop(RevokeStep(w, resource, part).db, resource, again, w.clock, s);
  }

  lemma SlotsKept(w: World, resource: Id, listed: seq<Id>)
    requires Listed(w.db, listed)
    ensures RevokeStep(w, resource, listed).db.slots.Keys == w.db.slots.Keys
  {
    RestAfterLoop(w.db, resource, listed, w.clock);
  }

  lemma ResumedSlots(w: World, resource: Id, listed: seq<Id>, part: seq<Id>, again: seq<Id>)
    requires ListsFuture(w.db, resource, w.clock, listed) && ListsSome(w.db, resource, w.clock, part)
    requires ListsFuture(RevokeStep(w, resource, part).db, resource, w.clock, again)
    ensures RevokeStep(RevokeStep(w, resource, part), resource, again).db.slots == RevokeStep(w, resource, listed).db.slots
  {
    var u := RevokeStep(w, resource, part);
    var after, after' := RevokeStep(w, resource, listed).db.slots, RevokeStep(u, resource, again).db.slots;
    SlotsKept(w, resource, listed);
    SlotsKept(w, resource, part);
    SlotsKept(u, resource, again);
    forall s | s in w.db.slots ensures s in after && s in after' && after'[s] == after[s] {
      ResumedSlotRow(w, resource, listed, part, again, s);
    }
  }

  lemma ResumedSlot(w: World, resource: Id, listed: seq<Id>, part: seq<Id>, again: seq<Id>, s: Id)
    requires ListsFuture(w.db, resource, w.clock, listed) && ListsSome(w.db, resource, w.clock, part)
    requires ListsFuture(RevokeStep(w, resource, part).db, resource, w.clock, again)
    ensures SlotRevokedIn(w.db, resource, listed, s)
       <==> SlotRevokedIn(w.db, resource, part, s) || SlotRevokedIn(RevokeStep(w, resource, part).db, resource, again, s)
  {
    var u := RevokeStep(w, resource, part);
    forall b: Id
      ensures RevokedIn(u.db, resource, again, b) <==> RevokedIn(w.db, resource, listed, b) && !RevokedIn(w.db, resource, part, b)
      ensures RevokedIn(w.db, resource, part, b) ==> RevokedIn(w.db, resource, listed, b)
      ensures b in w.db.bookings ==> b in u.db.bookings && u.db.bookings[b].slot == w.db.bookings[b].slot
    {
      RestIsListed(w, resource, listed, part, again, b);
    }
  }

  lemma RevocationsSplit(w: World, resource: Id, listed: seq<Id>, part: seq<Id>, again: seq<Id>)
    requires ListsFuture(w.db, resource, w.clock, listed) && ListsSome(w.db, resource, w.clock, part)
    requires ListsFuture(RevokeStep(w, resource, part).db, resource, w.clock, again)
    ensures Revocations(w.db, resource, part) + Revocations(RevokeStep(w, resource, part).db, resource, again)
         == Revocations(w.db, resource, listed)
  {
    var u := RevokeStep(w, resource, part);
    forall b: Id
      ensures RevokedIn(u.db, resource, again, b) <==> RevokedIn(w.db, resource, listed, b) && !RevokedIn(w.db, resource, part, b)
      ensures RevokedIn(w.db, resource, part, b) ==> RevokedIn(w.db, resource, listed, b)
    {
      RestIsListed(w, resource, listed, part, again, b);
    }
  }

  lemma ResumedHistory(w: World, resource: Id, listed: seq<Id>, part: seq<Id>, again: seq<Id>)
    requires ListsFuture(w.db, resource, w.clock, listed) && ListsSome(w.db, resource, w.clock, part)
    requires ListsFuture(RevokeStep(w, resource, part).db, resource, w.clock, again)
    ensures RevokeStep(RevokeStep(w, resource, part), resource, again).history == RevokeStep(w, resource, listed).history
  {
    var u := RevokeStep(w, resource, part);
    EndedAfterLoop(w.db, resource, listed, w.history.ended);
    EndedAfterLoop(w.db, resource, part, w.history.ended);
    EndedAfterLoop(u.db, resource, again, u.history.ended);
    RevocationsSplit(w, resource, listed, part, again);
    MergeAssociates(w.history.ended, Revocations(w.db, resource, part), Revocations(u.db, resource, again));
  }

  lemma MergeAssociates(a: map<Id, Ending>, b: map<Id, Ending>, c: map<Id, Ending>)
    ensures (a + b) + c == a + (b + c)
  {
  }

  /** A run that ended early, repeated, ends like one that did not: the same bookings, the
      same slots and the same balances. */
  lemma InterruptedRunResumes(w: World, resource: Id, listed: seq<Id>, part: seq<Id>, again: seq<Id>, user: Id, root: Id)
    requires Inv(w) && ListsFuture(w.db, resource, w.clock, listed) && ListsSome(w.db, resource, w.clock, part)
    requires ListsFuture(RevokeStep(w, resource, part).db, resource, w.clock, again)
    ensures var v, v' := RevokeStep(w, resource, listed), RevokeStep(RevokeStep(w, resource, part), resource, again);
            && v'.db.bookings == v.db.bookings && v'.db.slots == v.db.slots && v'.history == v.history
            && Balance(v'.db.ledger, user, root) == Balance(v.db.ledger, user, root)
  {
    var u := RevokeStep(w, resource, part);
    ResumedBookings(w, resource, listed, part, again);
    ResumedSlots(w, resource, listed, part, again);
    ResumedHistory(w, resource, listed, part, again);
    RevokeInv(w, resource, listed);
    RevokeInv(w, resource, part);
    RevokeInv(u, resource, again);
    RefundsAreNoCredits(w, resource, listed, user, root);
    RefundsAreNoCredits(w, resource, part, user, root);
    RefundsAreNoCredits(u, resource, again, user, root);
    BalanceFromBookings(RevokeStep(w, resource, listed), RevokeStep(u, resource, again), user, root);
  }
}
