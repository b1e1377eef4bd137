/** The booking service over its tables, updated in place. Each transaction is
    proved to commit exactly what the model's function says, or nothing. */
module BookingService {
  import opened Prelude
  import opened BookingModel
  import opened PointLedger
  import opened StaleWrites
  import opened Rules
  import BookingTheorems

  const MAX_SERIALIZATION_ATTEMPTS: nat := 3

  /** What a failing database call or a failing confirmation message reports. */
  datatype Cause = UniqueConflict | SerializationConflict | OtherFailure

  /** Where a creation's transaction may fail: in the reads of its validation, in the
      balance check at the end of it, in the insert, in the deduction, or at its commit. */
  datatype Place = VALIDATION | BALANCE | INSERT | DEDUCTION | COMMIT

  datatype Failure = Failure(place: Place, cause: Cause)

  /** One attempt: the tables that other transactions have left by then, the new row's
      identifier, the time, the failure of a database call, if any, and that of the
      confirmation message sent after the commit. */
  datatype Attempt = Attempt(found: Database, id: Id, now: Time, failure: Option<Failure>, notified: Option<Cause>)

  /** How a transaction ends: committed, refused with a service's own error, or with
      the database's error as it is. */
  datatype End = Committed(id: Id) | Refused(error: BookingError) | Raised(cause: Cause)

  predicate FailsIn(failure: Option<Failure>, place: Place) {
    failure.Some? && failure.value.place == place
  }

  /** Validation and the ledger turn a failing call into an error of their own. */
  function ValidateUnder(db: Database, slot: Id, user: Id, activeOrganization: Option<Id>, now: Time, failure: Option<Failure>)
    : Result<BookingContext, BookingError>
  {
    if FailsIn(failure, VALIDATION) then Err(OperationFailed)
    else
      var r := Validate(db, slot, user, activeOrganization, now);
      if FailsIn(failure, BALANCE) && (r.Ok? || r.error.InsufficientPoints?) then Err(LedgerOperationFailed) else r
  }

  /** The creation transaction of an attempt, with the failure it meets. */
  function Transact(a: Attempt, slot: Id, user: Id, activeOrganization: Option<Id>): (Database, End) {
    match ValidateUnder(a.found, slot, user, activeOrganization, a.now, a.failure)
    case Err(e) => (a.found, Refused(e))
    case Ok(context) =>
      var (db, r) := BookingModel.CreateBooking(a.found, slot, user, activeOrganization, a.id, a.now);
      if FailsIn(a.failure, INSERT) then (a.found, Raised(a.failure.value.cause))
      else if r.Err? then (a.found, Raised(UniqueConflict))
      else if FailsIn(a.failure, DEDUCTION) && context.pointCost > 0 then (a.found, Refused(LedgerOperationFailed))
      else if FailsIn(a.failure, COMMIT) then (a.found, Raised(a.failure.value.cause))
      else (db, Committed(a.id))
  }

  predicate Commits(a: Attempt, slot: Id, user: Id, activeOrganization: Option<Id>) {
    Transact(a, slot, user, activeOrganization).1.Committed?
  }

  /** What reaches the retry loop: an attempt goes on after a serialization conflict. */
  function Caught(a: Attempt, slot: Id, user: Id, activeOrganization: Option<Id>): End {
    var end := Transact(a, slot, user, activeOrganization).1;
    if end.Committed? && a.notified.Some? then Raised(a.notified.value) else end
  }

  predicate Retried(a: Attempt, slot: Id, user: Id, activeOrganization: Option<Id>) {
    Caught(a, slot, user, activeOrganization) == Raised(SerializationConflict)
  }

  /** The user may book the slot under a new identifier, and no failing call meets the
      creation; one without a price makes no deduction that could fail. */
  ghost predicate GoesThrough(a: Attempt, slot: Id, user: Id, activeOrganization: Option<Id>) {
    && MayBook(a.found, slot, user, activeOrganization, a.now) && a.id !in a.found.bookings
    && (a.failure.None?
        || (a.failure.value.place == DEDUCTION && a.found.resources[a.found.slots[slot].resource].pointCost == 0))
  }

  /** An attempt commits exactly then, and it commits just that creation. */
  lemma CommitsExactly(a: Attempt, slot: Id, user: Id, activeOrganization: Option<Id>)
    ensures Commits(a, slot, user, activeOrganization) <==> GoesThrough(a, slot, user, activeOrganization)
    ensures Transact(a, slot, user, activeOrganization).0
         == if GoesThrough(a, slot, user, activeOrganization)
            then WithBooking(a.found, slot, user, activeOrganization, a.id, a.now) else a.found
  {
    BookingTheorems.ValidatesExactly(a.found, slot, user, activeOrganization, a.now);
    BookingTheorems.CreationAcceptedExactly(a.found, slot, user, activeOrganization, a.id, a.now);
  }

  /** A serialization conflict in a creation that would be accepted is retried exactly
      when it comes with the insert or the commit; the other services hide it. */
  lemma RetriedExactly(a: Attempt, slot: Id, user: Id, activeOrganization: Option<Id>)
    requires BookingModel.CreateBooking(a.found, slot, user, activeOrganization, a.id, a.now).1.Ok?
    requires a.failure.Some? && a.failure.value.cause == SerializationConflict
    requires !Commits(a, slot, user, activeOrganization)
    ensures Retried(a, slot, user, activeOrganization) <==> a.failure.value.place in {INSERT, COMMIT}
  {
  }

  /** A creation of user 1 for three points that meets a conflict in its deduction. */
  function ConflictInDeduction(): Attempt {
    var resource := Resource(5, 5, {}, ACTIVE, 3, 0, None);
    Attempt(Tables({1}, map[5 := Organization(5, true)], map[(1, 5) := Membership(MEMBER, APPROVED)],
                   map[7 := resource], map[9 := Slot(7, 1_000, PUBLISHED, None)], map[], [Entry(1, 5, None, 10, CREDIT)]),
            20, 0, Some(Failure(DEDUCTION, SerializationConflict)), None)
  }

  /** Such a conflict does occur: the call ends without a retry, though the same
      conflict at the commit would be retried. */
  lemma ConflictNotRetried()
    ensures var a := ConflictInDeduction();
            && Caught(a, 9, 1, Some(5)) == Refused(LedgerOperationFailed)
            && Caught(a.(failure := Some(Failure(COMMIT, SerializationConflict))), 9, 1, Some(5)) == Raised(SerializationConflict)
            && Commits(a.(failure := None), 9, 1, Some(5))
  {
    var a := ConflictInDeduction();
    var db := a.found;
    assert Approved(db, 1, 5) && 5 in BookableBy(db.resources[7]);
    assert CanAccess(db, 7, 1, 5);
    assert Balance([], 1, 5) == 0 && db.ledger[..0] == [];
    assert Balance(db.ledger, 1, 5) == 10;
  }

  /** The call's promise: it returns the booking that its last transaction alone
      committed, or fails and no transaction committed one. */
  predicate Promised(r: Result<Id, BookingError>, attempts: seq<Attempt>, transactions: nat, slot: Id, user: Id,
                     activeOrganization: Option<Id>)
    requires transactions <= |attempts|
  {
    && (forall i :: 0 <= i < transactions ==>
          (Commits(attempts[i], slot, user, activeOrganization) <==> r.Ok? && i == transactions - 1))
    && (r.Ok? ==> transactions > 0 && r.value == attempts[transactions - 1].id)
  }

  /** How a call ends, by what reaches it from its last attempt. */
  function Answer(end: End): Result<Id, BookingError> {
    match end
    case Committed(id) => Ok(id)
    case Refused(e) => Err(e)
    case Raised(UniqueConflict) => Err(ConcurrentConflict)
    case Raised(SerializationConflict) => Err(TransactionConflict)
    case Raised(OtherFailure) => Err(OperationFailed)
  }

  /** The cause that the insert, the commit or the confirmation message reports in an
      attempt to make a booking that the user may make. An identifier in use is a unique
      conflict of the insert. */
  ghost predicate Reports(a: Attempt, slot: Id, user: Id, activeOrganization: Option<Id>, cause: Cause) {
    && MayBook(a.found, slot, user, activeOrganization, a.now)
    && (|| a.failure == Some(Failure(INSERT, cause))
        || (a.id in a.found.bookings && cause == UniqueConflict
            && (a.failure.None? || a.failure.value.place == DEDUCTION || a.failure.value.place == COMMIT))
        || (a.id !in a.found.bookings && a.failure == Some(Failure(COMMIT, cause)))
        || (GoesThrough(a, slot, user, activeOrganization) && a.notified == Some(cause)))
  }

  /** What has to go wrong in an attempt for each error. */
  ghost predicate FailsWith(a: Attempt, slot: Id, user: Id, activeOrganization: Option<Id>, e: BookingError) {
    var place := if a.failure.Some? then Some(a.failure.value.place) else None;
    match e
    case ConcurrentConflict => Reports(a, slot, user, activeOrganization, UniqueConflict)
    case TransactionConflict => Reports(a, slot, user, activeOrganization, SerializationConflict)
    case OperationFailed => place == Some(VALIDATION) || Reports(a, slot, user, activeOrganization, OtherFailure)
    case LedgerOperationFailed =>
      || (place == Some(BALANCE) && OpenFor(a.found, slot, user, activeOrganization, a.now))
      || (place == Some(DEDUCTION) && MayBook(a.found, slot, user, activeOrganization, a.now)
          && a.id !in a.found.bookings && a.found.resources[a.found.slots[slot].resource].pointCost > 0)
    case InsufficientPoints(balance, required) =>
      && place != Some(VALIDATION) && place != Some(BALANCE)
      && OpenFor(a.found, slot, user, activeOrganization, a.now)
      && balance == Balance(a.found.ledger, user, a.found.organizations[activeOrganization.value].root) < required
      && required == a.found.resources[a.found.slots[slot].resource].pointCost
    case _ =>
      && place != Some(VALIDATION) && !OpenFor(a.found, slot, user, activeOrganization, a.now)
      && BookingModel.CreateBooking(a.found, slot, user, activeOrganization, a.id, a.now).1 == Err(e)
  }

  /** The answer of a call whose last attempt is this one: the new booking if it went
      through and was confirmed, or the error of what went wrong. */
  ghost predicate Answered(a: Attempt, slot: Id, user: Id, activeOrganization: Option<Id>, r: Result<Id, BookingError>) {
    match r
    case Ok(id) => id == a.id && GoesThrough(a, slot, user, activeOrganization) && a.notified.None?
    case Err(e) => FailsWith(a, slot, user, activeOrganization, e)
  }

  lemma AnswerFits(a: Attempt, slot: Id, user: Id, activeOrganization: Option<Id>)
    ensures Answered(a, slot, user, activeOrganization, Answer(Caught(a, slot, user, activeOrganization)))
  {
    BookingTheorems.ValidatesExactly(a.found, slot, user, activeOrganization, a.now);
    if MayBook(a.found, slot, user, activeOrganization, a.now) {
      AnsweredAllowed(a, slot, user, activeOrganization);
    } else {
      AnsweredRefused(a, slot, user, activeOrganization);
    }
  }

  /** What reaches the loop from an attempt to make a booking that the user may make. */
  lemma CaughtAllowed(a: Attempt, slot: Id, user: Id, activeOrganization: Option<Id>)
    requires MayBook(a.found, slot, user, activeOrganization, a.now)
    requires Validate(a.found, slot, user, activeOrganization, a.now).Ok?
    ensures Caught(a, slot, user, activeOrganization)
         == if FailsIn(a.failure, VALIDATION) then Refused(OperationFailed)
            else if FailsIn(a.failure, BALANCE) then Refused(LedgerOperationFailed)
            else if FailsIn(a.failure, INSERT) then Raised(a.failure.value.cause)
            else if a.id in a.found.bookings then Raised(UniqueConflict)
            else if FailsIn(a.failure, DEDUCTION) && a.found.resources[a.found.slots[slot].resource].pointCost > 0 then
              Refused(LedgerOperationFailed)
            else if FailsIn(a.failure, COMMIT) then Raised(a.failure.value.cause)
            else if a.notified.Some? then Raised(a.notified.value)
            else Committed(a.id)
  {
    BookingTheorems.CreationAcceptedExactly(a.found, slot, user, activeOrganization, a.id, a.now);
    BookingTheorems.ValidatesExactly(a.found, slot, user, activeOrganization, a.now);
  }

  lemma AnsweredAllowed(a: Attempt, slot: Id, user: Id, activeOrganization: Option<Id>)
    requires MayBook(a.found, slot, user, activeOrganization, a.now)
    requires Validate(a.found, slot, user, activeOrganization, a.now).Ok?
    ensures Answered(a, slot, user, activeOrganization, Answer(Caught(a, slot, user, activeOrganization)))
  {
    CaughtAllowed(a, slot, user, activeOrganization);
  }

  lemma AnsweredRefused(a: Attempt, slot: Id, user: Id, activeOrganization: Option<Id>)
    requires !MayBook(a.found, slot, user, activeOrganization, a.now)
    requires var r := Validate(a.found, slot, user, activeOrganization, a.now);
             r.Err? && (r.error.InsufficientPoints? <==> OpenFor(a.found, slot, user, activeOrganization, a.now))
    ensures Answered(a, slot, user, activeOrganization, Answer(Caught(a, slot, user, activeOrganization)))
  {
  }

  /** One answer fits an attempt, so these conditions decide between the booking and each
      of the errors. */
  lemma AnsweredExactly(a: Attempt, slot: Id, user: Id, activeOrganization: Option<Id>, r: Result<Id, BookingError>)
    ensures Answered(a, slot, user, activeOrganization, r) <==> r == Answer(Caught(a, slot, user, activeOrganization))
  {
    AnswerFits(a, slot, user, activeOrganization);
    if Answered(a, slot, user, activeOrganization, r) {
      OneAnswerFits(a, slot, user, activeOrganization, r, Answer(Caught(a, slot, user, activeOrganization)));
    }
  }

  lemma OneAnswerFits(a: Attempt, slot: Id, user: Id, activeOrganization: Option<Id>, r: Result<Id, BookingError>,
                      r': Result<Id, BookingError>)
    requires Answered(a, slot, user, activeOrganization, r) && Answered(a, slot, user, activeOrganization, r')
    ensures r == r'
  {
  }

  /** The first n attempts each report a serialization conflict. */
  ghost predicate ConflictsBefore(attempts: seq<Attempt>, n: nat, slot: Id, user: Id, activeOrganization: Option<Id>)
    requires n <= |attempts|
  {
    forall i :: 0 <= i < n ==> Reports(attempts[i], slot, user, activeOrganization, SerializationConflict)
  }

  /** A call with these attempts ends with the n-th and answers r. */
  ghost predicate CallEnds(attempts: seq<Attempt>, n: nat, slot: Id, user: Id, activeOrganization: Option<Id>,
                           r: Result<Id, BookingError>)
    requires n < |attempts|
  {
    && Answered(attempts[n], slot, user, activeOrganization, r)
    && ConflictsBefore(attempts, n, slot, user, activeOrganization)
    && (r == Err(TransactionConflict) ==> n + 1 == |attempts|)
  }

  /** The attempts decide with which of them the call ends and what it answers. */
  lemma OneOutcome(attempts: seq<Attempt>, n: nat, n': nat, slot: Id, user: Id, activeOrganization: Option<Id>,
                   r: Result<Id, BookingError>, r': Result<Id, BookingError>)
    requires n < |attempts| && CallEnds(attempts, n, slot, user, activeOrganization, r)
    requires n' < |attempts| && CallEnds(attempts, n', slot, user, activeOrganization, r')
    ensures n == n' && r == r'
  {
    NotBefore(attempts, n, n', slot, user, activeOrganization, r);
    NotBefore(attempts, n', n, slot, user, activeOrganization, r');
    OneAnswerFits(attempts[n], slot, user, activeOrganization, r, r');
  }

  lemma NotBefore(attempts: seq<Attempt>, n: nat, n': nat, slot: Id, user: Id, activeOrganization: Option<Id>,
                  r: Result<Id, BookingError>)
    requires n < |attempts| && CallEnds(attempts, n, slot, user, activeOrganization, r)
    requires n' < |attempts| && ConflictsBefore(attempts, n', slot, user, activeOrganization)
    ensures n' <= n
  {
    if n < n' {
      OneAnswerFits(attempts[n], slot, user, activeOrganization, r, Err(TransactionConflict));
    }
  }

  /** A call keeps its promise exactly when no confirmation message fails after a
      commit. */
  lemma PromisedExactly(attempts: seq<Attempt>, n: nat, slot: Id, user: Id, activeOrganization: Option<Id>,
                        r: Result<Id, BookingError>)
    requires n < |attempts| && CallEnds(attempts, n, slot, user, activeOrganization, r)
    ensures Promised(r, attempts, n + 1, slot, user, activeOrganization)
       <==> forall i :: 0 <= i <= n && Commits(attempts[i], slot, user, activeOrganization) ==> attempts[i].notified.None?
  {
    forall i | 0 <= i < n
      ensures Commits(attempts[i], slot, user, activeOrganization) ==> attempts[i].notified.Some?
    {
      CommitsExactly(attempts[i], slot, user, activeOrganization);
    }
    ConfirmedExactly(attempts[n], slot, user, activeOrganization, r);
  }

  lemma ConfirmedExactly(a: Attempt, slot: Id, user: Id, activeOrganization: Option<Id>, r: Result<Id, BookingError>)
    requires Answered(a, slot, user, activeOrganization, r)
    ensures r.Ok? <==> Commits(a, slot, user, activeOrganization) && a.notified.None?
    ensures r.Ok? ==> r.value == a.id
  {
    CommitsExactly(a, slot, user, activeOrganization);
    if Commits(a, slot, user, activeOrganization) && a.notified.None? {
      OneAnswerFits(a, slot, user, activeOrganization, r, Ok(a.id));
    }
  }

  /** The tables after the loop of a re-evaluation has been through n of its list. */
  predicate Reaches(db: Database, resource: Id, listed: seq<Id>, n: nat, now: Time, after: Database) {
    n <= |listed| && (forall i :: 0 <= i < n ==> listed[i] in db.bookings) && after == RevokeEach(db, resource, listed[..n], now)
  }

  lemma ListedSomePrefixes(db: Database, resource: Id, now: Time, listed: seq<Id>)
    requires ListsSome(db, resource, now, listed)
    ensures forall i :: 0 <= i <= |listed| ==> ListsSome(db, resource, now, listed[..i])
  {
  }

  lemma RevokeOneMore(db: Database, resource: Id, listed: seq<Id>, i: nat, now: Time)
    requires i < |listed| && forall j :: 0 <= j < |listed| ==> listed[j] in db.bookings
    ensures var before := RevokeEach(db, resource, listed[..i], now);
            && listed[i] in before.bookings
            && RevokeEach(db, resource, listed[..i + 1], now)
               == if KeepsAccess(db, resource, db.bookings[listed[i]].user) then before else Revoke(before, listed[i], now)
  {
    assert listed[..i + 1][..i] == listed[..i];
  }

  class Service {
    var activeUsers: set<Id>
    var organizations: map<Id, Organization>
    var memberships: map<(Id, Id), Membership>
    var resources: map<Id, Resource>
    var slots: map<Id, Slot>
    var bookings: map<Id, Booking>
    const points: Ledger

    ghost predicate Valid()
      reads this, points
    {
      ReferencesHold(Tables(activeUsers, organizations, memberships, resources, slots, bookings, points.entries))
    }

    function Db(): Database
      requires Valid()
      reads this, points
    {
      Tables(activeUsers, organizations, memberships, resources, slots, bookings, points.entries)
    }

    constructor (db: Database)
      ensures Valid() && Db() == db && fresh(points)
    {
      activeUsers, organizations, memberships := db.activeUsers, db.organizations, db.memberships;
      resources, slots, bookings := db.resources, db.slots, db.bookings;
      points := new Ledger();
      new;
      points.entries := db.ledger;
    }

    /** Makes the committed writes of other transactions visible. */
    method Refresh(db: Database)
      modifies this, points
      ensures Valid() && Db() == db
    {
      activeUsers, organizations, memberships := db.activeUsers, db.organizations, db.memberships;
      resources, slots, bookings := db.resources, db.slots, db.bookings;
      points.entries := db.ledger;
    }

    method ValidateBooking(slot: Id, user: Id, activeOrganization: Option<Id>, now: Time, failure: Option<Failure>)
      returns (r: Result<BookingContext, BookingError>)
      requires Valid()
      ensures r == ValidateUnder(Db(), slot, user, activeOrganization, now, failure)
    {
      if FailsIn(failure, VALIDATION) {
        return Err(OperationFailed);
      }
      var tenant := ResolveTenant(Db(), user, activeOrganization);
      if tenant.Err? {
        return Err(tenant.error);
      }
      var root := tenant.value;
      if slot !in slots || slots[slot].status != PUBLISHED || resources[slots[slot].resource].root != root {
        return Err(SlotNotFound);
      }
      var resource := resources[slots[slot].resource];
      if resource.status != ACTIVE {
        return Err(ResourceInactive);
      }
      if !CanAccess(Db(), slots[slot].resource, user, root) {
        return Err(AccessDenied);
      }
      if slots[slot].startsAt <= now {
        return Err(SlotStarted);
      }
      if Occupied(Db(), slot) {
        return Err(SlotUnavailable);
      }
      if resource.pointCost < 0 {
        return Err(PointCostInvalid);
      }
      if FailsIn(failure, BALANCE) {
        return Err(LedgerOperationFailed);
      }
      var sufficient := points.AssertSufficientBalance(user, root, resource.pointCost);
      if sufficient.Err? {
        return Err(InsufficientPoints(sufficient.error.balance, sufficient.error.required));
      }
      return Ok(BookingContext(user, root, slots[slot].resource, slot, resource.pointCost, resource.noticeMinutes));
    }

    /** The body of a creation's transaction, up to its commit; what it has written
        before a failure is left for the rollback. */
    method CreateWithinTransaction(slot: Id, user: Id, activeOrganization: Option<Id>, id: Id, now: Time, failure: Option<Failure>)
      returns (end: End)
      requires Valid()
      modifies this, points
      ensures var reached := if FailsIn(failure, COMMIT) then None else failure;
              var (db, expected) := Transact(Attempt(old(Db()), id, now, reached, None), slot, user, activeOrganization);
              end == expected && (end.Committed? ==> Valid() && Db() == db)
    {
      var validated := ValidateBooking(slot, user, activeOrganization, now, failure);
      if validated.Err? {
        return Refused(validated.error);
      }
      var context := validated.value;
      if FailsIn(failure, INSERT) {
        return Raised(failure.value.cause);
      }
      if id in bookings || Occupied(Db(), slot) {
        return Raised(UniqueConflict);
      }
      bookings := bookings[id := NewBooking(context)];
      if context.pointCost > 0 {
        if FailsIn(failure, DEDUCTION) {
          return Refused(LedgerOperationFailed);
        }
        var appended := points.AppendBookingDeduction(context.user, context.root, id, -context.pointCost);
      }
      return Committed(id);
    }

    /** A transaction commits all it wrote, or is rolled back. */
    method RunTransaction(a: Attempt, slot: Id, user: Id, activeOrganization: Option<Id>) returns (end: End)
      modifies this, points
      ensures Valid()
      ensures (Db(), end) == Transact(a, slot, user, activeOrganization)
    {
      Refresh(a.found);
      end := CreateWithinTransaction(slot, user, activeOrganization, a.id, a.now, a.failure);
      if end.Committed? && FailsIn(a.failure, COMMIT) {
        end := Raised(a.failure.value.cause);
      }
      if !end.Committed? {
        Refresh(a.found);
      }
    }

    /** At most three transactions run, each after the first because the one before met
        a serialization conflict. The tables end with the booking of the last one if it
        went through, and otherwise as that one found them; the answer is that booking or
        says what went wrong. */
    method CreateBooking(slot: Id, user: Id, activeOrganization: Option<Id>, attempts: seq<Attempt>)
      returns (r: Result<Id, BookingError>, transactions: nat)
      requires Valid() && |attempts| == 3
      modifies this, points
      ensures Valid() && 1 <= transactions <= 3
      ensures var last := attempts[transactions - 1];
              Db() == if GoesThrough(last, slot, user, activeOrganization)
                      then WithBooking(last.found, slot, user, activeOrganization, last.id, last.now) else last.found
      ensures CallEnds(attempts, transactions - 1, slot, user, activeOrganization, r)
    {
      transactions := 0;
      while true
        invariant 0 <= transactions < MAX_SERIALIZATION_ATTEMPTS
        invariant ConflictsBefore(attempts, transactions, slot, user, activeOrganization)
        decreases MAX_SERIALIZATION_ATTEMPTS - transactions
      {
        var end := Attempted(attempts[transactions], slot, user, activeOrganization);
        transactions := transactions + 1;
        if end != Raised(SerializationConflict) || transactions == MAX_SERIALIZATION_ATTEMPTS {
          return Answer(end), transactions;
        }
      }
    }

    /** One attempt: the transaction, then the confirmation message. */
    method Attempted(a: Attempt, slot: Id, user: Id, activeOrganization: Option<Id>) returns (end: End)
      modifies this, points
      ensures Valid()
      ensures Db() == if GoesThrough(a, slot, user, activeOrganization)
                      then WithBooking(a.found, slot, user, activeOrganization, a.id, a.now) else a.found
      ensures Answered(a, slot, user, activeOrganization, Answer(end)) && end != Refused(TransactionConflict)
      ensures end == Raised(SerializationConflict) ==> Reports(a, slot, user, activeOrganization, SerializationConflict)
    {
      end := RunTransaction(a, slot, user, activeOrganization);
      if end.Committed? && a.notified.Some? {
        end := Raised(a.notified.value);
      }
      CommitsExactly(a, slot, user, activeOrganization);
      AnswerFits(a, slot, user, activeOrganization);
    }

    /** The reads of a cancellation. */
    method ReadCancellation(id: Id, actor: Id, makeSlotAvailable: Option<bool>, now: Time)
      returns (r: Result<CancelPlan, BookingError>)
      requires Valid()
      ensures r == PlanCancellation(Db(), id, actor, makeSlotAvailable, now)
    {
      if id !in bookings {
        return Err(BookingNotFound);
      }
      var booking := bookings[id];
      if booking.status != CONFIRMED {
        return Err(CannotBeCancelled);
      }
      var byUser := booking.user == actor && makeSlotAvailable == None;
      if byUser {
        if now >= slots[booking.slot].startsAt - booking.noticeMinutes * MINUTE {
          return Err(CancellationStarted);
        }
      } else {
        if !IsAdministrator(Db(), actor, SlotResource(Db(), booking.slot).owner) {
          return Err(AdministratorRequired);
        }
        if makeSlotAvailable == None {
          return Err(CancellationInput);
        }
      }
      var deducted := points.FindDeductedPoints(id, booking.user);
      var refund := if byUser then HalfUp(deducted) else deducted;
      var slotStatus := if byUser || makeSlotAvailable.value then PUBLISHED else WITHDRAWN;
      return Ok(CancelPlan(id, actor, byUser, refund, slotStatus, now));
    }

    /** The writes that end a booking. */
    method EndBooking(id: Id, actor: Option<Id>, slotStatus: SlotStatus, refund: int, now: Time)
      requires Valid() && id in bookings
      modifies this, points
      ensures Valid() && Db() == Release(old(Db()), id, actor, slotStatus, refund, now)
    {
      var booking := bookings[id];
      bookings := bookings[id := booking.(status := CANCELLED, cancelledAt := Some(now), cancelledBy := actor)];
      slots := slots[booking.slot := SlotAfter(slots[booking.slot], slotStatus, now)];
      if refund > 0 {
        var appended := points.AppendBookingRefund(booking.user, booking.root, id, refund);
      }
    }

    method CommitCancellation(plan: CancelPlan) returns (r: Result<(), BookingError>)
      requires Valid()
      modifies this, points
      ensures Valid()
      ensures (Db(), r) == BookingModel.CommitCancellation(old(Db()), plan)
    {
      if plan.booking !in bookings || bookings[plan.booking].status != CONFIRMED {
        return Err(CancellationConflict);
      }
      EndBooking(plan.booking, Some(plan.actor), plan.slotStatus, plan.refund, plan.now);
      return Ok(());
    }

    /** A cancellation whose reads and writes nothing interrupts succeeds exactly when
        its reads do. */
    method CancelBooking(id: Id, actor: Id, makeSlotAvailable: Option<bool>, now: Time)
      returns (r: Result<CancelPlan, BookingError>)
      requires Valid()
      modifies this, points
      ensures Valid()
      ensures r == PlanCancellation(old(Db()), id, actor, makeSlotAvailable, now)
      ensures Db() == if r.Ok? then BookingModel.CommitCancellation(old(Db()), r.value).0 else old(Db())
      ensures r.Ok? ==> id in old(bookings) && id in bookings
                        && old(bookings[id].status) == CONFIRMED && bookings[id].status == CANCELLED
    {
      r := ReadCancellation(id, actor, makeSlotAvailable, now);
      if r.Ok? {
        var committed := CommitCancellation(r.value);
      }
    }

    /** The reads of a completion: whether there is anything to write. */
    method ReadCompletion(id: Id, administrator: Id) returns (r: Result<bool, BookingError>)
      requires Valid()
      ensures r == PlanCompletion(Db(), id, administrator)
    {
      if id !in bookings {
        return Err(BookingNotFound);
      }
      var booking := bookings[id];
      if !IsAdministrator(Db(), administrator, SlotResource(Db(), booking.slot).owner) {
        return Err(AdministratorRequired);
      }
      if booking.status == COMPLETED {
        return Ok(false);
      }
      if booking.status != CONFIRMED {
        return Err(CannotBeCompleted);
      }
      return Ok(true);
    }

    /** The write of a completion, whatever the booking has become since its reads; the
        database rejects a row that fails its checks. */
    method WriteCompletion(id: Id, now: Time) returns (r: Result<(), BookingError>)
      requires Valid()
      modifies this
      ensures Valid() && Db() == LateComplete(old(Db()), id, now)
      ensures r == if id in old(bookings) && RowChecks(CompletedRow(old(bookings)[id], now)) then Ok(()) else Err(OperationFailed)
    {
      if id !in bookings || !RowChecks(CompletedRow(bookings[id], now)) {
        return Err(OperationFailed);
      }
      bookings := bookings[id := bookings[id].(status := COMPLETED, completedAt := Some(now))];
      return Ok(());
    }

    /** A completion whose reads and write nothing interrupts. */
    method CompleteBooking(id: Id, administrator: Id, now: Time) returns (r: Result<(), BookingError>)
      requires Valid()
      modifies this
      ensures Valid()
      ensures var plan := PlanCompletion(old(Db()), id, administrator);
              Db() == if plan == Ok(true) then LateComplete(old(Db()), id, now) else old(Db())
      ensures ChecksHold(old(bookings)) ==> (Db(), r) == BookingModel.CompleteBooking(old(Db()), id, administrator, now)
    {
      var plan := ReadCompletion(id, administrator);
      if ChecksHold(bookings) {
        UninterruptedCompletion(Db(), id, administrator, now);
      }
      match plan {
        case Err(e) => return Err(e);
        case Ok(false) => return Ok(());
        case Ok(true) => r := WriteCompletion(id, now);
      }
    }

    /** The query for a resource's future confirmed bookings. */
    method FindFutureBookings(resource: Id, now: Time) returns (listed: seq<Id>)
      requires Valid()
      ensures ListsFuture(Db(), resource, now, listed)
    {
      listed := [];
      var left := bookings.Keys;
      while left != {}
        invariant left <= bookings.Keys
        invariant forall i, j :: 0 <= i < j < |listed| ==> listed[i] != listed[j]
        invariant forall i :: 0 <= i < |listed| ==> FutureConfirmed(Db(), resource, now, listed[i])
        invariant forall b :: b in listed <==> b !in left && FutureConfirmed(Db(), resource, now, b)
        decreases left
      {
        var b :| b in left;
        left := left - {b};
        if FutureConfirmed(Db(), resource, now, b) {
          listed := listed + [b];
        }
      }
    }

    /** One revocation transaction of the loop below. */
    method RevokeBooking(id: Id, now: Time)
      requires Valid() && id in bookings
      modifies this, points
      ensures Valid() && Db() == Revoke(old(Db()), id, now)
    {
      var refund := points.FindDeductedPoints(id, bookings[id].user);
      EndBooking(id, bookings[id].cancelledBy, WITHDRAWN, refund, now);
    }

    /** One round of the loop below. */
    method RevokeNext(snapshot: Database, resource: Id, listed: seq<Id>, i: nat, now: Time)
      requires Valid() && i < |listed| && forall j :: 0 <= j < |listed| ==> listed[j] in snapshot.bookings
      requires Reaches(snapshot, resource, listed, i, now, Db())
      modifies this, points
      ensures Valid() && Reaches(snapshot, resource, listed, i + 1, now, Db())
    {
      RevokeOneMore(snapshot, resource, listed, i, now);
      if !KeepsAccess(snapshot, resource, snapshot.bookings[listed[i]].user) {
        RevokeBooking(listed[i], now);
      }
    }

    /** The loop of a re-evaluation; access is judged on the rows read before it. In some
        round a transaction may fail, which ends the loop. */
    method RevokeListed(snapshot: Database, resource: Id, listed: seq<Id>, now: Time, failing: nat) returns (reached: nat)
      requires Valid() && Db() == snapshot && forall i :: 0 <= i < |listed| ==> listed[i] in snapshot.bookings
      modifies this, points
      ensures Valid() && Reaches(snapshot, resource, listed, reached, now, Db())
      ensures reached == if failing < |listed| then failing else |listed|
    {
      reached := 0;
      while reached < |listed| && reached != failing
        invariant 0 <= reached <= |listed| && reached <= failing
        invariant Valid() && Reaches(snapshot, resource, listed, reached, now, Db())
      {
        RevokeNext(snapshot, resource, listed, reached, now);
        reached := reached + 1;
      }
    }

    /** Re-evaluation runs the model's loop over a listing of the query: all of it, or as
        far as a revocation whose transaction fails. */
    method ReevaluateBookings(resource: Id, now: Time, failing: nat) returns (listed: seq<Id>, reached: nat)
      requires Valid()
      modifies this, points
      ensures Valid()
      ensures ListsFuture(old(Db()), resource, now, listed) && reached == if failing < |listed| then failing else |listed|
      ensures ListsSome(old(Db()), resource, now, listed[..reached]) && Reaches(old(Db()), resource, listed, reached, now, Db())
    {
      listed := FindFutureBookings(resource, now);
      var snapshot := Db();
      ListedSomePrefixes(snapshot, resource, now, listed);
      reached := RevokeListed(snapshot, resource, listed, now, failing);
    }
  }
}
