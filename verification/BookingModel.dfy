/** The tables behind bookings, and each booking transaction as a function from
    the tables it starts on to the tables it commits. A transaction that fails
    returns the tables it started on. */
module BookingModel {
  import opened Prelude

  datatype Role = ADMIN | MEMBER
  datatype MembershipStatus = PENDING | APPROVED | REJECTED | SUSPENDED
  datatype Membership = Membership(role: Role, status: MembershipStatus)
  datatype Organization = Organization(root: Id, active: bool)

  datatype ResourceStatus = ACTIVE | INACTIVE
  datatype Resource = Resource(
    root: Id,
    owner: Id,
    allowed: set<Id>,
    status: ResourceStatus,
    pointCost: int,
    noticeMinutes: int,
    unavailableDispute: Option<Id>)

  datatype SlotStatus = PUBLISHED | WITHDRAWN
  datatype Slot = Slot(resource: Id, startsAt: Time, status: SlotStatus, withdrawnAt: Option<Time>)

  datatype BookingStatus = CONFIRMED | CANCELLED | COMPLETED
  datatype Booking = Booking(
    slot: Id,
    user: Id,
    root: Id,
    status: BookingStatus,
    noticeMinutes: int,
    cancelledAt: Option<Time>,
    cancelledBy: Option<Id>,
    completedAt: Option<Time>)

  datatype EntryKind = BOOKING | BOOKING_REFUND | CREDIT
  datatype Entry = Entry(user: Id, root: Id, booking: Option<Id>, amount: int, kind: EntryKind)

  datatype Tables = Tables(
    activeUsers: set<Id>,
    organizations: map<Id, Organization>,
    memberships: map<(Id, Id), Membership>,
    resources: map<Id, Resource>,
    slots: map<Id, Slot>,
    bookings: map<Id, Booking>,
    ledger: seq<Entry>)

  /** The foreign keys the transactions follow. */
  predicate ReferencesHold(t: Tables) {
    && (forall s :: s in t.slots ==> t.slots[s].resource in t.resources)
    && (forall b :: b in t.bookings ==> t.bookings[b].slot in t.slots)
  }

  type Database = t: Tables | ReferencesHold(t)
    witness Tables({}, map[], map[], map[], map[], map[], [])

  datatype BookingError =
    | Unauthorized
    | SlotNotFound
    | ResourceInactive
    | AccessDenied
    | SlotStarted
    | SlotUnavailable
    | PointCostInvalid
    | InsufficientPoints(balance: int, required: int)
    | ConcurrentConflict
    | TransactionConflict
    | BookingNotFound
    | CannotBeCancelled
    | CancellationStarted
    | CancellationInput
    | CancellationConflict
    | AdministratorRequired
    | CannotBeCompleted
    | OperationFailed
    | LedgerOperationFailed

  // ---------- The point ledger ----------

  /** The sum of one user's entries in one tenant. */
  function Balance(ledger: seq<Entry>, user: Id, root: Id): int {
    if ledger == [] then 0
    else
      var e := ledger[|ledger| - 1];
      Balance(ledger[..|ledger| - 1], user, root)
      + (if e.user == user && e.root == root then e.amount else 0)
  }

  /** The amount of the first BOOKING entry of a booking, if there is one. */
  function FindDeduction(ledger: seq<Entry>, booking: Id, user: Id): Option<int> {
    if ledger == [] then None
    else
      var e := ledger[0];
      if e.booking == Some(booking) && e.user == user && e.kind == BOOKING then Some(e.amount)
      else FindDeduction(ledger[1..], booking, user)
  }

  function Abs(n: int): int {
    if n < 0 then -n else n
  }

  /** What the ledger says was deducted for a booking; 0 without an entry. */
  function DeductedPoints(ledger: seq<Entry>, booking: Id, user: Id): int {
    match FindDeduction(ledger, booking, user)
    case None => 0
    case Some(amount) => Abs(amount)
  }

  // ---------- Lookups ----------

  predicate Approved(db: Database, user: Id, org: Id) {
    (user, org) in db.memberships && db.memberships[(user, org)].status == APPROVED
  }

  predicate IsAdministrator(db: Database, user: Id, org: Id) {
    Approved(db, user, org) && db.memberships[(user, org)].role == ADMIN
  }

  function SlotResource(db: Database, slot: Id): Resource
    requires slot in db.slots
  {
    db.resources[db.slots[slot].resource]
  }

  /** A booking that is not cancelled: it occupies its slot. */
  predicate Live(db: Database, booking: Id) {
    booking in db.bookings && db.bookings[booking].status != CANCELLED
  }

  predicate Occupied(db: Database, slot: Id) {
    exists b :: b in db.bookings && db.bookings[b].slot == slot && db.bookings[b].status != CANCELLED
  }

  /** The organizations whose members may book a resource. */
  function BookableBy(resource: Resource): set<Id> {
    {resource.owner} + resource.allowed
  }

  /** The access check of a new booking. */
  predicate CanAccess(db: Database, resource: Id, user: Id, root: Id) {
    && resource in db.resources
    && db.resources[resource].root == root
    && db.resources[resource].status == ACTIVE
    && exists o :: && o in BookableBy(db.resources[resource])
                   && Approved(db, user, o)
                   && o in db.organizations
                   && db.organizations[o].root == root
  }

  /** The access check that re-evaluation applies to an existing booking. */
  predicate KeepsAccess(db: Database, resource: Id, user: Id) {
    && resource in db.resources
    && db.resources[resource].status == ACTIVE
    && exists o :: o in BookableBy(db.resources[resource]) && Approved(db, user, o)
  }

  /** The tenant of the caller's active organization. */
  function ResolveTenant(db: Database, user: Id, activeOrganization: Option<Id>): Result<Id, BookingError> {
    match activeOrganization
    case None => Err(Unauthorized)
    case Some(org) =>
      if Approved(db, user, org) && user in db.activeUsers && org in db.organizations && db.organizations[org].active
      then Ok(db.organizations[org].root)
      else Err(Unauthorized)
  }

  // ---------- Creating a booking ----------

  datatype BookingContext = BookingContext(user: Id, root: Id, resource: Id, slot: Id, pointCost: int, noticeMinutes: int)

  function Validate(db: Database, slot: Id, user: Id, activeOrganization: Option<Id>, now: Time)
    : Result<BookingContext, BookingError>
  {
    match ResolveTenant(db, user, activeOrganization)
    case Err(e) => Err(e)
    case Ok(root) =>
      if slot !in db.slots || db.slots[slot].status != PUBLISHED || SlotResource(db, slot).root != root then
        Err(SlotNotFound)
      else
        var resource := SlotResource(db, slot);
        if resource.status != ACTIVE then Err(ResourceInactive)
        else if !CanAccess(db, db.slots[slot].resource, user, root) then Err(AccessDenied)
        else if db.slots[slot].startsAt <= now then Err(SlotStarted)
        else if Occupied(db, slot) then Err(SlotUnavailable)
        else if resource.pointCost < 0 then Err(PointCostInvalid)
        else if Balance(db.ledger, user, root) < resource.pointCost then
          Err(InsufficientPoints(Balance(db.ledger, user, root), resource.pointCost))
        else
          Ok(BookingContext(user, root, db.slots[slot].resource, slot, resource.pointCost, resource.noticeMinutes))
  }

  function NewBooking(context: BookingContext): Booking {
    Booking(context.slot, context.user, context.root, CONFIRMED, context.noticeMinutes, None, None, None)
  }

  function Deduction(context: BookingContext, id: Id): Entry {
    Entry(context.user, context.root, Some(id), -context.pointCost, BOOKING)
  }

  /** The whole creation transaction. The identifier of the new row comes from
      the database; an identifier already in use, or a second live booking on the
      slot, breaks a unique index. */
  function CreateBooking(db: Database, slot: Id, user: Id, activeOrganization: Option<Id>, id: Id, now: Time)
    : (Database, Result<Id, BookingError>)
  {
    match Validate(db, slot, user, activeOrganization, now)
    case Err(e) => (db, Err(e))
    case Ok(context) =>
      if id in db.bookings || Occupied(db, slot) then (db, Err(ConcurrentConflict))
      else
        var inserted := db.(bookings := db.bookings[id := NewBooking(context)]);
        if context.pointCost > 0 then
          (inserted.(ledger := db.ledger + [Deduction(context, id)]), Ok(id))
        else
          (inserted, Ok(id))
  }

  // ---------- Ending a booking ----------

  function SlotAfter(slot: Slot, status: SlotStatus, now: Time): Slot {
    slot.(status := status, withdrawnAt := if status == WITHDRAWN then Some(now) else None)
  }

  function Refund(booking: Booking, id: Id, amount: int): Entry {
    Entry(booking.user, booking.root, Some(id), amount, BOOKING_REFUND)
  }

  /** The three writes that end a booking: its row, its slot, and the refund. */
  function Release(db: Database, id: Id, actor: Option<Id>, slotStatus: SlotStatus, refund: int, now: Time): (r: Database)
    requires id in db.bookings
  {
    var booking := db.bookings[id];
    var cancelled := booking.(status := CANCELLED, cancelledAt := Some(now), cancelledBy := actor);
    db.(bookings := db.bookings[id := cancelled],
        slots := db.slots[booking.slot := SlotAfter(db.slots[booking.slot], slotStatus, now)],
        ledger := if refund > 0 then db.ledger + [Refund(booking, id, refund)] else db.ledger)
  }

  /** What the reads of a cancellation decide, before its first write. */
  datatype CancelPlan = CancelPlan(booking: Id, actor: Id, byUser: bool, refund: int, slotStatus: SlotStatus, now: Time)

  const MINUTE: Time := 60_000

  /** The last moment before which a user may still cancel. */
  function CancellationDeadline(db: Database, booking: Booking): Time
    requires booking.slot in db.slots
  {
    db.slots[booking.slot].startsAt - booking.noticeMinutes * MINUTE
  }

  function HalfUp(n: int): int {
    (n + 1) / 2
  }

  function PlanCancellation(db: Database, id: Id, actor: Id, makeSlotAvailable: Option<bool>, now: Time)
    : Result<CancelPlan, BookingError>
  {
    if id !in db.bookings then Err(BookingNotFound)
    else
      var booking := db.bookings[id];
      if booking.status != CONFIRMED then Err(CannotBeCancelled)
      else
        var byUser := booking.user == actor && makeSlotAvailable == None;
        var deducted := DeductedPoints(db.ledger, id, booking.user);
        if byUser then
          if now >= CancellationDeadline(db, booking) then Err(CancellationStarted)
          else Ok(CancelPlan(id, actor, true, HalfUp(deducted), PUBLISHED, now))
        else if !IsAdministrator(db, actor, SlotResource(db, booking.slot).owner) then Err(AdministratorRequired)
        else
          match makeSlotAvailable
          case None => Err(CancellationInput)
          case Some(available) =>
            Ok(CancelPlan(id, actor, false, deducted, if available then PUBLISHED else WITHDRAWN, now))
  }

  /** The writes of a cancellation, guarded by a compare-and-set on the status. */
  function CommitCancellation(db: Database, plan: CancelPlan): (Database, Result<(), BookingError>) {
    if plan.booking in db.bookings && db.bookings[plan.booking].status == CONFIRMED then
      (Release(db, plan.booking, Some(plan.actor), plan.slotStatus, plan.refund, plan.now), Ok(()))
    else
      (db, Err(CancellationConflict))
  }

  function CompleteBooking(db: Database, id: Id, administrator: Id, now: Time): (Database, Result<(), BookingError>) {
    if id !in db.bookings then (db, Err(BookingNotFound))
    else
      var booking := db.bookings[id];
      if !IsAdministrator(db, administrator, SlotResource(db, booking.slot).owner) then (db, Err(AdministratorRequired))
      else if booking.status == COMPLETED then (db, Ok(()))
      else if booking.status != CONFIRMED then (db, Err(CannotBeCompleted))
      else (db.(bookings := db.bookings[id := booking.(status := COMPLETED, completedAt := Some(now))]), Ok(()))
  }

  // ---------- Re-evaluating a resource ----------

  /** The confirmed bookings of a resource that start after now. */
  predicate FutureConfirmed(db: Database, resource: Id, now: Time, id: Id) {
    && id in db.bookings
    && db.bookings[id].status == CONFIRMED
    && db.slots[db.bookings[id].slot].resource == resource
    && db.slots[db.bookings[id].slot].startsAt > now
  }

  /** Some of those bookings, in some order: what a loop over a result list has reached
      when it ends early. */
  ghost predicate ListsSome(db: Database, resource: Id, now: Time, ids: seq<Id>) {
    && (forall i, j :: 0 <= i < j < |ids| ==> ids[i] != ids[j])
    && (forall i :: 0 <= i < |ids| ==> FutureConfirmed(db, resource, now, ids[i]))
  }

  /** A result list of the query for all of them. */
  ghost predicate ListsFuture(db: Database, resource: Id, now: Time, ids: seq<Id>) {
    ListsSome(db, resource, now, ids) && forall b :: b in ids <==> FutureConfirmed(db, resource, now, b)
  }

  function Revoke(db: Database, id: Id, now: Time): Database
    requires id in db.bookings
  {
    var booking := db.bookings[id];
    Release(db, id, booking.cancelledBy, WITHDRAWN, DeductedPoints(db.ledger, id, booking.user), now)
  }

  /** The loop of a re-evaluation over its result list. Access is judged on the
      rows read before the loop; each revocation is a transaction of its own. */
  function RevokeEach(db: Database, resource: Id, ids: seq<Id>, now: Time): (r: Database)
    requires forall i :: 0 <= i < |ids| ==> ids[i] in db.bookings
    ensures r.bookings.Keys == db.bookings.Keys
    decreases |ids|
  {
    if ids == [] then db
    else
      var id := ids[|ids| - 1];
      var before := RevokeEach(db, resource, ids[..|ids| - 1], now);
      if KeepsAccess(db, resource, db.bookings[id].user) then before else Revoke(before, id, now)
  }
}
