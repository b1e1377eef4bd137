/** Disputes about completed bookings: opening one, moving it through its statuses,
    and the hold it can put on the booking's resource. */
module DisputeModel {
  import opened Prelude
  import opened BookingModel
  import opened Text

  datatype DisputeStatus = OPEN | UNDER_REVIEW | RESOLVED | REJECTED
  datatype ResourceAction = NONE | MARK_UNAVAILABLE | RESTORE

  datatype Dispute = Dispute(
    booking: Id,
    root: Id,
    submitter: Id,
    status: DisputeStatus,
    notes: Option<string>,
    reviewer: Option<Id>,
    resolvedAt: Option<Time>)

  datatype DisputeEvent = DisputeEvent(dispute: Id, from: Option<DisputeStatus>, to: DisputeStatus, notes: Option<string>)

  datatype Update = Update(status: Option<DisputeStatus>, notes: Option<string>, action: ResourceAction)

  datatype DeskTables = DeskTables(db: Tables, disputes: map<Id, Dispute>, events: seq<DisputeEvent>)

  predicate BookingsExist(disputes: map<Id, Dispute>, bookings: map<Id, Booking>) {
    forall d :: d in disputes ==> disputes[d].booking in bookings
  }

  type Desk = t: DeskTables | ReferencesHold(t.db) && BookingsExist(t.disputes, t.db.bookings)
    witness DeskTables(Tables({}, map[], map[], map[], map[], map[], []), map[], [])

  datatype DisputeError =
    | NoOrganization
    | DisputedBookingNotFound
    | BookingNotEligible
    | AlreadyExists
    | NotFound
    | Forbidden
    | InvalidTransition
    | ResolutionNotesRequired
    | ConcurrentUpdate
    | ResourceActionInvalid

  function AllowedTransitions(status: DisputeStatus): set<DisputeStatus> {
    match status
    case OPEN => {UNDER_REVIEW, RESOLVED, DisputeStatus.REJECTED}
    case UNDER_REVIEW => {RESOLVED, DisputeStatus.REJECTED}
    case RESOLVED => {}
    case REJECTED => {}
  }

  predicate Terminal(status: DisputeStatus) {
    status == RESOLVED || status == DisputeStatus.REJECTED
  }

  predicate NonBlank(notes: Option<string>) {
    notes.Some? && Trim(notes.value) != ""
  }

  function DisputedResource(desk: Desk, d: Id): Id
    requires d in desk.disputes
  {
    desk.db.slots[desk.db.bookings[desk.disputes[d].booking].slot].resource
  }

  predicate ActiveIn(db: Database, user: Id, org: Id, root: Id) {
    && Approved(db, user, org) && user in db.activeUsers
    && org in db.organizations && db.organizations[org].root == root && db.organizations[org].active
  }

  predicate CanManage(db: Database, owner: Id, user: Id, root: Option<Id>) {
    root.Some? && ActiveIn(db, user, owner, root.value) && db.memberships[(user, owner)].role == ADMIN
  }

  predicate Disputed(desk: Desk, booking: Id) {
    exists d :: d in desk.disputes && desk.disputes[d].booking == booking
  }

  function Open(desk: Desk, booking: Id, user: Id, root: Option<Id>, id: Id): (Desk, Result<Id, DisputeError>) {
    if root == None || !exists o :: o in desk.db.organizations && ActiveIn(desk.db, user, o, root.value) then
      (desk, Err(NoOrganization))
    else if booking !in desk.db.bookings || desk.db.bookings[booking].user != user
            || desk.db.bookings[booking].root != root.value then
      (desk, Err(DisputedBookingNotFound))
    else if desk.db.bookings[booking].status != COMPLETED then (desk, Err(BookingNotEligible))
    else if Disputed(desk, booking) || id in desk.disputes then (desk, Err(AlreadyExists))
    else
      var dispute := Dispute(booking, root.value, user, OPEN, None, None, None);
      (desk.(disputes := desk.disputes[id := dispute],
             events := desk.events + [DisputeEvent(id, None, OPEN, Some("Dispute opened"))]), Ok(id))
  }

  /** What the reads of a transition decide, before its first write. */
  datatype TransitionPlan = TransitionPlan(
    dispute: Id,
    expected: DisputeStatus,
    resource: Id,
    reviewer: Id,
    status: Option<DisputeStatus>,
    notes: Option<string>,
    action: ResourceAction,
    terminal: bool)

  function PlanTransition(desk: Desk, id: Id, update: Update, user: Id, root: Option<Id>)
    : Result<TransitionPlan, DisputeError>
  {
    if id !in desk.disputes then Err(NotFound)
    else
      var dispute := desk.disputes[id];
      var resource := DisputedResource(desk, id);
      if !CanManage(desk.db, desk.db.resources[resource].owner, user, root) then Err(Forbidden)
      else if update.status.Some? && update.status.value !in AllowedTransitions(dispute.status) then Err(InvalidTransition)
      else
        var next := if update.status.Some? then update.status.value else dispute.status;
        var notes := if update.notes.Some? then Some(Trim(update.notes.value)) else None;
        if Terminal(next) && !NonBlank(if notes.Some? then notes else dispute.notes) then Err(ResolutionNotesRequired)
        else
          Ok(TransitionPlan(id, dispute.status, resource, user, update.status, notes, update.action, Terminal(next)))
  }

  /** The resource rows after an action; none if the action is refused. */
  function ApplyAction(db: Database, resource: Id, dispute: Id, action: ResourceAction): Option<Database> {
    match action
    case NONE => Some(db)
    case MARK_UNAVAILABLE =>
      if resource !in db.resources then None
      else
        var row := db.resources[resource].(status := INACTIVE, unavailableDispute := Some(dispute));
        Some(db.(resources := db.resources[resource := row]))
    case RESTORE =>
      if resource !in db.resources || db.resources[resource].unavailableDispute != Some(dispute) then None
      else
        var row := db.resources[resource].(status := ACTIVE, unavailableDispute := None);
        Some(db.(resources := db.resources[resource := row]))
  }

  function UpdatedDispute(dispute: Dispute, plan: TransitionPlan, now: Time): Dispute {
    dispute.(status := if plan.status.Some? then plan.status.value else dispute.status,
             notes := if plan.notes.Some? then plan.notes else dispute.notes,
             reviewer := Some(plan.reviewer),
             resolvedAt := if plan.terminal && plan.status.Some? then Some(now) else dispute.resolvedAt)
  }

  /** The writes of a transition, guarded by a compare-and-set on the status. */
  function CommitTransition(desk: Desk, plan: TransitionPlan, now: Time): (Desk, Result<(), DisputeError>) {
    if plan.dispute !in desk.disputes || desk.disputes[plan.dispute].status != plan.expected then
      (desk, Err(ConcurrentUpdate))
    else
      var updated := UpdatedDispute(desk.disputes[plan.dispute], plan, now);
      match ApplyAction(desk.db, plan.resource, plan.dispute, plan.action)
      case None => (desk, Err(ResourceActionInvalid))
      case Some(db) =>
        var events := if plan.status.Some? && plan.status.value != plan.expected then
                        desk.events + [DisputeEvent(plan.dispute, Some(plan.expected), plan.status.value, plan.notes)]
                      else desk.events;
        (DeskTables(db, desk.disputes[plan.dispute := updated], events), Ok(()))
  }

  /** A transition whose reads and writes nothing interrupts. */
  function Transition(desk: Desk, id: Id, update: Update, user: Id, root: Option<Id>, now: Time)
    : (Desk, Result<(), DisputeError>)
  {
    match PlanTransition(desk, id, update, user, root)
    case Err(e) => (desk, Err(e))
    case Ok(plan) => CommitTransition(desk, plan, now)
  }
}
