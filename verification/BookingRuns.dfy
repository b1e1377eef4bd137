/** Runs of the booking system. Every transaction is one step, except that a
    cancellation is two: its reads and its writes, with any other steps between
    them. History variables record what each booking was charged and who ended it;
    no transaction reads them. */
module BookingRuns {
  import opened Prelude
  import opened BookingModel

  datatype Ending = ByUser | ByAdministrator | ByRevocation

  datatype History = History(charged: map<Id, int>, ended: map<Id, Ending>)

  datatype World = World(db: Database, clock: Time, plans: map<Id, CancelPlan>, history: History)

  datatype Event =
    | Tick(elapsed: nat)
    | Create(slot: Id, user: Id, activeOrganization: Option<Id>, booking: Id)
    | ReadCancel(tx: Id, booking: Id, actor: Id, makeSlotAvailable: Option<bool>)
    | CommitCancel(tx: Id)
    | Complete(booking: Id, actor: Id)
    | Reevaluate(resource: Id, listed: seq<Id>) // listed: how far its loop gets
    | GrantPoints(user: Id, root: Id, amount: int)
    | AddResource(resource: Id, row: Resource)
    | UpdateResource(resource: Id, pointCost: int, noticeMinutes: int, allowed: set<Id>, newStatus: Option<ResourceStatus>)
    | RemoveResource(resource: Id)
    | HoldResource(resource: Id, dispute: Id)
    | ReleaseHold(resource: Id)
    | PublishSlot(slot: Id, resource: Id, startsAt: Time)
    | SetMembership(user: Id, organization: Id, membership: Membership)
    | SetOrganization(organization: Id, settings: Organization)
    | SetUserActive(user: Id, active: bool)

  // ---------- Steps ----------

  function EndingOf(plan: CancelPlan): Ending {
    if plan.byUser then ByUser else ByAdministrator
  }

  function CreateStep(w: World, slot: Id, user: Id, activeOrganization: Option<Id>, id: Id): World {
    var (db, result) := CreateBooking(w.db, slot, user, activeOrganization, id, w.clock);
    if result.Err? || slot !in w.db.slots then w
    else w.(db := db, history := w.history.(charged := w.history.charged[id := SlotResource(w.db, slot).pointCost]))
  }

  function CommitStep(w: World, tx: Id): World
    requires tx in w.plans
  {
    var plan := w.plans[tx];
    var (db, result) := CommitCancellation(w.db, plan);
    var ended := if result.Ok? then w.history.ended[plan.booking := EndingOf(plan)] else w.history.ended;
    w.(db := db, plans := w.plans - {tx}, history := w.history.(ended := ended))
  }

  function RevokeStep(w: World, resource: Id, listed: seq<Id>): (r: World)
    requires forall i :: 0 <= i < |listed| ==> listed[i] in w.db.bookings
  {
    w.(db := RevokeEach(w.db, resource, listed, w.clock),
       history := w.history.(ended := EndEach(w.db, resource, listed, w.history.ended)))
  }

  function EndEach(db: Database, resource: Id, listed: seq<Id>, ended: map<Id, Ending>): map<Id, Ending>
    requires forall i :: 0 <= i < |listed| ==> listed[i] in db.bookings
    decreases |listed|
  {
    if listed == [] then ended
    else
      var id := listed[|listed| - 1];
      var before := EndEach(db, resource, listed[..|listed| - 1], ended);
      if KeepsAccess(db, resource, db.bookings[id].user) then before else before[id := ByRevocation]
  }

  /** Steps that touch no booking and no booking entry of the ledger. */
  function EnvironmentStep(db: Database, e: Event): Database {
    match e
    case AddResource(id, row) =>
      if id in db.resources then db else db.(resources := db.resources[id := row.(unavailableDispute := None)])
    case UpdateResource(id, cost, notice, allowed, newStatus) =>
      if id !in db.resources then db
      else
        var r := db.resources[id];
        var status := if newStatus.Some? then newStatus.value else r.status;
        db.(resources := db.resources[id := r.(pointCost := cost, noticeMinutes := notice, allowed := allowed, status := status)])
    case RemoveResource(id) =>
      if id !in db.resources then db else db.(resources := db.resources[id := db.resources[id].(status := INACTIVE)])
    case HoldResource(id, dispute) =>
      if id !in db.resources then db
      else db.(resources := db.resources[id := db.resources[id].(status := INACTIVE, unavailableDispute := Some(dispute))])
    case ReleaseHold(id) =>
      if id !in db.resources then db
      else db.(resources := db.resources[id := db.resources[id].(status := ACTIVE, unavailableDispute := None)])
    case PublishSlot(id, resource, startsAt) =>
      if id in db.slots || resource !in db.resources || db.resources[resource].status != ACTIVE then db
      else db.(slots := db.slots[id := Slot(resource, startsAt, PUBLISHED, None)])
    case SetMembership(user, org, membership) => db.(memberships := db.memberships[(user, org) := membership])
    case SetOrganization(org, row) => db.(organizations := db.organizations[org := row])
    case SetUserActive(user, active) =>
      db.(activeUsers := if active then db.activeUsers + {user} else db.activeUsers - {user})
    case _ => db
  }

  /** The world after one event; an event that is not enabled changes nothing. */
  ghost function Step(w: World, e: Event): World {
    match e
    case Tick(elapsed) => w.(clock := w.clock + elapsed)
    case Create(slot, user, activeOrganization, id) => CreateStep(w, slot, user, activeOrganization, id)
    case ReadCancel(tx, id, actor, makeSlotAvailable) =>
      var plan := PlanCancellation(w.db, id, actor, makeSlotAvailable, w.clock);
      if tx in w.plans || plan.Err? then w else w.(plans := w.plans[tx := plan.value])
    case CommitCancel(tx) => if tx in w.plans then CommitStep(w, tx) else w
    case Complete(id, administrator) => w.(db := CompleteBooking(w.db, id, administrator, w.clock).0)
    case Reevaluate(resource, listed) =>
      if ListsSome(w.db, resource, w.clock, listed) then RevokeStep(w, resource, listed) else w
    case GrantPoints(user, root, amount) =>
      if amount > 0 then w.(db := w.db.(ledger := w.db.ledger + [Entry(user, root, None, amount, CREDIT)])) else w
    case _ => w.(db := EnvironmentStep(w.db, e))
  }

  predicate InEnvironment(e: Event) {
    !(e.Tick? || e.Create? || e.ReadCancel? || e.CommitCancel? || e.Complete? || e.Reevaluate? || e.GrantPoints?)
  }

  lemma EnvironmentIs(w: World, e: Event)
    requires InEnvironment(e)
    ensures Step(w, e) == w.(db := EnvironmentStep(w.db, e))
  {
  }

  lemma ReevaluateIs(w: World, resource: Id, listed: seq<Id>)
    requires ListsSome(w.db, resource, w.clock, listed)
    ensures Step(w, Reevaluate(resource, listed)) == RevokeStep(w, resource, listed)
  {
  }

  ghost function Run(w: World, events: seq<Event>): World
    decreases |events|
  {
    if events == [] then w else Run(Step(w, events[0]), events[1..])
  }

  lemma {:induction false} RunAppend(w: World, first: seq<Event>, second: seq<Event>)
    ensures Run(w, first + second) == Run(Run(w, first), second)
    decreases |first|
  {
    if first == [] {
      assert first + second == second;
    } else {
      assert (first + second)[0] == first[0];
      assert (first + second)[1..] == first[1..] + second;
      RunAppend(Step(w, first[0]), first[1..], second);
    }
  }

}
