/** The dispute service over its tables, updated in place beside the booking tables.
    A transaction that fails half way puts back the rows it had written. */
module DisputeService {
  import opened Prelude
  import opened BookingModel
  import opened DisputeModel
  import opened Text
  import BookingService

  class Desk {
    const booking: BookingService.Service
    var disputes: map<Id, Dispute>
    var events: seq<DisputeEvent>

    ghost predicate Valid()
      reads this, booking, booking.points
    {
      booking.Valid() && BookingsExist(disputes, booking.bookings)
    }

    function Rows(): DisputeModel.Desk
      requires Valid()
      reads this, booking, booking.points
    {
      DeskTables(booking.Db(), disputes, events)
    }

    constructor (booking: BookingService.Service)
      requires booking.Valid()
      ensures Valid() && this.booking == booking && disputes == map[] && events == []
    {
      this.booking := booking;
      disputes, events := map[], [];
    }

    method AddEvent(dispute: Id, from: Option<DisputeStatus>, to: DisputeStatus, notes: Option<string>)
      requires Valid()
      modifies this`events
      ensures Valid() && Rows() == old(Rows()).(events := old(events) + [DisputeEvent(dispute, from, to, notes)])
    {
      events := events + [DisputeEvent(dispute, from, to, notes)];
    }

    method Open(id: Id, bookingId: Id, user: Id, root: Option<Id>) returns (r: Result<Id, DisputeError>)
      requires Valid()
      modifies this
      ensures Valid()
      ensures (Rows(), r) == DisputeModel.Open(old(Rows()), bookingId, user, root, id)
    {
      var db := booking.Db();
      if root == None || !exists o :: o in db.organizations && ActiveIn(db, user, o, root.value) {
        return Err(NoOrganization);
      }
      if bookingId !in booking.bookings || booking.bookings[bookingId].user != user
         || booking.bookings[bookingId].root != root.value {
        return Err(DisputedBookingNotFound);
      }
      if booking.bookings[bookingId].status != COMPLETED {
        return Err(BookingNotEligible);
      }
      if Disputed(Rows(), bookingId) || id in disputes {
        return Err(AlreadyExists);
      }
      disputes := disputes[id := Dispute(bookingId, root.value, user, OPEN, None, None, None)];
      AddEvent(id, None, OPEN, Some("Dispute opened"));
      return Ok(id);
    }

    /** The action on the resource: it changes its row, or is refused and changes
        nothing. */
    method ApplyResourceAction(resource: Id, dispute: Id, action: ResourceAction) returns (applied: bool)
      requires Valid()
      modifies booking
      ensures Valid()
      ensures var after := ApplyAction(old(booking.Db()), resource, dispute, action);
              && applied == after.Some?
              && booking.Db() == if applied then after.value else old(booking.Db())
    {
      if action == NONE {
        return true;
      }
      if resource !in booking.resources {
        return false;
      }
      var row := booking.resources[resource];
      if action == MARK_UNAVAILABLE {
        booking.resources := booking.resources[resource := row.(status := INACTIVE, unavailableDispute := Some(dispute))];
        return true;
      }
      if row.unavailableDispute != Some(dispute) {
        return false;
      }
      booking.resources := booking.resources[resource := row.(status := ACTIVE, unavailableDispute := None)];
      return true;
    }

    method ReadTransition(id: Id, update: Update, user: Id, root: Option<Id>)
      returns (r: Result<TransitionPlan, DisputeError>)
      requires Valid()
      ensures r == PlanTransition(Rows(), id, update, user, root)
    {
      if id !in disputes {
        return Err(NotFound);
      }
      var dispute := disputes[id];
      var resource := DisputedResource(Rows(), id);
      if !CanManage(booking.Db(), booking.resources[resource].owner, user, root) {
        return Err(Forbidden);
      }
      var next := dispute.status;
      if update.status.Some? {
        next := update.status.value;
        if next !in AllowedTransitions(dispute.status) {
          return Err(InvalidTransition);
        }
      }
      var notes := None;
      if update.notes.Some? {
        notes := Some(Trim(update.notes.value));
      }
      if Terminal(next) && !NonBlank(if notes.Some? then notes else dispute.notes) {
        return Err(ResolutionNotesRequired);
      }
      return Ok(TransitionPlan(id, dispute.status, resource, user, update.status, notes, update.action, Terminal(next)));
    }

    /** The compare-and-set, the action on the resource and the event, all or nothing. */
    method CommitTransition(plan: TransitionPlan, now: Time) returns (r: Result<(), DisputeError>)
      requires Valid()
      modifies this, booking
      ensures Valid()
      ensures (Rows(), r) == DisputeModel.CommitTransition(old(Rows()), plan, now)
    {
      if plan.dispute !in disputes || disputes[plan.dispute].status != plan.expected {
        return Err(ConcurrentUpdate);
      }
      var before := disputes;
      disputes := disputes[plan.dispute := UpdatedDispute(disputes[plan.dispute], plan, now)];
      var applied := ApplyResourceAction(plan.resource, plan.dispute, plan.action);
      if !applied {
        disputes := before;
        return Err(ResourceActionInvalid);
      }
      if plan.status.Some? && plan.status.value != plan.expected {
        AddEvent(plan.dispute, Some(plan.expected), plan.status.value, plan.notes);
      }
      return Ok(());
    }

    method Transition(id: Id, update: Update, user: Id, root: Option<Id>, now: Time) returns (r: Result<(), DisputeError>)
      requires Valid()
      modifies this, booking
      ensures Valid()
      ensures (Rows(), r) == DisputeModel.Transition(old(Rows()), id, update, user, root, now)
    {
      var plan := ReadTransition(id, update, user, root);
      if plan.Err? {
        return Err(plan.error);
      }
      r := CommitTransition(plan.value, now);
    }
  }
}
