/** Who may do what to which rows, read off the rows alone. The services decide by
    lookups of their own; the acceptance results say that they decide exactly this. */
module Rules {
  import opened Prelude
  import opened BookingModel

  predicate ApprovedIn(t: Tables, user: Id, org: Id) {
    (user, org) in t.memberships && t.memberships[(user, org)].status == APPROVED
  }

  predicate AdministratorOf(t: Tables, user: Id, org: Id) {
    (user, org) in t.memberships && t.memberships[(user, org)] == Membership(ADMIN, APPROVED)
  }

  /** The resource is active, and the user is an approved member of its owner or of an
      organization it allows. */
  ghost predicate MayUse(t: Tables, resource: Id, user: Id) {
    && resource in t.resources && t.resources[resource].status == ACTIVE
    && exists o :: (o == t.resources[resource].owner || o in t.resources[resource].allowed) && ApprovedIn(t, user, o)
  }

  /** The same for a new booking, which looks no further than one tenant. */
  ghost predicate MayUseIn(t: Tables, resource: Id, user: Id, root: Id) {
    && resource in t.resources && t.resources[resource].root == root && t.resources[resource].status == ACTIVE
    && exists o :: && (o == t.resources[resource].owner || o in t.resources[resource].allowed) && ApprovedIn(t, user, o)
                   && o in t.organizations && t.organizations[o].root == root
  }

  /** An active user, acting as an approved member of an active organization. */
  predicate Acts(t: Tables, user: Id, activeOrganization: Option<Id>) {
    && activeOrganization.Some? && user in t.activeUsers && ApprovedIn(t, user, activeOrganization.value)
    && activeOrganization.value in t.organizations && t.organizations[activeOrganization.value].active
  }

  /** A published slot of a resource of the tenant. */
  predicate Visible(t: Tables, slot: Id, root: Id) {
    && slot in t.slots && t.slots[slot].status == PUBLISHED
    && t.slots[slot].resource in t.resources && t.resources[t.slots[slot].resource].root == root
  }

  predicate Free(t: Tables, slot: Id) {
    forall b :: b in t.bookings && t.bookings[b].slot == slot ==> t.bookings[b].status == CANCELLED
  }

  /** Everything a new booking needs but the points: the user acts in a tenant, and the
      slot is one of its visible ones, in the future, free, and of a resource that the
      user may use for a price that is not negative. */
  ghost predicate OpenFor(t: Tables, slot: Id, user: Id, activeOrganization: Option<Id>, now: Time) {
    && Acts(t, user, activeOrganization)
    && var root := t.organizations[activeOrganization.value].root;
       && Visible(t, slot, root) && MayUseIn(t, t.slots[slot].resource, user, root)
       && t.slots[slot].startsAt > now && Free(t, slot)
       && t.resources[t.slots[slot].resource].pointCost >= 0
  }

  ghost predicate MayBook(t: Tables, slot: Id, user: Id, activeOrganization: Option<Id>, now: Time) {
    && OpenFor(t, slot, user, activeOrganization, now)
    && t.resources[t.slots[slot].resource].pointCost
       <= Balance(t.ledger, user, t.organizations[activeOrganization.value].root)
  }

  /** The tables with a new booking: its row, and its deduction if it costs anything. */
  ghost function WithBooking(t: Tables, slot: Id, user: Id, activeOrganization: Option<Id>, id: Id, now: Time): Tables
    requires MayBook(t, slot, user, activeOrganization, now)
  {
    var root, resource := t.organizations[activeOrganization.value].root, t.resources[t.slots[slot].resource];
    t.(bookings := t.bookings[id := Booking(slot, user, root, CONFIRMED, resource.noticeMinutes, None, None, None)],
       ledger := t.ledger + if resource.pointCost > 0
                            then [Entry(user, root, Some(id), -resource.pointCost, BOOKING)] else [])
  }
}
