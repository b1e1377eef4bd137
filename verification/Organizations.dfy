/** Who may manage what: the walks from an organization up its parent links. */
module Organizations {
  import opened Prelude
  import opened Hierarchy

  datatype Organization = Organization(id: Id, parent: Option<Id>, root: Id)

  /** The links a walk over a table follows: those to parents that are in the table. */
  function ParentsIn(byId: map<Id, Organization>): map<Id, Id> {
    map id | id in byId && byId[id].parent.Some? && byId[id].parent.value in byId :: byId[id].parent.value
  }

  predicate KeyedById(byId: map<Id, Organization>) {
    forall id :: id in byId ==> byId[id].id == id
  }

  /** An administered organization is reachable from id by parent links. */
  ghost predicate Managed(parents: map<Id, Id>, id: Id, administered: set<Id>) {
    exists a :: a in administered && Descends(parents, id, a)
  }

  /** The walk of the resource form. It ends on every finite table, cycles included,
      and decides exactly whether an administered organization is reachable. */
  method IsOrganizationManaged(organization: Organization, administered: set<Id>, byId: map<Id, Organization>)
    returns (managed: bool)
    requires KeyedById(byId) && organization.id in byId && byId[organization.id] == organization
    ensures managed <==> Managed(ParentsIn(byId), organization.id, administered)
  {
    ghost var parents := ParentsIn(byId);
    var current := Some(organization);
    var visited: set<Id> := {};
    DescendsReflexive(parents, organization.id);
    while current.Some? && current.value.id !in visited
      invariant current.Some? ==> current.value.id in byId && byId[current.value.id] == current.value
      invariant current.Some? ==> Descends(parents, organization.id, current.value.id)
      invariant visited <= byId.Keys && visited !! administered
      invariant organization.id in visited || current == Some(organization)
      invariant forall y :: y in visited && y in parents ==>
                  parents[y] in visited || (current.Some? && parents[y] == current.value.id)
      decreases byId.Keys - visited
    {
      var id := current.value.id;
      if id in administered {
        return true;
      }
      visited := visited + {id};
      var parent := current.value.parent;
      current := if parent.Some? && parent.value in byId then Some(byId[parent.value]) else None;
      if id in parents {
        DescendsUnfold(parents, id, parents[id]);
        DescendsReflexive(parents, parents[id]);
        DescendsTransitive(parents, organization.id, id, parents[id]);
      }
    }
    forall a | a in administered ensures !Descends(parents, organization.id, a) {
      if Descends(parents, organization.id, a) {
        ClosedHoldsAll(parents, visited, organization.id, a);
      }
    }
    return false;
  }

  /** The walk of the organization page: it collects exactly an organization and its
      ancestors, on every finite map. */
  method AncestorIds(parents: map<Id, Id>, start: Id) returns (ids: set<Id>)
    ensures forall a :: a in ids <==> Descends(parents, start, a)
  {
    var current := Some(start);
    ids := {};
    DescendsReflexive(parents, start);
    while current.Some? && current.value !in ids
      invariant current.Some? ==> Descends(parents, start, current.value)
      invariant forall a :: a in ids ==> Descends(parents, start, a)
      invariant start in ids || current == Some(start)
      invariant forall y :: y in ids && y in parents ==> parents[y] in ids || current == Some(parents[y])
      decreases parents.Keys - ids, if current.Some? then 1 else 0
    {
      var id := current.value;
      ids := ids + {id};
      current := if id in parents then Some(parents[id]) else None;
      if id in parents {
        DescendsUnfold(parents, id, parents[id]);
        DescendsReflexive(parents, parents[id]);
        DescendsTransitive(parents, start, id, parents[id]);
      }
    }
    forall a | Descends(parents, start, a) ensures a in ids {
      ClosedHoldsAll(parents, ids, start, a);
    }
  }

  // ---------- The server's walk ----------

  datatype ResourceRow = ResourceRow(owner: Id, root: Id, active: bool)

  /** The organizations of one tenant. */
  function TenantOf(organizations: map<Id, Organization>, root: Id): map<Id, Organization> {
    map id | id in organizations && organizations[id].root == root :: organizations[id]
  }

  /** The walk of the slot repository. It reads each parent within the tenant, keeps no
      visited set, and so ends because the links are acyclic. */
  method CanManageResource(resource: Option<ResourceRow>, root: Id, organizations: map<Id, Organization>, administered: set<Id>)
    returns (allowed: bool)
    requires KeyedById(organizations) && Acyclic(ParentsIn(TenantOf(organizations, root)))
    requires resource.Some? && resource.value.root == root ==>
               resource.value.owner in organizations && organizations[resource.value.owner].root == root
    ensures allowed <==>
              && resource.Some? && resource.value.root == root && resource.value.active
              && Managed(ParentsIn(TenantOf(organizations, root)), resource.value.owner, administered)
  {
    if resource.None? || resource.value.root != root || !resource.value.active {
      return false;
    }
    ghost var parents := ParentsIn(TenantOf(organizations, root));
    ghost var start := resource.value.owner;
    ghost var visited: set<Id> := {};
    var organization := Some(organizations[resource.value.owner]);
    DescendsReflexive(parents, start);
    while organization.Some?
      invariant organization.Some? ==>
                  && organization.value.id in TenantOf(organizations, root)
                  && organizations[organization.value.id] == organization.value
                  && Descends(parents, start, organization.value.id)
                  && organization.value.id !in visited
      invariant visited <= organizations.Keys && visited !! administered
      invariant start in visited || (organization.Some? && organization.value.id == start)
      invariant forall y :: y in visited ==> organization.Some? ==> StrictlyBelow(parents, y, organization.value.id)
      invariant forall y :: y in visited && y in parents ==>
                  parents[y] in visited || (organization.Some? && parents[y] == organization.value.id)
      decreases organizations.Keys - visited, if organization.Some? then 1 else 0
    {
      var id := organization.value.id;
      if id in administered {
        return true;
      }
      visited := visited + {id};
      if organization.value.parent.None? {
        organization := None;
        break;
      }
      var parent := organization.value.parent.value;
      organization := if parent in organizations && organizations[parent].root == root then Some(organizations[parent]) else None;
      if organization.Some? {
        NextAbove(parents, visited, start, id);
      }
    }
    forall a | a in administered ensures !Descends(parents, start, a) {
      if Descends(parents, start, a) {
        ClosedHoldsAll(parents, visited, start, a);
      }
    }
    return false;
  }

  /** One more link on an acyclic walk: the next organization is above all visited ones
      and so is not one of them. */
  lemma NextAbove(parents: map<Id, Id>, visited: set<Id>, start: Id, id: Id)
    requires Acyclic(parents) && id in visited && id in parents && Descends(parents, start, id)
    requires forall y :: y in visited && y != id ==> StrictlyBelow(parents, y, id)
    ensures Descends(parents, start, parents[id]) && parents[id] !in visited
    ensures forall y :: y in visited ==> StrictlyBelow(parents, y, parents[id])
  {
    var next := parents[id];
    DescendsReflexive(parents, next);
    DescendsUnfold(parents, id, next);
    DescendsTransitive(parents, start, id, next);
    forall y | y in visited ensures StrictlyBelow(parents, y, next) && y != next {
      if y != id {
        DescendsTransitive(parents, parents[y], id, next);
      }
    }
  }

  /** A parent belongs to the tenant of its child. */
  predicate ParentsInTenant(organizations: map<Id, Organization>) {
    forall id :: id in organizations && organizations[id].parent.Some? && organizations[id].parent.value in organizations ==>
      organizations[organizations[id].parent.value].root == organizations[id].root
  }

  /** From an organization of a tenant, the walk over every known tenant is the walk
      over that tenant alone. */
  lemma {:induction false} SameWalk(known: map<Id, Organization>, root: Id, x: Id, k: nat)
    requires ParentsInTenant(known) && x in TenantOf(known, root)
    ensures var tenant := TenantOf(known, root);
            && Up(ParentsIn(known), x, k) == Up(ParentsIn(tenant), x, k)
            && (Up(ParentsIn(tenant), x, k).Some? ==> Up(ParentsIn(tenant), x, k).value in tenant)
    decreases k
  {
    if k > 0 && x in ParentsIn(known) {
      SameWalk(known, root, ParentsIn(known)[x], k - 1);
    }
  }

  /** For an active resource of a tenant that the form knows, among others, its walk from
      the owner over all it knows, with administrator roles in every tenant, and the
      server's walk within the tenant give the same answer. */
  lemma ClientAgreesWithServer(known: map<Id, Organization>, organizations: map<Id, Organization>, root: Id, owner: Id,
                               everywhere: set<Id>, inTenant: set<Id>)
    requires ParentsInTenant(known) && TenantOf(known, root) == TenantOf(organizations, root)
    requires owner in TenantOf(organizations, root)
    requires forall a :: a in inTenant <==> a in everywhere && a in TenantOf(organizations, root)
    ensures Managed(ParentsIn(known), owner, everywhere) <==> Managed(ParentsIn(TenantOf(organizations, root)), owner, inTenant)
  {
    var tenant := TenantOf(known, root);
    forall a: Id ensures Descends(ParentsIn(known), owner, a) <==> Descends(ParentsIn(tenant), owner, a) && a in tenant {
      if Descends(ParentsIn(known), owner, a) {
        var k: nat :| Up(ParentsIn(known), owner, k) == Some(a);
        SameWalk(known, root, owner, k);
      }
      if Descends(ParentsIn(tenant), owner, a) {
        var k: nat :| Up(ParentsIn(tenant), owner, k) == Some(a);
        SameWalk(known, root, owner, k);
      }
    }
  }
}
