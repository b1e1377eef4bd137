/** The target list of the semester allocation dialog: its ancestor checks, its
    toggles, and what the selected targets cover. */
module AllocationTargets {
  import opened Prelude
  import opened Hierarchy

  /** The steps of the dialog: the box of the root, and the box of one descendant. */
  datatype Toggle = ToggleAll(checked: bool) | ToggleOne(org: Id, checked: bool)

  ghost predicate Covering(parents: map<Id, Id>, targets: seq<Id>, org: Id) {
    exists t :: t in targets && StrictlyBelow(parents, org, t)
  }

  /** The box of a covered organization is disabled, and a box reports a change. */
  ghost predicate Enabled(root: Id, parents: map<Id, Id>, targets: seq<Id>, toggle: Toggle) {
    match toggle
    case ToggleAll(checked) => checked != (root in targets)
    case ToggleOne(org, checked) =>
      && org in parents && checked != (org in targets)
      && !(root in targets || Covering(parents, targets, org))
  }

  function Without(targets: seq<Id>, org: Id): seq<Id> {
    if targets == [] then []
    else (if targets[0] == org then [] else [targets[0]]) + Without(targets[1..], org)
  }

  ghost function WithoutBelow(parents: map<Id, Id>, targets: seq<Id>, org: Id): seq<Id> {
    if targets == [] then []
    else (if StrictlyBelow(parents, targets[0], org) then [] else [targets[0]]) + WithoutBelow(parents, targets[1..], org)
  }

  ghost function Apply(root: Id, parents: map<Id, Id>, targets: seq<Id>, toggle: Toggle): seq<Id> {
    match toggle
    case ToggleAll(checked) => if checked then [root] else Without(targets, root)
    case ToggleOne(org, checked) =>
      if !checked then Without(targets, org)
      else if root in targets then [org]
      else WithoutBelow(parents, targets, org) + [org]
  }

  ghost function ApplyEach(root: Id, parents: map<Id, Id>, targets: seq<Id>, toggles: seq<Toggle>): seq<Id>
    decreases |toggles|
  {
    if toggles == [] then targets
    else
      ApplyEach(root, parents,
                if Enabled(root, parents, targets, toggles[0]) then Apply(root, parents, targets, toggles[0]) else targets,
                toggles[1..])
  }

  // ---------- What targets cover ----------

  function Everyone(root: Id, parents: map<Id, Id>): set<Id> {
    parents.Keys + {root}
  }

  ghost function Subtree(root: Id, parents: map<Id, Id>, org: Id): set<Id> {
    set x | x in Everyone(root, parents) && Descends(parents, x, org)
  }

  ghost function Covered(root: Id, parents: map<Id, Id>, targets: seq<Id>): set<Id> {
    set x, t | t in targets && x in Subtree(root, parents, t) :: x
  }

  /** Distinct organizations of the tree, none below another. */
  ghost predicate Antichain(root: Id, parents: map<Id, Id>, targets: seq<Id>) {
    && (forall i, j :: 0 <= i < j < |targets| ==> targets[i] != targets[j])
    && (forall t :: t in targets ==> t in Everyone(root, parents))
    && (forall t, u :: t in targets && u in targets ==> !StrictlyBelow(parents, t, u))
  }

  /** In an antichain the subtrees are disjoint, so nobody is covered twice. */
  lemma CoveredOnce(root: Id, parents: map<Id, Id>, targets: seq<Id>, x: Id, t: Id, u: Id)
    requires Antichain(root, parents, targets) && t in targets && u in targets
    requires x in Subtree(root, parents, t) && x in Subtree(root, parents, u)
    ensures t == u
  {
    AncestorsOnOneLine(parents, x, t, u);
    DescendsUnfold(parents, t, u);
    DescendsUnfold(parents, u, t);
  }

  /** A box can be selected exactly if its organization is not covered yet, and
      deselected exactly if it is itself a target; so nothing is ever selected twice. */
  lemma EnabledExactly(root: Id, parents: map<Id, Id>, targets: seq<Id>, org: Id)
    requires Tree(root, parents) && Antichain(root, parents, targets)
    ensures Enabled(root, parents, targets, ToggleAll(true)) <==> root !in targets
    ensures Enabled(root, parents, targets, ToggleAll(false)) <==> root in targets
    ensures Enabled(root, parents, targets, ToggleOne(org, true))
       <==> org in parents && org !in Covered(root, parents, targets)
    ensures Enabled(root, parents, targets, ToggleOne(org, false)) <==> org in parents && org in targets
  {
    if org in parents {
      DescendsUnfold(parents, org, root);
      forall t | t in targets
        ensures org in Subtree(root, parents, t) <==> org == t || StrictlyBelow(parents, org, t)
      {
        DescendsUnfold(parents, org, t);
      }
    }
  }

  lemma {:induction false} WithoutElements(targets: seq<Id>, org: Id)
    requires forall i, j :: 0 <= i < j < |targets| ==> targets[i] != targets[j]
    ensures var kept := Without(targets, org);
            && (forall t :: t in kept <==> t in targets && t != org)
            && (forall i, j :: 0 <= i < j < |kept| ==> kept[i] != kept[j])
  {
    if targets != [] {
      var rest := Without(targets[1..], org);
      WithoutElements(targets[1..], org);
      assert targets == [targets[0]] + targets[1..];
      assert targets[0] !in targets[1..] && targets[0] !in rest;
      assert Without(targets, org) == (if targets[0] == org then rest else [targets[0]] + rest);
    }
  }

  lemma {:induction false} WithoutBelowElements(parents: map<Id, Id>, targets: seq<Id>, org: Id)
    requires forall i, j :: 0 <= i < j < |targets| ==> targets[i] != targets[j]
    ensures var kept := WithoutBelow(parents, targets, org);
            && (forall t :: t in kept <==> t in targets && !StrictlyBelow(parents, t, org))
            && (forall i, j :: 0 <= i < j < |kept| ==> kept[i] != kept[j])
  {
    if targets != [] {
      var rest := WithoutBelow(parents, targets[1..], org);
      WithoutBelowElements(parents, targets[1..], org);
      assert targets == [targets[0]] + targets[1..];
      assert targets[0] !in targets[1..] && targets[0] !in rest;
      assert WithoutBelow(parents, targets, org)
          == (if StrictlyBelow(parents, targets[0], org) then rest else [targets[0]] + rest);
    }
  }

  /** Every enabled toggle keeps the targets an antichain. */
  lemma ToggleKeepsAntichain(root: Id, parents: map<Id, Id>, targets: seq<Id>, toggle: Toggle)
    requires Tree(root, parents) && Antichain(root, parents, targets) && Enabled(root, parents, targets, toggle)
    ensures Antichain(root, parents, Apply(root, parents, targets, toggle))
  {
    TreeIsAcyclic(root, parents);
    match toggle
    case ToggleAll(checked) => WithoutElements(targets, root);
    case ToggleOne(org, checked) =>
      WithoutElements(targets, org);
      WithoutBelowElements(parents, targets, org);
  }

  /** Selecting adds exactly a subtree to what is covered; deselecting removes exactly
      it. */
  lemma ToggleChangesExactlySubtree(root: Id, parents: map<Id, Id>, targets: seq<Id>, toggle: Toggle)
    requires Tree(root, parents) && Antichain(root, parents, targets) && Enabled(root, parents, targets, toggle)
    ensures var before, after := Covered(root, parents, targets), Covered(root, parents, Apply(root, parents, targets, toggle));
            var changed := Subtree(root, parents, if toggle.ToggleAll? then root else toggle.org);
            && after == (if toggle.checked then before + changed else before - changed)
            && (toggle.ToggleAll? ==> changed == Everyone(root, parents))
  {
    RootCoversAll(root, parents);
    match toggle
    case ToggleAll(checked) =>
      if checked {
        assert [root] == Apply(root, parents, targets, toggle);
      } else {
        DeselectRemoves(root, parents, targets, root);
      }
    case ToggleOne(org, checked) =>
      if checked { SelectAdds(root, parents, targets, org); } else { DeselectRemoves(root, parents, targets, org); }
  }

  lemma RootCoversAll(root: Id, parents: map<Id, Id>)
    requires Tree(root, parents)
    ensures Subtree(root, parents, root) == Everyone(root, parents)
    ensures Covered(root, parents, [root]) == Everyone(root, parents)
  {
    DescendsReflexive(parents, root);
    assert root in [root];
    assert Subtree(root, parents, root) == Everyone(root, parents);
    forall x | x in Everyone(root, parents) ensures x in Covered(root, parents, [root]) {
    }
  }

  lemma SelectAdds(root: Id, parents: map<Id, Id>, targets: seq<Id>, org: Id)
    requires Antichain(root, parents, targets)
    ensures Covered(root, parents, WithoutBelow(parents, targets, org) + [org])
         == Covered(root, parents, targets) + Subtree(root, parents, org)
  {
    WithoutBelowElements(parents, targets, org);
    var after := WithoutBelow(parents, targets, org) + [org];
    assert org in after;
    forall x, t | t in targets && x in Subtree(root, parents, t)
      ensures x in Covered(root, parents, after)
    {
      if StrictlyBelow(parents, t, org) {
        DescendsUnfold(parents, t, org);
        DescendsTransitive(parents, x, t, org);
        assert x in Subtree(root, parents, org);
      } else {
        assert t in after;
      }
    }
  }

  lemma DeselectRemoves(root: Id, parents: map<Id, Id>, targets: seq<Id>, org: Id)
    requires Antichain(root, parents, targets) && org in targets
    ensures Covered(root, parents, Without(targets, org))
         == Covered(root, parents, targets) - Subtree(root, parents, org)
  {
    WithoutElements(targets, org);
    forall x, t | t in targets && t != org && x in Subtree(root, parents, t)
      ensures x !in Subtree(root, parents, org)
    {
      if x in Subtree(root, parents, org) {
        CoveredOnce(root, parents, targets, x, t, org);
      }
    }
  }

  /** Over any sequence of toggles the targets stay an antichain, so each organization is
      covered by at most one of them. */
  lemma {:induction false} AntichainAfterToggles(root: Id, parents: map<Id, Id>, targets: seq<Id>, toggles: seq<Toggle>,
                                                 x: Id, t: Id, u: Id)
    requires Tree(root, parents) && Antichain(root, parents, targets)
    ensures var after := ApplyEach(root, parents, targets, toggles);
            && Antichain(root, parents, after)
            && (t in after && u in after && x in Subtree(root, parents, t) && x in Subtree(root, parents, u) ==> t == u)
    decreases |toggles|
  {
    if toggles == [] {
      if t in targets && u in targets && x in Subtree(root, parents, t) && x in Subtree(root, parents, u) {
        CoveredOnce(root, parents, targets, x, t, u);
      }
    } else if Enabled(root, parents, targets, toggles[0]) {
      ToggleKeepsAntichain(root, parents, targets, toggles[0]);
      AntichainAfterToggles(root, parents, Apply(root, parents, targets, toggles[0]), toggles[1..], x, t, u);
    } else {
      AntichainAfterToggles(root, parents, targets, toggles[1..], x, t, u);
    }
  }

  lemma InitialAntichain(root: Id, parents: map<Id, Id>)
    requires Tree(root, parents)
    ensures Antichain(root, parents, [root])
  {
  }

  /** So nobody is ever covered twice in the dialog, which opens with the root selected. */
  lemma CoveredOnceInDialog(root: Id, parents: map<Id, Id>, toggles: seq<Toggle>, x: Id, t: Id, u: Id)
    requires Tree(root, parents)
    requires var after := ApplyEach(root, parents, [root], toggles); t in after && u in after
    requires x in Subtree(root, parents, t) && x in Subtree(root, parents, u)
    ensures t == u
  {
    InitialAntichain(root, parents);
    AntichainAfterToggles(root, parents, [root], toggles, x, t, u);
  }

  // ---------- The dialog ----------

  class Dialog {
    const root: Id
    const parents: map<Id, Id>
    var targets: seq<Id>

    constructor (root: Id, parents: map<Id, Id>)
      ensures this.root == root && this.parents == parents && targets == [root]
    {
      this.root := root;
      this.parents := parents;
      targets := [root];
    }

    method IsDescendantOf(child: Id, parent: Id) returns (r: bool)
      requires Acyclic(parents)
      ensures r <==> StrictlyBelow(parents, child, parent)
    {
      var current := if child in parents then Some(parents[child]) else None;
      ghost var seen: set<Id> := {};
      while current.Some?
        invariant StrictlyBelow(parents, child, parent) <==> current.Some? && Descends(parents, current.value, parent)
        invariant seen <= parents.Keys
        invariant current.Some? ==> forall y :: y in seen ==> StrictlyBelow(parents, y, current.value)
        decreases parents.Keys - seen, if current.Some? then 1 else 0
      {
        var id := current.value;
        DescendsUnfold(parents, id, parent);
        if id == parent {
          return true;
        }
        if id in parents {
          StepUp(parents, seen, id);
          seen := seen + {id};
          current := Some(parents[id]);
        } else {
          current := None;
        }
      }
      return false;
    }

    method IsCoveredByAncestor(org: Id) returns (r: bool)
      requires Acyclic(parents)
      ensures r <==> root in targets || Covering(parents, targets, org)
    {
      if root in targets {
        return true;
      }
      var current := if org in parents then Some(parents[org]) else None;
      ghost var seen: set<Id> := {};
      while current.Some?
        invariant Covering(parents, targets, org)
             <==> current.Some? && exists t :: t in targets && Descends(parents, current.value, t)
        invariant seen <= parents.Keys
        invariant current.Some? ==> forall y :: y in seen ==> StrictlyBelow(parents, y, current.value)
        decreases parents.Keys - seen, if current.Some? then 1 else 0
      {
        var id := current.value;
        forall t | t in targets
          ensures Descends(parents, id, t) <==> id == t || StrictlyBelow(parents, id, t)
        {
          DescendsUnfold(parents, id, t);
        }
        if id in targets {
          return true;
        }
        if id in parents {
          StepUp(parents, seen, id);
          seen := seen + {id};
          current := Some(parents[id]);
        } else {
          current := None;
        }
      }
      return false;
    }

    method KeepOthers(org: Id) returns (kept: seq<Id>)
      ensures kept == Without(targets, org)
    {
      kept := [];
      var i := |targets|;
      while i > 0
        invariant 0 <= i <= |targets|
        invariant kept == Without(targets[i..], org)
      {
        i := i - 1;
        assert targets[i..][1..] == targets[i + 1..];
        if targets[i] != org {
          kept := [targets[i]] + kept;
        }
      }
      assert targets[0..] == targets;
    }

    method KeepNotBelow(org: Id) returns (kept: seq<Id>)
      requires Acyclic(parents)
      ensures kept == WithoutBelow(parents, targets, org)
    {
      kept := [];
      var i := |targets|;
      while i > 0
        invariant 0 <= i <= |targets|
        invariant kept == WithoutBelow(parents, targets[i..], org)
      {
        i := i - 1;
        assert targets[i..][1..] == targets[i + 1..];
        var below := IsDescendantOf(targets[i], org);
        if !below {
          kept := [targets[i]] + kept;
        }
      }
      assert targets[0..] == targets;
    }

    method OnCheckedChange(toggle: Toggle)
      requires Acyclic(parents)
      modifies this
      ensures targets == Apply(root, parents, old(targets), toggle)
    {
      match toggle
      case ToggleAll(checked) =>
        if checked {
          targets := [root];
        } else {
          var kept := KeepOthers(root);
          targets := kept;
        }
      case ToggleOne(org, checked) =>
        if !checked {
          var kept := KeepOthers(org);
          targets := kept;
        } else if root in targets {
          targets := [org];
        } else {
          var kept := KeepNotBelow(org);
          targets := kept + [org];
        }
    }
  }

  /** On an acyclic walk the next organization is above all seen ones, so it is new. */
  lemma StepUp(parents: map<Id, Id>, seen: set<Id>, id: Id)
    requires Acyclic(parents) && id in parents
    requires forall y :: y in seen ==> StrictlyBelow(parents, y, id)
    ensures id !in seen
    ensures forall y :: y in seen + {id} ==> StrictlyBelow(parents, y, parents[id])
  {
    DescendsReflexive(parents, parents[id]);
    DescendsUnfold(parents, id, parents[id]);
    forall y | y in seen ensures StrictlyBelow(parents, y, parents[id]) {
      DescendsTransitive(parents, parents[y], id, parents[id]);
    }
  }
}
