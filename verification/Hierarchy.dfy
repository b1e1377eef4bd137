/** Parent links between organizations, on any finite map, cycles included. */
module Hierarchy {
  import opened Prelude

  /** The organization k parent links above x, if the links go that far. */
  function Up(parents: map<Id, Id>, x: Id, k: nat): Option<Id>
    decreases k
  {
    if k == 0 then Some(x)
    else if x in parents then Up(parents, parents[x], k - 1)
    else None
  }

  /** a is x or an ancestor of x. */
  ghost predicate Descends(parents: map<Id, Id>, x: Id, a: Id) {
    exists k: nat :: Up(parents, x, k) == Some(a)
  }

  /** a is an ancestor of x by at least one link. */
  ghost predicate StrictlyBelow(parents: map<Id, Id>, x: Id, a: Id) {
    x in parents && Descends(parents, parents[x], a)
  }

  ghost predicate Acyclic(parents: map<Id, Id>) {
    forall x :: x in parents ==> !StrictlyBelow(parents, x, x)
  }

  lemma {:induction false} UpAdd(parents: map<Id, Id>, x: Id, i: nat, j: nat)
    ensures Up(parents, x, i + j) == match Up(parents, x, i) { case None => None case Some(y) => Up(parents, y, j) }
    decreases i
  {
    if i > 0 && x in parents {
      UpAdd(parents, parents[x], i - 1, j);
    }
  }

  lemma DescendsReflexive(parents: map<Id, Id>, x: Id)
    ensures Descends(parents, x, x)
  {
    assert Up(parents, x, 0) == Some(x);
  }

  lemma DescendsTransitive(parents: map<Id, Id>, x: Id, y: Id, z: Id)
    requires Descends(parents, x, y) && Descends(parents, y, z)
    ensures Descends(parents, x, z)
  {
    var i: nat :| Up(parents, x, i) == Some(y);
    var j: nat :| Up(parents, y, j) == Some(z);
    UpAdd(parents, x, i, j);
  }

  /** One link up, or none: the definition a walk follows. */
  lemma DescendsUnfold(parents: map<Id, Id>, x: Id, a: Id)
    ensures Descends(parents, x, a) <==> x == a || StrictlyBelow(parents, x, a)
  {
    if Descends(parents, x, a) {
      var k: nat :| Up(parents, x, k) == Some(a);
      if k > 0 {
        assert Up(parents, parents[x], k - 1) == Some(a);
      }
    }
    if x == a {
      DescendsReflexive(parents, x);
    }
    if StrictlyBelow(parents, x, a) {
      var k: nat :| Up(parents, parents[x], k) == Some(a);
      assert Up(parents, x, k + 1) == Some(a);
    }
  }

  /** Two ancestors of one organization lie on one line. */
  lemma AncestorsOnOneLine(parents: map<Id, Id>, x: Id, a: Id, b: Id)
    requires Descends(parents, x, a) && Descends(parents, x, b)
    ensures Descends(parents, a, b) || Descends(parents, b, a)
  {
    var i: nat :| Up(parents, x, i) == Some(a);
    var j: nat :| Up(parents, x, j) == Some(b);
    if i <= j {
      UpAdd(parents, x, i, j - i);
      assert Up(parents, a, j - i) == Some(b);
    } else {
      UpAdd(parents, x, j, i - j);
      assert Up(parents, b, i - j) == Some(a);
    }
  }

  /** A set that follows its own parent links holds every ancestor of its members. */
  lemma {:induction false} ClosedHoldsAncestors(parents: map<Id, Id>, visited: set<Id>, x: Id, k: nat)
    requires x in visited && forall y :: y in visited && y in parents ==> parents[y] in visited
    ensures Up(parents, x, k).Some? ==> Up(parents, x, k).value in visited
    decreases k
  {
    if k > 0 && x in parents {
      ClosedHoldsAncestors(parents, visited, parents[x], k - 1);
    }
  }

  lemma ClosedHoldsAll(parents: map<Id, Id>, visited: set<Id>, x: Id, a: Id)
    requires x in visited && forall y :: y in visited && y in parents ==> parents[y] in visited
    requires Descends(parents, x, a)
    ensures a in visited
  {
    var k: nat :| Up(parents, x, k) == Some(a);
    ClosedHoldsAncestors(parents, visited, x, k);
  }

  /** Every organization hangs below one root, which has no parent. */
  ghost predicate Tree(root: Id, parents: map<Id, Id>) {
    root !in parents && forall x :: x in parents ==> Descends(parents, x, root)
  }

  lemma {:induction false} CycleGoesOn(parents: map<Id, Id>, x: Id, i: nat, k: nat)
    requires i > 0 && Up(parents, x, i) == Some(x)
    ensures Up(parents, x, k).Some? && Up(parents, x, k).value in parents
    decreases k
  {
    if k < i {
      UpAdd(parents, x, k, i - k);
    } else {
      UpAdd(parents, x, i, k - i);
      CycleGoesOn(parents, x, i, k - i);
    }
  }

  /** A tree has no cycle: a walk round a cycle would never reach the root. */
  lemma TreeIsAcyclic(root: Id, parents: map<Id, Id>)
    requires Tree(root, parents)
    ensures Acyclic(parents)
  {
    forall x | x in parents ensures !StrictlyBelow(parents, x, x) {
      if StrictlyBelow(parents, x, x) {
        var k: nat :| Up(parents, parents[x], k) == Some(x);
        var n: nat :| Up(parents, x, n) == Some(root);
        CycleGoesOn(parents, x, k + 1, n);
        assert false;
      }
    }
  }
}
