/** The projected Workspace: independent of the order of the prepared operations,
    and, when no operation shrinks the placement it targets, the heaviest
    Workspace that any completion can record. */
module Projection {
  import opened Basics
  import opened StoreTypes
  import opened Placements
  import opened StoreOps
  import opened StoreInvariant

  /** The projection with unbounded revisions; equal to the coordinator's when that one succeeds. */
  function ProjectTotal(w: Workspace, ps: seq<Pending>): (r: Workspace)
    ensures r.id == w.id
  {
    if ps == [] then w
    else
      var last := ps[|ps| - 1];
      var before := ProjectTotal(w, ps[..|ps| - 1]);
      if last.workspace == w.id then PlaceTotal(before, PlacementOf(last)) else before
  }

  lemma {:induction false} ProjectIsTotal(w: Workspace, ps: seq<Pending>)
    ensures Project(w, ps).Success? ==> Project(w, ps).value == ProjectTotal(w, ps)
  {
    if ps != [] {
      ProjectIsTotal(w, ps[..|ps| - 1]);
    }
  }

  predicate Targets(w: Workspace, p: Pending, node: Id) {
    p.workspace == w.id && p.node == node
  }

  predicate Targeted(w: Workspace, ps: seq<Pending>, node: Id) {
    exists p :: p in ps && Targets(w, p, node)
  }

  predicate Projected(w: Workspace, ps: seq<Pending>, y: Placement) {
    exists p :: p in ps && p.workspace == w.id && y == PlacementOf(p)
  }

  /** Exactly the placements a projection holds. */
  predicate Holds(w: Workspace, ps: seq<Pending>, y: Placement) {
    Projected(w, ps, y) || (y in w.placements && !Targeted(w, ps, y.node))
  }

  lemma OneTargetOnePlacement(ps: seq<Pending>, p: Pending, q: Pending)
    requires OwnersAgree(ps) && p in ps && q in ps && SameTarget(p, q)
    ensures PlacementOf(p) == PlacementOf(q)
  {
    var i :| 0 <= i < |ps| && ps[i] == p;
    var j :| 0 <= j < |ps| && ps[j] == q;
    assert SameOwner(ps[i], ps[j]);
  }

  lemma AgreeWithout(ps: seq<Pending>, i: nat)
    requires OwnersAgree(ps) && i < |ps|
    ensures OwnersAgree(Without(ps, i))
  {
  }

  lemma HoldsStep(w: Workspace, ps: seq<Pending>, y: Placement)
    requires ps != [] && OwnersAgree(ps)
    ensures var init, last := ps[..|ps| - 1], ps[|ps| - 1];
            Holds(w, ps, y) <==>
            if last.workspace == w.id then y == PlacementOf(last) || (Holds(w, init, y) && y.node != last.node)
            else Holds(w, init, y)
  {
    var init, last := ps[..|ps| - 1], ps[|ps| - 1];
    assert ps == init + [last];
    assert Projected(w, ps, y) <==> Projected(w, init, y) || (last.workspace == w.id && y == PlacementOf(last));
    assert Targeted(w, ps, y.node) <==> Targeted(w, init, y.node) || Targets(w, last, y.node);
    if last.workspace == w.id && y.node == last.node && Projected(w, init, y) {
      var p :| p in init && p.workspace == w.id && y == PlacementOf(p);
      OneTargetOnePlacement(ps, p, last);
    }
  }

  lemma {:induction false} ProjectionHolds(w: Workspace, ps: seq<Pending>)
    requires Sorted(w.placements) && OwnersAgree(ps)
    ensures var r := ProjectTotal(w, ps);
            && Sorted(r.placements)
            && (forall y :: y in r.placements <==> Holds(w, ps, y))
            && |r.placements| >= |w.placements|
            && r == w.(placements := r.placements, revision := w.revision + (|r.placements| - |w.placements|))
  {
    if ps != [] {
      var init, last := ps[..|ps| - 1], ps[|ps| - 1];
      ProjectionHolds(w, init);
      var before := ProjectTotal(w, init);
      PlaceAtMeaning(before.placements, PlacementOf(last));
      forall y
        ensures y in ProjectTotal(w, ps).placements <==> Holds(w, ps, y)
      {
        HoldsStep(w, ps, y);
      }
    }
  }

  /** Projections that hold the same placements are the same Workspace. */
  lemma SameContentSameProjection(w: Workspace, ps: seq<Pending>, v: Workspace, qs: seq<Pending>)
    requires Sorted(w.placements) && OwnersAgree(ps) && Sorted(v.placements) && OwnersAgree(qs)
    requires v == w.(placements := v.placements, revision := v.revision)
    requires w.revision + |v.placements| == v.revision + |w.placements|
    requires forall y :: Holds(w, ps, y) <==> Holds(v, qs, y)
    ensures ProjectTotal(w, ps) == ProjectTotal(v, qs)
  {
    ProjectionHolds(w, ps);
    ProjectionHolds(v, qs);
    SortedExtensional(ProjectTotal(w, ps).placements, ProjectTotal(v, qs).placements);
  }

  /** Two lists of operations that set the same placements project alike. */
  lemma ProjectionDependsOnContent(w: Workspace, ps: seq<Pending>, qs: seq<Pending>)
    requires Sorted(w.placements) && OwnersAgree(ps) && OwnersAgree(qs)
    requires forall y :: Projected(w, ps, y) <==> Projected(w, qs, y)
    ensures ProjectTotal(w, ps) == ProjectTotal(w, qs)
  {
    forall y
      ensures Holds(w, ps, y) <==> Holds(w, qs, y)
    {
      TargetedMeaning(w, ps, y.node);
      TargetedMeaning(w, qs, y.node);
    }
    SameContentSameProjection(w, ps, w, qs);
  }

  lemma TargetedMeaning(w: Workspace, ps: seq<Pending>, node: Id)
    ensures Targeted(w, ps, node) <==> exists y :: Projected(w, ps, y) && y.node == node
  {
    if Targeted(w, ps, node) {
      var p :| p in ps && Targets(w, p, node);
      assert Projected(w, ps, PlacementOf(p));
    }
  }

  /** The order in which operations were prepared does not matter. */
  lemma ProjectionIgnoresOrder(w: Workspace, ps: seq<Pending>, qs: seq<Pending>)
    requires Sorted(w.placements) && OwnersAgree(ps) && multiset(ps) == multiset(qs)
    ensures ProjectTotal(w, ps) == ProjectTotal(w, qs)
    ensures Project(w, ps).Success? && Project(w, qs).Success? ==> Project(w, ps) == Project(w, qs)
  {
    assert forall p :: p in ps <==> p in multiset(ps);
    assert forall p :: p in qs <==> p in multiset(qs);
    forall i, j | 0 <= i < |qs| && 0 <= j < |qs| && SameTarget(qs[i], qs[j])
      ensures SameOwner(qs[i], qs[j])
    {
      assert qs[i] in multiset(qs) && qs[j] in multiset(qs);
      var a :| 0 <= a < |ps| && ps[a] == qs[i];
      var b :| 0 <= b < |ps| && ps[b] == qs[j];
    }
    assert forall y :: Projected(w, ps, y) <==> Projected(w, qs, y);
    ProjectionDependsOnContent(w, ps, qs);
    ProjectIsTotal(w, ps);
    ProjectIsTotal(w, qs);
  }

  /** Reservations and attempt marks play no part in a projection. */
  lemma {:induction false} ProjectionIgnoresReservations(w: Workspace, ps: seq<Pending>, qs: seq<Pending>)
    requires SameIdentities(ps, qs)
    ensures ProjectTotal(w, ps) == ProjectTotal(w, qs)
  {
    if ps != [] {
      ProjectionIgnoresReservations(w, ps[..|ps| - 1], qs[..|qs| - 1]);
    }
  }

  lemma {:induction false} ProjectionIgnoresOthers(w: Workspace, ps: seq<Pending>)
    requires forall i :: 0 <= i < |ps| ==> ps[i].workspace != w.id
    ensures ProjectTotal(w, ps) == w
  {
    if ps != [] {
      ProjectionIgnoresOthers(w, ps[..|ps| - 1]);
    }
  }

  // ---------- taking one operation out ----------

  lemma WithoutContent(ps: seq<Pending>, i: nat)
    requires i < |ps|
    ensures forall p :: p in ps <==> p == ps[i] || p in Without(ps, i)
  {
    forall p | p in ps
      ensures p == ps[i] || p in Without(ps, i)
    {
      var j :| 0 <= j < |ps| && ps[j] == p;
      if j != i {
        assert Without(ps, i)[if j < i then j else j - 1] == p;
      }
    }
    forall p | p in Without(ps, i)
      ensures p in ps
    {
      var j :| 0 <= j < |Without(ps, i)| && Without(ps, i)[j] == p;
      assert ps[if j < i then j else j + 1] == p;
    }
  }

  /** Any operation may be thought of as the last one prepared. */
  lemma ProjectLast(w: Workspace, ps: seq<Pending>, i: nat)
    requires Sorted(w.placements) && OwnersAgree(ps) && i < |ps| && ps[i].workspace == w.id
    ensures ProjectTotal(w, ps) == PlaceTotal(ProjectTotal(w, Without(ps, i)), PlacementOf(ps[i]))
  {
    var qs := Without(ps, i) + [ps[i]];
    WithoutContent(ps, i);
    assert qs[..|ps| - 1] == Without(ps, i);
    assert forall y :: Projected(w, ps, y) <==> Projected(w, qs, y);
    ProjectionDependsOnContent(w, ps, qs);
  }

  /** Any operation may be thought of as already completed, at its heaviest. */
  lemma ProjectFirst(w: Workspace, ps: seq<Pending>, i: nat)
    requires Sorted(w.placements) && OwnersAgree(ps) && i < |ps| && ps[i].workspace == w.id
    ensures ProjectTotal(PlaceTotal(w, PlacementOf(ps[i])), ps) == ProjectTotal(w, ps)
  {
    var x := PlacementOf(ps[i]);
    var v := PlaceTotal(w, x);
    PlaceAtMeaning(w.placements, x);
    assert Targets(w, ps[i], x.node);
    forall y
      ensures Holds(w, ps, y) <==> Holds(v, ps, y)
    {
      assert Targeted(w, ps, y.node) <==> Targeted(v, ps, y.node);
      assert Projected(w, ps, y) <==> Projected(v, ps, y);
      if y.node == x.node {
        assert Targeted(w, ps, y.node);
      }
    }
    SameContentSameProjection(w, ps, v, ps);
  }

  // ---------- what a projection weighs ----------

  /** Placing x does not make the Workspace lighter. */
  predicate Grows(w: Workspace, x: Placement) {
    forall l :: l in w.placements && l.node == x.node ==> PlacementBytes(l) <= PlacementBytes(x)
  }

  /** No operation shrinks the placement it targets. */
  predicate NoneShrinks(w: Workspace, ps: seq<Pending>) {
    forall p :: p in ps && p.workspace == w.id ==> Grows(w, PlacementOf(p))
  }

  /** Placing weighs exactly the new placement, less the one it overwrites. */
  lemma PlaceBytes(w: Workspace, x: Placement)
    requires Sorted(w.placements)
    ensures var i := PlacementIndex(w.placements, x.node);
            var v := PlaceTotal(w, x);
            WorkspaceBytes(v) + (if i < |w.placements| then PlacementBytes(w.placements[i]) else 0)
              + Digits(w.revision)
            == WorkspaceBytes(w) + PlacementBytes(x) + Digits(v.revision)
  {
    PlaceAtBytes(w.placements, x);
  }

  /** Placing makes the Workspace lighter exactly when x is lighter than what it overwrites. */
  lemma PlaceGrows(w: Workspace, x: Placement)
    requires Sorted(w.placements)
    ensures WorkspaceBytes(PlaceTotal(w, x)) >= WorkspaceBytes(w) <==> Grows(w, x)
  {
    PlaceBytes(w, x);
    DigitsGrow(w.revision, w.revision + 1);
    var i := PlacementIndex(w.placements, x.node);
    if i < |w.placements| {
      assert w.placements[i] in w.placements;
      assert forall l :: l in w.placements && l.node == x.node ==> l == w.placements[i];
    }
  }

  /** Of two placements for one Node, the lighter leaves the lighter Workspace. */
  lemma PlaceMonotone(w: Workspace, x: Placement, y: Placement)
    requires Sorted(w.placements) && x.node == y.node && PlacementBytes(x) <= PlacementBytes(y)
    ensures WorkspaceBytes(PlaceTotal(w, x)) <= WorkspaceBytes(PlaceTotal(w, y))
  {
    PlaceBytes(w, x);
    PlaceBytes(w, y);
  }

  /** A projection that shrinks nothing is no lighter than the Workspace. */
  lemma {:induction false} ProjectionGrows(w: Workspace, ps: seq<Pending>)
    requires Sorted(w.placements) && OwnersAgree(ps) && NoneShrinks(w, ps)
    ensures WorkspaceBytes(w) <= WorkspaceBytes(ProjectTotal(w, ps))
  {
    if ps != [] {
      var init, last := ps[..|ps| - 1], ps[|ps| - 1];
      ProjectionGrows(w, init);
      if last.workspace == w.id {
        var before := ProjectTotal(w, init);
        ProjectionHolds(w, init);
        ProjectedGrows(w, ps, |ps| - 1);
        PlaceGrows(before, PlacementOf(last));
      }
    }
  }

  /** Nor does an operation shrink what the others project on its Node. */
  lemma ProjectedGrows(w: Workspace, ps: seq<Pending>, i: nat)
    requires Sorted(w.placements) && OwnersAgree(ps) && NoneShrinks(w, ps) && i < |ps| && ps[i].workspace == w.id
    ensures Grows(ProjectTotal(w, Without(ps, i)), PlacementOf(ps[i]))
    ensures i == |ps| - 1 ==> Without(ps, i) == ps[..i]
  {
    var qs := Without(ps, i);
    AgreeWithout(ps, i);
    ProjectionHolds(w, qs);
    WithoutContent(ps, i);
    assert ps[i] in ps;
    forall l | l in ProjectTotal(w, qs).placements && l.node == ps[i].node
      ensures PlacementBytes(l) <= PlacementBytes(PlacementOf(ps[i]))
    {
      assert Holds(w, qs, l);
      if Projected(w, qs, l) {
        var q :| q in qs && q.workspace == w.id && l == PlacementOf(q);
        OneTargetOnePlacement(ps, q, ps[i]);
      } else {
        assert Grows(w, PlacementOf(ps[i]));
      }
    }
  }

  /** Whatever completes next, the recorded Workspace is no heavier than the projection. */
  lemma CompletionWithinProjection(w: Workspace, ps: seq<Pending>, i: nat, x: Placement)
    requires Sorted(w.placements) && OwnersAgree(ps) && NoneShrinks(w, ps) && i < |ps| && ps[i].workspace == w.id
    requires x.node == ps[i].node && PlacementBytes(x) <= PlacementBytes(PlacementOf(ps[i]))
    ensures WorkspaceBytes(PlaceTotal(w, x)) <= WorkspaceBytes(ProjectTotal(w, ps))
  {
    var y := PlacementOf(ps[i]);
    var v := PlaceTotal(w, y);
    PlaceMonotone(w, x, y);
    ProjectFirst(w, ps, i);
    PlaceAtMeaning(w.placements, y);
    forall p | p in ps && p.workspace == v.id
      ensures Grows(v, PlacementOf(p))
    {
      assert Grows(w, PlacementOf(p));
      var j :| 0 <= j < |ps| && ps[j] == p;
      if p.node == y.node {
        assert SameTarget(ps[j], ps[i]);
      }
    }
    ProjectionGrows(v, ps);
  }

  /** Cancelling an operation leaves a projection no heavier. */
  lemma CancelShrinksProjection(w: Workspace, ps: seq<Pending>, i: nat)
    requires Sorted(w.placements) && OwnersAgree(ps) && NoneShrinks(w, ps) && i < |ps|
    ensures WorkspaceBytes(ProjectTotal(w, Without(ps, i))) <= WorkspaceBytes(ProjectTotal(w, ps))
  {
    var qs := Without(ps, i);
    if ps[i].workspace == w.id {
      ProjectLast(w, ps, i);
      ProjectedGrows(w, ps, i);
      AgreeWithout(ps, i);
      ProjectionHolds(w, qs);
      PlaceGrows(ProjectTotal(w, qs), PlacementOf(ps[i]));
    } else {
      WithoutContent(ps, i);
      AgreeWithout(ps, i);
      forall y
        ensures Projected(w, ps, y) <==> Projected(w, qs, y)
      {
      }
      ProjectionDependsOnContent(w, ps, qs);
    }
  }

  /** Completing an operation, with an owner no heavier than projected, leaves a
      projection of the others no heavier. */
  lemma CompletionShrinksProjection(w: Workspace, ps: seq<Pending>, i: nat, x: Placement)
    requires Sorted(w.placements) && OwnersAgree(ps) && i < |ps| && ps[i].workspace == w.id
    requires x.node == ps[i].node && PlacementBytes(x) <= PlacementBytes(PlacementOf(ps[i]))
    ensures WorkspaceBytes(ProjectTotal(PlaceTotal(w, x), Without(ps, i))) <= WorkspaceBytes(ProjectTotal(w, ps))
  {
    var qs := Without(ps, i);
    ProjectLast(w, ps, i);
    AgreeWithout(ps, i);
    if Targeted(w, qs, x.node) {
      TargetedAgain(w, ps, i, x);
    } else {
      LateArrival(w, qs, x);
      ProjectionHolds(w, qs);
      PlaceMonotone(ProjectTotal(w, qs), x, PlacementOf(ps[i]));
    }
  }

  /** An alias still pending overwrites what was placed. */
  lemma TargetedAgain(w: Workspace, ps: seq<Pending>, i: nat, x: Placement)
    requires Sorted(w.placements) && OwnersAgree(ps) && i < |ps| && ps[i].workspace == w.id && x.node == ps[i].node
    requires Targeted(w, Without(ps, i), x.node)
    ensures ProjectTotal(PlaceTotal(w, x), Without(ps, i)) == ProjectTotal(w, ps)
  {
    var qs := Without(ps, i);
    var v := PlaceTotal(w, x);
    AgreeWithout(ps, i);
    PlaceAtMeaning(w.placements, x);
    WithoutContent(ps, i);
    var q :| q in qs && Targets(w, q, x.node);
    OneTargetOnePlacement(ps, q, ps[i]);
    forall y
      ensures Holds(w, ps, y) <==> Holds(v, qs, y)
    {
      OverwrittenHolds(w, ps, i, q, x, y);
    }
    SameContentSameProjection(w, ps, v, qs);
  }

  lemma OverwrittenHolds(w: Workspace, ps: seq<Pending>, i: nat, q: Pending, x: Placement, y: Placement)
    requires Sorted(w.placements) && i < |ps| && ps[i].workspace == w.id && x.node == ps[i].node
    requires q in Without(ps, i) && Targets(w, q, x.node) && PlacementOf(q) == PlacementOf(ps[i])
    ensures Holds(w, ps, y) <==> Holds(PlaceTotal(w, x), Without(ps, i), y)
  {
    var qs := Without(ps, i);
    var v := PlaceTotal(w, x);
    PlaceAtMeaning(w.placements, x);
    WithoutContent(ps, i);
    assert Projected(w, ps, y) <==> Projected(v, qs, y);
    assert Targeted(w, ps, y.node) <==> Targeted(v, qs, y.node);
    if y.node == x.node {
      assert Targeted(v, qs, y.node);
    }
  }

  /** With no other operation on its Node, x commutes with the projection. */
  lemma LateArrival(w: Workspace, qs: seq<Pending>, x: Placement)
    requires Sorted(w.placements) && OwnersAgree(qs) && !Targeted(w, qs, x.node)
    ensures ProjectTotal(PlaceTotal(w, x), qs) == PlaceTotal(ProjectTotal(w, qs), x)
  {
    var v := PlaceTotal(w, x);
    PlaceAtMeaning(w.placements, x);
    ProjectionHolds(w, qs);
    ProjectionHolds(v, qs);
    var rest := ProjectTotal(w, qs);
    PlaceAtMeaning(rest.placements, x);
    forall y
      ensures Holds(v, qs, y) <==> y == x || (Holds(w, qs, y) && y.node != x.node)
    {
      assert Projected(w, qs, y) <==> Projected(v, qs, y);
      assert Targeted(w, qs, y.node) <==> Targeted(v, qs, y.node);
      if Projected(w, qs, y) {
        var q :| q in qs && q.workspace == w.id && y == PlacementOf(q);
        assert Targets(w, q, y.node);
      }
    }
    SortedExtensional(ProjectTotal(v, qs).placements, PlaceAt(rest.placements, x));
    HasNodeMeaning(w.placements, x.node);
    HasNodeMeaning(rest.placements, x.node);
    NodeUntouched(w, qs, x.node);
  }

  lemma NodeUntouched(w: Workspace, qs: seq<Pending>, node: Id)
    requires Sorted(w.placements) && OwnersAgree(qs) && !Targeted(w, qs, node)
    ensures HasNode(w.placements, node) <==> HasNode(ProjectTotal(w, qs).placements, node)
  {
    ProjectionHolds(w, qs);
    HasNodeMeaning(w.placements, node);
    HasNodeMeaning(ProjectTotal(w, qs).placements, node);
    TargetedMeaning(w, qs, node);
    var rest := ProjectTotal(w, qs);
    if HasNode(w.placements, node) {
      var y :| y in w.placements && y.node == node;
      assert Holds(w, qs, y);
    }
    if HasNode(rest.placements, node) {
      var y :| y in rest.placements && y.node == node;
      assert Holds(w, qs, y);
    }
  }
}
