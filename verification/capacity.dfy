/** Capacity reserved at preparation is enough at completion. */
module Capacity {
  import opened Basics
  import opened StoreTypes
  import opened Placements
  import opened StoreOps
  import opened StoreInvariant
  import opened Eviction
  import opened Projection
  import opened StoreSteps

  predicate Covers(p: Pending, w: Workspace, ps: seq<Pending>) {
    p.reservation >= 2 * p.requestBytes + COMPLETION_RESERVATION_OVERHEAD + 2 * WorkspaceBytes(ProjectTotal(w, ps))
  }

  /** Each reservation covers twice its request, twice its Workspace with every
      prepared operation completed, and the fixed overhead. */
  predicate Covered(ws: seq<Workspace>, ps: seq<Pending>) {
    forall k, i :: 0 <= k < |ws| && 0 <= i < |ps| && ps[i].workspace == ws[k].id ==> Covers(ps[i], ws[k], ps)
  }

  predicate NothingShrinks(ws: seq<Workspace>, ps: seq<Pending>) {
    forall k :: 0 <= k < |ws| ==> NoneShrinks(ws[k], ps)
  }

  /** Enough for every prepared operation to be recorded, whatever completes first; more
      than is needed for each to be recorded next. */
  predicate Ready(ws: seq<Workspace>, ps: seq<Pending>) {
    Covered(ws, ps) && NothingShrinks(ws, ps)
  }

  /** What the capacity argument needs of a coherent store. */
  predicate Shaped(ws: seq<Workspace>, ps: seq<Pending>) {
    && IdsDistinct(ws) && PlacementsSorted(ws) && OwnersAgree(ps)
    && forall i :: 0 <= i < |ps| ==> Known(ws, ps[i].workspace)
  }

  lemma CoherentIsShaped(s: State)
    requires IsCoherent(s)
    ensures Shaped(s.workspaces, s.pendings)
  {
  }

  // ---------- preparing ----------

  lemma ReserveReveals(ps: seq<Pending>, w: Workspace, p: Pending)
    requires Reserve(ps, w, p).Success? && p.workspace == w.id
    ensures var qs := Reserve(ps, w, p).value;
            var before, after := ProjectTotal(w, ps), PlaceTotal(ProjectTotal(w, ps), PlacementOf(p));
            && ProjectTotal(w, qs) == after
            && qs == Grow(ps, w.id, Growth(before, after)) + [qs[|ps|]]
            && qs[|ps|] == p.(reservation := 2 * p.requestBytes + 2 * WorkspaceBytes(after)
                                             + COMPLETION_RESERVATION_OVERHEAD)
  {
    ProjectIsTotal(w, ps);
    ReserveMeaning(ps, w, p);
    var qs := Reserve(ps, w, p).value;
    ProjectionIgnoresReservations(w, ps, qs[..|ps|]);
  }

  lemma OtherProjectionsUnmoved(v: Workspace, ps: seq<Pending>, w: Workspace, p: Pending)
    requires Reserve(ps, w, p).Success? && p.workspace == w.id && v.id != w.id
    ensures ProjectTotal(v, Reserve(ps, w, p).value) == ProjectTotal(v, ps)
  {
    ReserveMeaning(ps, w, p);
    ProjectionIgnoresReservations(v, ps, Reserve(ps, w, p).value[..|ps|]);
  }

  /** Growing the other reservations keeps every one of them sufficient. */
  lemma ReserveCovers(ws: seq<Workspace>, ps: seq<Pending>, k: nat, p: Pending)
    requires IdsDistinct(ws) && Covered(ws, ps) && k < |ws| && p.workspace == ws[k].id
    requires Reserve(ps, ws[k], p).Success?
    ensures Covered(ws, Reserve(ps, ws[k], p).value)
  {
    var w := ws[k];
    var qs := Reserve(ps, w, p).value;
    ReserveReveals(ps, w, p);
    forall n, i | 0 <= n < |ws| && 0 <= i < |qs| && qs[i].workspace == ws[n].id
      ensures Covers(qs[i], ws[n], qs)
    {
      if i < |ps| {
        assert Covers(ps[i], ws[n], ps);
      }
      if n != k {
        OtherProjectionsUnmoved(ws[n], ps, w, p);
      }
    }
  }

  /** A projection fails exactly when the revisions it needs run out. */
  lemma {:induction false} ProjectFailsIff(w: Workspace, ps: seq<Pending>)
    requires w.revision <= U64_MAX
    ensures Project(w, ps)
            == if ProjectTotal(w, ps).revision > U64_MAX then Failure(RevisionExhausted)
               else Success(ProjectTotal(w, ps))
    ensures ProjectTotal(w, ps).revision >= w.revision
  {
    hide PlaceAt;
    if ps != [] {
      ProjectFailsIff(w, ps[..|ps| - 1]);
    }
  }

  /** What p will leave at most: its owner's record with the longest revision there is. */
  function Heaviest(p: Pending): Placement {
    Placement(p.node, p.owner, Some(p.ownerName), U64_MAX, p.cwd, Active)
  }

  /** The reservation to the byte: the new operation holds room for twice its request, twice its
      Workspace with everything prepared there done, and 64 KiB; every other operation on that
      Workspace holds room for twice what the new placement adds; and it fails exactly when
      revisions run out or a reservation would pass 768 KiB. */
  lemma ReserveIsExact(ps: seq<Pending>, w: Workspace, p: Pending)
    requires Project(w, ps).Success? && p.workspace == w.id
    ensures var v := Project(w, ps).value;
            var after := PlaceTotal(v, Heaviest(p));
            var added := if WorkspaceBytes(after) > WorkspaceBytes(v)
                         then WorkspaceBytes(after) - WorkspaceBytes(v) else 0;
            var own := 2 * p.requestBytes + 2 * WorkspaceBytes(after) + 65_536;
            var r := Reserve(ps, w, p);
            && (r == Failure(RevisionExhausted) <==> !HasNode(v.placements, p.node) && v.revision >= U64_MAX)
            && (r.Failure? && r.error != RevisionExhausted ==>
                  && r == Failure(CapacityExceeded)
                  && (own > 786_432
                      || (added > 0 && exists q :: q in ps && q.workspace == w.id
                                                   && q.reservation + 2 * added > 786_432)))
            && (r.Success? ==>
                  && own <= 786_432 && |r.value| == |ps| + 1 && r.value[|ps|] == p.(reservation := own)
                  && forall i :: 0 <= i < |ps| ==>
                       if ps[i].workspace != w.id then r.value[i] == ps[i]
                       else
                         && r.value[i] == ps[i].(reservation := ps[i].reservation + 2 * added)
                         && (added > 0 ==> ps[i].reservation + 2 * added <= 786_432))
  {
    hide WorkspaceBytes, PlaceTotal, Project;
    assert PlacementOf(p) == Heaviest(p);
    assert forall i :: 0 <= i < |ps| ==> ps[i] in ps;
  }

  /** `saturating_sub` hides a loss exactly when the new operation is lighter than
      the placement it will overwrite. */
  lemma SaturationIsShrinking(w: Workspace, ps: seq<Pending>, p: Pending)
    requires Sorted(w.placements) && OwnersAgree(ps + [p]) && NoneShrinks(w, ps) && p.workspace == w.id
    ensures WorkspaceBytes(PlaceTotal(ProjectTotal(w, ps), PlacementOf(p))) < WorkspaceBytes(ProjectTotal(w, ps))
            <==> !Grows(w, PlacementOf(p))
  {
    var before, x := ProjectTotal(w, ps), PlacementOf(p);
    var qs := ps + [p];
    assert qs[..|ps|] == ps;
    forall i, j | 0 <= i < |ps| && 0 <= j < |ps| && SameTarget(ps[i], ps[j])
      ensures SameOwner(ps[i], ps[j])
    {
      assert SameOwner(qs[i], qs[j]);
    }
    ProjectionHolds(w, ps);
    PlaceGrows(before, x);
    if Grows(w, x) {
      assert NoneShrinks(w, qs);
      ProjectedGrows(w, qs, |ps|);
    } else {
      var l :| l in w.placements && l.node == x.node && PlacementBytes(l) > PlacementBytes(x);
      if Targeted(w, ps, x.node) {
        var q :| q in ps && Targets(w, q, x.node);
        OneTargetOnePlacement(qs, q, p);
        assert Grows(w, PlacementOf(q));
      } else {
        assert Holds(w, ps, l);
      }
    }
  }

  lemma ShrinksLater(ws: seq<Workspace>, ps: seq<Pending>, k: nat, p: Pending)
    requires IdsDistinct(ws) && NothingShrinks(ws, ps) && k < |ws| && p.workspace == ws[k].id
    requires Reserve(ps, ws[k], p).Success?
    ensures NothingShrinks(ws, Reserve(ps, ws[k], p).value) <==> Grows(ws[k], PlacementOf(p))
  {
    var qs := Reserve(ps, ws[k], p).value;
    ReserveMeaning(ps, ws[k], p);
    assert qs[|ps|] in qs && PlacementOf(qs[|ps|]) == PlacementOf(p);
    if Grows(ws[k], PlacementOf(p)) {
      forall n, q | 0 <= n < |ws| && q in qs && q.workspace == ws[n].id
        ensures Grows(ws[n], PlacementOf(q))
      {
        var i :| 0 <= i < |qs| && qs[i] == q;
        if i < |ps| {
          assert ps[i] in ps && PlacementOf(ps[i]) == PlacementOf(q);
          assert NoneShrinks(ws[n], ps);
        }
      }
    } else {
      assert !NoneShrinks(ws[k], qs);
    }
  }

  lemma ReserveKeepsReadyIff(ws: seq<Workspace>, ps: seq<Pending>, k: nat, p: Pending)
    requires IdsDistinct(ws) && Ready(ws, ps) && k < |ws| && p.workspace == ws[k].id
    requires Reserve(ps, ws[k], p).Success?
    ensures Ready(ws, Reserve(ps, ws[k], p).value) <==> Grows(ws[k], PlacementOf(p))
  {
    ReserveCovers(ws, ps, k, p);
    ShrinksLater(ws, ps, k, p);
  }

  /** From a ready state a new operation leaves a ready state if and only if it is no
      lighter than the placement it will overwrite: what readiness is, not when it is needed. */
  lemma PrepareKeepsReadyIff(s: State, r: ResourceRequest, attempt: bool)
    requires IdsDistinct(s.workspaces) && Ready(s.workspaces, s.pendings)
    requires !IsCompleted(s.completed, r.operation) && !IsPending(s.pendings, r.operation)
    requires PrepareResource(s, r, attempt).Success?
    ensures var s' := PrepareResource(s, r, attempt).value.0;
            var w := s.workspaces[WorkspaceIndex(s.workspaces, r.workspace)];
            Ready(s'.workspaces, s'.pendings) <==> Grows(w, PlacementOf(NewPending(s.pendings, w, r, attempt)))
  {
    NewResourceReveals(s, r, attempt);
    var k := WorkspaceIndex(s.workspaces, r.workspace);
    ReserveKeepsReadyIff(s.workspaces, s.pendings, k, NewPending(s.pendings, s.workspaces[k], r, attempt));
  }

  lemma AliasNeverShrinks(w: Workspace, ps: seq<Pending>, e: nat, r: ShellRequest)
    requires NoneShrinks(w, ps) && e < |ps| && ps[e].workspace == w.id
    ensures Grows(w, PlacementOf(NewAlias(ps[e], r)))
  {
    assert ps[e] in ps && PlacementOf(NewAlias(ps[e], r)) == PlacementOf(ps[e]);
  }

  lemma AliasKeepsReady(s: State, k: nat, e: nat, r: ShellRequest)
    requires IdsDistinct(s.workspaces) && Ready(s.workspaces, s.pendings) && k < |s.workspaces| && e < |s.pendings|
    requires s.pendings[e].workspace == s.workspaces[k].id
    requires Reserve(s.pendings, s.workspaces[k], NewAlias(s.pendings[e], r)).Success?
    ensures Ready(s.workspaces, Reserve(s.pendings, s.workspaces[k], NewAlias(s.pendings[e], r)).value)
  {
    assert NoneShrinks(s.workspaces[k], s.pendings);
    AliasNeverShrinks(s.workspaces[k], s.pendings, e, r);
    ReserveKeepsReadyIff(s.workspaces, s.pendings, k, NewAlias(s.pendings[e], r));
  }

  lemma CreationKeepsReady(s: State, r: ShellRequest)
    requires Shaped(s.workspaces, s.pendings) && Ready(s.workspaces, s.pendings) && !Known(s.workspaces, r.workspace)
    requires Reserve(s.pendings, NewWorkspace(r.workspace, r.name), NewCreation(r)).Success?
    ensures Ready(s.workspaces + [NewWorkspace(r.workspace, r.name)],
                  Reserve(s.pendings, NewWorkspace(r.workspace, r.name), NewCreation(r)).value)
  {
    var w := NewWorkspace(r.workspace, r.name);
    NewWorkspaceKeepsReady(s.workspaces, s.pendings, w);
    ReserveKeepsReadyIff(s.workspaces + [w], s.pendings, |s.workspaces|, NewCreation(r));
  }

  lemma ShellKeepsReady(s: State, r: ShellRequest)
    requires Shaped(s.workspaces, s.pendings) && Ready(s.workspaces, s.pendings)
    requires PrepareWorkspaceShell(s, r).Success?
    ensures var s' := PrepareWorkspaceShell(s, r).value.0; Ready(s'.workspaces, s'.pendings)
  {
    ShellReveals(s, r);
    var n := NameIndex(s.workspaces, r.name);
    var ps := PrepareWorkspaceShell(s, r).value.0.pendings;
    if ps != s.pendings {
      if n < |s.workspaces| {
        AliasKeepsReady(s, n, AliasIndex(s.pendings, s.workspaces[n].id, r.semantic), r);
      } else {
        CreationKeepsReady(s, r);
      }
    }
  }

  lemma NewWorkspaceKeepsReady(ws: seq<Workspace>, ps: seq<Pending>, w: Workspace)
    requires Shaped(ws, ps) && Ready(ws, ps) && !Known(ws, w.id)
    ensures Ready(ws + [w], ps) && IdsDistinct(ws + [w])
  {
    var vs := ws + [w];
    assert forall i :: 0 <= i < |ps| ==> ps[i].workspace != w.id;
    forall k, i | 0 <= k < |vs| && 0 <= i < |ps| && ps[i].workspace == vs[k].id
      ensures Covers(ps[i], vs[k], ps)
    {
      assert Covers(ps[i], ws[k], ps);
    }
    forall k | 0 <= k < |vs|
      ensures NoneShrinks(vs[k], ps)
    {
      if k < |ws| {
        assert NoneShrinks(ws[k], ps);
      } else {
        UntargetedNoneShrinks(w, ps);
      }
    }
  }

  lemma UntargetedNoneShrinks(w: Workspace, ps: seq<Pending>)
    requires forall i :: 0 <= i < |ps| ==> ps[i].workspace != w.id
    ensures NoneShrinks(w, ps)
  {
  }

  // ---------- other edits ----------

  /** Nothing moved but, possibly, reservations upwards. */
  lemma ReidentifiedReady(ws: seq<Workspace>, ps: seq<Pending>, qs: seq<Pending>)
    requires Ready(ws, ps) && SameIdentities(ps, qs)
    requires forall i :: 0 <= i < |ps| ==> qs[i].reservation >= ps[i].reservation
    ensures Ready(ws, qs)
  {
    forall k, i | 0 <= k < |ws| && 0 <= i < |qs| && qs[i].workspace == ws[k].id
      ensures Covers(qs[i], ws[k], qs)
    {
      assert Covers(ps[i], ws[k], ps);
      ProjectionIgnoresReservations(ws[k], ps, qs);
    }
    forall k, q | 0 <= k < |ws| && q in qs && q.workspace == ws[k].id
      ensures Grows(ws[k], PlacementOf(q))
    {
      var i :| 0 <= i < |qs| && qs[i] == q;
      assert ps[i] in ps && PlacementOf(ps[i]) == PlacementOf(q);
      assert NoneShrinks(ws[k], ps);
    }
  }

  lemma WithoutReady(ws: seq<Workspace>, ps: seq<Pending>, i: nat)
    requires PlacementsSorted(ws) && OwnersAgree(ps) && Ready(ws, ps) && i < |ps|
    ensures Ready(ws, Without(ps, i))
  {
    var qs := Without(ps, i);
    WithoutContent(ps, i);
    forall k, j | 0 <= k < |ws| && 0 <= j < |qs| && qs[j].workspace == ws[k].id
      ensures Covers(qs[j], ws[k], qs)
    {
      assert Covers(ps[if j < i then j else j + 1], ws[k], ps);
      assert NoneShrinks(ws[k], ps);
      CancelShrinksProjection(ws[k], ps, i);
    }
    forall k | 0 <= k < |ws|
      ensures NoneShrinks(ws[k], qs)
    {
      assert NoneShrinks(ws[k], ps);
    }
  }

  lemma WithoutWorkspaceReady(ws: seq<Workspace>, ps: seq<Pending>, k: nat)
    requires Ready(ws, ps) && k < |ws|
    ensures Ready(Without(ws, k), ps)
  {
    var vs := Without(ws, k);
    forall n, i | 0 <= n < |vs| && 0 <= i < |ps| && ps[i].workspace == vs[n].id
      ensures Covers(ps[i], vs[n], ps)
    {
      assert Covers(ps[i], ws[if n < k then n else n + 1], ps);
    }
    forall n | 0 <= n < |vs|
      ensures NoneShrinks(vs[n], ps)
    {
      assert NoneShrinks(ws[if n < k then n else n + 1], ps);
    }
  }

  /** A Workspace without prepared resources may change at will. */
  lemma UnusedUpdateReady(ws: seq<Workspace>, ps: seq<Pending>, k: nat, w: Workspace)
    requires Ready(ws, ps) && k < |ws| && w.id == ws[k].id
    requires forall i :: 0 <= i < |ps| ==> ps[i].workspace != w.id
    ensures Ready(ws[k := w], ps)
  {
    var vs := ws[k := w];
    forall n, i | 0 <= n < |vs| && 0 <= i < |ps| && ps[i].workspace == vs[n].id
      ensures Covers(ps[i], vs[n], ps)
    {
      assert Covers(ps[i], ws[n], ps);
    }
    UntargetedNoneShrinks(w, ps);
    forall n | 0 <= n < |vs|
      ensures NoneShrinks(vs[n], ps)
    {
      assert n != k ==> NoneShrinks(ws[n], ps);
    }
  }

  // ---------- completing ----------

  lemma OwnerNoHeavier(p: Pending, owner: Owner)
    requires OwnerMatches(p, owner)
    ensures PlacementBytes(OwnerPlacement(p.node, owner)) <= PlacementBytes(PlacementOf(p))
  {
    DigitsGrow(owner.revision, U64_MAX);
  }

  lemma PlacedNoneShrinks(w: Workspace, ps: seq<Pending>, i: nat, x: Placement)
    requires Sorted(w.placements) && OwnersAgree(ps) && NoneShrinks(w, ps) && i < |ps| && ps[i].workspace == w.id
    requires x.node == ps[i].node && PlacementBytes(x) <= PlacementBytes(PlacementOf(ps[i]))
    ensures NoneShrinks(PlaceTotal(w, x), ps)
  {
    PlaceAtMeaning(w.placements, x);
    forall p | p in ps && p.workspace == w.id
      ensures Grows(PlaceTotal(w, x), PlacementOf(p))
    {
      assert Grows(w, PlacementOf(p));
      if p.node == x.node {
        OneTargetOnePlacement(ps, p, ps[i]);
      }
    }
  }

  lemma SettledReady(ws: seq<Workspace>, ps: seq<Pending>, k: nat, i: nat, x: Placement)
    requires Shaped(ws, ps) && Ready(ws, ps) && k < |ws| && i < |ps| && ps[i].workspace == ws[k].id
    requires x.node == ps[i].node && PlacementBytes(x) <= PlacementBytes(PlacementOf(ps[i]))
    ensures Ready(ws[k := PlaceTotal(ws[k], x)], Without(ps, i))
  {
    WithoutReady(ws, ps, i);
    SettledCovered(ws, ps, k, i, x);
    var w, qs := ws[k], Without(ps, i);
    var vs := ws[k := PlaceTotal(w, x)];
    assert NoneShrinks(w, ps);
    PlacedNoneShrinks(w, ps, i, x);
    WithoutContent(ps, i);
    forall n | 0 <= n < |vs|
      ensures NoneShrinks(vs[n], qs)
    {
      assert n != k ==> NoneShrinks(ws[n], qs);
    }
  }

  lemma SettledCovered(ws: seq<Workspace>, ps: seq<Pending>, k: nat, i: nat, x: Placement)
    requires k < |ws| && i < |ps| && ps[i].workspace == ws[k].id
    requires Sorted(ws[k].placements) && OwnersAgree(ps) && Covered(ws, ps) && Covered(ws, Without(ps, i))
    requires x.node == ps[i].node && PlacementBytes(x) <= PlacementBytes(PlacementOf(ps[i]))
    ensures Covered(ws[k := PlaceTotal(ws[k], x)], Without(ps, i))
  {
    var w, qs := ws[k], Without(ps, i);
    var vs := ws[k := PlaceTotal(w, x)];
    CompletionShrinksProjection(w, ps, i, x);
    forall n, j | 0 <= n < |vs| && 0 <= j < |qs| && qs[j].workspace == vs[n].id
      ensures Covers(qs[j], vs[n], qs)
    {
      if n != k {
        assert Covers(qs[j], ws[n], qs);
      } else {
        var m := if j < i then j else j + 1;
        assert qs[j] == ps[m];
        assert Covers(ps[m], w, ps);
      }
    }
  }

  const RECORD_OVERHEAD: nat := 371

  /** The owner's result fits what the request reserved for it. */
  predicate ResultFits(p: Pending, resource: Resource) {
    ResourceBytes(resource) + RECORD_OVERHEAD <= 2 * p.requestBytes + COMPLETION_RESERVATION_OVERHEAD
  }

  function CompletedState(s: State, i: nat, owner: Owner, resource: Resource): State
    requires i < |s.pendings| && WorkspaceIndex(s.workspaces, s.pendings[i].workspace) < |s.workspaces|
  {
    var p := s.pendings[i];
    var k := WorkspaceIndex(s.workspaces, p.workspace);
    var v := PlaceTotal(s.workspaces[k], OwnerPlacement(p.node, owner));
    Settled(s, i, k, v).(completed := s.completed + [CompletionRecord(p, v, resource)])
  }

  lemma SettledBytes(s: State, i: nat, k: nat, v: Workspace, c: Completed)
    requires i < |s.pendings| && k < |s.workspaces|
    ensures StoreBytes(Settled(s, i, k, v).(completed := s.completed + [c])) + WorkspaceBytes(s.workspaces[k])
              + PendingBytes(s.pendings[i])
            == StoreBytes(s) + WorkspaceBytes(v) + CompletedBytes(c)
  {
    SumByUpdate(s.workspaces, k, v, WorkspaceBytes);
    SumByWithout(s.pendings, i, PendingBytes);
    SumByAppend(s.completed, c, CompletedBytes);
  }

  /** In a ready state a completion record fits its reservation, and the store
      with it, before any eviction, is no heavier than the store was. */
  lemma CompletionFits(s: State, i: nat, owner: Owner, resource: Resource)
    requires Shaped(s.workspaces, s.pendings) && Ready(s.workspaces, s.pendings) && i < |s.pendings|
    requires OwnerMatches(s.pendings[i], owner) && ResultFits(s.pendings[i], resource)
    ensures var p := s.pendings[i];
            var k := WorkspaceIndex(s.workspaces, p.workspace);
            && k < |s.workspaces|
            && CompletedBytes(CompletionRecord(p, PlaceTotal(s.workspaces[k], OwnerPlacement(p.node, owner)), resource))
               <= p.reservation
            && StoreBytes(CompletedState(s, i, owner, resource)) <= StoreBytes(s)
  {
    var ps, p := s.pendings, s.pendings[i];
    assert Known(s.workspaces, p.workspace);
    var k := WorkspaceIndex(s.workspaces, p.workspace);
    var w := s.workspaces[k];
    var v := PlaceTotal(w, OwnerPlacement(p.node, owner));
    var c := CompletionRecord(p, v, resource);
    OwnerNoHeavier(p, owner);
    assert NoneShrinks(w, ps);
    CompletionWithinProjection(w, ps, i, OwnerPlacement(p.node, owner));
    assert Covers(p, w, ps);
    SettledBytes(s, i, k, v, c);
  }

  lemma EvictAtMostOne(t: State)
    requires |t.completed| <= MAX_COMPLETED_OPERATIONS + 1 && StoreBytes(t) <= MAX_STORE_BYTES
    ensures EvictCompleted(t)
            == Success(if |t.completed| <= MAX_COMPLETED_OPERATIONS then t else t.(completed := t.completed[1..]))
  {
    if |t.completed| > MAX_COMPLETED_OPERATIONS {
      assert StoreBytes(t.(completed := t.completed[1..])) <= StoreBytes(t);
    }
  }

  /** Hence a completion evicts nothing for size: at most the oldest record of a full ledger. */
  lemma CompletionEvictsNothingForSize(s: State, i: nat, owner: Owner, resource: Resource)
    requires IsCoherent(s) && IsValid(s) && StoreBytes(s) <= MAX_STORE_BYTES && Ready(s.workspaces, s.pendings)
    requires i < |s.pendings| && OwnerMatches(s.pendings[i], owner) && ResultFits(s.pendings[i], resource)
    ensures CompletePending(s, i, owner, resource) != Failure(ReservationExceeded)
    ensures CompletePending(s, i, owner, resource) != Failure(StoreFull)
    ensures CompletePending(s, i, owner, resource).Success? ==>
              var t := CompletedState(s, i, owner, resource);
              CompletePending(s, i, owner, resource).value.0
              == if |s.completed| < MAX_COMPLETED_OPERATIONS then t else t.(completed := t.completed[1..])
  {
    CoherentIsShaped(s);
    OperationsApart(s, i);
    CompletionFits(s, i, owner, resource);
    FittingCompletion(s, i, owner, resource);
  }

  lemma FittingCompletion(s: State, i: nat, owner: Owner, resource: Resource)
    requires i < |s.pendings| && !IsCompleted(s.completed, s.pendings[i].operation)
    requires |s.completed| <= MAX_COMPLETED_OPERATIONS && StoreBytes(s) <= MAX_STORE_BYTES
    requires var p := s.pendings[i];
             var k := WorkspaceIndex(s.workspaces, p.workspace);
             && k < |s.workspaces|
             && CompletedBytes(CompletionRecord(p, PlaceTotal(s.workspaces[k], OwnerPlacement(p.node, owner)),
                                                resource)) <= p.reservation
             && StoreBytes(CompletedState(s, i, owner, resource)) <= StoreBytes(s)
    ensures CompletePending(s, i, owner, resource) != Failure(ReservationExceeded)
    ensures CompletePending(s, i, owner, resource) != Failure(StoreFull)
    ensures CompletePending(s, i, owner, resource).Success? ==>
              var t := CompletedState(s, i, owner, resource);
              CompletePending(s, i, owner, resource).value.0
              == if |s.completed| < MAX_COMPLETED_OPERATIONS then t else t.(completed := t.completed[1..])
  {
    hide StoreBytes, CompletedBytes, EvictCompleted, PlaceTotal;
    EvictAtMostOne(CompletedState(s, i, owner, resource));
  }

  lemma OperationsApart(s: State, i: nat)
    requires IsValid(s) && i < |s.pendings|
    ensures !IsCompleted(s.completed, s.pendings[i].operation)
  {
    assert forall c :: 0 <= c < |s.completed| ==> ValidCompleted(s.completed[c], s.pendings);
  }

  // ---------- careful runs ----------

  /** What callers must respect: no operation lighter than the placement it will
      overwrite, no directory change completed on a Workspace with prepared resources. */
  predicate Careful(s: State, op: Op) {
    match op
    case OpPrepareResource(r, attempt) =>
      var k := WorkspaceIndex(s.workspaces, r.workspace);
      k < |s.workspaces| ==>
        Grows(s.workspaces[k], PlacementOf(NewPending(s.pendings, s.workspaces[k], r, attempt)))
    case OpCompleteCwd(r, owner) =>
      forall i :: 0 <= i < |s.pendings| ==> s.pendings[i].workspace != r.workspace
    case _ => true
  }

  lemma CancelKeepsReady(s: State, i: nat)
    requires Shaped(s.workspaces, s.pendings) && Ready(s.workspaces, s.pendings) && i < |s.pendings|
    ensures Ready(RemovePending(s, i).workspaces, RemovePending(s, i).pendings)
  {
    WithoutReady(s.workspaces, s.pendings, i);
    var k := WorkspaceIndex(s.workspaces, s.pendings[i].workspace);
    if k < |s.workspaces| {
      WithoutWorkspaceReady(s.workspaces, Without(s.pendings, i), k);
    }
  }

  lemma CompleteKeepsReady(s: State, i: nat, owner: Owner, resource: Resource)
    requires Shaped(s.workspaces, s.pendings) && Ready(s.workspaces, s.pendings) && i < |s.pendings|
    requires CompletePending(s, i, owner, resource).Success?
    ensures var s' := CompletePending(s, i, owner, resource).value.0; Ready(s'.workspaces, s'.pendings)
  {
    CompletionReveals(s, i, owner, resource);
    var p := s.pendings[i];
    OwnerNoHeavier(p, owner);
    SettledReady(s.workspaces, s.pendings, WorkspaceIndex(s.workspaces, p.workspace), i, OwnerPlacement(p.node, owner));
  }

  lemma RepeatedPrepareReady(s: State, r: ResourceRequest, attempt: bool)
    requires Ready(s.workspaces, s.pendings) && PrepareResource(s, r, attempt).Success?
    requires !IsCompleted(s.completed, r.operation) && IsPending(s.pendings, r.operation)
    ensures var s' := PrepareResource(s, r, attempt).value.0; Ready(s'.workspaces, s'.pendings)
  {
    RepeatedPrepareReveals(s, r, attempt);
    ReidentifiedReady(s.workspaces, s.pendings, PrepareResource(s, r, attempt).value.0.pendings);
  }

  lemma NewPrepareReady(s: State, r: ResourceRequest, attempt: bool)
    requires IdsDistinct(s.workspaces) && Ready(s.workspaces, s.pendings)
    requires PrepareResource(s, r, attempt).Success? && Careful(s, OpPrepareResource(r, attempt))
    requires !IsCompleted(s.completed, r.operation) && !IsPending(s.pendings, r.operation)
    ensures var s' := PrepareResource(s, r, attempt).value.0; Ready(s'.workspaces, s'.pendings)
  {
    NewResourceReveals(s, r, attempt);
    PrepareKeepsReadyIff(s, r, attempt);
  }

  lemma PrepareStepReady(s: State, r: ResourceRequest, attempt: bool)
    requires IdsDistinct(s.workspaces) && Ready(s.workspaces, s.pendings)
    requires PrepareResource(s, r, attempt).Success? && Careful(s, OpPrepareResource(r, attempt))
    ensures var s' := PrepareResource(s, r, attempt).value.0; Ready(s'.workspaces, s'.pendings)
  {
    if IsCompleted(s.completed, r.operation) {
      assert PrepareResource(s, r, attempt).value.0 == s;
    } else if IsPending(s.pendings, r.operation) {
      RepeatedPrepareReady(s, r, attempt);
    } else {
      NewPrepareReady(s, r, attempt);
    }
  }

  lemma MarkReady(s: State, operation: Id, fingerprint: Fingerprint)
    requires Ready(s.workspaces, s.pendings) && MarkOwnerAttempted(s, operation, fingerprint).Success?
    ensures var s' := MarkOwnerAttempted(s, operation, fingerprint).value.0; Ready(s'.workspaces, s'.pendings)
  {
    ReidentifiedReady(s.workspaces, s.pendings, MarkOwnerAttempted(s, operation, fingerprint).value.0.pendings);
  }

  lemma CompleteStepReady(s: State, operation: Id, fingerprint: Fingerprint, owner: Owner, resource: Resource)
    requires Shaped(s.workspaces, s.pendings) && Ready(s.workspaces, s.pendings)
    requires CompleteResource(s, operation, fingerprint, owner, resource).Success?
    ensures var s' := CompleteResource(s, operation, fingerprint, owner, resource).value.0;
            Ready(s'.workspaces, s'.pendings)
  {
    if IsPending(s.pendings, operation) {
      CompleteKeepsReady(s, PendingIndex(s.pendings, operation), owner, resource);
    }
  }

  lemma ResourceStepReady(s: State, op: Op)
    requires Shaped(s.workspaces, s.pendings) && Ready(s.workspaces, s.pendings)
    requires Attempt(s, op).Success? && Careful(s, op)
    requires op.OpPrepareResource? || op.OpPrepareShell? || op.OpComplete? || op.OpMark?
    ensures Ready(Attempt(s, op).value.workspaces, Attempt(s, op).value.pendings)
  {
    match op
    case OpPrepareResource(r, attempt) => PrepareStepReady(s, r, attempt);
    case OpPrepareShell(r) => ShellKeepsReady(s, r);
    case OpMark(o, f) => MarkReady(s, o, f);
    case OpComplete(o, f, owner, resource) => CompleteStepReady(s, o, f, owner, resource);
  }

  lemma CancelStepReady(s: State, op: Op)
    requires Shaped(s.workspaces, s.pendings) && Ready(s.workspaces, s.pendings)
    requires IsCancel(op) && Attempt(s, op).Success?
    ensures var s' := Attempt(s, op).value; Ready(s'.workspaces, s'.pendings)
  {
    if Attempt(s, op).value != s {
      CancelReveals(s, op);
      CancelKeepsReady(s, PendingIndex(s.pendings, op.operation));
    }
  }

  lemma CwdStepReady(s: State, op: Op)
    requires Ready(s.workspaces, s.pendings) && Attempt(s, op).Success? && Careful(s, op)
    requires op.OpPrepareCwd? || op.OpMarkCwd? || op.OpCancelCwd? || op.OpCompleteCwd?
    ensures Ready(Attempt(s, op).value.workspaces, Attempt(s, op).value.pendings)
  {
    hide Ready, PrepareDefaultCwd, CompleteDefaultCwd, CwdMoved;
    match op
    case OpPrepareCwd(r) => PrepareCwdReveals(s, r);
    case OpMarkCwd(r) =>
    case OpCancelCwd(r, only) =>
    case OpCompleteCwd(r, owner) =>
      CompleteCwdReveals(s, r, owner);
      var s' := CompleteDefaultCwd(s, r, owner).value.0;
      if s'.workspaces != s.workspaces {
        var k := WorkspaceIndex(s.workspaces, r.workspace);
        UnusedUpdateReady(s.workspaces, s.pendings, k, s'.workspaces[k]);
      }
  }

  lemma UnpendingFromHasPending(s: State, id: Id)
    requires !HasPending(s, id)
    ensures forall i :: 0 <= i < |s.pendings| ==> s.pendings[i].workspace != id
  {
    HasPendingMeaning(s, id);
  }

  lemma IdleUpdateReady(s: State, id: Id, w: Workspace)
    requires Ready(s.workspaces, s.pendings) && !HasPending(s, id) && Known(s.workspaces, id) && w.id == id
    ensures Ready(s.workspaces[WorkspaceIndex(s.workspaces, id) := w], s.pendings)
  {
    UnpendingFromHasPending(s, id);
    UnusedUpdateReady(s.workspaces, s.pendings, WorkspaceIndex(s.workspaces, id), w);
  }

  lemma AppendedReady(s: State, w: Workspace)
    requires Shaped(s.workspaces, s.pendings) && Ready(s.workspaces, s.pendings) && IdsDistinct(s.workspaces + [w])
    ensures Ready(s.workspaces + [w], s.pendings)
  {
    FreshIdUnknown(s.workspaces, w);
    NewWorkspaceKeepsReady(s.workspaces, s.pendings, w);
  }

  lemma ConfirmClosedReady(s: State, id: Id, node: Id, owner: Id)
    requires ClosingIdle(s.workspaces, s.pendings, s.pendingCwd) && Ready(s.workspaces, s.pendings)
    requires ConfirmClosed(s, id, node, owner).Success?
    ensures var s' := ConfirmClosed(s, id, node, owner).value.0; Ready(s'.workspaces, s'.pendings)
  {
    var k := WorkspaceIndex(s.workspaces, id);
    var after := ConfirmClosed(s, id, node, owner).value.1;
    assert Idle(id, s.pendings, s.pendingCwd);
    if after.Some? {
      UnusedUpdateReady(s.workspaces, s.pendings, k, after.value);
    } else {
      WithoutWorkspaceReady(s.workspaces, s.pendings, k);
    }
  }

  lemma GrowingStepReady(s: State, op: Op)
    requires Shaped(s.workspaces, s.pendings) && Ready(s.workspaces, s.pendings) && Attempt(s, op).Success?
    requires IdsDistinct(Attempt(s, op).value.workspaces) && (op.OpCreate? || op.OpAdopt? || op.OpInitialize?)
    ensures Ready(Attempt(s, op).value.workspaces, Attempt(s, op).value.pendings)
  {
    hide Ready, Shaped, IdsDistinct, ImportAll;
    match op
    case OpCreate(id, name) => AppendedReady(s, Create(s, id, name).value.1);
    case OpAdopt(id, node, owner, expected) => AppendedReady(s, Adopt(s, id, node, owner, expected).value.1);
    case OpInitialize(node, owners) =>
      if !s.migrated {
        ImportReady(s.workspaces, s.pendings, node, owners);
      }
  }

  lemma QuietStepReady(s: State, op: Op)
    requires Ready(s.workspaces, s.pendings) && Attempt(s, op).Success?
    requires op.OpLink? || op.OpRename? || op.OpBeginClose?
    ensures Ready(Attempt(s, op).value.workspaces, Attempt(s, op).value.pendings)
  {
    hide Ready, HasPending, SortByNode, CloseAll;
    match op
    case OpLink(w, e, node, owner, eo) => IdleUpdateReady(s, w, Link(s, w, e, node, owner, eo).value.1);
    case OpRename(w, e, name) => IdleUpdateReady(s, w, Rename(s, w, e, name).value.1);
    case OpBeginClose(w, e) => IdleUpdateReady(s, w, BeginClose(s, w, e).value.1);
  }

  lemma ClosingStepReady(s: State, op: Op)
    requires ClosingIdle(s.workspaces, s.pendings, s.pendingCwd) && Ready(s.workspaces, s.pendings)
    requires Attempt(s, op).Success? && (op.OpConfirmClosed? || op.OpConfirmEmpty?)
    ensures Ready(Attempt(s, op).value.workspaces, Attempt(s, op).value.pendings)
  {
    hide Ready, ClosingIdle, RetainOthers;
    match op
    case OpConfirmClosed(w, node, owner) => ConfirmClosedReady(s, w, node, owner);
    case OpConfirmEmpty(w) => WithoutWorkspaceReady(s.workspaces, s.pendings, WorkspaceIndex(s.workspaces, w));
  }

  lemma WorkspaceStepReady(s: State, op: Op)
    requires Shaped(s.workspaces, s.pendings) && Ready(s.workspaces, s.pendings) && Attempt(s, op).Success?
    requires ClosingIdle(s.workspaces, s.pendings, s.pendingCwd)
    requires IdsDistinct(Attempt(s, op).value.workspaces) && IsWorkspaceOp(op)
    ensures Ready(Attempt(s, op).value.workspaces, Attempt(s, op).value.pendings)
  {
    hide Ready, Shaped, ClosingIdle, IdsDistinct, Attempt;
    if op.OpCreate? || op.OpAdopt? || op.OpInitialize? {
      GrowingStepReady(s, op);
    } else if op.OpLink? || op.OpRename? || op.OpBeginClose? {
      QuietStepReady(s, op);
    } else {
      ClosingStepReady(s, op);
    }
  }

  lemma {:induction false} ImportReady(ws: seq<Workspace>, ps: seq<Pending>, node: Id, owners: seq<Owner>)
    requires Shaped(ws, ps) && Ready(ws, ps) && ImportAll(ws, node, owners).Success?
    requires IdsDistinct(ImportAll(ws, node, owners).value)
    ensures Ready(ImportAll(ws, node, owners).value, ps) && Shaped(ImportAll(ws, node, owners).value, ps)
  {
    if owners != [] {
      var init, owner := owners[..|owners| - 1], owners[|owners| - 1];
      var before := ImportAll(ws, node, init).value;
      var w := Workspace(owner.id, 1, owner.name, false, [OwnerPlacement(node, owner)]);
      var after := before + [w];
      assert forall i :: 0 <= i < |before| ==> after[i] == before[i];
      ImportReady(ws, ps, node, init);
      FreshIdUnknown(before, w);
      NewWorkspaceKeepsReady(before, ps, w);
      forall id | Known(before, id)
        ensures Known(after, id)
      {
        assert after[WorkspaceIndex(before, id)].id == id;
      }
    }
  }

  lemma CarefulStepKeepsReady(s: State, op: Op)
    requires IsCoherent(s) && Ready(s.workspaces, s.pendings) && Attempt(s, op).Success? && Careful(s, op)
    requires IdsDistinct(Attempt(s, op).value.workspaces)
    ensures Ready(Attempt(s, op).value.workspaces, Attempt(s, op).value.pendings)
  {
    hide Ready, IdsDistinct, Attempt, Careful;
    CoherentIsShaped(s);
    if IsWorkspaceOp(op) {
      WorkspaceStepReady(s, op);
    } else if IsCancel(op) {
      CancelStepReady(s, op);
    } else if op.OpPrepareCwd? || op.OpMarkCwd? || op.OpCancelCwd? || op.OpCompleteCwd? {
      CwdStepReady(s, op);
    } else {
      ResourceStepReady(s, op);
    }
  }

  lemma CommittedStaysReady(s: State, op: Op)
    requires IsCoherent(s) && Ready(s.workspaces, s.pendings) && Careful(s, op) && Step(s, op).Success?
    ensures Ready(Step(s, op).value.workspaces, Step(s, op).value.pendings)
  {
    hide Ready, Careful, IsCoherent, Attempt;
    CarefulStepKeepsReady(s, op);
  }

  predicate CarefulRun(ops: seq<Op>) {
    ops == [] || (CarefulRun(ops[..|ops| - 1]) && Careful(Run(EMPTY, ops[..|ops| - 1]), ops[|ops| - 1]))
  }

  /** Over every careful run from the empty store, every prepared operation stays recordable. */
  lemma {:induction false} CarefulRunsStayReady(ops: seq<Op>)
    requires CarefulRun(ops)
    ensures Ready(Run(EMPTY, ops).workspaces, Run(EMPTY, ops).pendings)
  {
    hide Step, IsCoherent, IsValid, Careful;
    if ops != [] {
      hide Ready;
      var init, op := ops[..|ops| - 1], ops[|ops| - 1];
      CarefulRunsStayReady(init);
      EveryRunIsSound(init);
      if Step(Run(EMPTY, init), op).Success? {
        CommittedStaysReady(Run(EMPTY, init), op);
      }
    }
  }
}
