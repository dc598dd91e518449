/** Exactly when a prepared resource operation can be completed. */
module Completion {
  import opened Basics
  import opened StoreTypes
  import opened Placements
  import opened StoreOps
  import opened StoreInvariant
  import opened Eviction
  import opened Projection
  import opened StoreSteps
  import opened Lifecycle
  import opened DefaultCwd
  import opened Capacity

  /** The Workspace may take one more placement, if it needs one. */
  predicate HasPlace(w: Workspace, node: Id) {
    HasNode(w.placements, node) || (w.revision < U64_MAX && |w.placements| < MAX_PLACEMENTS)
  }

  lemma PlacedIsValid(w: Workspace, x: Placement)
    requires ValidWorkspace(w) && Sorted(w.placements) && !w.closing && x.state == Active && HasPlace(w, x.node)
    ensures ValidWorkspace(PlaceTotal(w, x)) && PairsDistinctWithin(PlaceTotal(w, x).placements)
  {
    PlaceAtMeaning(w.placements, x);
  }

  lemma PlacedSharesNothing(ws: seq<Workspace>, k: nat, x: Placement, o: Workspace)
    requires k < |ws| && Sorted(ws[k].placements) && o in ws && o.id != ws[k].id
    requires !OwnerLinkedElsewhere(ws, ws[k].id, x.node, x.ownerId)
    ensures SharesPair(PlaceTotal(ws[k], x), o) ==> SharesPair(ws[k], o)
    ensures SharesPair(o, PlaceTotal(ws[k], x)) ==> SharesPair(o, ws[k])
  {
    PlaceAtMeaning(ws[k].placements, x);
    assert !PairIn(o.placements, x.node, x.ownerId);
  }

  lemma PlacedWorkspacesValid(ws: seq<Workspace>, k: nat, x: Placement)
    requires ValidWorkspaces(ws) && k < |ws| && Sorted(ws[k].placements) && !ws[k].closing
    requires x.state == Active && HasPlace(ws[k], x.node)
    requires !OwnerLinkedElsewhere(ws, ws[k].id, x.node, x.ownerId)
    ensures ValidWorkspaces(ws[k := PlaceTotal(ws[k], x)])
  {
    var vs := ws[k := PlaceTotal(ws[k], x)];
    PlacedIsValid(ws[k], x);
    forall i, j | 0 <= i < j < |vs|
      ensures !SharesPair(vs[i], vs[j])
    {
      assert !SharesPair(ws[i], ws[j]);
      if i == k {
        PlacedSharesNothing(ws, k, x, ws[j]);
      } else if j == k {
        PlacedSharesNothing(ws, k, x, ws[i]);
      }
    }
  }

  /** The completed ledger after recording c: the old one, less its oldest entry when full. */
  function Recorded(cs: seq<Completed>, c: Completed): seq<Completed> {
    if |cs| < MAX_COMPLETED_OPERATIONS then cs + [c] else (cs + [c])[1..]
  }

  lemma RecordedIds(cs: seq<Completed>, c: Completed, o: Id)
    ensures IsCompleted(Recorded(cs, c), o) ==> IsCompleted(cs, o) || o == c.operation
  {
    var rs := Recorded(cs, c);
    var i := CompletedIndex(rs, o);
    if i < |rs| && o != c.operation {
      var shift := |cs| + 1 - |rs|;
      assert rs[i] == (cs + [c])[i + shift];
      assert cs[i + shift].operation == o;
    }
  }

  lemma RecordedCompletionsValid(s: State, i: nat, c: Completed, ps: seq<Pending>)
    requires ValidCompletions(s) && |s.completed| <= MAX_COMPLETED_OPERATIONS
    requires forall o :: IsPending(ps, o) ==> IsPending(s.pendings, o)
    requires !IsCompleted(s.completed, c.operation) && ValidCompleted(c, ps)
    ensures var rs := Recorded(s.completed, c);
            && (forall j :: 0 <= j < |rs| ==> ValidCompleted(rs[j], ps))
            && CompletedDistinct(rs) && |rs| <= MAX_COMPLETED_OPERATIONS
  {
    var rs := Recorded(s.completed, c);
    var shift := |s.completed| + 1 - |rs|;
    forall j | 0 <= j < |rs|
      ensures ValidCompleted(rs[j], ps)
      ensures j < |rs| - 1 ==> rs[j] == s.completed[j + shift]
    {
      assert rs[j] == (s.completed + [c])[j + shift];
      if j < |rs| - 1 {
        assert ValidCompleted(s.completed[j + shift], s.pendings);
      }
    }
    assert rs[|rs| - 1] == c;
  }

  lemma WithoutKeepsPendings(s: State, i: nat, ws: seq<Workspace>)
    requires ValidPendings(s) && i < |s.pendings| && forall id :: Known(s.workspaces, id) ==> Known(ws, id)
    ensures var t := s.(workspaces := ws, pendings := Without(s.pendings, i)); ValidPendings(t)
    ensures forall o :: IsPending(Without(s.pendings, i), o) ==> IsPending(s.pendings, o)
    ensures !IsPending(Without(s.pendings, i), s.pendings[i].operation)
  {
    forall o
      ensures IsPending(Without(s.pendings, i), o) ==> IsPending(s.pendings, o)
    {
      PendingWithout(s.pendings, i, o);
    }
    PendingWithout(s.pendings, i, s.pendings[i].operation);
    var qs := Without(s.pendings, i);
    forall j | 0 <= j < |qs|
      ensures ValidPending(qs[j], ws)
    {
      assert ValidPending(s.pendings[if j < i then j else j + 1], s.workspaces);
    }
  }

  lemma CwdLedgersUndisturbed(s: State, t: State, o: Id)
    requires ValidPendingCwds(s) && ValidCompletedCwds(s) && IsPending(s.pendings, o)
    requires t.pendingCwd == s.pendingCwd && t.completedCwd == s.completedCwd
    requires forall id :: Known(s.workspaces, id) ==> Known(t.workspaces, id)
    requires forall p :: IsPending(t.pendings, p) ==> IsPending(s.pendings, p)
    requires forall c :: IsCompleted(t.completed, c) ==> IsCompleted(s.completed, c) || c == o
    ensures ValidPendingCwds(t) && ValidCompletedCwds(t)
  {
    forall j | 0 <= j < |t.pendingCwd|
      ensures ValidPendingCwd(t.pendingCwd[j], t)
    {
      assert ValidPendingCwd(s.pendingCwd[j], s);
    }
    forall j | 0 <= j < |t.completedCwd|
      ensures ValidCompletedCwd(t.completedCwd[j], t)
    {
      assert ValidCompletedCwd(s.completedCwd[j], s);
    }
  }

  /** The state after completing operation i with a record that fits. */
  function CompletedTo(s: State, i: nat, k: nat, v: Workspace, resource: Resource): State
    requires i < |s.pendings| && k < |s.workspaces|
  {
    Settled(s, i, k, v).(completed := Recorded(s.completed, CompletionRecord(s.pendings[i], v, resource)))
  }

  lemma CompletedIsValid(s: State, i: nat, k: nat, x: Placement, resource: Resource)
    requires IsValid(s) && i < |s.pendings| && k < |s.workspaces| && s.pendings[i].workspace == s.workspaces[k].id
    requires Sorted(s.workspaces[k].placements) && !s.workspaces[k].closing
    requires x.state == Active && HasPlace(s.workspaces[k], x.node)
    requires !OwnerLinkedElsewhere(s.workspaces, s.workspaces[k].id, x.node, x.ownerId)
    requires RecordsOwner(CompletionRecord(s.pendings[i], PlaceTotal(s.workspaces[k], x), resource))
    ensures IsValid(CompletedTo(s, i, k, PlaceTotal(s.workspaces[k], x), resource))
  {
    var v := PlaceTotal(s.workspaces[k], x);
    var c := CompletionRecord(s.pendings[i], v, resource);
    var t := CompletedTo(s, i, k, v, resource);
    KnownAfterUpdate(s.workspaces, k, v);
    PlacedWorkspacesValid(s.workspaces, k, x);
    PlacedIsValid(s.workspaces[k], x);
    WithoutKeepsPendings(s, i, t.workspaces);
    OperationsApart(s, i);
    RecordedCompletionsValid(s, i, c, t.pendings);
    forall o
      ensures IsCompleted(t.completed, o) ==> IsCompleted(s.completed, o) || o == c.operation
    {
      RecordedIds(s.completed, c, o);
    }
    CwdLedgersUndisturbed(s, t, c.operation);
  }

  /** What must still be true for operation i to complete: its owner Workspace was
      not linked elsewhere meanwhile, there is a place for it, and the owner's
      result names an owner Workspace placed here. */
  predicate Completable(s: State, i: nat, owner: Owner, resource: Resource)
    requires i < |s.pendings| && Known(s.workspaces, s.pendings[i].workspace)
  {
    var p := s.pendings[i];
    var w := s.workspaces[WorkspaceIndex(s.workspaces, p.workspace)];
    && !OwnerLinkedElsewhere(s.workspaces, p.workspace, p.node, owner.id)
    && HasPlace(w, p.node)
    && RecordsOwner(CompletionRecord(p, PlaceTotal(w, OwnerPlacement(p.node, owner)), resource))
  }

  /** What p's record must weigh for the completion to fit. */
  predicate FitsReservation(s: State, i: nat, owner: Owner, resource: Resource)
    requires i < |s.pendings| && Known(s.workspaces, s.pendings[i].workspace)
  {
    var p := s.pendings[i];
    var w := s.workspaces[WorkspaceIndex(s.workspaces, p.workspace)];
    CompletedBytes(CompletionRecord(p, PlaceTotal(w, OwnerPlacement(p.node, owner)), resource)) <= p.reservation
  }

  /** A pending operation always weighs more than the placement it will leave. */
  lemma PendingOutweighsPlacement(p: Pending, w: Workspace, owner: Owner)
    requires Sorted(w.placements) && OwnerMatches(p, owner)
    ensures WorkspaceBytes(PlaceTotal(w, OwnerPlacement(p.node, owner))) + p.reservation
            <= WorkspaceBytes(w) + PendingBytes(p)
  {
    PlaceBytes(w, OwnerPlacement(p.node, owner));
    NextDigits(w.revision);
    U64Digits(owner.revision);
  }

  /** A record that fits its reservation never makes the store heavier. */
  lemma FittingShrinksStore(s: State, i: nat, owner: Owner, resource: Resource)
    requires i < |s.pendings| && Known(s.workspaces, s.pendings[i].workspace)
    requires Sorted(s.workspaces[WorkspaceIndex(s.workspaces, s.pendings[i].workspace)].placements)
    requires OwnerMatches(s.pendings[i], owner) && FitsReservation(s, i, owner, resource)
    ensures StoreBytes(CompletedState(s, i, owner, resource)) <= StoreBytes(s)
  {
    hide WorkspaceBytes, PendingBytes, CompletedBytes, PlaceTotal, StoreBytes;
    var p := s.pendings[i];
    var k := WorkspaceIndex(s.workspaces, p.workspace);
    var v := PlaceTotal(s.workspaces[k], OwnerPlacement(p.node, owner));
    PendingOutweighsPlacement(p, s.workspaces[k], owner);
    SettledBytes(s, i, k, v, CompletionRecord(p, v, resource));
  }

  lemma CompletableAttempt(s: State, i: nat, owner: Owner, resource: Resource)
    requires Sound(s) && i < |s.pendings|
    requires Known(s.workspaces, s.pendings[i].workspace) && OwnerMatches(s.pendings[i], owner)
    requires Completable(s, i, owner, resource) && FitsReservation(s, i, owner, resource)
    ensures var p := s.pendings[i];
            var k := WorkspaceIndex(s.workspaces, p.workspace);
            CompletePending(s, i, owner, resource)
            == Success((CompletedTo(s, i, k, PlaceTotal(s.workspaces[k], OwnerPlacement(p.node, owner)), resource),
                        CompletionRecord(p, PlaceTotal(s.workspaces[k], OwnerPlacement(p.node, owner)), resource)))
  {
    hide CompletePending, StoreBytes, CompletedBytes, PlaceTotal, Completable;
    var p := s.pendings[i];
    var k := WorkspaceIndex(s.workspaces, p.workspace);
    OperationsApart(s, i);
    FittingShrinksStore(s, i, owner, resource);
    OwnerAlreadyPlaced(s.workspaces, s.pendings, k, i);
    FittingAttempt(s, i, owner, resource);
  }

  lemma FittingAttempt(s: State, i: nat, owner: Owner, resource: Resource)
    requires i < |s.pendings| && !IsCompleted(s.completed, s.pendings[i].operation)
    requires |s.completed| <= MAX_COMPLETED_OPERATIONS && StoreBytes(s) <= MAX_STORE_BYTES
    requires Known(s.workspaces, s.pendings[i].workspace) && OwnerMatches(s.pendings[i], owner)
    requires Completable(s, i, owner, resource) && FitsReservation(s, i, owner, resource)
    requires StoreBytes(CompletedState(s, i, owner, resource)) <= StoreBytes(s)
    requires var p := s.pendings[i];
             var w := s.workspaces[WorkspaceIndex(s.workspaces, p.workspace)];
             HasNode(w.placements, p.node) ==> w.placements[PlacementIndex(w.placements, p.node)].ownerId == p.owner
    ensures var p := s.pendings[i];
            var k := WorkspaceIndex(s.workspaces, p.workspace);
            CompletePending(s, i, owner, resource)
            == Success((CompletedTo(s, i, k, PlaceTotal(s.workspaces[k], OwnerPlacement(p.node, owner)), resource),
                        CompletionRecord(p, PlaceTotal(s.workspaces[k], OwnerPlacement(p.node, owner)), resource)))
  {
    hide StoreBytes, CompletedBytes, EvictCompleted, RecordsOwner, PlaceTotal;
    EvictAtMostOne(CompletedState(s, i, owner, resource));
  }

  lemma CompletedToBytes(s: State, i: nat, k: nat, v: Workspace, resource: Resource)
    requires i < |s.pendings| && k < |s.workspaces|
    ensures StoreBytes(CompletedTo(s, i, k, v, resource))
            <= StoreBytes(Settled(s, i, k, v)
                          .(completed := s.completed + [CompletionRecord(s.pendings[i], v, resource)]))
  {
  }

  lemma CompletableValid(s: State, i: nat, owner: Owner, resource: Resource)
    requires IsCoherent(s) && IsValid(s) && i < |s.pendings|
    requires OwnerMatches(s.pendings[i], owner)
    requires Known(s.workspaces, s.pendings[i].workspace) && Completable(s, i, owner, resource)
    ensures var k := WorkspaceIndex(s.workspaces, s.pendings[i].workspace);
            var v := PlaceTotal(s.workspaces[k], OwnerPlacement(s.pendings[i].node, owner));
            IsValid(CompletedTo(s, i, k, v, resource))
  {
    var k := WorkspaceIndex(s.workspaces, s.pendings[i].workspace);
    BusyPendingIsOpen(s, k, i);
    CompletedIsValid(s, i, k, OwnerPlacement(s.pendings[i].node, owner), resource);
  }

  lemma CompletableBytes(s: State, i: nat, owner: Owner, resource: Resource)
    requires IsCoherent(s) && StoreBytes(s) <= MAX_STORE_BYTES && i < |s.pendings|
    requires Known(s.workspaces, s.pendings[i].workspace) && OwnerMatches(s.pendings[i], owner)
    requires FitsReservation(s, i, owner, resource)
    ensures var k := WorkspaceIndex(s.workspaces, s.pendings[i].workspace);
            var v := PlaceTotal(s.workspaces[k], OwnerPlacement(s.pendings[i].node, owner));
            StoreBytes(CompletedTo(s, i, k, v, resource)) <= MAX_STORE_BYTES
  {
    hide StoreBytes, FitsReservation, PlaceTotal;
    var k := WorkspaceIndex(s.workspaces, s.pendings[i].workspace);
    FittingShrinksStore(s, i, owner, resource);
    CompletedToBytes(s, i, k, PlaceTotal(s.workspaces[k], OwnerPlacement(s.pendings[i].node, owner)), resource);
  }

  lemma CompletableCommits(s: State, i: nat, owner: Owner, resource: Resource)
    requires Sound(s) && i < |s.pendings|
    requires Known(s.workspaces, s.pendings[i].workspace) && OwnerMatches(s.pendings[i], owner)
    requires Completable(s, i, owner, resource) && FitsReservation(s, i, owner, resource)
    ensures Step(s, OpComplete(s.pendings[i].operation, s.pendings[i].fingerprint, owner, resource)).Success?
  {
    hide Step, CompletePending, StoreBytes, Completable, FitsReservation, PlaceTotal, IsCoherent;
    CompletableAttempt(s, i, owner, resource);
    CompletableValid(s, i, owner, resource);
    CompletableBytes(s, i, owner, resource);
    PendingAt(s, i);
    hide IsValid;
    CommitFrom(s, i, owner, resource, CompletePending(s, i, owner, resource).value.0);
  }

  lemma CommitFrom(s: State, i: nat, owner: Owner, resource: Resource, t: State)
    requires i < |s.pendings| && PendingIndex(s.pendings, s.pendings[i].operation) == i
    requires Kept(CompletePending(s, i, owner, resource)) == Success(t)
    requires IsValid(t) && StoreBytes(t) <= MAX_STORE_BYTES
    ensures Step(s, OpComplete(s.pendings[i].operation, s.pendings[i].fingerprint, owner, resource)) == Success(t)
  {
    hide Attempt, Step, CompletePending, IsValid, StoreBytes;
    AttemptFrom(s, i, owner, resource, t);
    ValidCommits(s, OpComplete(s.pendings[i].operation, s.pendings[i].fingerprint, owner, resource), t);
  }

  lemma AttemptFrom(s: State, i: nat, owner: Owner, resource: Resource, t: State)
    requires i < |s.pendings| && PendingIndex(s.pendings, s.pendings[i].operation) == i
    requires Kept(CompletePending(s, i, owner, resource)) == Success(t)
    ensures Attempt(s, OpComplete(s.pendings[i].operation, s.pendings[i].fingerprint, owner, resource)) == Success(t)
  {
    hide CompletePending;
  }

  lemma PendingAt(s: State, i: nat)
    requires PendingsDistinct(s.pendings) && i < |s.pendings|
    ensures PendingIndex(s.pendings, s.pendings[i].operation) == i
  {
  }

  lemma BusyPendingIsOpen(s: State, k: nat, i: nat)
    requires IsCoherent(s) && k < |s.workspaces| && i < |s.pendings| && s.pendings[i].workspace == s.workspaces[k].id
    ensures !s.workspaces[k].closing && Sorted(s.workspaces[k].placements)
  {
  }

  lemma CommitsAreCompletable(s: State, i: nat, owner: Owner, resource: Resource)
    requires PendingsDistinct(s.pendings) && i < |s.pendings|
    requires Known(s.workspaces, s.pendings[i].workspace)
    requires Sorted(s.workspaces[WorkspaceIndex(s.workspaces, s.pendings[i].workspace)].placements)
    requires CompletePending(s, i, owner, resource).Success?
    requires ValidWorkspaces(CompletePending(s, i, owner, resource).value.0.workspaces)
    requires ValidCompletions(CompletePending(s, i, owner, resource).value.0)
    ensures Completable(s, i, owner, resource)
  {
    hide CompletedBytes, PushCompleted;
    CompletionReveals(s, i, owner, resource);
    var (t, record) := CompletePending(s, i, owner, resource).value;
    var k := WorkspaceIndex(s.workspaces, s.pendings[i].workspace);
    PlaceAtMeaning(s.workspaces[k].placements, OwnerPlacement(s.pendings[i].node, owner));
    assert ValidWorkspace(t.workspaces[k]);
    var j :| 0 <= j < |t.completed| && t.completed[j] == record;
    assert ValidCompleted(t.completed[j], t.pendings);
  }

  lemma CommitsFit(s: State, i: nat, owner: Owner, resource: Resource)
    requires i < |s.pendings| && Known(s.workspaces, s.pendings[i].workspace)
    requires CompletePending(s, i, owner, resource).Success?
    ensures OwnerMatches(s.pendings[i], owner) && FitsReservation(s, i, owner, resource)
  {
    hide CompletedBytes, PushCompleted;
  }

  lemma CommittedAttempt(s: State, i: nat, owner: Owner, resource: Resource)
    requires i < |s.pendings| && PendingIndex(s.pendings, s.pendings[i].operation) == i
    requires Step(s, OpComplete(s.pendings[i].operation, s.pendings[i].fingerprint, owner, resource)).Success?
    ensures CompletePending(s, i, owner, resource).Success?
    ensures IsValid(CompletePending(s, i, owner, resource).value.0)
  {
    hide CompletePending, IsValid;
  }

  lemma CommittedIsCompletable(s: State, i: nat, owner: Owner, resource: Resource)
    requires IsCoherent(s) && PendingsDistinct(s.pendings) && i < |s.pendings|
    requires Known(s.workspaces, s.pendings[i].workspace)
    requires Step(s, OpComplete(s.pendings[i].operation, s.pendings[i].fingerprint, owner, resource)).Success?
    ensures OwnerMatches(s.pendings[i], owner) && Completable(s, i, owner, resource)
    ensures FitsReservation(s, i, owner, resource)
  {
    hide CompletePending, Completable, FitsReservation;
    PendingAt(s, i);
    CommittedAttempt(s, i, owner, resource);
    CommitsAreCompletable(s, i, owner, resource);
    CommitsFit(s, i, owner, resource);
  }

  /** In every sound state a prepared operation completes if and only if the owner
      matches, it is still completable and its record fits its reservation; the size
      limit of the store never stands in its way. */
  lemma CompletesIff(s: State, i: nat, owner: Owner, resource: Resource)
    requires Sound(s) && i < |s.pendings|
    ensures Known(s.workspaces, s.pendings[i].workspace)
    ensures Step(s, OpComplete(s.pendings[i].operation, s.pendings[i].fingerprint, owner, resource)).Success?
            <==> && OwnerMatches(s.pendings[i], owner) && Completable(s, i, owner, resource)
                 && FitsReservation(s, i, owner, resource)
  {
    HomedAt(s, i);
    hide Step, Completable, FitsReservation, IsCoherent;
    if OwnerMatches(s.pendings[i], owner) && Completable(s, i, owner, resource)
       && FitsReservation(s, i, owner, resource)
    {
      CompletableCommits(s, i, owner, resource);
    }
    if Step(s, OpComplete(s.pendings[i].operation, s.pendings[i].fingerprint, owner, resource)).Success? {
      CommittedIsCompletable(s, i, owner, resource);
    }
  }

  lemma HomedAt(s: State, i: nat)
    requires IsCoherent(s) && i < |s.pendings|
    ensures Known(s.workspaces, s.pendings[i].workspace)
  {
  }
}
