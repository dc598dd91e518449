/** Every operation keeps the coordinator coherent, hence every run does. */
module StoreSteps {
  import opened Basics
  import opened StoreTypes
  import opened Placements
  import opened StoreOps
  import opened StoreInvariant
  import opened Eviction

  // ---------- preparing ----------

  /** What a reservation hands back: the old operations, none shrunk, and the new one. */
  lemma ReserveMeaning(ps: seq<Pending>, w: Workspace, p: Pending)
    requires Reserve(ps, w, p).Success?
    ensures var qs := Reserve(ps, w, p).value;
            && |qs| == |ps| + 1
            && SameIdentities(ps, qs[..|ps|])
            && (forall i :: 0 <= i < |ps| ==> qs[i] == GrowOne(ps[i], w.id, qs[i].reservation - ps[i].reservation)
                                              && qs[i].reservation >= ps[i].reservation)
            && qs == qs[..|ps|] + [qs[|ps|]]
            && qs[|ps|] == p.(reservation := qs[|ps|].reservation)
            && COMPLETION_RESERVATION_OVERHEAD <= qs[|ps|].reservation <= MAX_COMPLETION_RESERVATION_BYTES
  {
    var before := Project(w, ps).value;
    var after := PlaceOn(before, PlacementOf(p)).value;
    var grown := Grow(ps, w.id, Growth(before, after));
    var qs := Reserve(ps, w, p).value;
    assert qs[..|ps|] == grown;
  }

  /** The state a successful operation leaves, in its parts. */
  lemma NewResourceReveals(s: State, r: ResourceRequest, attempt: bool)
    requires PrepareResource(s, r, attempt).Success?
    requires !IsCompleted(s.completed, r.operation) && !IsPending(s.pendings, r.operation)
    ensures var k := WorkspaceIndex(s.workspaces, r.workspace);
            var s' := PrepareResource(s, r, attempt).value.0;
            && k < |s.workspaces| && !s.workspaces[k].closing && s.workspaces[k].revision == r.expectedRevision
            && Reserve(s.pendings, s.workspaces[k], NewPending(s.pendings, s.workspaces[k], r, attempt))
               == Success(s'.pendings)
            && OnlyEvicts(s.(pendings := s'.pendings), s')
            && StoreBytes(s') <= MAX_STORE_BYTES
  {
    hide Reserve, Compact, NewPending, OnlyEvicts, OwnerLinkedElsewhere, StoreBytes;
    var k := WorkspaceIndex(s.workspaces, r.workspace);
    var t := s.(pendings := Reserve(s.pendings, s.workspaces[k],
                                    NewPending(s.pendings, s.workspaces[k], r, attempt)).value);
    CompactKeeps(t);
    EvictsElsewhere(t, Compact(t).value);
  }

  lemma EvictsElsewhere(t: State, s': State)
    requires OnlyEvicts(t, s')
    ensures s'.workspaces == t.workspaces && s'.pendings == t.pendings && s'.pendingCwd == t.pendingCwd
  {
  }

  lemma RepeatedPrepareReveals(s: State, r: ResourceRequest, attempt: bool)
    requires PrepareResource(s, r, attempt).Success?
    requires !IsCompleted(s.completed, r.operation) && IsPending(s.pendings, r.operation)
    ensures var s' := PrepareResource(s, r, attempt).value.0;
            && s' == s.(pendings := s'.pendings) && SameIdentities(s.pendings, s'.pendings)
            && (forall i :: 0 <= i < |s.pendings| ==> s'.pendings[i].reservation == s.pendings[i].reservation
                                                      && (s.pendings[i].attempted ==> s'.pendings[i].attempted))
  {
  }

  predicate IsCancel(op: Op) {
    op.OpCancel? || op.OpCancelUnattempted?
  }

  lemma CancelReveals(s: State, op: Op)
    requires IsCancel(op) && Attempt(s, op).Success? && Attempt(s, op).value != s
    ensures var i := PendingIndex(s.pendings, op.operation);
            && i < |s.pendings| && s.pendings[i].fingerprint == op.fingerprint
            && !(s.pendings[i].createsWorkspace && s.pendings[i].attempted)
            && (op.OpCancelUnattempted? ==> !s.pendings[i].attempted)
            && Attempt(s, op).value == RemovePending(s, i)
  {
  }

  lemma ShellReveals(s: State, r: ShellRequest)
    requires PrepareWorkspaceShell(s, r).Success?
    ensures var n := NameIndex(s.workspaces, r.name);
            var s' := PrepareWorkspaceShell(s, r).value.0;
            if s'.pendings == s.pendings then
              s'.workspaces == s.workspaces && s'.pendingCwd == s.pendingCwd
            else if n < |s.workspaces| then
              var w, e := s.workspaces[n], AliasIndex(s.pendings, s.workspaces[n].id, r.semantic);
              && e < |s.pendings| && Reserve(s.pendings, w, NewAlias(s.pendings[e], r)) == Success(s'.pendings)
              && OnlyEvicts(s.(pendings := s'.pendings), s')
            else
              var w := NewWorkspace(r.workspace, r.name);
              && !Known(s.workspaces, r.workspace)
              && Reserve(s.pendings, w, NewCreation(r)) == Success(s'.pendings)
              && OnlyEvicts(s.(pendings := s'.pendings, workspaces := s.workspaces + [w]), s')
  {
    var n := NameIndex(s.workspaces, r.name);
    if IsCompleted(s.completed, r.operation) || IsPending(s.pendings, r.operation) {
    } else if n < |s.workspaces| {
      NamedReveals(s, s.workspaces[n], r);
    } else {
      var w := NewWorkspace(r.workspace, r.name);
      var ps := Reserve(s.pendings, w, NewCreation(r)).value;
      ReserveMeaning(s.pendings, w, NewCreation(r));
      CompactKeeps(s.(workspaces := s.workspaces + [w], pendings := ps));
    }
  }

  lemma NamedReveals(s: State, w: Workspace, r: ShellRequest)
    requires PrepareNamed(s, w, r).Success?
    ensures var e := AliasIndex(s.pendings, w.id, r.semantic);
            var s' := PrepareNamed(s, w, r).value.0;
            if s'.pendings == s.pendings then s'.workspaces == s.workspaces && s'.pendingCwd == s.pendingCwd
            else && e < |s.pendings| && Reserve(s.pendings, w, NewAlias(s.pendings[e], r)) == Success(s'.pendings)
                 && OnlyEvicts(s.(pendings := s'.pendings), s')
  {
    var c := ReplayIndex(s.completed, w.id, r.semantic);
    var e := AliasIndex(s.pendings, w.id, r.semantic);
    if c < |s.completed| {
      PushCompletedMeaning(s, s.completed[c].(operation := r.operation, fingerprint := r.fingerprint));
    } else {
      ReserveMeaning(s.pendings, w, NewAlias(s.pendings[e], r));
      CompactKeeps(s.(pendings := Reserve(s.pendings, w, NewAlias(s.pendings[e], r)).value));
    }
  }

  lemma CompletionReveals(s: State, i: nat, owner: Owner, resource: Resource)
    requires i < |s.pendings| && CompletePending(s, i, owner, resource).Success?
    ensures var p := s.pendings[i];
            var k := WorkspaceIndex(s.workspaces, p.workspace);
            var (s', record) := CompletePending(s, i, owner, resource).value;
            && OwnerMatches(p, owner)
            && k < |s.workspaces|
            && s'.workspaces == s.workspaces[k := PlaceTotal(s.workspaces[k], OwnerPlacement(p.node, owner))]
            && s'.pendings == Without(s.pendings, i)
            && s'.pendingCwd == s.pendingCwd
            && s'.migrated == s.migrated
            && record == CompletionRecord(p, s'.workspaces[k], resource)
            && record in s'.completed
            && (!IsCompleted(s.completed, p.operation) ==> StoreBytes(s') <= MAX_STORE_BYTES)
  {
    var p := s.pendings[i];
    var k := WorkspaceIndex(s.workspaces, p.workspace);
    var v := PlaceTotal(s.workspaces[k], OwnerPlacement(p.node, owner));
    PushCompletedMeaning(Settled(s, i, k, v), CompletionRecord(p, v, resource));
  }

  lemma PrepareCwdReveals(s: State, r: PendingCwd)
    requires PrepareDefaultCwd(s, r).Success?
    ensures var s' := PrepareDefaultCwd(s, r).value.0;
            && s'.workspaces == s.workspaces && s'.pendings == s.pendings
            && (s'.pendingCwd == s.pendingCwd
                || s'.pendingCwd == s.pendingCwd + [r.(attempted := false, reservation := CWD_RESERVATION_BYTES)])
            && IsSuffix(s'.completed, s.completed)
  {
    hide Compact;
    var t := s.(pendingCwd := s.pendingCwd + [r.(attempted := false, reservation := CWD_RESERVATION_BYTES)]);
    if Compact(t).Success? {
      CompactKeeps(t);
    }
  }

  lemma CompleteCwdReveals(s: State, r: PendingCwd, owner: Owner)
    requires CompleteDefaultCwd(s, r, owner).Success?
    ensures var s' := CompleteDefaultCwd(s, r, owner).value.0;
            var k := WorkspaceIndex(s.workspaces, r.workspace);
            && s'.pendings == s.pendings
            && IsSuffix(s'.completed, s.completed)
            && (s'.workspaces != s.workspaces ==>
                  && k < |s.workspaces| && |s'.workspaces| == |s.workspaces|
                  && s'.workspaces[k].id == r.workspace
                  && s'.workspaces == s.workspaces[k := s'.workspaces[k]])
  {
    hide Compact, CwdMoved, CwdAnswer;
    if CompletedCwdIndex(s.completedCwd, r.operation) == |s.completedCwd| {
      CwdCompletionSettles(s, r, owner);
      hide CompleteDefaultCwd;
      var d := CwdIndex(s.pendingCwd, r.operation);
      var pending := s.pendingCwd[d];
      var k := WorkspaceIndex(s.workspaces, pending.workspace);
      var w := s.workspaces[k];
      var l := PairIndex(w.placements, pending.node, pending.owner);
      var changed := owner.revision == pending.expectedOwnerRevision + 1;
      var moved := CwdMoved(w, l, pending.cwd, owner.revision, changed);
      var result := CwdAnswer(pending, moved.revision, owner.revision, if changed then Updated else Unchanged);
      MovedKeepsId(w, l, pending.cwd, owner.revision, changed);
      CompactKeeps(CwdSettled(s, d, k, moved, result));
    }
  }

  lemma MovedKeepsId(w: Workspace, l: nat, cwd: Path, ownerRevision: nat, changed: bool)
    requires l < |w.placements|
    ensures CwdMoved(w, l, cwd, ownerRevision, changed).id == w.id
  {
  }

  lemma CoherentReserve(s: State, k: nat, p: Pending)
    requires IsCoherent(s) && k < |s.workspaces|
    requires Reserve(s.pendings, s.workspaces[k], p).Success? && Joins(s.workspaces, s.pendings, k, p)
    ensures Coherent(s.workspaces, Reserve(s.pendings, s.workspaces[k], p).value, s.pendingCwd)
  {
    var qs := Reserve(s.pendings, s.workspaces[k], p).value;
    var n := |s.pendings|;
    ReserveMeaning(s.pendings, s.workspaces[k], p);
    CoherentReidentified(s.workspaces, s.pendings, qs[..n], s.pendingCwd);
    CoherentAppend(s.workspaces, qs[..n], s.pendingCwd, k, qs[n]);
  }

  /** An operation that adopts the effective owner, and the name and directory of
      any earlier one, agrees with everything already there. */
  lemma NewPendingJoins(s: State, k: nat, r: ResourceRequest, attempt: bool)
    requires IsCoherent(s) && k < |s.workspaces| && s.workspaces[k].id == r.workspace && !s.workspaces[k].closing
    ensures Joins(s.workspaces, s.pendings, k, NewPending(s.pendings, s.workspaces[k], r, attempt))
  {
    var w := s.workspaces[k];
    var p := NewPending(s.pendings, w, r, attempt);
    var l := PlacementIndex(w.placements, r.node);
    var q := PriorIndex(s.pendings, w.id, r.node);
    if q < |s.pendings| {
      assert OwnerPlaced(w, s.pendings[q]);
      if l < |w.placements| {
        assert w.placements[l] in w.placements;
      }
    }
    assert forall m :: m in w.placements && m.node == r.node ==> l < |w.placements| && m == w.placements[l];
  }

  lemma PrepareResourceCoherent(s: State, r: ResourceRequest, attempt: bool)
    requires IsCoherent(s) && PrepareResource(s, r, attempt).Success?
    ensures IsCoherent(PrepareResource(s, r, attempt).value.0)
  {
    hide Coherent, PrepareNewResource;
    if !IsCompleted(s.completed, r.operation) {
      if IsPending(s.pendings, r.operation) {
        CoherentReidentified(s.workspaces, s.pendings, PrepareResource(s, r, attempt).value.0.pendings, s.pendingCwd);
      } else {
        NewResourceReveals(s, r, attempt);
        hide PrepareResource, Reserve, NewPending;
        var k := WorkspaceIndex(s.workspaces, r.workspace);
        NewPendingJoins(s, k, r, attempt);
        CoherentReserve(s, k, NewPending(s.pendings, s.workspaces[k], r, attempt));
      }
    }
  }

  lemma AliasJoins(s: State, k: nat, e: nat, r: ShellRequest)
    requires IsCoherent(s) && k < |s.workspaces| && e < |s.pendings|
    requires IsAliasTarget(s.pendings[e], s.workspaces[k].id, r.semantic)
    ensures Joins(s.workspaces, s.pendings, k, NewAlias(s.pendings[e], r))
  {
    assert OwnerPlaced(s.workspaces[k], s.pendings[e]);
    forall i | 0 <= i < |s.pendings| && CreateTogether(s.pendings[i], NewAlias(s.pendings[e], r))
      ensures SameCreation(s.pendings[i], NewAlias(s.pendings[e], r))
    {
      assert CreateTogether(s.pendings[i], s.pendings[e]);
    }
  }

  lemma PrepareShellCoherent(s: State, r: ShellRequest)
    requires IsCoherent(s) && PrepareWorkspaceShell(s, r).Success?
    ensures IsCoherent(PrepareWorkspaceShell(s, r).value.0)
  {
    hide Coherent, PrepareNamed, PrepareFresh;
    var n := NameIndex(s.workspaces, r.name);
    if IsCompleted(s.completed, r.operation) || IsPending(s.pendings, r.operation) {
    } else if n < |s.workspaces| {
      PrepareNamedCoherent(s, n, r);
    } else {
      PrepareFreshCoherent(s, r);
    }
  }

  lemma PrepareNamedCoherent(s: State, n: nat, r: ShellRequest)
    requires IsCoherent(s) && n < |s.workspaces| && PrepareNamed(s, s.workspaces[n], r).Success?
    ensures IsCoherent(PrepareNamed(s, s.workspaces[n], r).value.0)
  {
    hide Coherent, Reserve, Compact, PushCompleted, NewAlias, CompletedIndex;
    var c := ReplayIndex(s.completed, s.workspaces[n].id, r.semantic);
    var e := AliasIndex(s.pendings, s.workspaces[n].id, r.semantic);
    if c < |s.completed| {
      PushCompletedMeaning(s, s.completed[c].(operation := r.operation, fingerprint := r.fingerprint));
    } else {
      AliasJoins(s, n, e, r);
      CoherentReserve(s, n, NewAlias(s.pendings[e], r));
      CompactKeeps(s.(pendings := Reserve(s.pendings, s.workspaces[n], NewAlias(s.pendings[e], r)).value));
    }
  }

  lemma CreationJoins(s: State, r: ShellRequest)
    requires IsCoherent(s) && !Known(s.workspaces, r.workspace)
    ensures Joins(s.workspaces + [NewWorkspace(r.workspace, r.name)], s.pendings, |s.workspaces|, NewCreation(r))
  {
  }

  lemma PrepareFreshCoherent(s: State, r: ShellRequest)
    requires IsCoherent(s) && PrepareFresh(s, r).Success?
    ensures IsCoherent(PrepareFresh(s, r).value.0)
  {
    var w := NewWorkspace(r.workspace, r.name);
    var t := s.(workspaces := s.workspaces + [w]);
    CoherentNewWorkspace(s.workspaces, s.pendings, s.pendingCwd, w);
    var k := |s.workspaces|;
    assert t.workspaces[k] == w;
    CreationJoins(s, r);
    hide Coherent, Joins, Reserve, Compact, NewCreation;
    CoherentReserve(t, k, NewCreation(r));
    CompactKeeps(t.(pendings := Reserve(s.pendings, w, NewCreation(r)).value));
  }

  // ---------- cancelling and completing ----------

  lemma RemovePendingCoherent(s: State, i: nat)
    requires IsCoherent(s) && i < |s.pendings|
    ensures IsCoherent(RemovePending(s, i))
  {
    var p := s.pendings[i];
    var ps := Without(s.pendings, i);
    var k := WorkspaceIndex(s.workspaces, p.workspace);
    CoherentWithout(s.workspaces, s.pendings, s.pendingCwd, i);
    if RemovePending(s, i).workspaces != s.workspaces {
      assert forall q :: 0 <= q < |ps| ==> ps[q] in ps;
      forall j | 0 <= j < |s.pendingCwd|
        ensures s.pendingCwd[j].workspace != p.workspace
      {
        var placed := PairIn(s.workspaces[k].placements, s.pendingCwd[j].node, s.pendingCwd[j].owner);
      }
      CoherentWithoutWorkspace(s.workspaces, ps, s.pendingCwd, k);
    }
  }

  /** Placing the expected owner on its Node disturbs no pending operation. */
  lemma PlaceKeepsAwaited(w: Workspace, ps: seq<Pending>, ds: seq<PendingCwd>, x: Placement)
    requires Sorted(w.placements)
    requires forall i :: 0 <= i < |ps| && ps[i].workspace == w.id ==> OwnerPlaced(w, ps[i])
    requires forall i :: 0 <= i < |ps| && ps[i].workspace == w.id && ps[i].node == x.node ==> ps[i].owner == x.ownerId
    requires forall j :: 0 <= j < |ds| && ds[j].workspace == w.id ==> PairIn(w.placements, ds[j].node, ds[j].owner)
    requires forall l :: l in w.placements && l.node == x.node ==> l.ownerId == x.ownerId
    ensures Sorted(PlaceTotal(w, x).placements)
    ensures forall i :: 0 <= i < |ps| && ps[i].workspace == w.id ==> OwnerPlaced(PlaceTotal(w, x), ps[i])
    ensures forall j :: 0 <= j < |ds| && ds[j].workspace == w.id
              ==> PairIn(PlaceTotal(w, x).placements, ds[j].node, ds[j].owner)
  {
    PlaceAtMeaning(w.placements, x);
    var pl := PlaceAt(w.placements, x);
    assert x in pl;
    forall j | 0 <= j < |ds| && ds[j].workspace == w.id
      ensures PairIn(pl, ds[j].node, ds[j].owner)
    {
      var l :| l in w.placements && l.node == ds[j].node && l.ownerId == ds[j].owner;
      if l.node != x.node {
        assert l in pl;
      }
    }
  }

  lemma CompletePendingCoherent(s: State, i: nat, owner: Owner, resource: Resource)
    requires IsCoherent(s) && i < |s.pendings| && CompletePending(s, i, owner, resource).Success?
    ensures IsCoherent(CompletePending(s, i, owner, resource).value.0)
  {
    hide CompletePending, Coherent, PlaceTotal;
    CompletionReveals(s, i, owner, resource);
    PlacedCoherent(s, i, OwnerPlacement(s.pendings[i].node, owner));
  }

  lemma PlacedCoherent(s: State, i: nat, x: Placement)
    requires IsCoherent(s) && i < |s.pendings| && Known(s.workspaces, s.pendings[i].workspace)
    requires x.node == s.pendings[i].node && x.ownerId == s.pendings[i].owner
    ensures var k := WorkspaceIndex(s.workspaces, s.pendings[i].workspace);
            Coherent(s.workspaces[k := PlaceTotal(s.workspaces[k], x)], Without(s.pendings, i), s.pendingCwd)
  {
    var p := s.pendings[i];
    var k := WorkspaceIndex(s.workspaces, p.workspace);
    var w := s.workspaces[k];
    assert OwnerPlaced(w, p);
    assert forall j :: 0 <= j < |s.pendings| && s.pendings[j].workspace == w.id && s.pendings[j].node == p.node
             ==> SameTarget(s.pendings[j], p);
    hide PlaceAt;
    PlaceKeepsAwaited(w, s.pendings, s.pendingCwd, x);
    CoherentBusyUpdate(s.workspaces, s.pendings, s.pendingCwd, k, PlaceTotal(w, x));
    hide Coherent;
    CoherentWithout(s.workspaces[k := PlaceTotal(w, x)], s.pendings, s.pendingCwd, i);
  }

  lemma CompleteResourceCoherent(s: State, operation: Id, fingerprint: Fingerprint, owner: Owner, resource: Resource)
    requires IsCoherent(s) && CompleteResource(s, operation, fingerprint, owner, resource).Success?
    ensures IsCoherent(CompleteResource(s, operation, fingerprint, owner, resource).value.0)
  {
    var i := PendingIndex(s.pendings, operation);
    if i < |s.pendings| {
      CompletePendingCoherent(s, i, owner, resource);
    }
  }

  lemma MarkOwnerAttemptedCoherent(s: State, operation: Id, fingerprint: Fingerprint)
    requires IsCoherent(s) && MarkOwnerAttempted(s, operation, fingerprint).Success?
    ensures IsCoherent(MarkOwnerAttempted(s, operation, fingerprint).value.0)
  {
    CoherentReidentified(s.workspaces, s.pendings, MarkOwnerAttempted(s, operation, fingerprint).value.0.pendings,
                         s.pendingCwd);
  }

  // ---------- default directory ----------

  lemma PrepareCwdCoherent(s: State, r: PendingCwd)
    requires IsCoherent(s) && PrepareDefaultCwd(s, r).Success?
    ensures IsCoherent(PrepareDefaultCwd(s, r).value.0)
  {
    var request := r.(attempted := false, reservation := CWD_RESERVATION_BYTES);
    if CompletedCwdIndex(s.completedCwd, r.operation) == |s.completedCwd|
       && CwdIndex(s.pendingCwd, r.operation) == |s.pendingCwd|
    {
      var k := WorkspaceIndex(s.workspaces, r.workspace);
      HasPendingMeaning(s, r.workspace);
      var l := PlacementIndex(s.workspaces[k].placements, r.node);
      assert s.workspaces[k].placements[l] in s.workspaces[k].placements;
      CoherentAppendCwd(s.workspaces, s.pendings, s.pendingCwd, k, request);
      CompactKeeps(s.(pendingCwd := s.pendingCwd + [request]));
    }
  }

  /** Moving one placement's revision and directory keeps every (Node, owner) pair. */
  lemma MoveKeepsPairs(pl: seq<Placement>, l: nat, revision: nat, cwd: Path)
    requires Sorted(pl) && l < |pl|
    ensures var moved := pl[l := pl[l].(ownerRevision := revision, cwd := Some(cwd))];
            && Sorted(moved)
            && (forall node, owner :: PairIn(pl, node, owner) <==> PairIn(moved, node, owner))
            && (forall m :: m in moved ==> exists o :: o in pl && o.node == m.node && o.ownerId == m.ownerId)
  {
    var moved := pl[l := pl[l].(ownerRevision := revision, cwd := Some(cwd))];
    forall m | m in moved
      ensures exists o :: o in pl && o.node == m.node && o.ownerId == m.ownerId
    {
      var i :| 0 <= i < |moved| && moved[i] == m;
      assert pl[i] in pl;
    }
    forall node, owner | PairIn(pl, node, owner)
      ensures PairIn(moved, node, owner)
    {
      var i :| 0 <= i < |pl| && pl[i].node == node && pl[i].ownerId == owner;
      assert moved[i] in moved;
    }
  }

  lemma CwdMoveCoherent(s: State, k: nat, l: nat, cwd: Path, ownerRevision: nat, changed: bool)
    requires IsCoherent(s) && k < |s.workspaces| && l < |s.workspaces[k].placements|
    ensures Coherent(s.workspaces[k := CwdMoved(s.workspaces[k], l, cwd, ownerRevision, changed)], s.pendings,
                     s.pendingCwd)
  {
    var w := s.workspaces[k];
    var moved := CwdMoved(w, l, cwd, ownerRevision, changed);
    MoveKeepsPairs(w.placements, l, ownerRevision, cwd);
    forall i | 0 <= i < |s.pendings| && s.pendings[i].workspace == w.id
      ensures OwnerPlaced(moved, s.pendings[i])
    {
      assert OwnerPlaced(w, s.pendings[i]);
    }
    CoherentBusyUpdate(s.workspaces, s.pendings, s.pendingCwd, k, moved);
  }

  /** What completing a pending directory change found, and the edit it then compacted. */
  lemma CwdCompletionSettles(s: State, operation: PendingCwd, owner: Owner)
    requires CompleteDefaultCwd(s, operation, owner).Success?
    requires CompletedCwdIndex(s.completedCwd, operation.operation) == |s.completedCwd|
    ensures var d := CwdIndex(s.pendingCwd, operation.operation);
            && d < |s.pendingCwd|
            && var pending := s.pendingCwd[d];
               var k := WorkspaceIndex(s.workspaces, pending.workspace);
               && SameCwdRequest(pending, operation) && k < |s.workspaces|
               && var w := s.workspaces[k];
                  var l := PairIndex(w.placements, pending.node, pending.owner);
                  && l < |w.placements|
                  && var changed := owner.revision == pending.expectedOwnerRevision + 1;
                     var moved := CwdMoved(w, l, pending.cwd, owner.revision, changed);
                     var result := CwdAnswer(pending, moved.revision, owner.revision,
                                             if changed then Updated else Unchanged);
                     && Compact(CwdSettled(s, d, k, moved, result))
                        == Success(CompleteDefaultCwd(s, operation, owner).value.0)
                     && CompleteDefaultCwd(s, operation, owner).value.1 == result
                     && (owner.revision == pending.expectedOwnerRevision || changed)
  {
    hide Compact, CwdSettled, CwdMoved, CwdAnswer, SameCwdRequest;
  }

  lemma CompleteCwdCoherent(s: State, operation: PendingCwd, owner: Owner)
    requires IsCoherent(s) && CompleteDefaultCwd(s, operation, owner).Success?
    ensures IsCoherent(CompleteDefaultCwd(s, operation, owner).value.0)
  {
    hide Compact, CwdSettled, CwdMoved, CwdAnswer, Coherent;
    if CompletedCwdIndex(s.completedCwd, operation.operation) == |s.completedCwd| {
      CwdCompletionSettles(s, operation, owner);
      hide CompleteDefaultCwd;
      var d := CwdIndex(s.pendingCwd, operation.operation);
      var pending := s.pendingCwd[d];
      var k := WorkspaceIndex(s.workspaces, pending.workspace);
      var w := s.workspaces[k];
      var l := PairIndex(w.placements, pending.node, pending.owner);
      var changed := owner.revision == pending.expectedOwnerRevision + 1;
      var moved := CwdMoved(w, l, pending.cwd, owner.revision, changed);
      var result := CwdAnswer(pending, moved.revision, owner.revision, if changed then Updated else Unchanged);
      CwdMoveCoherent(s, k, l, pending.cwd, owner.revision, changed);
      CwdSettledCoherent(s, d, k, moved, result);
    }
  }

  lemma CwdSettledCoherent(s: State, d: nat, k: nat, moved: Workspace, result: CwdResult)
    requires d < |s.pendingCwd| && k < |s.workspaces|
    requires Coherent(s.workspaces[k := moved], s.pendings, s.pendingCwd)
    requires Compact(CwdSettled(s, d, k, moved, result)).Success?
    ensures IsCoherent(Compact(CwdSettled(s, d, k, moved, result)).value)
  {
    hide Coherent, Compact;
    CoherentWithoutCwd(s.workspaces[k := moved], s.pendings, s.pendingCwd, d);
    CompactKeeps(CwdSettled(s, d, k, moved, result));
  }

  // ---------- linking, renaming, closing ----------

  lemma FreshIdUnknown(ws: seq<Workspace>, w: Workspace)
    requires IdsDistinct(ws + [w])
    ensures !Known(ws, w.id)
  {
    assert (ws + [w])[|ws|] == w;
    assert forall n :: 0 <= n < |ws| ==> (ws + [w])[n] == ws[n];
  }

  lemma CreateOrAdoptCoherent(s: State, w: Workspace)
    requires IsCoherent(s) && Sorted(w.placements) && IdsDistinct(s.workspaces + [w])
    ensures IsCoherent(s.(workspaces := s.workspaces + [w]))
  {
    FreshIdUnknown(s.workspaces, w);
    CoherentNewWorkspace(s.workspaces, s.pendings, s.pendingCwd, w);
  }

  lemma LinkIsPlacing(pl: seq<Placement>, x: Placement)
    requires Sorted(pl) && !(exists l :: l in pl && l.node == x.node)
    ensures SortByNode(pl + [x]) == PlaceAt(pl, x) && Sorted(PlaceAt(pl, x)) && !HasNode(pl, x.node)
  {
    HasNodeMeaning(pl, x.node);
    PlaceAtMeaning(pl, x);
  }

  lemma LinkCoherent(s: State, workspace: Id, expectedRevision: nat, node: Id, owner: Owner, expectedOwner: nat)
    requires IsCoherent(s) && Link(s, workspace, expectedRevision, node, owner, expectedOwner).Success?
    ensures IsCoherent(Link(s, workspace, expectedRevision, node, owner, expectedOwner).value.0)
  {
    var k := WorkspaceIndex(s.workspaces, workspace);
    var w := s.workspaces[k];
    HasPendingMeaning(s, workspace);
    LinkIsPlacing(w.placements, OwnerPlacement(node, owner));
    CoherentIdleUpdate(s.workspaces, s.pendings, s.pendingCwd, k,
                       Link(s, workspace, expectedRevision, node, owner, expectedOwner).value.1);
  }

  lemma PlacementsAreSorted(s: State, k: nat)
    requires IsCoherent(s)
    ensures k < |s.workspaces| ==> Sorted(s.workspaces[k].placements)
  {
  }

  lemma RenameCoherent(s: State, workspace: Id, expectedRevision: nat, name: string)
    requires IsCoherent(s) && Rename(s, workspace, expectedRevision, name).Success?
    ensures IsCoherent(Rename(s, workspace, expectedRevision, name).value.0)
  {
    hide Coherent, HasPending;
    var k := WorkspaceIndex(s.workspaces, workspace);
    HasPendingMeaning(s, workspace);
    PlacementsAreSorted(s, k);
    if s.workspaces[k].name != name {
      CoherentIdleUpdate(s.workspaces, s.pendings, s.pendingCwd, k,
                         s.workspaces[k].(name := name, revision := s.workspaces[k].revision + 1));
    }
  }

  lemma BeginCloseCoherent(s: State, workspace: Id, expectedRevision: nat)
    requires IsCoherent(s) && BeginClose(s, workspace, expectedRevision).Success?
    ensures IsCoherent(BeginClose(s, workspace, expectedRevision).value.0)
  {
    hide Coherent, HasPending;
    var k := WorkspaceIndex(s.workspaces, workspace);
    var w := s.workspaces[k];
    HasPendingMeaning(s, workspace);
    PlacementsAreSorted(s, k);
    if !w.closing {
      CoherentIdleUpdate(s.workspaces, s.pendings, s.pendingCwd, k,
                         w.(revision := w.revision + 1, closing := true, placements := CloseAll(w.placements)));
    }
  }

  lemma {:induction false} RetainMeaning(pl: seq<Placement>, node: Id, owner: Id)
    requires Sorted(pl)
    ensures var kept := RetainOthers(pl, node, owner);
            && Sorted(kept)
            && (forall l :: l in kept <==> l in pl && !(l.node == node && l.ownerId == owner))
  {
    if pl != [] {
      var init, last := pl[..|pl| - 1], pl[|pl| - 1];
      RetainMeaning(init, node, owner);
      var kept := RetainOthers(init, node, owner);
      assert pl == init + [last];
      forall i | 0 <= i < |kept|
        ensures kept[i].node < last.node
      {
        assert kept[i] in kept;
      }
    }
  }

  lemma ClosingIsIdle(s: State, k: nat)
    requires IsCoherent(s) && k < |s.workspaces| && s.workspaces[k].closing
    ensures Idle(s.workspaces[k].id, s.pendings, s.pendingCwd)
  {
  }

  lemma ConfirmClosedCoherent(s: State, workspace: Id, node: Id, owner: Id)
    requires IsCoherent(s) && ConfirmClosed(s, workspace, node, owner).Success?
    ensures IsCoherent(ConfirmClosed(s, workspace, node, owner).value.0)
  {
    hide Coherent, RetainOthers, Idle, Sorted;
    var k := WorkspaceIndex(s.workspaces, workspace);
    var w := s.workspaces[k];
    var kept := RetainOthers(w.placements, node, owner);
    PlacementsAreSorted(s, k);
    RetainMeaning(w.placements, node, owner);
    ClosingIsIdle(s, k);
    if kept == [] {
      CoherentWithoutWorkspace(s.workspaces, s.pendings, s.pendingCwd, k);
    } else {
      CoherentIdleUpdate(s.workspaces, s.pendings, s.pendingCwd, k, w.(placements := kept, revision := w.revision + 1));
    }
  }

  lemma ConfirmEmptyCoherent(s: State, workspace: Id)
    requires IsCoherent(s) && ConfirmEmptyClosed(s, workspace).Success?
    ensures IsCoherent(ConfirmEmptyClosed(s, workspace).value.0)
  {
    var k := WorkspaceIndex(s.workspaces, workspace);
    CoherentWithoutWorkspace(s.workspaces, s.pendings, s.pendingCwd, k);
  }

  lemma {:induction false} ImportCoherent(ws: seq<Workspace>, ps: seq<Pending>, ds: seq<PendingCwd>, node: Id,
                                          owners: seq<Owner>)
    requires Coherent(ws, ps, ds) && ImportAll(ws, node, owners).Success?
    requires IdsDistinct(ImportAll(ws, node, owners).value)
    ensures Coherent(ImportAll(ws, node, owners).value, ps, ds)
  {
    if owners != [] {
      var init, owner := owners[..|owners| - 1], owners[|owners| - 1];
      var before := ImportAll(ws, node, init).value;
      var w := Workspace(owner.id, 1, owner.name, false, [OwnerPlacement(node, owner)]);
      assert (before + [w])[..|before|] == before;
      assert forall i, j :: 0 <= i < j < |before| ==> (before + [w])[i].id != (before + [w])[j].id;
      ImportCoherent(ws, ps, ds, node, init);
      FreshIdUnknown(before, w);
      CoherentNewWorkspace(before, ps, ds, w);
    }
  }

  // ---------- every step, every run ----------

  lemma ResourceStepCoherent(s: State, op: Op)
    requires IsCoherent(s) && Attempt(s, op).Success?
    requires op.OpPrepareResource? || op.OpPrepareShell? || op.OpComplete? || op.OpMark?
    ensures IsCoherent(Attempt(s, op).value)
  {
    match op
    case OpPrepareResource(r, attempt) => PrepareResourceCoherent(s, r, attempt);
    case OpPrepareShell(r) => PrepareShellCoherent(s, r);
    case OpComplete(o, f, owner, resource) => CompleteResourceCoherent(s, o, f, owner, resource);
    case OpMark(o, f) => MarkOwnerAttemptedCoherent(s, o, f);
  }

  lemma CancelStepCoherent(s: State, op: Op)
    requires IsCoherent(s) && IsCancel(op) && Attempt(s, op).Success?
    ensures IsCoherent(Attempt(s, op).value)
  {
    if Attempt(s, op).value != s {
      CancelReveals(s, op);
      RemovePendingCoherent(s, PendingIndex(s.pendings, op.operation));
    }
  }

  lemma CwdStepCoherent(s: State, op: Op)
    requires IsCoherent(s) && Attempt(s, op).Success?
    requires op.OpPrepareCwd? || op.OpMarkCwd? || op.OpCancelCwd? || op.OpCompleteCwd?
    ensures IsCoherent(Attempt(s, op).value)
  {
    hide PrepareDefaultCwd, CompleteDefaultCwd, Coherent;
    var d := CwdIndex(s.pendingCwd, op.cwdRequest.operation);
    match op
    case OpPrepareCwd(r) => PrepareCwdCoherent(s, r);
    case OpMarkCwd(r) => CoherentMarkCwd(s.workspaces, s.pendings, s.pendingCwd, d);
    case OpCancelCwd(r, only) =>
      if d < |s.pendingCwd| {
        CoherentWithoutCwd(s.workspaces, s.pendings, s.pendingCwd, d);
      }
    case OpCompleteCwd(r, owner) => CompleteCwdCoherent(s, r, owner);
  }

  predicate IsWorkspaceOp(op: Op) {
    op.OpCreate? || op.OpAdopt? || op.OpLink? || op.OpRename? || op.OpBeginClose? || op.OpConfirmClosed?
    || op.OpConfirmEmpty? || op.OpInitialize?
  }

  lemma WorkspaceStepCoherent(s: State, op: Op)
    requires IsCoherent(s) && Attempt(s, op).Success? && IdsDistinct(Attempt(s, op).value.workspaces)
    requires IsWorkspaceOp(op)
    ensures IsCoherent(Attempt(s, op).value)
  {
    hide Coherent, IdsDistinct, HasPending, SortByNode, CloseAll, RetainOthers, ImportAll;
    match op
    case OpCreate(id, name) => CreateOrAdoptCoherent(s, Create(s, id, name).value.1);
    case OpAdopt(id, node, owner, expected) => CreateOrAdoptCoherent(s, Adopt(s, id, node, owner, expected).value.1);
    case OpLink(w, e, node, owner, eo) => LinkCoherent(s, w, e, node, owner, eo);
    case OpRename(w, e, name) => RenameCoherent(s, w, e, name);
    case OpBeginClose(w, e) => BeginCloseCoherent(s, w, e);
    case OpConfirmClosed(w, node, owner) => ConfirmClosedCoherent(s, w, node, owner);
    case OpConfirmEmpty(w) => ConfirmEmptyCoherent(s, w);
    case OpInitialize(node, owners) =>
      if !s.migrated {
        ImportCoherent(s.workspaces, s.pendings, s.pendingCwd, node, owners);
      }
  }

  lemma StepKeepsCoherence(s: State, op: Op)
    requires IsCoherent(s) && Step(s, op).Success?
    ensures IsCoherent(Step(s, op).value)
  {
    if IsWorkspaceOp(op) {
      WorkspaceStepCoherent(s, op);
    } else if IsCancel(op) {
      CancelStepCoherent(s, op);
    } else if op.OpPrepareCwd? || op.OpMarkCwd? || op.OpCancelCwd? || op.OpCompleteCwd? {
      CwdStepCoherent(s, op);
    } else {
      ResourceStepCoherent(s, op);
    }
  }

  lemma RunLast(s: State, ops: seq<Op>, op: Op)
    ensures var t := Run(s, ops);
            Run(s, ops + [op]) == if Step(t, op).Success? then Step(t, op).value else t
  {
    assert (ops + [op])[..|ops|] == ops;
  }

  lemma {:induction false} RunConcat(s: State, a: seq<Op>, b: seq<Op>)
    ensures Run(s, a + b) == Run(Run(s, a), b)
  {
    hide Step;
    if b == [] {
      assert a + b == a;
    } else {
      var init, op := b[..|b| - 1], b[|b| - 1];
      assert a + b == (a + init) + [op];
      RunLast(s, a + init, op);
      RunConcat(s, a, init);
    }
  }

  /** What `mutate` commits: an edit that `validate` accepts, within the size limit. */
  lemma ValidCommits(s: State, op: Op, t: State)
    requires Attempt(s, op) == Success(t) && IsValid(t) && StoreBytes(t) <= MAX_STORE_BYTES
    ensures Step(s, op) == Success(t)
  {
    hide Attempt, IsValid, StoreBytes;
  }

  predicate Sound(s: State) {
    IsCoherent(s) && IsValid(s) && StoreBytes(s) <= MAX_STORE_BYTES
  }

  lemma StepKeepsSound(s: State, op: Op)
    requires IsCoherent(s) && Step(s, op).Success?
    ensures Sound(Step(s, op).value) && Step(s, op) == Attempt(s, op)
  {
    StepKeepsCoherence(s, op);
  }

  /** Whatever calls are made on a sound store, failed ones included, it stays
      coherent, acceptable to `validate` and within the size limit. */
  lemma {:induction false} RunKeepsSound(s: State, ops: seq<Op>)
    requires Sound(s)
    ensures Sound(Run(s, ops))
  {
    if ops != [] {
      var init, op := ops[..|ops| - 1], ops[|ops| - 1];
      RunKeepsSound(s, init);
      if Step(Run(s, init), op).Success? {
        StepKeepsSound(Run(s, init), op);
      }
    }
  }

  lemma EmptyIsSound()
    ensures Sound(EMPTY)
  {
    assert IsCoherent(EMPTY);
    assert IsValid(EMPTY);
  }

  /** In particular from the empty store. */
  lemma EveryRunIsSound(ops: seq<Op>)
    ensures Sound(Run(EMPTY, ops))
  {
    hide Run, Sound;
    EmptyIsSound();
    RunKeepsSound(EMPTY, ops);
  }
}
