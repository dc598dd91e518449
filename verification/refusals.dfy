/** Why a call is refused: for every call the reasons in terms of the state and the request,
    and that it fails exactly when one of them applies, with that reason. */
module Refusals {
  import opened Basics
  import opened StoreTypes
  import opened Placements
  import opened StoreOps
  import opened StoreInvariant
  import opened Eviction
  import opened StoreSteps
  import opened Lifecycle
  import opened Aliases
  import opened DefaultCwd
  import opened Capacity
  import opened Completion

  // ---------- plain words ----------

  predicate Linked(ws: seq<Workspace>, node: Id, owner: Id) {
    exists w, l :: w in ws && l in w.placements && l.node == node && l.ownerId == owner
  }

  predicate LinkedElsewhere(ws: seq<Workspace>, id: Id, node: Id, owner: Id) {
    exists w, l :: w in ws && w.id != id && l in w.placements && l.node == node && l.ownerId == owner
  }

  predicate NameUsed(ws: seq<Workspace>, name: string) {
    exists w :: w in ws && w.name == name
  }

  predicate Stale(revision: nat, expected: nat) {
    expected == 0 || revision != expected
  }

  predicate NodeUsed(w: Workspace, node: Id) {
    exists l :: l in w.placements && l.node == node
  }

  predicate Targets(q: Pending, workspace: Id, node: Id) {
    q.workspace == workspace && q.node == node
  }

  // ---------- creating, adopting, linking, renaming, closing ----------

  predicate CreateRefuses(s: State, name: string, e: StoreError) {
    || (e == InvalidName && !ValidName(name))
    || (e == AlreadyExists && NameUsed(s.workspaces, name))
    || (e == LimitReached && |s.workspaces| >= MAX_WORKSPACES)
  }

  predicate AdoptRefuses(s: State, node: Id, owner: Owner, expected: nat, e: StoreError) {
    || (e == RevisionChanged && Stale(owner.revision, expected))
    || (e == AlreadyExists && (Linked(s.workspaces, node, owner.id) || NameUsed(s.workspaces, owner.name)))
  }

  predicate LinkRefuses(s: State, id: Id, expected: nat, node: Id, owner: Owner, expectedOwner: nat, e: StoreError) {
    || (e == RevisionChanged && Stale(owner.revision, expectedOwner))
    || (e == AlreadyExists && Linked(s.workspaces, node, owner.id))
    || (e == WouldBlock && !Idle(id, s.pendings, s.pendingCwd))
    || if !Known(s.workspaces, id) then e == NotFound
       else
         var w := Lookup(s.workspaces, id);
         || (e == RevisionChanged && Stale(w.revision, expected))
         || (e == WouldBlock && w.closing)
         || (e == AlreadyExists && NodeUsed(w, node))
         || (e == RevisionExhausted && w.revision >= U64_MAX)
  }

  predicate RenameRefuses(s: State, id: Id, expected: nat, name: string, e: StoreError) {
    || (e == InvalidName && !ValidName(name))
    || (e == WouldBlock && !Idle(id, s.pendings, s.pendingCwd))
    || (e == AlreadyExists && exists w :: w in s.workspaces && w.name == name && w.id != id)
    || if !Known(s.workspaces, id) then e == NotFound
       else
         var w := Lookup(s.workspaces, id);
         || (e == RevisionChanged && Stale(w.revision, expected))
         || (e == WouldBlock && w.closing)
         || (e == RevisionExhausted && w.name != name && w.revision >= U64_MAX)
  }

  predicate BeginCloseRefuses(s: State, id: Id, expected: nat, e: StoreError) {
    || (e == WouldBlock && !Idle(id, s.pendings, s.pendingCwd))
    || if !Known(s.workspaces, id) then e == NotFound
       else
         var w := Lookup(s.workspaces, id);
         || (e == RevisionChanged && Stale(w.revision, expected))
         || (e == RevisionExhausted && !w.closing && w.revision >= U64_MAX)
  }

  predicate ConfirmRefuses(s: State, id: Id, node: Id, owner: Id, e: StoreError) {
    if !Known(s.workspaces, id) then e == NotFound
    else
      var w := Lookup(s.workspaces, id);
      || (e == InvalidInput && !w.closing)
      || (e == RevisionExhausted && w.revision >= U64_MAX
          && exists l :: l in w.placements && (l.node != node || l.ownerId != owner))
  }

  predicate ConfirmEmptyRefuses(s: State, id: Id, e: StoreError) {
    if !Known(s.workspaces, id) then e == NotFound
    else e == InvalidInput && (!Lookup(s.workspaces, id).closing || Lookup(s.workspaces, id).placements != [])
  }

  predicate InitializeRefuses(s: State, owners: seq<Owner>, e: StoreError) {
    e == LimitReached && !s.migrated && owners != [] && |s.workspaces| + |owners| > MAX_WORKSPACES
  }

  // ---------- resources ----------

  /** The request of an operation id that is known: it must be the very same one. */
  predicate SameAsked(p: Pending, r: ResourceRequest) {
    && p.fingerprint == r.fingerprint && p.workspace == r.workspace && p.expectedRevision == r.expectedRevision
    && p.node == r.node && p.requestedOwner == r.requestedOwner && p.ownerName == r.ownerName && p.cwd == r.cwd
    && p.resource == r.resource && p.kind == r.kind
  }

  /** The operation a new request asks to store: with the owner placed on its Node, else with
      that of the operations prepared for it before, whose name and directory it takes over,
      else as it asks. */
  predicate Stores(s: State, w: Workspace, r: ResourceRequest, attempt: bool, p: Pending) {
    && p.operation == r.operation && p.fingerprint == r.fingerprint && p.requestBytes == r.requestBytes
    && p.workspace == r.workspace && p.expectedRevision == r.expectedRevision && p.node == r.node
    && p.requestedOwner == r.requestedOwner && p.resource == r.resource && p.kind == r.kind
    && !p.createsWorkspace && p.semantic.None? && p.attempted == attempt
    && (forall l :: l in w.placements && l.node == r.node ==> p.owner == l.ownerId)
    && (forall q :: q in s.pendings && Targets(q, r.workspace, r.node) ==>
          p.owner == q.owner && p.ownerName == q.ownerName && p.cwd == q.cwd)
    && ((forall q :: q in s.pendings ==> !Targets(q, r.workspace, r.node)) ==>
          && p.ownerName == r.ownerName && p.cwd == r.cwd
          && (!NodeUsed(w, r.node) ==> p.owner == r.requestedOwner))
  }

  /** The accounts refuse p: its Workspace's projection, a reservation, or what is pending alone. */
  predicate NoRoom(s: State, w: Workspace, p: Pending, e: StoreError) {
    var reserved := Reserve(s.pendings, w, p);
    || reserved == Failure(e)
    || (reserved.Success? && e == StoreFull && StoreBytes(Bare(s.(pendings := reserved.value))) > MAX_STORE_BYTES)
  }

  ghost predicate NewResourceRefuses(s: State, r: ResourceRequest, attempt: bool, e: StoreError) {
    || (e == AlreadyExists && exists p :: p in s.pendings && p.node == r.node && p.resource == r.resource)
    || (e == LimitReached && |s.pendings| >= MAX_PENDING_RESOURCES)
    || if !Known(s.workspaces, r.workspace) then e == NotFound
       else
         var w := Lookup(s.workspaces, r.workspace);
         || (e == RevisionChanged && Stale(w.revision, r.expectedRevision))
         || (e == WouldBlock && w.closing)
         || exists p :: Stores(s, w, r, attempt, p) && p.reservation == 0
              && ((e == AlreadyExists && LinkedElsewhere(s.workspaces, r.workspace, r.node, p.owner))
                  || NoRoom(s, w, p, e))
  }

  ghost predicate PrepareRefuses(s: State, r: ResourceRequest, attempt: bool, e: StoreError) {
    var c, i := CompletedIndex(s.completed, r.operation), PendingIndex(s.pendings, r.operation);
    || (e == InvalidName && !ValidName(r.ownerName))
    || if c < |s.completed| then e == OperationConflict && s.completed[c].fingerprint != r.fingerprint
       else if i < |s.pendings| then e == OperationConflict && !SameAsked(s.pendings[i], r)
       else NewResourceRefuses(s, r, attempt, e)
  }

  predicate SameShellAsked(p: Pending, r: ShellRequest) {
    && p.createsWorkspace && p.kind == Shell && p.fingerprint == r.fingerprint && p.workspace == r.workspace
    && p.node == r.node && p.requestedOwner == r.requestedOwner && p.ownerName == r.name
    && p.cwd == Some(r.cwd) && p.resource == r.shell
  }

  /** The creation a request asks to store. */
  predicate StoresCreation(r: ShellRequest, p: Pending) {
    && p.operation == r.operation && p.fingerprint == r.fingerprint && p.requestBytes == r.requestBytes
    && p.createsWorkspace && p.semantic == Some(r.semantic) && !p.attempted
    && p.workspace == r.workspace && p.expectedRevision == 1 && p.node == r.node
    && p.requestedOwner == r.requestedOwner && p.owner == r.requestedOwner && p.ownerName == r.name
    && p.cwd == Some(r.cwd) && p.resource == r.shell && p.kind == Shell
  }

  /** The alias of creation q that a request asks to store. */
  predicate StoresAlias(q: Pending, r: ShellRequest, p: Pending) {
    && p.operation == r.operation && p.fingerprint == r.fingerprint && p.requestBytes == r.requestBytes
    && p.createsWorkspace && p.semantic == Some(r.semantic) && !p.attempted && p.requestedOwner == r.requestedOwner
    && p.workspace == q.workspace && p.expectedRevision == q.expectedRevision && p.node == q.node
    && p.owner == q.owner && p.ownerName == q.ownerName && p.cwd == q.cwd && p.resource == q.resource
    && p.kind == Shell
  }

  /** The name is taken: only a creation of the same meaning, recorded or under way, may be repeated. */
  ghost predicate NamedShellRefuses(s: State, w: Workspace, r: ShellRequest, e: StoreError) {
    var c, q := ReplayIndex(s.completed, w.id, r.semantic), AliasIndex(s.pendings, w.id, r.semantic);
    if c < |s.completed| then
      e == StoreFull
      && StoreBytes(s.(completed := [s.completed[c].(operation := r.operation, fingerprint := r.fingerprint)]))
         > MAX_STORE_BYTES
    else if q < |s.pendings| then
      || (e == LimitReached && |s.pendings| >= MAX_PENDING_RESOURCES)
      || exists p :: StoresAlias(s.pendings[q], r, p) && p.reservation == 0 && NoRoom(s, w, p, e)
    else e == AlreadyExists
  }

  ghost predicate FreshShellRefuses(s: State, r: ShellRequest, e: StoreError) {
    var w := Workspace(r.workspace, 1, r.name, false, []);
    || (e == LimitReached && (|s.workspaces| >= MAX_WORKSPACES || |s.pendings| >= MAX_PENDING_RESOURCES))
    || (e == AlreadyExists && Known(s.workspaces, r.workspace))
    || exists p :: StoresCreation(r, p) && p.reservation == 0
         && NoRoom(s.(workspaces := s.workspaces + [w]), w, p, e)
  }

  ghost predicate ShellRefuses(s: State, r: ShellRequest, e: StoreError) {
    var c, i := CompletedIndex(s.completed, r.operation), PendingIndex(s.pendings, r.operation);
    var n := NameIndex(s.workspaces, r.name);
    || (e == InvalidName && !ValidName(r.name))
    || if c < |s.completed| then e == OperationConflict && s.completed[c].fingerprint != r.fingerprint
       else if i < |s.pendings| then e == OperationConflict && !SameShellAsked(s.pendings[i], r)
       else if n < |s.workspaces| then NamedShellRefuses(s, s.workspaces[n], r, e)
       else FreshShellRefuses(s, r, e)
  }

  predicate MarkRefuses(s: State, operation: Id, fingerprint: Fingerprint, e: StoreError) {
    var i := PendingIndex(s.pendings, operation);
    if i == |s.pendings| then e == NotFound
    else e == OperationConflict && s.pendings[i].fingerprint != fingerprint
  }

  /** A cancel of what is gone is an error unless it was completed. */
  predicate CancelRefuses(s: State, operation: Id, fingerprint: Fingerprint, e: StoreError) {
    var c, i := CompletedIndex(s.completed, operation), PendingIndex(s.pendings, operation);
    if i == |s.pendings| then
      e == NotFound && (c == |s.completed| || s.completed[c].fingerprint != fingerprint)
    else e == OperationConflict && s.pendings[i].fingerprint != fingerprint
  }

  predicate GuardedCancelRefuses(s: State, operation: Id, fingerprint: Fingerprint, e: StoreError) {
    var i := PendingIndex(s.pendings, operation);
    e == OperationConflict && i < |s.pendings| && s.pendings[i].fingerprint != fingerprint
  }

  /** The record a completion would make. */
  function RecordFor(p: Pending, w: Workspace, owner: Owner, resource: Resource): Completed {
    var x := Placement(p.node, owner.id, Some(owner.name), owner.revision, owner.cwd, Active);
    Completed(p.operation, p.fingerprint, p.semantic, p.createsWorkspace, PlaceTotal(w, x), resource)
  }

  predicate PendingRefuses(s: State, p: Pending, owner: Owner, resource: Resource, e: StoreError)
    requires Known(s.workspaces, p.workspace)
  {
    var w := Lookup(s.workspaces, p.workspace);
    || (e == OwnerMismatch && (owner.id != p.owner || owner.name != p.ownerName || owner.cwd != p.cwd))
    || (e == AlreadyExists && LinkedElsewhere(s.workspaces, p.workspace, p.node, owner.id))
    || (e == RevisionExhausted && !NodeUsed(w, p.node) && w.revision >= U64_MAX)
    || (e == ReservationExceeded && CompletedBytes(RecordFor(p, w, owner, resource)) > p.reservation)
  }

  predicate CompleteRefuses(s: State, operation: Id, fingerprint: Fingerprint, owner: Owner, resource: Resource,
                            e: StoreError)
    requires Homed(s.workspaces, s.pendings, s.pendingCwd)
  {
    var c, i := CompletedIndex(s.completed, operation), PendingIndex(s.pendings, operation);
    if i == |s.pendings| then
      e == NotFound && (c == |s.completed| || s.completed[c].fingerprint != fingerprint)
    else
      || (e == OperationConflict && s.pendings[i].fingerprint != fingerprint)
      || PendingRefuses(s, s.pendings[i], owner, resource, e)
  }

  // ---------- default directory ----------

  /** Two requests for the same change: everything but the marks of progress. */
  predicate SameCwdAsked(a: PendingCwd, b: PendingCwd) {
    a == b.(attempted := a.attempted, reservation := a.reservation)
  }

  predicate NewCwdRefuses(s: State, r: PendingCwd, e: StoreError) {
    || (e == WouldBlock && !Idle(r.workspace, s.pendings, s.pendingCwd))
    || (e == StoreFull && StoreBytes(Bare(s.(pendingCwd := s.pendingCwd
                                               + [r.(attempted := false, reservation := CWD_RESERVATION_BYTES)])))
                          > MAX_STORE_BYTES)
    || if !Known(s.workspaces, r.workspace) then e == NotFound
       else
         var w := Lookup(s.workspaces, r.workspace);
         || (e == RevisionChanged && Stale(w.revision, r.expectedRevision))
         || (e == WouldBlock && w.closing)
         || (e == NotFound && !exists l :: l in w.placements && l.node == r.node && l.ownerId == r.owner)
         || (e == RevisionChanged && exists l :: l in w.placements && l.node == r.node && l.ownerId == r.owner
                                                 && Stale(l.ownerRevision, r.expectedOwnerRevision))
  }

  predicate PrepareCwdRefuses(s: State, r: PendingCwd, e: StoreError) {
    var c, d := CompletedCwdIndex(s.completedCwd, r.operation), CwdIndex(s.pendingCwd, r.operation);
    if IsPending(s.pendings, r.operation) || IsCompleted(s.completed, r.operation) then e == OperationConflict
    else if c < |s.completedCwd| then e == OperationConflict && !SameCwdAsked(s.completedCwd[c].request, r)
    else if d < |s.pendingCwd| then e == OperationConflict && !SameCwdAsked(s.pendingCwd[d], r)
    else NewCwdRefuses(s, r, e)
  }

  predicate MarkCwdRefuses(s: State, r: PendingCwd, e: StoreError) {
    var d := CwdIndex(s.pendingCwd, r.operation);
    if d == |s.pendingCwd| then e == NotFound else e == OperationConflict && !SameCwdAsked(s.pendingCwd[d], r)
  }

  predicate CancelCwdRefuses(s: State, r: PendingCwd, e: StoreError) {
    var d := CwdIndex(s.pendingCwd, r.operation);
    e == OperationConflict && d < |s.pendingCwd| && !SameCwdAsked(s.pendingCwd[d], r)
  }

  predicate CompleteCwdRefuses(s: State, r: PendingCwd, owner: Owner, e: StoreError)
    requires Homed(s.workspaces, s.pendings, s.pendingCwd)
  {
    var c, d := CompletedCwdIndex(s.completedCwd, r.operation), CwdIndex(s.pendingCwd, r.operation);
    if c < |s.completedCwd| then e == OperationConflict && !SameCwdAsked(s.completedCwd[c].request, r)
    else if d == |s.pendingCwd| then e == NotFound
    else
      var w := Lookup(s.workspaces, s.pendingCwd[d].workspace);
      || (e == OperationConflict && !SameCwdAsked(s.pendingCwd[d], r))
      || (e == OperationConflict && (owner.id != r.owner || owner.cwd != Some(r.cwd)))
      || (e == OperationConflict && owner.revision != r.expectedOwnerRevision
          && owner.revision != r.expectedOwnerRevision + 1)
      || (e == OperationConflict && exists l :: l in w.placements && l.node == r.node && l.ownerId == r.owner
                                                && l.ownerRevision != r.expectedOwnerRevision)
      || (e == RevisionExhausted && owner.revision == r.expectedOwnerRevision + 1 && w.revision >= U64_MAX)
  }

  // ---------- the reasons are exact ----------

  lemma LinkedMeaning(ws: seq<Workspace>, id: Id, node: Id, owner: Id)
    ensures OwnerLinked(ws, node, owner) <==> Linked(ws, node, owner)
    ensures OwnerLinkedElsewhere(ws, id, node, owner) <==> LinkedElsewhere(ws, id, node, owner)
  {
    if Linked(ws, node, owner) {
      var w, l :| w in ws && l in w.placements && l.node == node && l.ownerId == owner;
      assert PairIn(w.placements, node, owner);
    }
    if LinkedElsewhere(ws, id, node, owner) {
      var w, l :| w in ws && w.id != id && l in w.placements && l.node == node && l.ownerId == owner;
      assert PairIn(w.placements, node, owner);
    }
  }

  lemma NameMeaning(ws: seq<Workspace>, name: string)
    ensures NameIndex(ws, name) < |ws| <==> NameUsed(ws, name)
  {
    if NameIndex(ws, name) < |ws| {
      assert ws[NameIndex(ws, name)] in ws;
    }
  }

  lemma CreateRefusedIff(s: State, id: Id, name: string)
    ensures var r := Create(s, id, name);
            (r.Failure? ==> CreateRefuses(s, name, r.error)) && (r.Success? ==> forall e :: !CreateRefuses(s, name, e))
  {
    hide ValidName;
    NameMeaning(s.workspaces, name);
  }

  lemma AdoptRefusedIff(s: State, id: Id, node: Id, owner: Owner, expected: nat)
    ensures var r := Adopt(s, id, node, owner, expected);
            && (r.Failure? ==> AdoptRefuses(s, node, owner, expected, r.error))
            && (r.Success? ==> forall e :: !AdoptRefuses(s, node, owner, expected, e))
  {
    hide OwnerLinked, Linked, NameUsed;
    NameMeaning(s.workspaces, owner.name);
    LinkedMeaning(s.workspaces, 0, node, owner.id);
  }

  lemma LinkRefusedIff(s: State, id: Id, expected: nat, node: Id, owner: Owner, expectedOwner: nat)
    ensures var r := Link(s, id, expected, node, owner, expectedOwner);
            && (r.Failure? ==> LinkRefuses(s, id, expected, node, owner, expectedOwner, r.error))
            && (r.Success? ==> forall e :: !LinkRefuses(s, id, expected, node, owner, expectedOwner, e))
  {
    hide OwnerLinked, Linked, HasPending, Idle, SortByNode;
    LinkedMeaning(s.workspaces, 0, node, owner.id);
    HasPendingMeaning(s, id);
  }

  lemma RenameRefusedIff(s: State, id: Id, expected: nat, name: string)
    ensures var r := Rename(s, id, expected, name);
            && (r.Failure? ==> RenameRefuses(s, id, expected, name, r.error))
            && (r.Success? ==> forall e :: !RenameRefuses(s, id, expected, name, e))
  {
    hide ValidName, HasPending, Idle;
    HasPendingMeaning(s, id);
  }

  lemma BeginCloseRefusedIff(s: State, id: Id, expected: nat)
    ensures var r := BeginClose(s, id, expected);
            && (r.Failure? ==> BeginCloseRefuses(s, id, expected, r.error))
            && (r.Success? ==> forall e :: !BeginCloseRefuses(s, id, expected, e))
  {
    hide HasPending, Idle, CloseAll;
    HasPendingMeaning(s, id);
  }

  lemma ConfirmRefusedIff(s: State, id: Id, node: Id, owner: Id)
    requires IsCoherent(s)
    ensures var r := ConfirmClosed(s, id, node, owner);
            && (r.Failure? ==> ConfirmRefuses(s, id, node, owner, r.error))
            && (r.Success? ==> forall e :: !ConfirmRefuses(s, id, node, owner, e))
  {
    hide IsCoherent, RetainOthers, Without;
    var k := WorkspaceIndex(s.workspaces, id);
    PlacementsAreSorted(s, k);
    if k < |s.workspaces| {
      var w := s.workspaces[k];
      RetainMeaning(w.placements, node, owner);
      var kept := RetainOthers(w.placements, node, owner);
      assert kept != [] ==> kept[0] in kept;
    }
  }

  lemma ConfirmEmptyRefusedIff(s: State, id: Id)
    ensures var r := ConfirmEmptyClosed(s, id);
            && (r.Failure? ==> ConfirmEmptyRefuses(s, id, r.error))
            && (r.Success? ==> forall e :: !ConfirmEmptyRefuses(s, id, e))
  {
  }

  lemma {:induction false} ImportFits(ws: seq<Workspace>, node: Id, owners: seq<Owner>)
    ensures var r := ImportAll(ws, node, owners);
            if owners != [] && |ws| + |owners| > MAX_WORKSPACES then r == Failure(LimitReached)
            else r.Success? && |r.value| == |ws| + |owners|
  {
    if owners != [] {
      ImportFits(ws, node, owners[..|owners| - 1]);
    }
  }

  lemma InitializeRefusedIff(s: State, node: Id, owners: seq<Owner>)
    ensures var r := InitializeLocalOnce(s, node, owners);
            && (r.Failure? ==> InitializeRefuses(s, owners, r.error))
            && (r.Success? ==> forall e :: !InitializeRefuses(s, owners, e))
  {
    hide ImportAll;
    ImportFits(s.workspaces, node, owners);
  }

  // ---------- resources ----------

  lemma SameAskedMeaning(p: Pending, r: ResourceRequest)
    ensures SameResourceRequest(p, r) <==> SameAsked(p, r)
  {
  }

  /** In a coherent store exactly one operation is asked for, up to its reservation. */
  lemma StoresOne(s: State, k: nat, r: ResourceRequest, attempt: bool, p: Pending)
    requires IsCoherent(s) && k < |s.workspaces| && s.workspaces[k].id == r.workspace && !s.workspaces[k].closing
    requires p.reservation == 0
    ensures Stores(s, s.workspaces[k], r, attempt, p) <==> p == NewPending(s.pendings, s.workspaces[k], r, attempt)
    ensures p.owner == EffectiveOwner(s.pendings, s.workspaces[k], r.node, r.requestedOwner)
            <== p == NewPending(s.pendings, s.workspaces[k], r, attempt)
  {
    var w := s.workspaces[k];
    NewPendingJoins(s, k, r, attempt);
    hide IsCoherent;
    var l, q := PlacementIndex(w.placements, r.node), PriorIndex(s.pendings, w.id, r.node);
    assert l < |w.placements| ==> w.placements[l] in w.placements;
    assert q < |s.pendings| ==> s.pendings[q] in s.pendings && Targets(s.pendings[q], r.workspace, r.node);
    StoredAgrees(s, w, r, NewPending(s.pendings, w, r, attempt), k);
  }

  lemma StoredAgrees(s: State, w: Workspace, r: ResourceRequest, p: Pending, k: nat)
    requires k < |s.workspaces| && w == s.workspaces[k] && Joins(s.workspaces, s.pendings, k, p)
    requires p.workspace == r.workspace && p.node == r.node
    ensures forall l :: l in w.placements && l.node == r.node ==> p.owner == l.ownerId
    ensures forall q :: q in s.pendings && Targets(q, r.workspace, r.node) ==>
              p.owner == q.owner && p.ownerName == q.ownerName && p.cwd == q.cwd
  {
    forall q | q in s.pendings && Targets(q, r.workspace, r.node)
      ensures p.owner == q.owner && p.ownerName == q.ownerName && p.cwd == q.cwd
    {
      var i :| 0 <= i < |s.pendings| && s.pendings[i] == q;
      assert SameTarget(s.pendings[i], p);
    }
  }

  lemma CompactRefusedIff(s: State, qs: seq<Pending>)
    ensures var r := Compact(s.(pendings := qs));
            && (r.Failure? ==> r.error == StoreFull)
            && (r.Failure? <==> StoreBytes(Bare(s.(pendings := qs))) > MAX_STORE_BYTES)
  {
    hide StoreBytes;
    CompactMeaning(s.(pendings := qs));
    CompactError(s.(pendings := qs));
  }

  lemma {:induction false} CompactError(s: State)
    ensures Compact(s).Failure? ==> Compact(s).error == StoreFull
    decreases |s.completed| + |s.completedCwd|
  {
    hide StoreBytes;
    if StoreBytes(s) > MAX_STORE_BYTES {
      if s.completed != [] {
        CompactError(s.(completed := s.completed[1..]));
      } else if s.completedCwd != [] {
        CompactError(s.(completedCwd := s.completedCwd[1..]));
      }
    }
  }

  lemma NewResourceRefusedIff(s: State, r: ResourceRequest, attempt: bool)
    requires IsCoherent(s)
    ensures var result := PrepareNewResource(s, r, attempt);
            && (result.Failure? ==> NewResourceRefuses(s, r, attempt, result.error))
            && (result.Success? ==> forall e :: !NewResourceRefuses(s, r, attempt, e))
  {
    hide IsCoherent, Stores, Reserve, Compact, StoreBytes, OwnerLinkedElsewhere, LinkedElsewhere, EffectiveOwner,
         NewPending;
    var k := WorkspaceIndex(s.workspaces, r.workspace);
    if k < |s.workspaces| && !s.workspaces[k].closing {
      var w := s.workspaces[k];
      var p := NewPending(s.pendings, w, r, attempt);
      NewUnreserved(s, w, r, attempt);
      StoresOne(s, k, r, attempt, p);
      forall q: Pending | q.reservation == 0
        ensures Stores(s, w, r, attempt, q) <==> q == p
      {
        StoresOne(s, k, r, attempt, q);
      }
      LinkedMeaning(s.workspaces, r.workspace, r.node, p.owner);
      if Reserve(s.pendings, w, p).Success? {
        CompactRefusedIff(s, Reserve(s.pendings, w, p).value);
      }
    }
  }

  lemma NewUnreserved(s: State, w: Workspace, r: ResourceRequest, attempt: bool)
    ensures NewPending(s.pendings, w, r, attempt).reservation == 0
  {
  }

  lemma PrepareRefusedIff(s: State, r: ResourceRequest, attempt: bool)
    requires IsCoherent(s)
    ensures var result := PrepareResource(s, r, attempt);
            && (result.Failure? ==> PrepareRefuses(s, r, attempt, result.error))
            && (result.Success? ==> forall e :: !PrepareRefuses(s, r, attempt, e))
  {
    hide ValidName, PrepareNewResource, NewResourceRefuses, SameResourceRequest, SameAsked, IsCoherent;
    NewResourceRefusedIff(s, r, attempt);
    var i := PendingIndex(s.pendings, r.operation);
    if i < |s.pendings| {
      SameAskedMeaning(s.pendings[i], r);
    }
  }

  lemma NamedShellRefusedIff(s: State, n: nat, r: ShellRequest)
    requires n < |s.workspaces| && !IsCompleted(s.completed, r.operation)
    ensures var result := PrepareNamed(s, s.workspaces[n], r);
            && (result.Failure? ==> NamedShellRefuses(s, s.workspaces[n], r, result.error))
            && (result.Success? ==> forall e :: !NamedShellRefuses(s, s.workspaces[n], r, e))
  {
    hide Reserve, Compact, StoreBytes, EvictCompleted;
    var w := s.workspaces[n];
    var c, q := ReplayIndex(s.completed, w.id, r.semantic), AliasIndex(s.pendings, w.id, r.semantic);
    if c < |s.completed| {
      ReplayRefusedIff(s, s.completed[c].(operation := r.operation, fingerprint := r.fingerprint));
    } else if q < |s.pendings| {
      var p := NewAlias(s.pendings[q], r);
      assert StoresAlias(s.pendings[q], r, p);
      assert forall x :: StoresAlias(s.pendings[q], r, x) && x.reservation == 0 ==> x == p;
      if Reserve(s.pendings, w, p).Success? {
        CompactRefusedIff(s, Reserve(s.pendings, w, p).value);
      }
    }
  }

  lemma ReplayRefusedIff(s: State, record: Completed)
    requires !IsCompleted(s.completed, record.operation)
    ensures var r := PushCompleted(s, record);
            && (r.Failure? ==> r.error == StoreFull)
            && (r.Failure? <==> StoreBytes(s.(completed := [record])) > MAX_STORE_BYTES)
  {
    hide StoreBytes, EvictCompleted;
    var t := s.(completed := s.completed + [record]);
    EvictCompletedFails(t);
    EvictCompletedError(t);
    assert Latest(t, 1) == s.(completed := [record]);
  }

  lemma FreshShellRefusedIff(s: State, r: ShellRequest)
    ensures var result := PrepareFresh(s, r);
            && (result.Failure? ==> FreshShellRefuses(s, r, result.error))
            && (result.Success? ==> forall e :: !FreshShellRefuses(s, r, e))
  {
    hide Reserve, Compact, StoreBytes;
    var w := Workspace(r.workspace, 1, r.name, false, []);
    var p := NewCreation(r);
    assert StoresCreation(r, p);
    assert forall x :: StoresCreation(r, x) && x.reservation == 0 ==> x == p;
    if Reserve(s.pendings, w, p).Success? {
      CompactRefusedIff(s.(workspaces := s.workspaces + [w]), Reserve(s.pendings, w, p).value);
    }
  }

  lemma SameShellMeaning(p: Pending, r: ShellRequest)
    ensures SameShellRequest(p, r) <==> SameShellAsked(p, r)
  {
  }

  lemma ShellRefusedIff(s: State, r: ShellRequest)
    requires IsCoherent(s)
    ensures var result := PrepareWorkspaceShell(s, r);
            && (result.Failure? ==> ShellRefuses(s, r, result.error))
            && (result.Success? ==> forall e :: !ShellRefuses(s, r, e))
  {
    hide IsCoherent, ValidName, PrepareNamed, PrepareFresh, NamedShellRefuses, FreshShellRefuses, SameShellRequest,
         SameShellAsked;
    var i, n := PendingIndex(s.pendings, r.operation), NameIndex(s.workspaces, r.name);
    if i < |s.pendings| {
      HomedAt(s, i);
      SameShellMeaning(s.pendings[i], r);
    }
    FreshShellRefusedIff(s, r);
    if n < |s.workspaces| && !IsCompleted(s.completed, r.operation) {
      NamedShellRefusedIff(s, n, r);
    }
  }

  lemma MarkRefusedIff(s: State, operation: Id, fingerprint: Fingerprint)
    ensures var r := MarkOwnerAttempted(s, operation, fingerprint);
            && (r.Failure? ==> MarkRefuses(s, operation, fingerprint, r.error))
            && (r.Success? ==> forall e :: !MarkRefuses(s, operation, fingerprint, e))
  {
  }

  lemma CancelRefusedIff(s: State, operation: Id, fingerprint: Fingerprint)
    ensures var r := CancelResource(s, operation, fingerprint);
            && (r.Failure? ==> CancelRefuses(s, operation, fingerprint, r.error))
            && (r.Success? ==> forall e :: !CancelRefuses(s, operation, fingerprint, e))
  {
    hide RemovePending;
  }

  lemma GuardedCancelRefusedIff(s: State, operation: Id, fingerprint: Fingerprint)
    ensures var r := CancelIfNeverAttempted(s, operation, fingerprint);
            && (r.Failure? ==> GuardedCancelRefuses(s, operation, fingerprint, r.error))
            && (r.Success? ==> forall e :: !GuardedCancelRefuses(s, operation, fingerprint, e))
  {
    hide RemovePending;
  }

  lemma RecordMeaning(p: Pending, w: Workspace, owner: Owner, resource: Resource)
    ensures CompletionRecord(p, PlaceTotal(w, OwnerPlacement(p.node, owner)), resource)
            == RecordFor(p, w, owner, resource)
    ensures HasNode(w.placements, p.node) <==> NodeUsed(w, p.node)
    ensures OwnerMatches(p, owner) <==> owner.id == p.owner && owner.name == p.ownerName && owner.cwd == p.cwd
  {
    hide PlaceTotal;
  }

  /** Once every reason is ruled out, the record is pushed. */
  lemma RecordIsPushed(s: State, i: nat, owner: Owner, resource: Resource)
    requires Sound(s) && i < |s.pendings| && Known(s.workspaces, s.pendings[i].workspace)
    requires OwnerMatches(s.pendings[i], owner) && FitsReservation(s, i, owner, resource)
    ensures var k := WorkspaceIndex(s.workspaces, s.pendings[i].workspace);
            var v := PlaceTotal(s.workspaces[k], OwnerPlacement(s.pendings[i].node, owner));
            PushCompleted(Settled(s, i, k, v), CompletionRecord(s.pendings[i], v, resource)).Success?
  {
    hide StoreBytes, CompletedBytes, EvictCompleted, PlaceTotal, IsCoherent;
    var k := WorkspaceIndex(s.workspaces, s.pendings[i].workspace);
    PlacementsAreSorted(s, k);
    OperationsApart(s, i);
    FittingShrinksStore(s, i, owner, resource);
    EvictAtMostOne(CompletedState(s, i, owner, resource));
  }

  lemma PendingRefusedIff(s: State, i: nat, owner: Owner, resource: Resource)
    requires Sound(s) && i < |s.pendings|
    ensures Known(s.workspaces, s.pendings[i].workspace)
    ensures var r := CompletePending(s, i, owner, resource);
            && (r.Failure? ==> PendingRefuses(s, s.pendings[i], owner, resource, r.error))
            && (r.Success? ==> forall e :: !PendingRefuses(s, s.pendings[i], owner, resource, e))
  {
    hide Sound, OwnerLinkedElsewhere, LinkedElsewhere, CompletedBytes, PlaceTotal, PushCompleted, CompletionRecord,
         RecordFor, OwnerMatches, NodeUsed;
    SoundParts(s, i);
    var p := s.pendings[i];
    var k := WorkspaceIndex(s.workspaces, p.workspace);
    LinkedMeaning(s.workspaces, p.workspace, p.node, owner.id);
    RecordMeaning(p, s.workspaces[k], owner, resource);
    if OwnerMatches(p, owner) && FitsReservation(s, i, owner, resource) {
      RecordIsPushed(s, i, owner, resource);
    }
  }

  lemma SoundParts(s: State, i: nat)
    requires Sound(s) && i < |s.pendings|
    ensures Known(s.workspaces, s.pendings[i].workspace)
    ensures var p := s.pendings[i];
            var w := s.workspaces[WorkspaceIndex(s.workspaces, p.workspace)];
            var l := PlacementIndex(w.placements, p.node);
            l < |w.placements| ==> w.placements[l].ownerId == p.owner
  {
    hide IsValid;
    HomedAt(s, i);
    OwnerAlreadyPlaced(s.workspaces, s.pendings, WorkspaceIndex(s.workspaces, s.pendings[i].workspace), i);
  }

  lemma CompleteRefusedIff(s: State, operation: Id, fingerprint: Fingerprint, owner: Owner, resource: Resource)
    requires Sound(s)
    ensures Homed(s.workspaces, s.pendings, s.pendingCwd)
    ensures var r := CompleteResource(s, operation, fingerprint, owner, resource);
            && (r.Failure? ==> CompleteRefuses(s, operation, fingerprint, owner, resource, r.error))
            && (r.Success? ==> forall e :: !CompleteRefuses(s, operation, fingerprint, owner, resource, e))
  {
    hide CompletePending, PendingRefuses, IsValid, StoreBytes;
    var i := PendingIndex(s.pendings, operation);
    if i < |s.pendings| {
      PendingRefusedIff(s, i, owner, resource);
    }
  }

  // ---------- default directory ----------

  lemma SameCwdMeaning(a: PendingCwd, b: PendingCwd)
    ensures SameCwdRequest(a, b) <==> SameCwdAsked(a, b)
  {
  }

  lemma CompactCwdRefusedIff(s: State, ds: seq<PendingCwd>)
    ensures var r := Compact(s.(pendingCwd := ds));
            && (r.Failure? ==> r.error == StoreFull)
            && (r.Failure? <==> StoreBytes(Bare(s.(pendingCwd := ds))) > MAX_STORE_BYTES)
  {
    hide StoreBytes;
    CompactMeaning(s.(pendingCwd := ds));
    CompactError(s.(pendingCwd := ds));
  }

  lemma OnePlacement(w: Workspace, node: Id, owner: Id)
    requires Sorted(w.placements)
    ensures var l := PlacementIndex(w.placements, node);
            && (l < |w.placements| ==> w.placements[l] in w.placements)
            && (forall m :: m in w.placements && m.node == node ==> l < |w.placements| && m == w.placements[l])
  {
  }

  lemma PrepareCwdRefusedIff(s: State, r: PendingCwd)
    requires IsCoherent(s)
    ensures var result := PrepareDefaultCwd(s, r);
            && (result.Failure? ==> PrepareCwdRefuses(s, r, result.error))
            && (result.Success? ==> forall e :: !PrepareCwdRefuses(s, r, e))
  {
    hide IsCoherent, SameCwdRequest, SameCwdAsked, NewCwdRefuses;
    var c, d := CompletedCwdIndex(s.completedCwd, r.operation), CwdIndex(s.pendingCwd, r.operation);
    if c == |s.completedCwd| && d == |s.pendingCwd|
       && !IsPending(s.pendings, r.operation) && !IsCompleted(s.completed, r.operation)
    {
      NewCwdRefusedIff(s, r);
    } else {
      hide Compact, HasPending;
      if c < |s.completedCwd| {
        CwdAskedAgain(s.completedCwd[c].request, r);
      } else if d < |s.pendingCwd| {
        CwdAskedAgain(s.pendingCwd[d], r);
      }
    }
  }

  lemma NewCwdRefusedIff(s: State, r: PendingCwd)
    requires IsCoherent(s)
    requires !IsPending(s.pendings, r.operation) && !IsCompleted(s.completed, r.operation)
    requires CompletedCwdIndex(s.completedCwd, r.operation) == |s.completedCwd|
    requires CwdIndex(s.pendingCwd, r.operation) == |s.pendingCwd|
    ensures var result := PrepareDefaultCwd(s, r);
            && (result.Failure? ==> NewCwdRefuses(s, r, result.error))
            && (result.Success? ==> forall e :: !NewCwdRefuses(s, r, e))
  {
    hide IsCoherent, HasPending, Idle, SameCwdRequest, Compact, StoreBytes, Sorted;
    var k := WorkspaceIndex(s.workspaces, r.workspace);
    HasPendingMeaning(s, r.workspace);
    PlacementsAreSorted(s, k);
    if k < |s.workspaces| {
      OnePlacement(s.workspaces[k], r.node, r.owner);
    }
    CompactCwdRefusedIff(s, s.pendingCwd + [r.(attempted := false, reservation := CWD_RESERVATION_BYTES)]);
  }

  lemma CwdAskedAgain(a: PendingCwd, r: PendingCwd)
    ensures SameCwdRequest(a, r.(attempted := false, reservation := CWD_RESERVATION_BYTES)) <==> SameCwdAsked(a, r)
  {
  }

  lemma MarkCwdRefusedIff(s: State, r: PendingCwd)
    ensures var result := MarkDefaultCwdAttempted(s, r);
            && (result.Failure? ==> MarkCwdRefuses(s, r, result.error))
            && (result.Success? ==> forall e :: !MarkCwdRefuses(s, r, e))
  {
    hide SameCwdRequest, SameCwdAsked;
    var d := CwdIndex(s.pendingCwd, r.operation);
    if d < |s.pendingCwd| {
      SameCwdMeaning(s.pendingCwd[d], r);
    }
  }

  lemma CancelCwdRefusedIff(s: State, r: PendingCwd, only: bool)
    ensures var result := CancelDefaultCwd(s, r, only);
            && (result.Failure? ==> CancelCwdRefuses(s, r, result.error))
            && (result.Success? ==> forall e :: !CancelCwdRefuses(s, r, e))
  {
    hide SameCwdRequest, SameCwdAsked;
    var d := CwdIndex(s.pendingCwd, r.operation);
    if d < |s.pendingCwd| {
      SameCwdMeaning(s.pendingCwd[d], r);
    }
  }

  /** The change asked for, not the entry found: they agree in all that matters. */
  lemma CwdFound(s: State, r: PendingCwd, owner: Owner)
    requires Sound(s) && CwdIndex(s.pendingCwd, r.operation) < |s.pendingCwd|
    requires CompletedCwdIndex(s.completedCwd, r.operation) == |s.completedCwd|
    requires SameCwdAsked(s.pendingCwd[CwdIndex(s.pendingCwd, r.operation)], r)
    ensures var d := s.pendingCwd[CwdIndex(s.pendingCwd, r.operation)];
            CompleteDefaultCwd(s, r, owner) == CompleteDefaultCwd(s, d, owner)
  {
    hide Compact, IsValid, IsCoherent, StoreBytes;
  }

  lemma CompleteCwdRefusedIff(s: State, r: PendingCwd, owner: Owner)
    requires Sound(s)
    ensures Homed(s.workspaces, s.pendings, s.pendingCwd)
    ensures var result := CompleteDefaultCwd(s, r, owner);
            && (result.Failure? ==> CompleteCwdRefuses(s, r, owner, result.error))
            && (result.Success? ==> forall e :: !CompleteCwdRefuses(s, r, owner, e))
  {
    HomedAll(s);
    hide CompleteDefaultCwd, IsValid, IsCoherent, StoreBytes, SameCwdAsked, Compact, CwdDone, Homed, Answers, Placed;
    var c, d := CompletedCwdIndex(s.completedCwd, r.operation), CwdIndex(s.pendingCwd, r.operation);
    if c < |s.completedCwd| || d == |s.pendingCwd| {
      SettledCwdAnswer(s, r, owner);
    } else if !SameCwdAsked(s.pendingCwd[d], r) || !Answers(s.pendingCwd[d], owner) {
      UnansweredCwd(s, r, owner);
    } else {
      CwdFound(s, r, owner);
      AnsweredCwd(s, d, r, owner);
    }
  }

  lemma HomedAll(s: State)
    requires Sound(s)
    ensures Homed(s.workspaces, s.pendings, s.pendingCwd)
  {
    hide IsValid;
  }

  lemma SettledCwdAnswer(s: State, r: PendingCwd, owner: Owner)
    requires Homed(s.workspaces, s.pendings, s.pendingCwd)
    requires CompletedCwdIndex(s.completedCwd, r.operation) < |s.completedCwd|
             || CwdIndex(s.pendingCwd, r.operation) == |s.pendingCwd|
    ensures var result := CompleteDefaultCwd(s, r, owner);
            && (result.Failure? ==> CompleteCwdRefuses(s, r, owner, result.error))
            && (result.Success? ==> forall e :: !CompleteCwdRefuses(s, r, owner, e))
  {
    hide Homed, SameCwdRequest, SameCwdAsked;
    var c := CompletedCwdIndex(s.completedCwd, r.operation);
    if c < |s.completedCwd| {
      SameCwdMeaning(s.completedCwd[c].request, r);
    }
  }

  lemma UnansweredCwd(s: State, r: PendingCwd, owner: Owner)
    requires Homed(s.workspaces, s.pendings, s.pendingCwd)
    requires CompletedCwdIndex(s.completedCwd, r.operation) == |s.completedCwd|
    requires CwdIndex(s.pendingCwd, r.operation) < |s.pendingCwd|
    requires var d := s.pendingCwd[CwdIndex(s.pendingCwd, r.operation)];
             !SameCwdAsked(d, r) || !Answers(d, owner)
    ensures var result := CompleteDefaultCwd(s, r, owner);
            result == Failure(OperationConflict) && CompleteCwdRefuses(s, r, owner, OperationConflict)
  {
    hide Homed, Compact, CwdMoved;
    SameCwdMeaning(s.pendingCwd[CwdIndex(s.pendingCwd, r.operation)], r);
  }

  lemma AnsweredCwd(s: State, n: nat, r: PendingCwd, owner: Owner)
    requires Sound(s) && n < |s.pendingCwd| && n == CwdIndex(s.pendingCwd, r.operation)
    requires CompletedCwdIndex(s.completedCwd, r.operation) == |s.completedCwd|
    requires SameCwdAsked(s.pendingCwd[n], r) && Answers(s.pendingCwd[n], owner)
    requires Homed(s.workspaces, s.pendings, s.pendingCwd)
    ensures var result := CompleteDefaultCwd(s, s.pendingCwd[n], owner);
            && (result.Failure? ==> CompleteCwdRefuses(s, r, owner, result.error))
            && (result.Success? ==> forall e :: !CompleteCwdRefuses(s, r, owner, e))
  {
    hide CompleteDefaultCwd, IsValid, IsCoherent, StoreBytes, Compact, CwdDone, Homed, Placed;
    PlacedHere(s, n);
    CompletionOf(s, n, owner);
    CwdHasRoom(s, n, owner);
  }

  lemma CwdHasRoom(s: State, n: nat, owner: Owner)
    requires Sound(s) && Placed(s, n)
    ensures Compact(CwdDone(s, n, owner)).Success?
  {
    hide IsCoherent, StoreBytes, Compact, CwdDone;
    CwdAlwaysHasRoom(s, n, owner);
  }

  lemma PlacedHere(s: State, n: nat)
    requires Sound(s) && n < |s.pendingCwd|
    ensures Placed(s, n)
    ensures var d := s.pendingCwd[n];
            var w := Lookup(s.workspaces, d.workspace);
            var l := PairIndex(w.placements, d.node, d.owner);
            && l < |w.placements| && w.placements[l] in w.placements
            && (forall m :: m in w.placements && m.node == d.node ==> m == w.placements[l])
  {
    hide IsValid, IsCoherent;
    PlacementHeld(s, n);
  }

  // ---------- every call ----------

  /** The reasons for which a call is refused. */
  ghost predicate Refuses(s: State, op: Op, e: StoreError)
    requires Homed(s.workspaces, s.pendings, s.pendingCwd)
  {
    match op
    case OpPrepareResource(r, attempt) => PrepareRefuses(s, r, attempt, e)
    case OpPrepareShell(r) => ShellRefuses(s, r, e)
    case OpMark(o, f) => MarkRefuses(s, o, f, e)
    case OpCancel(o, f) => CancelRefuses(s, o, f, e)
    case OpCancelUnattempted(o, f) => GuardedCancelRefuses(s, o, f, e)
    case OpComplete(o, f, owner, resource) => CompleteRefuses(s, o, f, owner, resource, e)
    case OpPrepareCwd(r) => PrepareCwdRefuses(s, r, e)
    case OpMarkCwd(r) => MarkCwdRefuses(s, r, e)
    case OpCancelCwd(r, only) => CancelCwdRefuses(s, r, e)
    case OpCompleteCwd(r, owner) => CompleteCwdRefuses(s, r, owner, e)
    case OpCreate(id, name) => CreateRefuses(s, name, e)
    case OpAdopt(id, node, owner, expected) => AdoptRefuses(s, node, owner, expected, e)
    case OpLink(w, expected, node, owner, eo) => LinkRefuses(s, w, expected, node, owner, eo, e)
    case OpRename(w, expected, name) => RenameRefuses(s, w, expected, name, e)
    case OpBeginClose(w, expected) => BeginCloseRefuses(s, w, expected, e)
    case OpConfirmClosed(w, node, owner) => ConfirmRefuses(s, w, node, owner, e)
    case OpConfirmEmpty(w) => ConfirmEmptyRefuses(s, w, e)
    case OpInitialize(node, owners) => InitializeRefuses(s, owners, e)
  }

  ghost predicate Exact(s: State, op: Op)
    requires Homed(s.workspaces, s.pendings, s.pendingCwd)
  {
    var r := Attempt(s, op);
    (r.Failure? ==> Refuses(s, op, r.error)) && (r.Success? ==> forall e :: !Refuses(s, op, e))
  }

  lemma WorkspaceOpExact(s: State, op: Op)
    requires Sound(s) && IsWorkspaceOp(op) && Homed(s.workspaces, s.pendings, s.pendingCwd)
    ensures Exact(s, op)
  {
    hide IsValid, IsCoherent, StoreBytes, Homed, Create, Adopt, Link, Rename, BeginClose, ConfirmClosed,
         ConfirmEmptyClosed, InitializeLocalOnce, CreateRefuses, AdoptRefuses, LinkRefuses, RenameRefuses,
         BeginCloseRefuses, ConfirmRefuses, ConfirmEmptyRefuses, InitializeRefuses;
    match op
    case OpCreate(id, name) => CreateRefusedIff(s, id, name);
    case OpAdopt(id, node, owner, expected) => AdoptRefusedIff(s, id, node, owner, expected);
    case OpLink(w, expected, node, owner, eo) => LinkRefusedIff(s, w, expected, node, owner, eo);
    case OpRename(w, expected, name) => RenameRefusedIff(s, w, expected, name);
    case OpBeginClose(w, expected) => BeginCloseRefusedIff(s, w, expected);
    case OpConfirmClosed(w, node, owner) => ConfirmRefusedIff(s, w, node, owner);
    case OpConfirmEmpty(w) => ConfirmEmptyRefusedIff(s, w);
    case OpInitialize(node, owners) => InitializeRefusedIff(s, node, owners);
  }

  lemma ResourceOpExact(s: State, op: Op)
    requires Sound(s) && Homed(s.workspaces, s.pendings, s.pendingCwd)
    requires op.OpPrepareResource? || op.OpPrepareShell? || op.OpMark? || IsCancel(op) || op.OpComplete?
    ensures Exact(s, op)
  {
    hide IsValid, IsCoherent, StoreBytes, Homed, PrepareResource, PrepareWorkspaceShell, MarkOwnerAttempted,
         CancelResource, CancelIfNeverAttempted, CompleteResource, PrepareRefuses, ShellRefuses, MarkRefuses,
         CancelRefuses, GuardedCancelRefuses, CompleteRefuses;
    match op
    case OpPrepareResource(r, attempt) => PrepareRefusedIff(s, r, attempt);
    case OpPrepareShell(r) => ShellRefusedIff(s, r);
    case OpMark(o, f) => MarkRefusedIff(s, o, f);
    case OpCancel(o, f) => CancelRefusedIff(s, o, f);
    case OpCancelUnattempted(o, f) => GuardedCancelRefusedIff(s, o, f);
    case OpComplete(o, f, owner, resource) => CompleteRefusedIff(s, o, f, owner, resource);
  }

  lemma CwdOpExact(s: State, op: Op)
    requires Sound(s) && Homed(s.workspaces, s.pendings, s.pendingCwd)
    requires op.OpPrepareCwd? || op.OpMarkCwd? || op.OpCancelCwd? || op.OpCompleteCwd?
    ensures Exact(s, op)
  {
    hide IsValid, IsCoherent, StoreBytes, Homed, PrepareDefaultCwd, MarkDefaultCwdAttempted, CancelDefaultCwd,
         CompleteDefaultCwd, PrepareCwdRefuses, MarkCwdRefuses, CancelCwdRefuses, CompleteCwdRefuses;
    match op
    case OpPrepareCwd(r) => PrepareCwdRefusedIff(s, r);
    case OpMarkCwd(r) => MarkCwdRefusedIff(s, r);
    case OpCancelCwd(r, only) => CancelCwdRefusedIff(s, r, only);
    case OpCompleteCwd(r, owner) => CompleteCwdRefusedIff(s, r, owner);
  }

  /** After any run, every call of the coordinator fails if and only if one of its reasons
      applies, and it fails with one that does. */
  lemma RefusedIff(ops: seq<Op>, op: Op)
    ensures var s := Run(EMPTY, ops);
            && Homed(s.workspaces, s.pendings, s.pendingCwd)
            && var r := Attempt(s, op);
               && (r.Failure? <==> exists e :: Refuses(s, op, e))
               && (r.Failure? ==> Refuses(s, op, r.error))
  {
    hide Run, Attempt, Refuses, Sound;
    EveryRunIsSound(ops);
    var s := Run(EMPTY, ops);
    HomedAll(s);
    if IsWorkspaceOp(op) {
      WorkspaceOpExact(s, op);
    } else if op.OpPrepareCwd? || op.OpMarkCwd? || op.OpCancelCwd? || op.OpCompleteCwd? {
      CwdOpExact(s, op);
    } else {
      ResourceOpExact(s, op);
    }
  }
}
