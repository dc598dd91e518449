/** What a successful call changes, and what its answer says: read off the states before and
    after, for every call. */
module Effects {
  import opened Basics
  import opened StoreTypes
  import opened Placements
  import opened StoreOps
  import opened StoreInvariant
  import opened Eviction
  import opened StoreSteps
  import opened Lifecycle
  import opened Aliases
  import opened DefaultCwd
  import opened Retry
  import opened Refusals
  import Capacity

  // ---------- plain words ----------

  /** The owner's record as a placement on its Node. */
  function Recorded(node: Id, owner: Owner): Placement {
    Placement(node, owner.id, Some(owner.name), owner.revision, owner.cwd, Active)
  }

  predicate Adds(s: State, s': State, w: Workspace) {
    s' == s.(workspaces := s.workspaces + [w])
  }

  /** Only this Workspace may differ, and it keeps its id. */
  predicate Edits(ws: seq<Workspace>, vs: seq<Workspace>, id: Id) {
    && |vs| == |ws| && Known(ws, id) && Known(vs, id)
    && forall k :: 0 <= k < |ws| ==> vs[k].id == ws[k].id && (ws[k].id != id ==> vs[k] == ws[k])
  }

  predicate Drops(s: State, s': State, id: Id) {
    Known(s.workspaces, id) && s' == s.(workspaces := Without(s.workspaces, WorkspaceIndex(s.workspaces, id)))
  }

  /** v is w with placement x on its Node, alone there. */
  ghost predicate Places(w: Workspace, v: Workspace, x: Placement) {
    && v.id == w.id && v.name == w.name && v.closing == w.closing
    && forall y :: y in v.placements <==> y == x || (y in w.placements && y.node != x.node)
  }

  // ---------- Workspace calls ----------

  ghost predicate LinkShows(s: State, s': State, id: Id, node: Id, owner: Owner) {
    && s' == s.(workspaces := s'.workspaces) && Edits(s.workspaces, s'.workspaces, id)
    && var w, v := Lookup(s.workspaces, id), Lookup(s'.workspaces, id);
       Places(w, v, Recorded(node, owner)) && !NodeUsed(w, node) && v.revision == w.revision + 1
  }

  predicate RenameShows(s: State, s': State, id: Id, name: string) {
    && s' == s.(workspaces := s'.workspaces) && Edits(s.workspaces, s'.workspaces, id)
    && var w, v := Lookup(s.workspaces, id), Lookup(s'.workspaces, id);
       && v.name == name && v.placements == w.placements && v.closing == w.closing
       && v.revision == if w.name == name then w.revision else w.revision + 1
  }

  predicate BeginCloseShows(s: State, s': State, id: Id) {
    && s' == s.(workspaces := s'.workspaces) && Edits(s.workspaces, s'.workspaces, id)
    && var w, v := Lookup(s.workspaces, id), Lookup(s'.workspaces, id);
       if w.closing then v == w
       else
         && v.closing && v.name == w.name && v.revision == w.revision + 1
         && |v.placements| == |w.placements|
         && forall l :: 0 <= l < |w.placements| ==>
              var x, y := w.placements[l], v.placements[l];
              y.state == ClosePending && x == y.(state := x.state)
  }

  /** The pair is gone and the rest stands; with the last pair the Workspace goes. */
  ghost predicate ConfirmShows(s: State, s': State, id: Id, node: Id, owner: Id) {
    && Known(s.workspaces, id)
    && var w := Lookup(s.workspaces, id);
       if forall l :: l in w.placements ==> l.node == node && l.ownerId == owner then Drops(s, s', id)
       else
         && s' == s.(workspaces := s'.workspaces) && Edits(s.workspaces, s'.workspaces, id)
         && var v := Lookup(s'.workspaces, id);
            && v.name == w.name && v.closing == w.closing && v.revision == w.revision + 1
            && forall l :: l in v.placements <==> l in w.placements && (l.node != node || l.ownerId != owner)
  }

  predicate InitializeShows(s: State, s': State, node: Id, owners: seq<Owner>) {
    if s.migrated then s' == s
    else
      && s' == s.(workspaces := s'.workspaces, migrated := true)
      && |s'.workspaces| == |s.workspaces| + |owners| && s'.workspaces[..|s.workspaces|] == s.workspaces
      && forall i :: 0 <= i < |owners| ==>
           s'.workspaces[|s.workspaces| + i]
           == Workspace(owners[i].id, 1, owners[i].name, false, [Recorded(node, owners[i])])
  }

  lemma SameIndex(ws: seq<Workspace>, k: nat, v: Workspace)
    requires k < |ws| && v.id == ws[k].id && WorkspaceIndex(ws, v.id) == k
    ensures WorkspaceIndex(ws[k := v], v.id) == k
  {
    var vs := ws[k := v];
    assert vs[k].id == v.id;
    assert forall j :: 0 <= j < k ==> vs[j] == ws[j];
  }

  lemma OneEdited(ws: seq<Workspace>, id: Id, v: Workspace)
    requires Known(ws, id) && v.id == id
    ensures Edits(ws, ws[WorkspaceIndex(ws, id) := v], id) && Known(ws[WorkspaceIndex(ws, id) := v], id)
    ensures Lookup(ws[WorkspaceIndex(ws, id) := v], id) == v
  {
    hide WorkspaceIndex;
    SameIndex(ws, WorkspaceIndex(ws, id), v);
  }

  /** Linking a Node not yet used there is placing. */
  lemma LinkedIsPlaced(w: Workspace, x: Placement)
    requires Sorted(w.placements) && !NodeUsed(w, x.node)
    ensures Places(w, w.(revision := w.revision + 1, placements := SortByNode(w.placements + [x])), x)
  {
    hide SortByNode;
    assert forall l :: 0 <= l < |w.placements| ==> w.placements[l] in w.placements;
    LinkIsPlacing(w.placements, x);
    PlaceAtMeaning(w.placements, x);
  }

  lemma LinkIsShown(s: State, id: Id, expected: nat, node: Id, owner: Owner, expectedOwner: nat)
    requires IsCoherent(s) && Link(s, id, expected, node, owner, expectedOwner).Success?
    ensures var (s', w) := Link(s, id, expected, node, owner, expectedOwner).value;
            LinkShows(s, s', id, node, owner) && w == Lookup(s'.workspaces, id)
  {
    hide OwnerLinked, HasPending, SortByNode, IsCoherent, Places, Edits, Lookup;
    var k := WorkspaceIndex(s.workspaces, id);
    PlacementsAreSorted(s, k);
    LinkedIsPlaced(s.workspaces[k], OwnerPlacement(node, owner));
    OneEdited(s.workspaces, id, Link(s, id, expected, node, owner, expectedOwner).value.1);
    LookedUp(s.workspaces, id);
  }

  lemma LookedUp(ws: seq<Workspace>, id: Id)
    requires Known(ws, id)
    ensures Lookup(ws, id) == ws[WorkspaceIndex(ws, id)]
  {
  }

  lemma RenameIsShown(s: State, id: Id, expected: nat, name: string)
    requires Rename(s, id, expected, name).Success?
    ensures var (s', w) := Rename(s, id, expected, name).value;
            RenameShows(s, s', id, name) && w == Lookup(s'.workspaces, id)
  {
    hide HasPending, ValidName;
    OneEdited(s.workspaces, id, Rename(s, id, expected, name).value.1);
    Unedited(s, id);
  }

  lemma Unedited(s: State, id: Id)
    requires Known(s.workspaces, id)
    ensures Edits(s.workspaces, s.workspaces, id) && s == s.(workspaces := s.workspaces)
  {
  }

  lemma BeginCloseIsShown(s: State, id: Id, expected: nat)
    requires BeginClose(s, id, expected).Success?
    ensures var (s', w) := BeginClose(s, id, expected).value;
            BeginCloseShows(s, s', id) && w == Lookup(s'.workspaces, id)
  {
    hide HasPending, CloseAll;
    OneEdited(s.workspaces, id, BeginClose(s, id, expected).value.1);
    Unedited(s, id);
  }

  /** What retain keeps of a Workspace's placements: nothing if and only if every one is this pair's. */
  lemma KeptMeaning(w: Workspace, node: Id, owner: Id)
    requires Sorted(w.placements)
    ensures var kept := RetainOthers(w.placements, node, owner);
            && (forall l :: l in kept <==> l in w.placements && (l.node != node || l.ownerId != owner))
            && (kept == [] <==> forall l :: l in w.placements ==> l.node == node && l.ownerId == owner)
  {
    hide RetainOthers, Sorted;
    RetainMeaning(w.placements, node, owner);
    var kept := RetainOthers(w.placements, node, owner);
    assert kept != [] ==> kept[0] in kept;
  }

  lemma ConfirmIsShown(s: State, id: Id, node: Id, owner: Id)
    requires IsCoherent(s) && ConfirmClosed(s, id, node, owner).Success?
    ensures var (s', w) := ConfirmClosed(s, id, node, owner).value;
            && ConfirmShows(s, s', id, node, owner)
            && (w.Some? ==> Known(s'.workspaces, id) && w.value == Lookup(s'.workspaces, id))
            && (w.None? ==> !Known(s'.workspaces, id))
  {
    hide IsCoherent, RetainOthers, IdsDistinct, Edits, Without, Sorted;
    CoherentIds(s);
    var k := WorkspaceIndex(s.workspaces, id);
    var w := s.workspaces[k];
    PlacementsAreSorted(s, k);
    KeptMeaning(w, node, owner);
    if RetainOthers(w.placements, node, owner) == [] {
      KnownAfterWithout(s.workspaces, k);
    } else {
      OneEdited(s.workspaces, id, ConfirmClosed(s, id, node, owner).value.1.value);
    }
  }

  lemma NewIsShown(s: State, id: Id, name: string)
    requires Create(s, id, name).Success?
    ensures var (s', w) := Create(s, id, name).value;
            w == Workspace(id, 1, name, false, []) && Adds(s, s', w)
  {
    hide ValidName;
  }

  lemma AdoptedIsShown(s: State, id: Id, node: Id, owner: Owner, expected: nat)
    requires Adopt(s, id, node, owner, expected).Success?
    ensures var (s', w) := Adopt(s, id, node, owner, expected).value;
            w == Workspace(id, 1, owner.name, false, [Recorded(node, owner)]) && Adds(s, s', w)
  {
    hide OwnerLinked;
  }

  lemma InitializeIsShown(s: State, node: Id, owners: seq<Owner>)
    requires InitializeLocalOnce(s, node, owners).Success?
    ensures var (s', done) := InitializeLocalOnce(s, node, owners).value;
            InitializeShows(s, s', node, owners) && done == !s.migrated
  {
    hide ImportAll;
    if !s.migrated {
      ImportIsShown(s.workspaces, node, owners);
    }
  }

  lemma {:induction false} ImportIsShown(ws: seq<Workspace>, node: Id, owners: seq<Owner>)
    requires ImportAll(ws, node, owners).Success?
    ensures var vs := ImportAll(ws, node, owners).value;
            && |vs| == |ws| + |owners| && vs[..|ws|] == ws
            && forall i :: 0 <= i < |owners| ==>
                 vs[|ws| + i] == Workspace(owners[i].id, 1, owners[i].name, false, [Recorded(node, owners[i])])
  {
    if owners != [] {
      ImportIsShown(ws, node, owners[..|owners| - 1]);
    }
  }

  // ---------- resource calls ----------

  /** p, its reservation set, joins the pending ledger last; only reservations on its Workspace
      may have grown; otherwise at most oldest completed entries are gone. */
  predicate Appends(s: State, s': State, p: Pending) {
    && |s'.pendings| == |s.pendings| + 1
    && s'.pendings[|s.pendings|] == p.(reservation := s'.pendings[|s.pendings|].reservation)
    && (forall i :: 0 <= i < |s.pendings| ==>
          && s'.pendings[i] == s.pendings[i].(reservation := s'.pendings[i].reservation)
          && s'.pendings[i].reservation >= s.pendings[i].reservation
          && (s.pendings[i].workspace != p.workspace ==> s'.pendings[i] == s.pendings[i]))
    && OnlyEvicts(s.(pendings := s'.pendings), s')
  }

  ghost predicate PrepareShows(s: State, s': State, r: ResourceRequest, attempt: bool) {
    var i := PendingIndex(s.pendings, r.operation);
    if IsCompleted(s.completed, r.operation) then s' == s
    else if i < |s.pendings| then
      s' == s.(pendings := s.pendings[i := s.pendings[i].(attempted := s.pendings[i].attempted || attempt)])
    else
      && Known(s.workspaces, r.workspace)
      && exists p :: Stores(s, Lookup(s.workspaces, r.workspace), r, attempt, p) && Appends(s, s', p)
  }

  ghost predicate ShellShows(s: State, s': State, r: ShellRequest) {
    var n := NameIndex(s.workspaces, r.name);
    if IsCompleted(s.completed, r.operation) || IsPending(s.pendings, r.operation) then s' == s
    else if n == |s.workspaces| then
      var w := Workspace(r.workspace, 1, r.name, false, []);
      exists p :: StoresCreation(r, p) && Appends(s.(workspaces := s.workspaces + [w]), s', p)
    else
      var c, q := ReplayIndex(s.completed, s.workspaces[n].id, r.semantic),
                  AliasIndex(s.pendings, s.workspaces[n].id, r.semantic);
      if c < |s.completed| then
        var record := s.completed[c].(operation := r.operation, fingerprint := r.fingerprint);
        && s' == s.(completed := s'.completed) && IsSuffix(s'.completed, s.completed + [record])
        && record in s'.completed
      else q < |s.pendings| && exists p :: StoresAlias(s.pendings[q], r, p) && Appends(s, s', p)
  }

  /** The operation is gone; the Workspace too if it was creating it, nothing was placed there
      and nothing else is prepared for it. */
  predicate Cancelled(s: State, s': State, i: nat)
    requires i < |s.pendings|
  {
    var p, ps := s.pendings[i], Without(s.pendings, i);
    var k := WorkspaceIndex(s.workspaces, p.workspace);
    if p.createsWorkspace && k < |s.workspaces| && s.workspaces[k].placements == []
       && (forall q :: q in ps ==> q.workspace != p.workspace)
    then s' == s.(pendings := ps, workspaces := Without(s.workspaces, k))
    else s' == s.(pendings := ps)
  }

  predicate CancelShows(s: State, s': State, operation: Id, guarded: bool) {
    var i := PendingIndex(s.pendings, operation);
    if i == |s.pendings| then s' == s
    else if s.pendings[i].attempted && (guarded || s.pendings[i].createsWorkspace) then s' == s
    else Cancelled(s, s', i)
  }

  ghost predicate CompleteShows(s: State, s': State, operation: Id, owner: Owner, resource: Resource) {
    var i := PendingIndex(s.pendings, operation);
    if i == |s.pendings| then s' == s
    else
      var p := s.pendings[i];
      && s' == s.(workspaces := s'.workspaces, pendings := Without(s.pendings, i), completed := s'.completed)
      && Edits(s.workspaces, s'.workspaces, p.workspace)
      && var w, v := Lookup(s.workspaces, p.workspace), Lookup(s'.workspaces, p.workspace);
         && Places(w, v, Recorded(p.node, owner))
         && v.revision == (if NodeUsed(w, p.node) then w.revision else w.revision + 1)
         && var record := Completed(p.operation, p.fingerprint, p.semantic, p.createsWorkspace, v, resource);
            s'.completed != [] && s'.completed[|s'.completed| - 1] == record
            && IsSuffix(s'.completed, s.completed + [record])
  }

  lemma AppendedBy(s: State, s': State, w: Workspace, p: Pending)
    requires Reserve(s.pendings, w, p) == Success(s'.pendings) && p.workspace == w.id
    requires OnlyEvicts(s.(pendings := s'.pendings), s')
    ensures Appends(s, s', p)
  {
    hide OnlyEvicts;
    ReserveMeaning(s.pendings, w, p);
  }

  lemma PrepareIsShown(s: State, r: ResourceRequest, attempt: bool)
    requires IsCoherent(s) && PrepareResource(s, r, attempt).Success?
    ensures PrepareShows(s, PrepareResource(s, r, attempt).value.0, r, attempt)
  {
    hide IsCoherent, PrepareNewResource, Stores, Appends, Reserve, NewPending, OnlyEvicts;
    if !IsCompleted(s.completed, r.operation) && !IsPending(s.pendings, r.operation) {
      NewResourceReveals(s, r, attempt);
      hide PrepareResource;
      var k := WorkspaceIndex(s.workspaces, r.workspace);
      var p := NewPending(s.pendings, s.workspaces[k], r, attempt);
      NewUnreserved(s, s.workspaces[k], r, attempt);
      StoresOne(s, k, r, attempt, p);
      NewIsHere(s, s.workspaces[k], r, attempt);
      AppendedBy(s, PrepareResource(s, r, attempt).value.0, s.workspaces[k], p);
    }
  }

  lemma NewIsHere(s: State, w: Workspace, r: ResourceRequest, attempt: bool)
    ensures NewPending(s.pendings, w, r, attempt).workspace == r.workspace
  {
  }

  lemma ShellIsShown(s: State, r: ShellRequest)
    requires PrepareWorkspaceShell(s, r).Success?
    ensures ShellShows(s, PrepareWorkspaceShell(s, r).value.0, r)
  {
    hide PrepareNamed, PrepareFresh, Appends, Reserve, OnlyEvicts;
    var n := NameIndex(s.workspaces, r.name);
    if !IsCompleted(s.completed, r.operation) && !IsPending(s.pendings, r.operation) {
      if n < |s.workspaces| {
        NamedIsShown(s, n, r);
      } else {
        FreshIsShown(s, r);
      }
    }
  }

  lemma NamedIsShown(s: State, n: nat, r: ShellRequest)
    requires n < |s.workspaces| && n == NameIndex(s.workspaces, r.name) && PrepareNamed(s, s.workspaces[n], r).Success?
    requires !IsCompleted(s.completed, r.operation) && !IsPending(s.pendings, r.operation)
    ensures ShellShows(s, PrepareNamed(s, s.workspaces[n], r).value.0, r)
  {
    hide Appends, Reserve, OnlyEvicts, PushCompleted, Compact;
    var w := s.workspaces[n];
    var c, q := ReplayIndex(s.completed, w.id, r.semantic), AliasIndex(s.pendings, w.id, r.semantic);
    if c < |s.completed| {
      PushedLast(s, s.completed[c].(operation := r.operation, fingerprint := r.fingerprint));
    } else {
      var p := NewAlias(s.pendings[q], r);
      var ps := Reserve(s.pendings, w, p).value;
      ReserveMeaning(s.pendings, w, p);
      CompactKeeps(s.(pendings := ps));
      var s' := PrepareNamed(s, w, r).value.0;
      EvictsElsewhere(s.(pendings := ps), s');
      AppendedBy(s, s', w, p);
      assert StoresAlias(s.pendings[q], r, p);
    }
  }

  lemma PushedLast(s: State, c: Completed)
    requires PushCompleted(s, c).Success? && !IsCompleted(s.completed, c.operation)
    ensures var s' := PushCompleted(s, c).value;
            && s' == s.(completed := s'.completed) && IsSuffix(s'.completed, s.completed + [c])
            && s'.completed != [] && s'.completed[|s'.completed| - 1] == c && c in s'.completed
  {
    PushCompletedMeaning(s, c);
  }

  lemma FreshIsShown(s: State, r: ShellRequest)
    requires PrepareFresh(s, r).Success? && NameIndex(s.workspaces, r.name) == |s.workspaces|
    requires !IsCompleted(s.completed, r.operation) && !IsPending(s.pendings, r.operation)
    ensures ShellShows(s, PrepareFresh(s, r).value.0, r)
  {
    hide Appends, Reserve, OnlyEvicts, Compact;
    var w := Workspace(r.workspace, 1, r.name, false, []);
    var t := s.(workspaces := s.workspaces + [w]);
    var p := NewCreation(r);
    var ps := Reserve(s.pendings, w, p).value;
    CompactKeeps(t.(pendings := ps));
    var s' := PrepareFresh(s, r).value.0;
    EvictsElsewhere(t.(pendings := ps), s');
    AppendedBy(t, s', w, p);
    assert StoresCreation(r, p);
  }

  lemma RemovedIsCancelled(s: State, i: nat)
    requires i < |s.pendings|
    ensures Cancelled(s, RemovePending(s, i), i)
  {
  }

  lemma CancelIsShown(s: State, operation: Id, fingerprint: Fingerprint)
    ensures CancelResource(s, operation, fingerprint).Success? ==>
              CancelShows(s, CancelResource(s, operation, fingerprint).value.0, operation, false)
    ensures var r := CancelIfNeverAttempted(s, operation, fingerprint);
            r.Success? ==>
              && CancelShows(s, r.value.0, operation, true)
              && (r.value.1 <==> IsPending(s.pendings, operation) && |r.value.0.pendings| < |s.pendings|)
  {
    hide RemovePending, Cancelled;
    var i := PendingIndex(s.pendings, operation);
    if i < |s.pendings| {
      RemovedIsCancelled(s, i);
      RemovedIsShorter(s, i);
    }
  }

  lemma RemovedIsShorter(s: State, i: nat)
    requires i < |s.pendings|
    ensures |RemovePending(s, i).pendings| == |s.pendings| - 1
  {
  }

  lemma PlacedIsShown(w: Workspace, x: Placement)
    requires Sorted(w.placements)
    ensures var v := PlaceTotal(w, x);
            Places(w, v, x) && v.revision == if NodeUsed(w, x.node) then w.revision else w.revision + 1
  {
    hide PlaceAt;
    PlaceAtMeaning(w.placements, x);
  }

  lemma CompleteIsShown(s: State, operation: Id, fingerprint: Fingerprint, owner: Owner, resource: Resource)
    requires IsCoherent(s) && IsValid(s) && CompleteResource(s, operation, fingerprint, owner, resource).Success?
    ensures var (s', record) := CompleteResource(s, operation, fingerprint, owner, resource).value;
            && CompleteShows(s, s', operation, owner, resource)
            && record in s'.completed && record.operation == operation && record.fingerprint == fingerprint
  {
    hide CompletePending, IsValid, IsCoherent, CompleteShows;
    CompletionRecords(s, operation, fingerprint, owner, resource);
    var i := PendingIndex(s.pendings, operation);
    if i < |s.pendings| {
      PendingIsShown(s, i, owner, resource);
    } else {
      NothingToComplete(s, operation, owner, resource);
    }
  }

  lemma NothingToComplete(s: State, operation: Id, owner: Owner, resource: Resource)
    requires !IsPending(s.pendings, operation)
    ensures CompleteShows(s, s, operation, owner, resource)
  {
  }

  lemma PendingIsShown(s: State, i: nat, owner: Owner, resource: Resource)
    requires IsCoherent(s) && IsValid(s) && i < |s.pendings| && CompletePending(s, i, owner, resource).Success?
    requires i == PendingIndex(s.pendings, s.pendings[i].operation)
    ensures CompleteShows(s, CompletePending(s, i, owner, resource).value.0, s.pendings[i].operation, owner, resource)
  {
    hide PushCompleted, PlaceTotal, IsCoherent, IsValid, IsSuffix, Places, Edits;
    var p := s.pendings[i];
    var k := WorkspaceIndex(s.workspaces, p.workspace);
    var w := s.workspaces[k];
    var v := PlaceTotal(w, OwnerPlacement(p.node, owner));
    PlacementsAreSorted(s, k);
    PlacedIsShown(w, OwnerPlacement(p.node, owner));
    PlacedKeepsIdentity(w, OwnerPlacement(p.node, owner));
    OneEdited(s.workspaces, p.workspace, v);
    Capacity.OperationsApart(s, i);
    PushedLast(Settled(s, i, k, v), CompletionRecord(p, v, resource));
  }

  lemma PlacedKeepsIdentity(w: Workspace, x: Placement)
    ensures PlaceTotal(w, x).id == w.id
  {
  }

  // ---------- directory calls ----------

  predicate PrepareCwdShows(s: State, s': State, r: PendingCwd) {
    if CompletedCwdIndex(s.completedCwd, r.operation) < |s.completedCwd|
       || CwdIndex(s.pendingCwd, r.operation) < |s.pendingCwd|
    then s' == s
    else
      var ds := s.pendingCwd + [r.(attempted := false, reservation := CWD_RESERVATION_BYTES)];
      OnlyEvicts(s.(pendingCwd := ds), s')
  }

  predicate MarkCwdShows(s: State, s': State, r: PendingCwd) {
    var d := CwdIndex(s.pendingCwd, r.operation);
    d < |s.pendingCwd| && s' == s.(pendingCwd := s.pendingCwd[d := s.pendingCwd[d].(attempted := true)])
  }

  predicate CancelCwdShows(s: State, s': State, r: PendingCwd, only: bool) {
    var d := CwdIndex(s.pendingCwd, r.operation);
    if d == |s.pendingCwd| || (only && s.pendingCwd[d].attempted) then s' == s
    else s' == s.(pendingCwd := Without(s.pendingCwd, d))
  }

  /** The one placement of this pair takes the owner's revision and the new directory; the
      Workspace's revision follows if the owner's moved. */
  predicate Moves(w: Workspace, v: Workspace, d: PendingCwd, owner: Owner) {
    && v.id == w.id && v.name == w.name && v.closing == w.closing
    && v.revision == (if owner.revision == d.expectedOwnerRevision then w.revision else w.revision + 1)
    && |v.placements| == |w.placements|
    && forall l :: 0 <= l < |w.placements| ==>
         var x, y := w.placements[l], v.placements[l];
         y == if x.node == d.node && x.ownerId == d.owner
              then x.(ownerRevision := owner.revision, cwd := Some(d.cwd)) else x
  }

  /** The answer to directory change d from the Workspace v that it left. */
  predicate AnswersMove(result: CwdResult, v: Workspace, d: PendingCwd, owner: Owner) {
    && result.workspace == d.workspace && result.node == d.node && result.owner == d.owner && result.cwd == d.cwd
    && result.globalRevision == v.revision && result.ownerRevision == owner.revision
    && (result.outcome == Unchanged <==> owner.revision == d.expectedOwnerRevision)
  }

  predicate CompleteCwdShows(s: State, s': State, r: PendingCwd, owner: Owner, result: CwdResult) {
    var c, d := CompletedCwdIndex(s.completedCwd, r.operation), CwdIndex(s.pendingCwd, r.operation);
    if c < |s.completedCwd| then s' == s && result == s.completedCwd[c].result
    else
      && d < |s.pendingCwd|
      && Edits(s.workspaces, s'.workspaces, r.workspace)
      && Moves(Lookup(s.workspaces, r.workspace), Lookup(s'.workspaces, r.workspace), r, owner)
      && AnswersMove(result, Lookup(s'.workspaces, r.workspace), r, owner)
      && s'.pendings == s.pendings && s'.pendingCwd == Without(s.pendingCwd, d) && s'.migrated == s.migrated
      && IsSuffix(s'.completed, s.completed)
      && IsSuffix(s'.completedCwd,
                  s.completedCwd + [CompletedCwd(s.pendingCwd[d].(reservation := 0), result)])
  }

  lemma PrepareCwdIsShown(s: State, r: PendingCwd)
    requires PrepareDefaultCwd(s, r).Success?
    ensures PrepareCwdShows(s, PrepareDefaultCwd(s, r).value.0, r)
    ensures match PrepareDefaultCwd(s, r).value.1
            case CwdPending(d) => SameCwdAsked(d, r) && d in PrepareDefaultCwd(s, r).value.0.pendingCwd
            case CwdCompleted(result) =>
              exists c :: c in s.completedCwd && SameCwdAsked(c.request, r) && c.result == result
  {
    hide Compact, OnlyEvicts, HasPending;
    var ds := s.pendingCwd + [r.(attempted := false, reservation := CWD_RESERVATION_BYTES)];
    if Compact(s.(pendingCwd := ds)).Success? {
      CompactKeeps(s.(pendingCwd := ds));
      EvictsElsewhere(s.(pendingCwd := ds), Compact(s.(pendingCwd := ds)).value);
    }
    var c := CompletedCwdIndex(s.completedCwd, r.operation);
    assert c < |s.completedCwd| ==> s.completedCwd[c] in s.completedCwd;
  }

  lemma MarkCwdIsShown(s: State, r: PendingCwd)
    requires MarkDefaultCwdAttempted(s, r).Success?
    ensures MarkCwdShows(s, MarkDefaultCwdAttempted(s, r).value.0, r)
  {
  }

  lemma CancelCwdIsShown(s: State, r: PendingCwd, only: bool)
    requires CancelDefaultCwd(s, r, only).Success?
    ensures CancelCwdShows(s, CancelDefaultCwd(s, r, only).value.0, r, only)
    ensures CancelDefaultCwd(s, r, only).value.1 <==>
              |CancelDefaultCwd(s, r, only).value.0.pendingCwd| < |s.pendingCwd|
  {
  }

  lemma MoveIsShown(w: Workspace, d: PendingCwd, owner: Owner)
    requires Sorted(w.placements) && PairIn(w.placements, d.node, d.owner)
    requires owner.revision == d.expectedOwnerRevision || owner.revision == d.expectedOwnerRevision + 1
    ensures var l := PairIndex(w.placements, d.node, d.owner);
            && l < |w.placements|
            && Moves(w, CwdMoved(w, l, d.cwd, owner.revision, owner.revision == d.expectedOwnerRevision + 1), d, owner)
  {
  }

  lemma CompleteCwdIsShown(s: State, r: PendingCwd, owner: Owner)
    requires IsCoherent(s) && CompleteDefaultCwd(s, r, owner).Success?
    ensures var (s', result) := CompleteDefaultCwd(s, r, owner).value;
            CompleteCwdShows(s, s', r, owner, result)
  {
    hide IsCoherent, Compact, CwdMoved, CwdAnswer, CwdSettled, SameCwdRequest, PairIn, Sorted, CompleteCwdShows;
    var d := CwdIndex(s.pendingCwd, r.operation);
    if CompletedCwdIndex(s.completedCwd, r.operation) == |s.completedCwd| {
      CwdCompletionSettles(s, r, owner);
      hide CompleteDefaultCwd;
      var e := s.pendingCwd[d];
      var k := WorkspaceIndex(s.workspaces, e.workspace);
      PlacementsAreSorted(s, k);
      PlacementHeld(s, d);
      MoveIsShown(s.workspaces[k], e, owner);
      SettledCwdIsShown(s, r, owner, d, k, CompleteDefaultCwd(s, r, owner).value.0);
    } else {
      RepeatedCwdIsShown(s, r, owner);
    }
  }

  lemma RepeatedCwdIsShown(s: State, r: PendingCwd, owner: Owner)
    requires CompletedCwdIndex(s.completedCwd, r.operation) < |s.completedCwd|
    requires CompleteDefaultCwd(s, r, owner).Success?
    ensures var (s', result) := CompleteDefaultCwd(s, r, owner).value;
            CompleteCwdShows(s, s', r, owner, result)
  {
    hide Moves, Edits, AnswersMove;
  }

  lemma SettledCwdIsShown(s: State, r: PendingCwd, owner: Owner, d: nat, k: nat, s': State)
    requires CompletedCwdIndex(s.completedCwd, r.operation) == |s.completedCwd|
    requires d == CwdIndex(s.pendingCwd, r.operation) < |s.pendingCwd| && SameCwdRequest(s.pendingCwd[d], r)
    requires k == WorkspaceIndex(s.workspaces, s.pendingCwd[d].workspace) < |s.workspaces|
    requires PairIndex(s.workspaces[k].placements, s.pendingCwd[d].node, s.pendingCwd[d].owner)
             < |s.workspaces[k].placements|
    requires var e, w := s.pendingCwd[d], s.workspaces[k];
             var changed := owner.revision == e.expectedOwnerRevision + 1;
             var moved := CwdMoved(w, PairIndex(w.placements, e.node, e.owner), e.cwd, owner.revision, changed);
             var result := CwdAnswer(e, moved.revision, owner.revision, if changed then Updated else Unchanged);
             && Moves(w, moved, e, owner) && (owner.revision == e.expectedOwnerRevision || changed)
             && Compact(CwdSettled(s, d, k, moved, result)) == Success(s')
    ensures var e, w := s.pendingCwd[d], s.workspaces[k];
            var changed := owner.revision == e.expectedOwnerRevision + 1;
            var moved := CwdMoved(w, PairIndex(w.placements, e.node, e.owner), e.cwd, owner.revision, changed);
            var result := CwdAnswer(e, moved.revision, owner.revision, if changed then Updated else Unchanged);
            CompleteCwdShows(s, s', r, owner, result)
  {
    hide Compact, CwdMoved, CwdSettled, OnlyEvicts, Edits, CwdAnswer, AnswersMove, IsSuffix;
    var e, w := s.pendingCwd[d], s.workspaces[k];
    var l := PairIndex(w.placements, e.node, e.owner);
    var changed := owner.revision == e.expectedOwnerRevision + 1;
    var moved := CwdMoved(w, l, e.cwd, owner.revision, changed);
    var result := CwdAnswer(e, moved.revision, owner.revision, if changed then Updated else Unchanged);
    MovedKeepsId(w, l, e.cwd, owner.revision, changed);
    OneEdited(s.workspaces, e.workspace, moved);
    CompactKeeps(CwdSettled(s, d, k, moved, result));
    SettledParts(s, d, k, moved, result, s');
    MovesAsAsked(w, moved, e, r, owner);
    AnswersAsAsked(e, r, moved, owner);
  }

  lemma MovesAsAsked(w: Workspace, v: Workspace, e: PendingCwd, r: PendingCwd, owner: Owner)
    requires Moves(w, v, e, owner) && SameCwdRequest(e, r)
    ensures Moves(w, v, r, owner) && e.workspace == r.workspace
  {
  }

  lemma AnswersAsAsked(e: PendingCwd, r: PendingCwd, v: Workspace, owner: Owner)
    requires SameCwdRequest(e, r)
    requires owner.revision == e.expectedOwnerRevision || owner.revision == e.expectedOwnerRevision + 1
    ensures var changed := owner.revision == e.expectedOwnerRevision + 1;
            AnswersMove(CwdAnswer(e, v.revision, owner.revision, if changed then Updated else Unchanged), v, r, owner)
  {
  }

  lemma SettledParts(s: State, d: nat, k: nat, moved: Workspace, result: CwdResult, s': State)
    requires d < |s.pendingCwd| && k < |s.workspaces| && OnlyEvicts(CwdSettled(s, d, k, moved, result), s')
    ensures s'.workspaces == s.workspaces[k := moved] && s'.pendings == s.pendings && s'.migrated == s.migrated
    ensures s'.pendingCwd == Without(s.pendingCwd, d) && IsSuffix(s'.completed, s.completed)
    ensures IsSuffix(s'.completedCwd, s.completedCwd + [CompletedCwd(s.pendingCwd[d].(reservation := 0), result)])
  {
    var es := s.completedCwd + [CompletedCwd(s.pendingCwd[d].(reservation := 0), result)];
    if |es| > MAX_COMPLETED_OPERATIONS {
      SuffixOfTail(s'.completedCwd, es);
    }
  }

  // ---------- every call ----------

  /** What a successful call leaves, seen from the state before. */
  ghost predicate Shows(s: State, op: Op, s': State) {
    match op
    case OpPrepareResource(r, attempt) => PrepareShows(s, s', r, attempt)
    case OpPrepareShell(r) => ShellShows(s, s', r)
    case OpMark(o, f) =>
      var i := PendingIndex(s.pendings, o);
      && i < |s.pendings| && s.pendings[i].fingerprint == f
      && s' == s.(pendings := s.pendings[i := s.pendings[i].(attempted := true)])
    case OpCancel(o, f) => CancelShows(s, s', o, false)
    case OpCancelUnattempted(o, f) => CancelShows(s, s', o, true)
    case OpComplete(o, f, owner, resource) => CompleteShows(s, s', o, owner, resource)
    case OpPrepareCwd(r) => PrepareCwdShows(s, s', r)
    case OpMarkCwd(r) => MarkCwdShows(s, s', r)
    case OpCancelCwd(r, only) => CancelCwdShows(s, s', r, only)
    case OpCompleteCwd(r, owner) => exists result :: CompleteCwdShows(s, s', r, owner, result)
    case OpCreate(id, name) => Adds(s, s', Workspace(id, 1, name, false, []))
    case OpAdopt(id, node, owner, _) => Adds(s, s', Workspace(id, 1, owner.name, false, [Recorded(node, owner)]))
    case OpLink(id, _, node, owner, _) => LinkShows(s, s', id, node, owner)
    case OpRename(id, _, name) => RenameShows(s, s', id, name)
    case OpBeginClose(id, _) => BeginCloseShows(s, s', id)
    case OpConfirmClosed(id, node, owner) => ConfirmShows(s, s', id, node, owner)
    case OpConfirmEmpty(id) => Drops(s, s', id)
    case OpInitialize(node, owners) => InitializeShows(s, s', node, owners)
  }

  /** Every Workspace call that succeeds changes what it is asked to change and nothing else. */
  lemma WorkspaceCallIsShown(s: State, op: Op)
    requires IsCoherent(s) && IsWorkspaceOp(op) && Attempt(s, op).Success?
    ensures Shows(s, op, Attempt(s, op).value)
  {
    hide IsCoherent, LinkShows, RenameShows, BeginCloseShows, ConfirmShows, InitializeShows, Create, Adopt, Link,
         Rename, BeginClose, ConfirmClosed, InitializeLocalOnce, Adds;
    match op
    case OpCreate(id, name) => NewIsShown(s, id, name);
    case OpAdopt(id, node, owner, expected) => AdoptedIsShown(s, id, node, owner, expected);
    case OpLink(w, e, node, owner, eo) => LinkIsShown(s, w, e, node, owner, eo);
    case OpRename(w, e, name) => RenameIsShown(s, w, e, name);
    case OpBeginClose(w, e) => BeginCloseIsShown(s, w, e);
    case OpConfirmClosed(w, node, owner) => ConfirmIsShown(s, w, node, owner);
    case OpConfirmEmpty(w) =>
    case OpInitialize(node, owners) => InitializeIsShown(s, node, owners);
  }

  lemma ResourceCallIsShown(s: State, op: Op)
    requires Sound(s) && Attempt(s, op).Success?
    requires op.OpPrepareResource? || op.OpPrepareShell? || op.OpMark? || IsCancel(op) || op.OpComplete?
    ensures Shows(s, op, Attempt(s, op).value)
  {
    hide IsValid, IsCoherent, StoreBytes, PrepareResource, PrepareWorkspaceShell, CancelResource,
         CancelIfNeverAttempted, CompleteResource, PrepareShows, ShellShows, CancelShows, CompleteShows;
    match op
    case OpPrepareResource(r, attempt) => PrepareIsShown(s, r, attempt);
    case OpPrepareShell(r) => ShellIsShown(s, r);
    case OpMark(o, f) =>
    case OpCancel(o, f) => CancelIsShown(s, o, f);
    case OpCancelUnattempted(o, f) => CancelIsShown(s, o, f);
    case OpComplete(o, f, owner, resource) => CompleteIsShown(s, o, f, owner, resource);
  }

  lemma CwdCallIsShown(s: State, op: Op)
    requires Sound(s) && Attempt(s, op).Success?
    requires op.OpPrepareCwd? || op.OpMarkCwd? || op.OpCancelCwd? || op.OpCompleteCwd?
    ensures Shows(s, op, Attempt(s, op).value)
  {
    hide IsValid, IsCoherent, StoreBytes, PrepareDefaultCwd, MarkDefaultCwdAttempted, CancelDefaultCwd,
         CompleteDefaultCwd, PrepareCwdShows, MarkCwdShows, CancelCwdShows, CompleteCwdShows;
    match op
    case OpPrepareCwd(r) => PrepareCwdIsShown(s, r);
    case OpMarkCwd(r) => MarkCwdIsShown(s, r);
    case OpCancelCwd(r, only) => CancelCwdIsShown(s, r, only);
    case OpCompleteCwd(r, owner) => CompleteCwdIsShown(s, r, owner);
  }

  /** After any run, every call that succeeds changes exactly what it shows. */
  lemma CallsShow(ops: seq<Op>, op: Op)
    requires Step(Run(EMPTY, ops), op).Success?
    ensures Shows(Run(EMPTY, ops), op, Run(EMPTY, ops + [op]))
  {
    hide Run, Step, Attempt, Shows, Sound;
    EveryRunIsSound(ops);
    Committed(ops, op);
    CallIsShown(Run(EMPTY, ops), op);
  }

  lemma CallIsShown(s: State, op: Op)
    requires Sound(s) && Attempt(s, op).Success?
    ensures Shows(s, op, Attempt(s, op).value)
  {
    hide Attempt, IsValid, IsCoherent, StoreBytes, Shows;
    if IsWorkspaceOp(op) {
      WorkspaceCallIsShown(s, op);
    } else if op.OpPrepareCwd? || op.OpMarkCwd? || op.OpCancelCwd? || op.OpCompleteCwd? {
      CwdCallIsShown(s, op);
    } else {
      ResourceCallIsShown(s, op);
    }
  }

  // ---------- answers ----------

  /** The operation answered is the one asked for, as it now stands in the ledger, or its record. */
  lemma PrepareAnswers(s: State, r: ResourceRequest, attempt: bool)
    requires IsCoherent(s) && PrepareResource(s, r, attempt).Success?
    ensures var (s', answer) := PrepareResource(s, r, attempt).value;
            match answer
            case PreparedCompleted(c) =>
              c in s'.completed && c.operation == r.operation && c.fingerprint == r.fingerprint
            case PreparedPending(p, newly) =>
              && p in s'.pendings && p.operation == r.operation && p.fingerprint == r.fingerprint
              && (newly <==> !IsPending(s.pendings, r.operation)) && (!newly ==> SameAsked(p, r))
  {
    hide PrepareNewResource, IsCoherent;
    if IsCompleted(s.completed, r.operation) {
      assert s.completed[CompletedIndex(s.completed, r.operation)] in s.completed;
    } else if IsPending(s.pendings, r.operation) {
      assert PrepareResource(s, r, attempt).value.0.pendings[PendingIndex(s.pendings, r.operation)].operation
          == r.operation;
    } else {
      NewAnswers(s, r, attempt);
    }
  }

  lemma NewAnswers(s: State, r: ResourceRequest, attempt: bool)
    requires PrepareNewResource(s, r, attempt).Success?
    ensures var (s', answer) := PrepareNewResource(s, r, attempt).value;
            && answer.PreparedPending? && answer.newlyPrepared && answer.pending in s'.pendings
            && answer.pending.operation == r.operation && answer.pending.fingerprint == r.fingerprint
  {
    hide Reserve, Compact, OwnerLinkedElsewhere;
    var w := s.workspaces[WorkspaceIndex(s.workspaces, r.workspace)];
    var p := NewPending(s.pendings, w, r, attempt);
    var ps := Reserve(s.pendings, w, p).value;
    ReserveMeaning(s.pendings, w, p);
    CompactKeeps(s.(pendings := ps));
    assert ps[|s.pendings|] in ps;
  }

  /** The creation answered is pending in the ledger, on the Workspace answered with it. */
  lemma ShellAnswers(s: State, r: ShellRequest)
    requires IsCoherent(s) && PrepareWorkspaceShell(s, r).Success?
    requires PrepareWorkspaceShell(s, r).value.1.ShellPending?
    ensures var (s', answer) := PrepareWorkspaceShell(s, r).value;
            && answer.pending in s'.pendings && answer.workspace in s'.workspaces
            && answer.pending.operation == r.operation && answer.pending.fingerprint == r.fingerprint
            && answer.pending.workspace == answer.workspace.id && answer.pending.createsWorkspace
            && answer.workspace.name == r.name
  {
    hide PrepareNamed, PrepareFresh, IsCoherent, CompletedIndex;
    var i, n := PendingIndex(s.pendings, r.operation), NameIndex(s.workspaces, r.name);
    if IsPending(s.pendings, r.operation) {
      CreatedUnderItsName(s, i);
    } else if n < |s.workspaces| {
      AliasAnswers(s, n, r);
    } else {
      FreshAnswers(s, r);
    }
  }

  lemma CreatedUnderItsName(s: State, i: nat)
    requires IsCoherent(s) && i < |s.pendings|
    ensures Known(s.workspaces, s.pendings[i].workspace)
    ensures var w := Lookup(s.workspaces, s.pendings[i].workspace);
            && w in s.workspaces && s.pendings[i] in s.pendings && w.id == s.pendings[i].workspace
            && (s.pendings[i].createsWorkspace ==> w.name == s.pendings[i].ownerName)
  {
    assert Known(s.workspaces, s.pendings[i].workspace);
  }

  lemma AliasAnswers(s: State, n: nat, r: ShellRequest)
    requires n < |s.workspaces| && PrepareNamed(s, s.workspaces[n], r).Success?
    requires PrepareNamed(s, s.workspaces[n], r).value.1.ShellPending?
    ensures var (s', answer) := PrepareNamed(s, s.workspaces[n], r).value;
            && answer.pending in s'.pendings && answer.workspace in s'.workspaces
            && answer.workspace == s.workspaces[n]
            && answer.pending.operation == r.operation && answer.pending.fingerprint == r.fingerprint
            && answer.pending.workspace == s.workspaces[n].id && answer.pending.createsWorkspace
  {
    hide Reserve, Compact, PushCompleted;
    var w := s.workspaces[n];
    var p := NewAlias(s.pendings[AliasIndex(s.pendings, w.id, r.semantic)], r);
    var ps := Reserve(s.pendings, w, p).value;
    ReserveMeaning(s.pendings, w, p);
    CompactKeeps(s.(pendings := ps));
    assert ps[|s.pendings|] in ps;
  }

  lemma FreshAnswers(s: State, r: ShellRequest)
    requires PrepareFresh(s, r).Success?
    ensures var (s', answer) := PrepareFresh(s, r).value;
            && answer.ShellPending? && answer.pending in s'.pendings && answer.workspace in s'.workspaces
            && answer.pending.operation == r.operation && answer.pending.fingerprint == r.fingerprint
            && answer.pending.workspace == answer.workspace.id == r.workspace && answer.pending.createsWorkspace
            && answer.workspace.name == r.name
  {
    hide Reserve, Compact;
    var w := NewWorkspace(r.workspace, r.name);
    var ps := Reserve(s.pendings, w, NewCreation(r)).value;
    ReserveMeaning(s.pendings, w, NewCreation(r));
    CompactKeeps(s.(workspaces := s.workspaces + [w], pendings := ps));
    assert ps[|s.pendings|] in ps;
    assert (s.workspaces + [w])[|s.workspaces|] == w;
  }
}
