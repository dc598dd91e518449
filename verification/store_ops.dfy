/** What each coordinator operation computes, as a function from the state before
    to the state after; `Mutate` adds the validation and the save around it. */
module StoreOps {
  import opened Basics
  import opened StoreTypes
  import opened Placements

  // ---------- requests and answers ----------

  datatype ResourceRequest = ResourceRequest(
    operation: Id,
    fingerprint: Fingerprint,
    requestBytes: nat,
    workspace: Id,
    expectedRevision: nat,
    node: Id,
    requestedOwner: Id,
    ownerName: string,
    cwd: Option<Path>,
    resource: Id,
    kind: ResourceKind)

  datatype ShellRequest = ShellRequest(
    operation: Id,
    fingerprint: Fingerprint,
    requestBytes: nat,
    semantic: Fingerprint,
    workspace: Id,
    name: string,
    node: Id,
    requestedOwner: Id,
    cwd: Path,
    shell: Id)

  datatype Prepared = PreparedPending(pending: Pending, newlyPrepared: bool) | PreparedCompleted(record: Completed)

  datatype PreparedShell = ShellPending(workspace: Workspace, pending: Pending) | ShellCompleted(record: Completed)

  datatype PreparedCwd = CwdPending(pending: PendingCwd) | CwdCompleted(result: CwdResult)

  // ---------- guards ----------

  predicate RevisionMatches(actual: nat, expected: nat) {
    actual == expected && expected > 0
  }

  predicate HasPending(s: State, workspace: Id) {
    (exists p :: p in s.pendings && p.workspace == workspace)
    || (exists d :: d in s.pendingCwd && d.workspace == workspace)
  }

  predicate PairIn(pl: seq<Placement>, node: Id, owner: Id) {
    exists l :: l in pl && l.node == node && l.ownerId == owner
  }

  predicate OwnerLinked(ws: seq<Workspace>, node: Id, owner: Id) {
    exists w :: w in ws && PairIn(w.placements, node, owner)
  }

  predicate OwnerLinkedElsewhere(ws: seq<Workspace>, workspace: Id, node: Id, owner: Id) {
    exists w :: w in ws && w.id != workspace && PairIn(w.placements, node, owner)
  }

  predicate SameCwdRequest(a: PendingCwd, b: PendingCwd) {
    && a.operation == b.operation
    && a.workspace == b.workspace
    && a.expectedRevision == b.expectedRevision
    && a.node == b.node
    && a.owner == b.owner
    && a.expectedOwnerRevision == b.expectedOwnerRevision
    && a.requestedCwd == b.requestedCwd
    && a.cwd == b.cwd
  }

  function OwnerPlacement(node: Id, owner: Owner): Placement {
    Placement(node, owner.id, Some(owner.name), owner.revision, owner.cwd, Active)
  }

  // ---------- eviction ----------

  /** Drops the oldest completed operations until both limits hold; never the last one. */
  function EvictCompleted(s: State): Fallible<State>
    decreases |s.completed|
  {
    if |s.completed| > MAX_COMPLETED_OPERATIONS || StoreBytes(s) > MAX_STORE_BYTES then
      if |s.completed| <= 1 then Failure(StoreFull)
      else EvictCompleted(s.(completed := s.completed[1..]))
    else Success(s)
  }

  function PushCompleted(s: State, c: Completed): Fallible<State> {
    var i := CompletedIndex(s.completed, c.operation);
    if i < |s.completed| then
      if s.completed[i] == c then Success(s) else Failure(OperationConflict)
    else EvictCompleted(s.(completed := s.completed + [c]))
  }

  /** Makes room by dropping completed resources first, then completed cwd operations. */
  function Compact(s: State): Fallible<State>
    decreases |s.completed| + |s.completedCwd|
  {
    if StoreBytes(s) <= MAX_STORE_BYTES then Success(s)
    else if s.completed != [] then Compact(s.(completed := s.completed[1..]))
    else if s.completedCwd != [] then Compact(s.(completedCwd := s.completedCwd[1..]))
    else Failure(StoreFull)
  }

  // ---------- projection and reservation ----------

  /** The heaviest placement that completing p can leave on its Node. */
  function PlacementOf(p: Pending): Placement {
    Placement(p.node, p.owner, Some(p.ownerName), U64_MAX, p.cwd, Active)
  }

  /** The Workspace with x placed, one revision up when its Node is new; unbounded arithmetic. */
  function PlaceTotal(w: Workspace, x: Placement): Workspace {
    w.(placements := PlaceAt(w.placements, x),
       revision := if HasNode(w.placements, x.node) then w.revision else w.revision + 1)
  }

  function PlaceOn(w: Workspace, x: Placement): Fallible<Workspace> {
    if !HasNode(w.placements, x.node) && w.revision >= U64_MAX then Failure(RevisionExhausted)
    else Success(PlaceTotal(w, x))
  }

  /** The Workspace as it stands once every operation prepared for it has completed. */
  function Project(w: Workspace, ps: seq<Pending>): Fallible<Workspace> {
    if ps == [] then Success(w)
    else
      var last := ps[|ps| - 1];
      var before :- Project(w, ps[..|ps| - 1]);
      if last.workspace == w.id then PlaceOn(before, PlacementOf(last)) else Success(before)
  }

  function CompletionReservation(w: Workspace, requestBytes: nat): Fallible<nat> {
    var reservation := 2 * requestBytes + 2 * WorkspaceBytes(w) + COMPLETION_RESERVATION_OVERHEAD;
    if reservation > MAX_COMPLETION_RESERVATION_BYTES then Failure(CapacityExceeded) else Success(reservation)
  }

  /** Twice what the new operation adds to the projection; `saturating_sub`. */
  function Growth(before: Workspace, after: Workspace): nat {
    if WorkspaceBytes(after) <= WorkspaceBytes(before) then 0
    else 2 * (WorkspaceBytes(after) - WorkspaceBytes(before))
  }

  function GrowOne(p: Pending, workspace: Id, growth: nat): Pending {
    if p.workspace == workspace then p.(reservation := p.reservation + growth) else p
  }

  function Grow(ps: seq<Pending>, workspace: Id, growth: nat): (r: seq<Pending>)
    ensures |r| == |ps|
    ensures forall i :: 0 <= i < |ps| ==> r[i] == GrowOne(ps[i], workspace, growth)
  {
    if ps == [] then []
    else Grow(ps[..|ps| - 1], workspace, growth) + [GrowOne(ps[|ps| - 1], workspace, growth)]
  }

  predicate Overgrown(ps: seq<Pending>, workspace: Id, growth: nat) {
    growth > 0
    && exists p :: p in ps && p.workspace == workspace
                   && p.reservation + growth > MAX_COMPLETION_RESERVATION_BYTES
  }

  /** Reserves room for p's completion and makes every other operation on the
      Workspace ready for the placement p will add. */
  function Reserve(ps: seq<Pending>, w: Workspace, p: Pending): (r: Fallible<seq<Pending>>)
    ensures r.Success? ==> |r.value| == |ps| + 1
  {
    var before :- Project(w, ps);
    var after :- PlaceOn(before, PlacementOf(p));
    var growth := Growth(before, after);
    if Overgrown(ps, w.id, growth) then Failure(CapacityExceeded)
    else
      var reservation :- CompletionReservation(after, p.requestBytes);
      Success(Grow(ps, w.id, growth) + [p.(reservation := reservation)])
  }

  // ---------- prepare ----------

  predicate SameResourceRequest(p: Pending, r: ResourceRequest) {
    && p.workspace == r.workspace
    && p.expectedRevision == r.expectedRevision
    && p.node == r.node
    && p.requestedOwner == r.requestedOwner
    && p.ownerName == r.ownerName
    && p.cwd == r.cwd
    && p.resource == r.resource
    && p.kind == r.kind
    && p.fingerprint == r.fingerprint
  }

  /** The owner an operation on (w, node) must use: the placement's, else an earlier preparation's, else its own. */
  function EffectiveOwner(ps: seq<Pending>, w: Workspace, node: Id, requested: Id): Id {
    var l := PlacementIndex(w.placements, node);
    var q := PriorIndex(ps, w.id, node);
    if l < |w.placements| then w.placements[l].ownerId
    else if q < |ps| then ps[q].owner
    else requested
  }

  function NewPending(ps: seq<Pending>, w: Workspace, r: ResourceRequest, attempt: bool): Pending {
    var q := PriorIndex(ps, w.id, r.node);
    Pending(r.operation, false, r.fingerprint, None, 0, attempt, r.workspace, r.expectedRevision, r.node,
            r.requestedOwner, EffectiveOwner(ps, w, r.node, r.requestedOwner),
            if q < |ps| then ps[q].ownerName else r.ownerName,
            if q < |ps| then ps[q].cwd else r.cwd,
            r.resource, r.kind, r.requestBytes)
  }

  function PrepareResource(s: State, r: ResourceRequest, attempt: bool): Fallible<(State, Prepared)> {
    var c := CompletedIndex(s.completed, r.operation);
    var i := PendingIndex(s.pendings, r.operation);
    if !ValidName(r.ownerName) then Failure(InvalidName)
    else if c < |s.completed| then
      if s.completed[c].fingerprint != r.fingerprint then Failure(OperationConflict)
      else Success((s, PreparedCompleted(s.completed[c])))
    else if i < |s.pendings| then
      if !SameResourceRequest(s.pendings[i], r) then Failure(OperationConflict)
      else
        var p := s.pendings[i].(attempted := s.pendings[i].attempted || attempt);
        Success((s.(pendings := s.pendings[i := p]), PreparedPending(p, false)))
    else PrepareNewResource(s, r, attempt)
  }

  function PrepareNewResource(s: State, r: ResourceRequest, attempt: bool): Fallible<(State, Prepared)> {
    var k := WorkspaceIndex(s.workspaces, r.workspace);
    if exists p :: p in s.pendings && p.node == r.node && p.resource == r.resource then Failure(AlreadyExists)
    else if |s.pendings| >= MAX_PENDING_RESOURCES then Failure(LimitReached)
    else if k == |s.workspaces| then Failure(NotFound)
    else
      var w := s.workspaces[k];
      if !RevisionMatches(w.revision, r.expectedRevision) then Failure(RevisionChanged)
      else if w.closing then Failure(WouldBlock)
      else if OwnerLinkedElsewhere(s.workspaces, w.id, r.node,
                                   EffectiveOwner(s.pendings, w, r.node, r.requestedOwner))
      then Failure(AlreadyExists)
      else
        var ps :- Reserve(s.pendings, w, NewPending(s.pendings, w, r, attempt));
        var s' :- Compact(s.(pendings := ps));
        Success((s', PreparedPending(ps[|s.pendings|], true)))
  }

  predicate SameShellRequest(p: Pending, r: ShellRequest) {
    && p.createsWorkspace
    && p.workspace == r.workspace
    && p.node == r.node
    && p.requestedOwner == r.requestedOwner
    && p.ownerName == r.name
    && p.cwd == Some(r.cwd)
    && p.resource == r.shell
    && p.kind == Shell
    && p.fingerprint == r.fingerprint
  }

  function PrepareWorkspaceShell(s: State, r: ShellRequest): Fallible<(State, PreparedShell)> {
    var c := CompletedIndex(s.completed, r.operation);
    var i := PendingIndex(s.pendings, r.operation);
    var n := NameIndex(s.workspaces, r.name);
    if !ValidName(r.name) then Failure(InvalidName)
    else if c < |s.completed| then
      if s.completed[c].fingerprint != r.fingerprint then Failure(OperationConflict)
      else Success((s, ShellCompleted(s.completed[c])))
    else if i < |s.pendings| then
      var k := WorkspaceIndex(s.workspaces, s.pendings[i].workspace);
      if !SameShellRequest(s.pendings[i], r) then Failure(OperationConflict)
      else if k == |s.workspaces| then Failure(MissingTarget)
      else Success((s, ShellPending(s.workspaces[k], s.pendings[i])))
    else if n < |s.workspaces| then PrepareNamed(s, s.workspaces[n], r)
    else PrepareFresh(s, r)
  }

  /** The name is taken: replay a finished creation of the same meaning, or join one under way. */
  function PrepareNamed(s: State, w: Workspace, r: ShellRequest): Fallible<(State, PreparedShell)> {
    var c := ReplayIndex(s.completed, w.id, r.semantic);
    var e := AliasIndex(s.pendings, w.id, r.semantic);
    if c < |s.completed| then
      var replay := s.completed[c].(operation := r.operation, fingerprint := r.fingerprint);
      var s' :- PushCompleted(s, replay);
      Success((s', ShellCompleted(replay)))
    else if e < |s.pendings| then
      if |s.pendings| >= MAX_PENDING_RESOURCES then Failure(LimitReached)
      else
        var ps :- Reserve(s.pendings, w, NewAlias(s.pendings[e], r));
        var s' :- Compact(s.(pendings := ps));
        Success((s', ShellPending(w, ps[|s.pendings|])))
    else Failure(AlreadyExists)
  }

  function NewAlias(e: Pending, r: ShellRequest): Pending {
    Pending(r.operation, true, r.fingerprint, Some(r.semantic), 0, false, e.workspace, e.expectedRevision, e.node,
            r.requestedOwner, e.owner, e.ownerName, e.cwd, e.resource, Shell, r.requestBytes)
  }

  function NewWorkspace(id: Id, name: string): Workspace {
    Workspace(id, 1, name, false, [])
  }

  function NewCreation(r: ShellRequest): Pending {
    Pending(r.operation, true, r.fingerprint, Some(r.semantic), 0, false, r.workspace, 1, r.node,
            r.requestedOwner, r.requestedOwner, r.name, Some(r.cwd), r.shell, Shell, r.requestBytes)
  }

  function PrepareFresh(s: State, r: ShellRequest): Fallible<(State, PreparedShell)> {
    var w := NewWorkspace(r.workspace, r.name);
    if |s.workspaces| >= MAX_WORKSPACES || |s.pendings| >= MAX_PENDING_RESOURCES then Failure(LimitReached)
    else if WorkspaceIndex(s.workspaces, r.workspace) < |s.workspaces| then Failure(AlreadyExists)
    else
      var ps :- Reserve(s.pendings, w, NewCreation(r));
      var s' :- Compact(s.(workspaces := s.workspaces + [w], pendings := ps));
      Success((s', ShellPending(w, ps[|s.pendings|])))
  }

  // ---------- attempt, cancel, complete ----------

  function MarkOwnerAttempted(s: State, operation: Id, fingerprint: Fingerprint): Fallible<(State, Pending)> {
    var i := PendingIndex(s.pendings, operation);
    if i == |s.pendings| then Failure(NotFound)
    else if s.pendings[i].fingerprint != fingerprint then Failure(OperationConflict)
    else
      var p := s.pendings[i].(attempted := true);
      Success((s.(pendings := s.pendings[i := p]), p))
  }

  /** Drops a prepared operation, and the empty Workspace it was creating if nothing else awaits it. */
  function RemovePending(s: State, i: nat): State
    requires i < |s.pendings|
  {
    var p := s.pendings[i];
    var ps := Without(s.pendings, i);
    var k := WorkspaceIndex(s.workspaces, p.workspace);
    if p.createsWorkspace && k < |s.workspaces| && s.workspaces[k].placements == []
       && !exists q :: q in ps && q.workspace == p.workspace
    then s.(pendings := ps, workspaces := Without(s.workspaces, k))
    else s.(pendings := ps)
  }

  function CancelResource(s: State, operation: Id, fingerprint: Fingerprint): Fallible<(State, ())> {
    var i := PendingIndex(s.pendings, operation);
    var c := CompletedIndex(s.completed, operation);
    if i == |s.pendings| then
      if c < |s.completed| && s.completed[c].fingerprint == fingerprint then Success((s, ()))
      else Failure(NotFound)
    else if s.pendings[i].fingerprint != fingerprint then Failure(OperationConflict)
    else if s.pendings[i].createsWorkspace && s.pendings[i].attempted then Success((s, ()))
    else Success((RemovePending(s, i), ()))
  }

  function CancelIfNeverAttempted(s: State, operation: Id, fingerprint: Fingerprint): Fallible<(State, bool)> {
    var i := PendingIndex(s.pendings, operation);
    if i == |s.pendings| then Success((s, false))
    else if s.pendings[i].fingerprint != fingerprint then Failure(OperationConflict)
    else if s.pendings[i].attempted then Success((s, false))
    else Success((RemovePending(s, i), true))
  }

  function CompletionRecord(p: Pending, w: Workspace, resource: Resource): Completed {
    Completed(p.operation, p.fingerprint, p.semantic, p.createsWorkspace, w, resource)
  }

  predicate OwnerMatches(p: Pending, owner: Owner) {
    owner.id == p.owner && owner.name == p.ownerName && owner.cwd == p.cwd
  }

  function CompleteResource(s: State, operation: Id, fingerprint: Fingerprint, owner: Owner, resource: Resource)
    : Fallible<(State, Completed)>
  {
    var i := PendingIndex(s.pendings, operation);
    var c := CompletedIndex(s.completed, operation);
    if i == |s.pendings| then
      if c < |s.completed| && s.completed[c].fingerprint == fingerprint then Success((s, s.completed[c]))
      else Failure(NotFound)
    else if s.pendings[i].fingerprint != fingerprint then Failure(OperationConflict)
    else CompletePending(s, i, owner, resource)
  }

  function CompletePending(s: State, i: nat, owner: Owner, resource: Resource): Fallible<(State, Completed)>
    requires i < |s.pendings|
  {
    var p := s.pendings[i];
    var k := WorkspaceIndex(s.workspaces, p.workspace);
    if !OwnerMatches(p, owner) then Failure(OwnerMismatch)
    else if OwnerLinkedElsewhere(s.workspaces, p.workspace, p.node, owner.id) then Failure(AlreadyExists)
    else if k == |s.workspaces| then Failure(NotFound)
    else
      var w := s.workspaces[k];
      var l := PlacementIndex(w.placements, p.node);
      if l < |w.placements| && w.placements[l].ownerId != owner.id then Failure(DifferentPlacement)
      else
        var placed :- PlaceOn(w, OwnerPlacement(p.node, owner));
        var record := CompletionRecord(p, placed, resource);
        if CompletedBytes(record) > p.reservation then Failure(ReservationExceeded)
        else
          var s' :- PushCompleted(Settled(s, i, k, placed), record);
          Success((s', record))
  }

  /** The Workspace updated and the operation taken out of the pending ledger. */
  function Settled(s: State, i: nat, k: nat, placed: Workspace): State
    requires i < |s.pendings| && k < |s.workspaces|
  {
    s.(workspaces := s.workspaces[k := placed], pendings := Without(s.pendings, i))
  }

  // ---------- default directory ----------

  function PrepareDefaultCwd(s: State, r: PendingCwd): Fallible<(State, PreparedCwd)> {
    var request := r.(attempted := false, reservation := CWD_RESERVATION_BYTES);
    var e := CompletedCwdIndex(s.completedCwd, r.operation);
    var d := CwdIndex(s.pendingCwd, r.operation);
    var k := WorkspaceIndex(s.workspaces, r.workspace);
    if PendingIndex(s.pendings, r.operation) < |s.pendings|
       || CompletedIndex(s.completed, r.operation) < |s.completed|
    then Failure(OperationConflict)
    else if e < |s.completedCwd| then
      if !SameCwdRequest(s.completedCwd[e].request, request) then Failure(OperationConflict)
      else Success((s, CwdCompleted(s.completedCwd[e].result)))
    else if d < |s.pendingCwd| then
      if !SameCwdRequest(s.pendingCwd[d], request) then Failure(OperationConflict)
      else Success((s, CwdPending(s.pendingCwd[d])))
    else if HasPending(s, r.workspace) then Failure(WouldBlock)
    else if k == |s.workspaces| then Failure(NotFound)
    else
      var w := s.workspaces[k];
      var l := PlacementIndex(w.placements, r.node);
      if !RevisionMatches(w.revision, r.expectedRevision) then Failure(RevisionChanged)
      else if w.closing then Failure(WouldBlock)
      else if l == |w.placements| || w.placements[l].ownerId != r.owner then Failure(NotFound)
      else if !RevisionMatches(w.placements[l].ownerRevision, r.expectedOwnerRevision) then Failure(RevisionChanged)
      else
        var s' :- Compact(s.(pendingCwd := s.pendingCwd + [request]));
        Success((s', CwdPending(request)))
  }

  function MarkDefaultCwdAttempted(s: State, operation: PendingCwd): Fallible<(State, PendingCwd)> {
    var d := CwdIndex(s.pendingCwd, operation.operation);
    if d == |s.pendingCwd| then Failure(NotFound)
    else if !SameCwdRequest(s.pendingCwd[d], operation) then Failure(OperationConflict)
    else
      var marked := s.pendingCwd[d].(attempted := true);
      Success((s.(pendingCwd := s.pendingCwd[d := marked]), marked))
  }

  function CancelDefaultCwd(s: State, operation: PendingCwd, onlyIfNeverAttempted: bool): Fallible<(State, bool)> {
    var d := CwdIndex(s.pendingCwd, operation.operation);
    if d == |s.pendingCwd| then Success((s, false))
    else if !SameCwdRequest(s.pendingCwd[d], operation) then Failure(OperationConflict)
    else if onlyIfNeverAttempted && s.pendingCwd[d].attempted then Success((s, false))
    else Success((s.(pendingCwd := Without(s.pendingCwd, d)), true))
  }

  /** The placement that carries exactly this Node and owner, or the length. */
  function PairIndex(pl: seq<Placement>, node: Id, owner: Id): (i: nat)
    ensures i <= |pl|
    ensures i < |pl| ==> pl[i].node == node && pl[i].ownerId == owner
    ensures forall j :: 0 <= j < i ==> !(pl[j].node == node && pl[j].ownerId == owner)
  {
    if pl == [] then 0
    else if pl[0].node == node && pl[0].ownerId == owner then 0
    else
      var rest := PairIndex(pl[1..], node, owner);
      assert forall j :: 0 < j < rest + 1 ==> pl[j] == pl[1..][j - 1];
      rest + 1
  }

  function CwdAnswer(d: PendingCwd, globalRevision: nat, ownerRevision: nat, outcome: CwdOutcome): CwdResult {
    CwdResult(d.workspace, d.node, d.owner, d.cwd, globalRevision, ownerRevision, outcome)
  }

  /** The Workspace with placement l at its owner's new directory and revision. */
  function CwdMoved(w: Workspace, l: nat, cwd: Path, ownerRevision: nat, changed: bool): Workspace
    requires l < |w.placements|
  {
    w.(placements := w.placements[l := w.placements[l].(ownerRevision := ownerRevision, cwd := Some(cwd))],
       revision := if changed then w.revision + 1 else w.revision)
  }

  function CompleteDefaultCwd(s: State, operation: PendingCwd, owner: Owner): Fallible<(State, CwdResult)> {
    var e := CompletedCwdIndex(s.completedCwd, operation.operation);
    var d := CwdIndex(s.pendingCwd, operation.operation);
    if e < |s.completedCwd| then
      if !SameCwdRequest(s.completedCwd[e].request, operation) then Failure(OperationConflict)
      else Success((s, s.completedCwd[e].result))
    else if d == |s.pendingCwd| then Failure(NotFound)
    else
      var pending := s.pendingCwd[d];
      var k := WorkspaceIndex(s.workspaces, pending.workspace);
      if !SameCwdRequest(pending, operation) || owner.id != pending.owner || owner.cwd != Some(pending.cwd)
      then Failure(OperationConflict)
      else if owner.revision != pending.expectedOwnerRevision
              && owner.revision != pending.expectedOwnerRevision + 1
      then Failure(OperationConflict)
      else if k == |s.workspaces| then Failure(MissingTarget)
      else
        var w := s.workspaces[k];
        var changed := owner.revision == pending.expectedOwnerRevision + 1;
        var l := PairIndex(w.placements, pending.node, pending.owner);
        if l == |w.placements| then Failure(MissingTarget)
        else if w.placements[l].ownerRevision != pending.expectedOwnerRevision then Failure(OperationConflict)
        else if changed && w.revision >= U64_MAX then Failure(RevisionExhausted)
        else
          var moved := CwdMoved(w, l, pending.cwd, owner.revision, changed);
          var result := CwdAnswer(pending, moved.revision, owner.revision, if changed then Updated else Unchanged);
          var s' :- Compact(CwdSettled(s, d, k, moved, result));
          Success((s', result))
  }

  function CwdSettled(s: State, d: nat, k: nat, moved: Workspace, result: CwdResult): State
    requires d < |s.pendingCwd| && k < |s.workspaces|
  {
    var es := s.completedCwd + [CompletedCwd(s.pendingCwd[d].(reservation := 0), result)];
    s.(workspaces := s.workspaces[k := moved],
       pendingCwd := Without(s.pendingCwd, d),
       completedCwd := if |es| > MAX_COMPLETED_OPERATIONS then es[1..] else es)
  }

  // ---------- linking, renaming, closing ----------

  function Create(s: State, freshId: Id, name: string): Fallible<(State, Workspace)> {
    if !ValidName(name) then Failure(InvalidName)
    else if NameIndex(s.workspaces, name) < |s.workspaces| then Failure(AlreadyExists)
    else if |s.workspaces| >= MAX_WORKSPACES then Failure(LimitReached)
    else
      var w := NewWorkspace(freshId, name);
      Success((s.(workspaces := s.workspaces + [w]), w))
  }

  function Adopt(s: State, freshId: Id, node: Id, owner: Owner, expected: nat): Fallible<(State, Workspace)> {
    if !RevisionMatches(owner.revision, expected) then Failure(RevisionChanged)
    else if OwnerLinked(s.workspaces, node, owner.id) then Failure(AlreadyExists)
    else if NameIndex(s.workspaces, owner.name) < |s.workspaces| then Failure(AlreadyExists)
    else
      var w := Workspace(freshId, 1, owner.name, false, [OwnerPlacement(node, owner)]);
      Success((s.(workspaces := s.workspaces + [w]), w))
  }

  function Link(s: State, workspace: Id, expectedRevision: nat, node: Id, owner: Owner, expectedOwner: nat)
    : Fallible<(State, Workspace)>
  {
    var k := WorkspaceIndex(s.workspaces, workspace);
    if !RevisionMatches(owner.revision, expectedOwner) then Failure(RevisionChanged)
    else if OwnerLinked(s.workspaces, node, owner.id) then Failure(AlreadyExists)
    else if HasPending(s, workspace) then Failure(WouldBlock)
    else if k == |s.workspaces| then Failure(NotFound)
    else
      var w := s.workspaces[k];
      if !RevisionMatches(w.revision, expectedRevision) then Failure(RevisionChanged)
      else if w.closing then Failure(WouldBlock)
      else if exists l :: l in w.placements && l.node == node then Failure(AlreadyExists)
      else if w.revision >= U64_MAX then Failure(RevisionExhausted)
      else
        var linked := w.(revision := w.revision + 1,
                         placements := SortByNode(w.placements + [OwnerPlacement(node, owner)]));
        Success((s.(workspaces := s.workspaces[k := linked]), linked))
  }

  function Rename(s: State, workspace: Id, expectedRevision: nat, name: string): Fallible<(State, Workspace)> {
    var k := WorkspaceIndex(s.workspaces, workspace);
    if !ValidName(name) then Failure(InvalidName)
    else if HasPending(s, workspace) then Failure(WouldBlock)
    else if exists w :: w in s.workspaces && w.id != workspace && w.name == name then Failure(AlreadyExists)
    else if k == |s.workspaces| then Failure(NotFound)
    else
      var w := s.workspaces[k];
      if !RevisionMatches(w.revision, expectedRevision) then Failure(RevisionChanged)
      else if w.closing then Failure(WouldBlock)
      else if w.name == name then Success((s, w))
      else if w.revision >= U64_MAX then Failure(RevisionExhausted)
      else
        var renamed := w.(name := name, revision := w.revision + 1);
        Success((s.(workspaces := s.workspaces[k := renamed]), renamed))
  }

  function CloseAll(pl: seq<Placement>): (r: seq<Placement>)
    ensures |r| == |pl|
    ensures forall i :: 0 <= i < |pl| ==> r[i] == pl[i].(state := ClosePending)
  {
    if pl == [] then [] else CloseAll(pl[..|pl| - 1]) + [pl[|pl| - 1].(state := ClosePending)]
  }

  function BeginClose(s: State, workspace: Id, expectedRevision: nat): Fallible<(State, Workspace)> {
    var k := WorkspaceIndex(s.workspaces, workspace);
    if HasPending(s, workspace) then Failure(WouldBlock)
    else if k == |s.workspaces| then Failure(NotFound)
    else
      var w := s.workspaces[k];
      if !RevisionMatches(w.revision, expectedRevision) then Failure(RevisionChanged)
      else if w.closing then Success((s, w))
      else if w.revision >= U64_MAX then Failure(RevisionExhausted)
      else
        var closing := w.(revision := w.revision + 1, closing := true, placements := CloseAll(w.placements));
        Success((s.(workspaces := s.workspaces[k := closing]), closing))
  }

  /** `retain`: everything but this exact (Node, owner) pair, in order. */
  function RetainOthers(pl: seq<Placement>, node: Id, owner: Id): seq<Placement> {
    if pl == [] then []
    else
      var kept := RetainOthers(pl[..|pl| - 1], node, owner);
      var last := pl[|pl| - 1];
      if last.node == node && last.ownerId == owner then kept else kept + [last]
  }

  function ConfirmClosed(s: State, workspace: Id, node: Id, owner: Id): Fallible<(State, Option<Workspace>)> {
    var k := WorkspaceIndex(s.workspaces, workspace);
    if k == |s.workspaces| then Failure(NotFound)
    else
      var w := s.workspaces[k];
      var kept := RetainOthers(w.placements, node, owner);
      if !w.closing then Failure(InvalidInput)
      else if kept == [] then Success((s.(workspaces := Without(s.workspaces, k)), None))
      else if w.revision >= U64_MAX then Failure(RevisionExhausted)
      else
        var shrunk := w.(placements := kept, revision := w.revision + 1);
        Success((s.(workspaces := s.workspaces[k := shrunk]), Some(shrunk)))
  }

  function ConfirmEmptyClosed(s: State, workspace: Id): Fallible<(State, ())> {
    var k := WorkspaceIndex(s.workspaces, workspace);
    if k == |s.workspaces| then Failure(NotFound)
    else if !s.workspaces[k].closing || s.workspaces[k].placements != [] then Failure(InvalidInput)
    else Success((s.(workspaces := Without(s.workspaces, k)), ()))
  }

  // ---------- adopting the local Node's Workspaces once ----------

  function ImportAll(ws: seq<Workspace>, node: Id, owners: seq<Owner>): Fallible<seq<Workspace>> {
    if owners == [] then Success(ws)
    else
      var before :- ImportAll(ws, node, owners[..|owners| - 1]);
      var owner := owners[|owners| - 1];
      if |before| >= MAX_WORKSPACES then Failure(LimitReached)
      else Success(before + [Workspace(owner.id, 1, owner.name, false, [OwnerPlacement(node, owner)])])
  }

  function InitializeLocalOnce(s: State, node: Id, owners: seq<Owner>): Fallible<(State, bool)> {
    if s.migrated then Success((s, false))
    else
      var ws :- ImportAll(s.workspaces, node, owners);
      Success((s.(workspaces := ws, migrated := true), true))
  }

  // ---------- validation ----------

  predicate ClosingConsistent(w: Workspace) {
    forall l :: l in w.placements ==> (w.closing <==> l.state == ClosePending)
  }

  predicate ValidWorkspace(w: Workspace) {
    ValidName(w.name) && w.revision > 0 && |w.placements| <= MAX_PLACEMENTS && ClosingConsistent(w)
  }

  predicate IdsDistinct(ws: seq<Workspace>) {
    forall i, j :: 0 <= i < j < |ws| ==> ws[i].id != ws[j].id
  }

  predicate NamesDistinct(ws: seq<Workspace>) {
    forall i, j :: 0 <= i < j < |ws| ==> ws[i].name != ws[j].name
  }

  predicate PairsDistinctWithin(pl: seq<Placement>) {
    forall a, b :: 0 <= a < b < |pl| ==> pl[a].node != pl[b].node || pl[a].ownerId != pl[b].ownerId
  }

  predicate SharesPair(v: Workspace, w: Workspace) {
    exists l, m :: l in v.placements && m in w.placements && l.node == m.node && l.ownerId == m.ownerId
  }

  /** No (Node, owner Workspace) pair is linked twice, in one Workspace or in two. */
  predicate PairsDistinct(ws: seq<Workspace>) {
    && (forall i :: 0 <= i < |ws| ==> PairsDistinctWithin(ws[i].placements))
    && (forall i, j :: 0 <= i < j < |ws| ==> !SharesPair(ws[i], ws[j]))
  }

  predicate Known(ws: seq<Workspace>, id: Id) {
    WorkspaceIndex(ws, id) < |ws|
  }

  predicate ValidPending(p: Pending, ws: seq<Workspace>) {
    && p.expectedRevision > 0
    && Known(ws, p.workspace)
    && p.reservation <= MAX_COMPLETION_RESERVATION_BYTES
    && ValidName(p.ownerName)
  }

  predicate PendingsDistinct(ps: seq<Pending>) {
    forall i, j :: 0 <= i < j < |ps| ==> ps[i].operation != ps[j].operation
  }

  predicate IsPending(ps: seq<Pending>, operation: Id) {
    PendingIndex(ps, operation) < |ps|
  }

  predicate RecordsOwner(c: Completed) {
    !c.resource.OtherResult?
    && exists l :: l in c.workspace.placements && l.ownerId == c.resource.ownerId
  }

  predicate ValidCompleted(c: Completed, ps: seq<Pending>) {
    && RecordsOwner(c)
    && c.workspace.revision > 0
    && |c.workspace.placements| <= MAX_PLACEMENTS
    && !IsPending(ps, c.operation)
  }

  predicate CompletedDistinct(cs: seq<Completed>) {
    forall i, j :: 0 <= i < j < |cs| ==> cs[i].operation != cs[j].operation
  }

  predicate IsCompleted(cs: seq<Completed>, operation: Id) {
    CompletedIndex(cs, operation) < |cs|
  }

  predicate ValidPendingCwd(d: PendingCwd, s: State) {
    && d.expectedRevision > 0
    && d.expectedOwnerRevision > 0
    && IsAbsolute(d.cwd)
    && d.reservation == CWD_RESERVATION_BYTES
    && Known(s.workspaces, d.workspace)
    && !IsPending(s.pendings, d.operation)
    && !IsCompleted(s.completed, d.operation)
  }

  predicate PendingCwdDistinct(ds: seq<PendingCwd>) {
    forall i, j :: 0 <= i < j < |ds| ==> ds[i].operation != ds[j].operation
  }

  predicate RevisionsAgree(e: CompletedCwd) {
    match e.result.outcome
    case Unchanged =>
      e.result.globalRevision == e.request.expectedRevision
      && e.result.ownerRevision == e.request.expectedOwnerRevision
    case Updated =>
      e.result.globalRevision == e.request.expectedRevision + 1
      && e.result.ownerRevision == e.request.expectedOwnerRevision + 1
  }

  predicate ValidCompletedCwd(e: CompletedCwd, s: State) {
    && e.request.expectedRevision > 0
    && e.request.expectedOwnerRevision > 0
    && IsAbsolute(e.request.cwd)
    && e.request.reservation == 0
    && e.result.workspace == e.request.workspace
    && e.result.node == e.request.node
    && e.result.owner == e.request.owner
    && e.result.cwd == e.request.cwd
    && RevisionsAgree(e)
    && !IsPending(s.pendings, e.request.operation)
    && !IsCompleted(s.completed, e.request.operation)
    && !(CwdIndex(s.pendingCwd, e.request.operation) < |s.pendingCwd|)
  }

  predicate CompletedCwdDistinct(es: seq<CompletedCwd>) {
    forall i, j :: 0 <= i < j < |es| ==> es[i].request.operation != es[j].request.operation
  }

  predicate WithinCounts(s: State) {
    && |s.workspaces| <= MAX_WORKSPACES
    && |s.pendings| <= MAX_PENDING_RESOURCES
    && |s.completed| <= MAX_COMPLETED_OPERATIONS
    && |s.pendingCwd| <= MAX_PENDING_RESOURCES
    && |s.completedCwd| <= MAX_COMPLETED_OPERATIONS
  }

  predicate ValidWorkspaces(ws: seq<Workspace>) {
    && (forall i :: 0 <= i < |ws| ==> ValidWorkspace(ws[i]))
    && IdsDistinct(ws)
    && NamesDistinct(ws)
    && PairsDistinct(ws)
  }

  predicate ValidPendings(s: State) {
    (forall i :: 0 <= i < |s.pendings| ==> ValidPending(s.pendings[i], s.workspaces))
    && PendingsDistinct(s.pendings)
  }

  predicate ValidCompletions(s: State) {
    (forall i :: 0 <= i < |s.completed| ==> ValidCompleted(s.completed[i], s.pendings))
    && CompletedDistinct(s.completed)
  }

  predicate ValidPendingCwds(s: State) {
    (forall i :: 0 <= i < |s.pendingCwd| ==> ValidPendingCwd(s.pendingCwd[i], s))
    && PendingCwdDistinct(s.pendingCwd)
  }

  predicate ValidCompletedCwds(s: State) {
    (forall i :: 0 <= i < |s.completedCwd| ==> ValidCompletedCwd(s.completedCwd[i], s))
    && CompletedCwdDistinct(s.completedCwd)
  }

  /** What `validate` accepts. */
  predicate IsValid(s: State) {
    && WithinCounts(s)
    && ValidWorkspaces(s.workspaces)
    && ValidPendings(s)
    && ValidCompletions(s)
    && ValidPendingCwds(s)
    && ValidCompletedCwds(s)
  }

  // ---------- the journal step ----------

  /** `mutate`: run the operation on a copy, validate it, save it, adopt it. A
      staged store does not save; a save fails over the size limit or when the
      disk refuses. */
  function Mutate<T>(attempt: Fallible<(State, T)>, persist: bool, saves: bool): Fallible<(State, T)> {
    if attempt.Failure? then attempt
    else if !IsValid(attempt.value.0) then Failure(InvalidStore)
    else if persist && (StoreBytes(attempt.value.0) > MAX_STORE_BYTES || !saves) then Failure(SaveFailed)
    else attempt
  }

  datatype Op =
    | OpPrepareResource(resourceRequest: ResourceRequest, attempt: bool)
    | OpPrepareShell(shellRequest: ShellRequest)
    | OpMark(operation: Id, fingerprint: Fingerprint)
    | OpCancel(operation: Id, fingerprint: Fingerprint)
    | OpCancelUnattempted(operation: Id, fingerprint: Fingerprint)
    | OpComplete(operation: Id, fingerprint: Fingerprint, owner: Owner, resource: Resource)
    | OpPrepareCwd(cwdRequest: PendingCwd)
    | OpMarkCwd(cwdRequest: PendingCwd)
    | OpCancelCwd(cwdRequest: PendingCwd, onlyIfNeverAttempted: bool)
    | OpCompleteCwd(cwdRequest: PendingCwd, owner: Owner)
    | OpCreate(freshId: Id, name: string)
    | OpAdopt(freshId: Id, node: Id, owner: Owner, expectedOwner: nat)
    | OpLink(workspace: Id, expectedRevision: nat, node: Id, owner: Owner, expectedOwner: nat)
    | OpRename(workspace: Id, expectedRevision: nat, name: string)
    | OpBeginClose(workspace: Id, expectedRevision: nat)
    | OpConfirmClosed(workspace: Id, node: Id, ownerId: Id)
    | OpConfirmEmpty(workspace: Id)
    | OpInitialize(node: Id, owners: seq<Owner>)

  function Kept<T>(r: Fallible<(State, T)>): Fallible<State> {
    match r
    case Success(pair) => Success(pair.0)
    case Failure(error) => Failure(error)
  }

  /** The closure an operation hands to `mutate`. */
  function Attempt(s: State, op: Op): Fallible<State> {
    match op
    case OpPrepareResource(r, attempt) => Kept(PrepareResource(s, r, attempt))
    case OpPrepareShell(r) => Kept(PrepareWorkspaceShell(s, r))
    case OpMark(o, f) => Kept(MarkOwnerAttempted(s, o, f))
    case OpCancel(o, f) => Kept(CancelResource(s, o, f))
    case OpCancelUnattempted(o, f) => Kept(CancelIfNeverAttempted(s, o, f))
    case OpComplete(o, f, owner, resource) => Kept(CompleteResource(s, o, f, owner, resource))
    case OpPrepareCwd(r) => Kept(PrepareDefaultCwd(s, r))
    case OpMarkCwd(r) => Kept(MarkDefaultCwdAttempted(s, r))
    case OpCancelCwd(r, only) => Kept(CancelDefaultCwd(s, r, only))
    case OpCompleteCwd(r, owner) => Kept(CompleteDefaultCwd(s, r, owner))
    case OpCreate(id, name) => Kept(Create(s, id, name))
    case OpAdopt(id, node, owner, expected) => Kept(Adopt(s, id, node, owner, expected))
    case OpLink(w, e, node, owner, eo) => Kept(Link(s, w, e, node, owner, eo))
    case OpRename(w, e, name) => Kept(Rename(s, w, e, name))
    case OpBeginClose(w, e) => Kept(BeginClose(s, w, e))
    case OpConfirmClosed(w, node, owner) => Kept(ConfirmClosed(s, w, node, owner))
    case OpConfirmEmpty(w) => Kept(ConfirmEmptyClosed(s, w))
    case OpInitialize(node, owners) => Kept(InitializeLocalOnce(s, node, owners))
  }

  /** One operation as `mutate` commits it, capacity included; a failure changes nothing. */
  function Step(s: State, op: Op): Fallible<State> {
    var s' :- Attempt(s, op);
    if !IsValid(s') then Failure(InvalidStore)
    else if StoreBytes(s') > MAX_STORE_BYTES then Failure(SaveFailed)
    else Success(s')
  }

  /** The state after a list of calls, failed ones leaving it as it was. */
  function Run(s: State, ops: seq<Op>): State {
    if ops == [] then s
    else
      var before := Run(s, ops[..|ops| - 1]);
      var after := Step(before, ops[|ops| - 1]);
      if after.Success? then after.value else before
  }
}
