/** The coordinator's state record, edited in place by each operation's closure.
    Every method is tied to the function in StoreOps that says what it computes. */
module CoordinatorState {
  import opened Basics
  import opened StoreTypes
  import opened Placements
  import opened StoreOps

  /** An operation that computed spec gave this answer and left this state behind.
      A failed operation's working copy is thrown away, so nothing is said of it. */
  ghost predicate Computes<T>(spec: Fallible<(State, T)>, answer: Fallible<T>, after: State) {
    match spec
    case Success(pair) => answer == Success(pair.1) && after == pair.0
    case Failure(error) => answer == Failure(error)
  }

  ghost predicate Leaves(spec: Fallible<State>, answer: Fallible<()>, after: State) {
    match spec
    case Success(state) => answer == Success(()) && after == state
    case Failure(error) => answer == Failure(error)
  }

  lemma {:induction false} ProjectPrefix(w: Workspace, ps: seq<Pending>, i: nat)
    requires i <= |ps| && Project(w, ps[..i]).Failure?
    ensures Project(w, ps) == Project(w, ps[..i])
    decreases |ps|
  {
    if i < |ps| {
      var init := ps[..|ps| - 1];
      assert init[..i] == ps[..i];
      ProjectPrefix(w, init, i);
    } else {
      assert ps[..i] == ps;
    }
  }

  lemma {:induction false} ImportPrefix(ws: seq<Workspace>, node: Id, owners: seq<Owner>, i: nat)
    requires i <= |owners| && ImportAll(ws, node, owners[..i]).Failure?
    ensures ImportAll(ws, node, owners) == ImportAll(ws, node, owners[..i])
    decreases |owners|
  {
    if i < |owners| {
      var init := owners[..|owners| - 1];
      assert init[..i] == owners[..i];
      ImportPrefix(ws, node, init, i);
    } else {
      assert owners[..i] == owners;
    }
  }

  class PersistedGlobalWorkspaces {
    var migrated: bool
    var workspaces: seq<Workspace>
    var pendings: seq<Pending>
    var completed: seq<Completed>
    var pendingCwd: seq<PendingCwd>
    var completedCwd: seq<CompletedCwd>

    function Value(): State
      reads this
    {
      State(migrated, workspaces, pendings, completed, pendingCwd, completedCwd)
    }

    constructor (s: State)
      ensures Value() == s
    {
      migrated := s.migrated;
      workspaces := s.workspaces;
      pendings := s.pendings;
      completed := s.completed;
      pendingCwd := s.pendingCwd;
      completedCwd := s.completedCwd;
    }

    // ---------- eviction ----------

    method PushCompleted(c: Completed) returns (answer: Fallible<()>)
      modifies this`completed
      ensures Leaves(StoreOps.PushCompleted(old(Value()), c), answer, Value())
    {
      var i := CompletedIndex(completed, c.operation);
      if i < |completed| {
        return if completed[i] == c then Success(()) else Failure(OperationConflict);
      }
      completed := completed + [c];
      ghost var pushed := Value();
      while |completed| > MAX_COMPLETED_OPERATIONS || StoreBytes(Value()) > MAX_STORE_BYTES
        invariant completed != []
        invariant EvictCompleted(Value()) == EvictCompleted(pushed)
        decreases |completed|
      {
        if |completed| == 1 {
          return Failure(StoreFull);
        }
        completed := completed[1..];
      }
      return Success(());
    }

    method CompactPreparedState() returns (answer: Fallible<()>)
      modifies this`completed, this`completedCwd
      ensures Leaves(Compact(old(Value())), answer, Value())
    {
      while StoreBytes(Value()) > MAX_STORE_BYTES
        invariant Compact(Value()) == Compact(old(Value()))
        decreases |completed| + |completedCwd|
      {
        if completed != [] {
          completed := completed[1..];
        } else if completedCwd != [] {
          completedCwd := completedCwd[1..];
        } else {
          return Failure(StoreFull);
        }
      }
      return Success(());
    }

    // ---------- projection and reservation ----------

    static method ProjectedCompletedWorkspace(w: Workspace, p: Pending) returns (r: Fallible<Workspace>)
      ensures r == PlaceOn(w, PlacementOf(p))
    {
      hide SortByNode, PlacementIndex;
      var i := PlacementIndex(w.placements, p.node);
      if i < |w.placements| {
        var l := w.placements[i].(ownerId := p.owner, ownerName := Some(p.ownerName), ownerRevision := U64_MAX,
                                  cwd := p.cwd, state := Active);
        return Success(w.(placements := w.placements[i := l]));
      }
      if w.revision >= U64_MAX {
        return Failure(RevisionExhausted);
      }
      var l := Placement(p.node, p.owner, Some(p.ownerName), U64_MAX, p.cwd, Active);
      return Success(w.(revision := w.revision + 1, placements := SortByNode(w.placements + [l])));
    }

    method ProjectedWorkspaceWithPending(w: Workspace) returns (r: Fallible<Workspace>)
      ensures r == Project(w, pendings)
    {
      var projected := w;
      for i := 0 to |pendings|
        invariant Project(w, pendings[..i]) == Success(projected)
      {
        assert pendings[..i + 1][..i] == pendings[..i];
        if pendings[i].workspace == w.id {
          var next := ProjectedCompletedWorkspace(projected, pendings[i]);
          if next.Failure? {
            ProjectPrefix(w, pendings, i + 1);
            return next;
          }
          projected := next.value;
        }
      }
      assert pendings[..|pendings|] == pendings;
      return Success(projected);
    }

    /** Widens the padding of every operation on the Workspace, or says why not. */
    method GrowReservations(workspace: Id, growth: nat) returns (answer: Fallible<()>)
      requires growth > 0
      modifies this`pendings
      ensures answer == if Overgrown(old(pendings), workspace, growth) then Failure(CapacityExceeded) else Success(())
      ensures answer.Success? ==> pendings == Grow(old(pendings), workspace, growth)
    {
      for i := 0 to |pendings|
        invariant |pendings| == |old(pendings)|
        invariant forall j :: i <= j < |pendings| ==> pendings[j] == old(pendings)[j]
        invariant forall j :: 0 <= j < i ==> pendings[j] == GrowOne(old(pendings)[j], workspace, growth)
        invariant forall j :: 0 <= j < i && pendings[j].workspace == workspace
                    ==> pendings[j].reservation <= MAX_COMPLETION_RESERVATION_BYTES
      {
        if pendings[i].workspace == workspace {
          var expanded := pendings[i].reservation + growth;
          if expanded > MAX_COMPLETION_RESERVATION_BYTES {
            assert old(pendings)[i] in old(pendings);
            return Failure(CapacityExceeded);
          }
          pendings := pendings[i := pendings[i].(reservation := expanded)];
        }
      }
      assert pendings == Grow(old(pendings), workspace, growth);
      return Success(());
    }

    method ReserveNewPendingCompletion(w: Workspace, p: Pending) returns (reserved: Fallible<Pending>)
      modifies this`pendings
      ensures match Reserve(old(pendings), w, p)
              case Failure(error) => reserved == Failure(error)
              case Success(ps) => reserved.Success? && ps == pendings + [reserved.value]
    {
      ghost var was := pendings;
      var before := ProjectedWorkspaceWithPending(w);
      if before.Failure? {
        return Failure(before.error);
      }
      var after := ProjectedCompletedWorkspace(before.value, p);
      if after.Failure? {
        return Failure(after.error);
      }
      var growth := Growth(before.value, after.value);
      if growth > 0 {
        var grown := GrowReservations(w.id, growth);
        if grown.Failure? {
          return Failure(grown.error);
        }
      } else {
        assert pendings == Grow(was, w.id, growth);
      }
      var reservation := CompletionReservation(after.value, p.requestBytes);
      if reservation.Failure? {
        return Failure(reservation.error);
      }
      return Success(p.(reservation := reservation.value));
    }

    // ---------- preparing ----------

    method PrepareResource(r: ResourceRequest, attempt: bool) returns (answer: Fallible<Prepared>)
      modifies this
      ensures Computes(StoreOps.PrepareResource(old(Value()), r, attempt), answer, Value())
    {
      if !ValidName(r.ownerName) {
        return Failure(InvalidName);
      }
      var c := CompletedIndex(completed, r.operation);
      if c < |completed| {
        if completed[c].fingerprint != r.fingerprint {
          return Failure(OperationConflict);
        }
        return Success(PreparedCompleted(completed[c]));
      }
      var i := PendingIndex(pendings, r.operation);
      if i < |pendings| {
        if !SameResourceRequest(pendings[i], r) {
          return Failure(OperationConflict);
        }
        if attempt {
          pendings := pendings[i := pendings[i].(attempted := true)];
        }
        assert pendings == old(pendings)[i := old(pendings)[i].(attempted := old(pendings)[i].attempted || attempt)];
        return Success(PreparedPending(pendings[i], false));
      }
      answer := PrepareNewResource(r, attempt);
    }

    method PrepareNewResource(r: ResourceRequest, attempt: bool) returns (answer: Fallible<Prepared>)
      modifies this`pendings, this`completed, this`completedCwd
      ensures Computes(StoreOps.PrepareNewResource(old(Value()), r, attempt), answer, Value())
    {
      hide Reserve, Compact, NewPending, OwnerLinkedElsewhere, StoreBytes;
      if exists p :: p in pendings && p.node == r.node && p.resource == r.resource {
        return Failure(AlreadyExists);
      }
      if |pendings| >= MAX_PENDING_RESOURCES {
        return Failure(LimitReached);
      }
      var k := WorkspaceIndex(workspaces, r.workspace);
      if k == |workspaces| {
        return Failure(NotFound);
      }
      var w := workspaces[k];
      if !RevisionMatches(w.revision, r.expectedRevision) {
        return Failure(RevisionChanged);
      }
      if w.closing {
        return Failure(WouldBlock);
      }
      var l := PlacementIndex(w.placements, r.node);
      if l < |w.placements| && OwnerLinkedElsewhere(workspaces, w.id, r.node, w.placements[l].ownerId) {
        return Failure(AlreadyExists);
      }
      if OwnerLinkedElsewhere(workspaces, w.id, r.node, EffectiveOwner(pendings, w, r.node, r.requestedOwner)) {
        return Failure(AlreadyExists);
      }
      var added := AddPending(w, NewPending(pendings, w, r, attempt));
      if added.Failure? {
        return Failure(added.error);
      }
      return Success(PreparedPending(added.value, true));
    }

    /** Reserves, pushes and compacts: the end of every preparation. */
    method AddPending(w: Workspace, p: Pending) returns (answer: Fallible<Pending>)
      modifies this`pendings, this`completed, this`completedCwd
      ensures match Reserve(old(pendings), w, p)
              case Failure(error) => answer == Failure(error)
              case Success(ps) =>
                match Compact(old(Value()).(pendings := ps))
                case Failure(error) => answer == Failure(error)
                case Success(s) => answer == Success(ps[|old(pendings)|]) && Value() == s
    {
      var reserved := ReserveNewPendingCompletion(w, p);
      if reserved.Failure? {
        return reserved;
      }
      assert |pendings| == |old(pendings)|;
      pendings := pendings + [reserved.value];
      var compacted := CompactPreparedState();
      if compacted.Failure? {
        return Failure(compacted.error);
      }
      return reserved;
    }

    method PrepareWorkspaceShell(r: ShellRequest) returns (answer: Fallible<PreparedShell>)
      modifies this
      ensures Computes(StoreOps.PrepareWorkspaceShell(old(Value()), r), answer, Value())
    {
      if !ValidName(r.name) {
        return Failure(InvalidName);
      }
      var c := CompletedIndex(completed, r.operation);
      if c < |completed| {
        if completed[c].fingerprint != r.fingerprint {
          return Failure(OperationConflict);
        }
        return Success(ShellCompleted(completed[c]));
      }
      var i := PendingIndex(pendings, r.operation);
      if i < |pendings| {
        if !SameShellRequest(pendings[i], r) {
          return Failure(OperationConflict);
        }
        var k := WorkspaceIndex(workspaces, pendings[i].workspace);
        if k == |workspaces| {
          return Failure(MissingTarget);
        }
        return Success(ShellPending(workspaces[k], pendings[i]));
      }
      var n := NameIndex(workspaces, r.name);
      if n < |workspaces| {
        answer := PrepareNamed(workspaces[n], r);
      } else {
        answer := PrepareFresh(r);
      }
    }

    method PrepareNamed(w: Workspace, r: ShellRequest) returns (answer: Fallible<PreparedShell>)
      modifies this`pendings, this`completed, this`completedCwd
      ensures Computes(StoreOps.PrepareNamed(old(Value()), w, r), answer, Value())
    {
      hide Reserve, Compact, StoreOps.PushCompleted, NewAlias, StoreBytes;
      var c := ReplayIndex(completed, w.id, r.semantic);
      if c < |completed| {
        var replay := completed[c].(operation := r.operation, fingerprint := r.fingerprint);
        var pushed := PushCompleted(replay);
        if pushed.Failure? {
          return Failure(pushed.error);
        }
        return Success(ShellCompleted(replay));
      }
      var e := AliasIndex(pendings, w.id, r.semantic);
      if e == |pendings| {
        return Failure(AlreadyExists);
      }
      if |pendings| >= MAX_PENDING_RESOURCES {
        return Failure(LimitReached);
      }
      var added := AddPending(w, NewAlias(pendings[e], r));
      if added.Failure? {
        return Failure(added.error);
      }
      return Success(ShellPending(w, added.value));
    }

    method PrepareFresh(r: ShellRequest) returns (answer: Fallible<PreparedShell>)
      modifies this`workspaces, this`pendings, this`completed, this`completedCwd
      ensures Computes(StoreOps.PrepareFresh(old(Value()), r), answer, Value())
    {
      if |workspaces| >= MAX_WORKSPACES || |pendings| >= MAX_PENDING_RESOURCES {
        return Failure(LimitReached);
      }
      if WorkspaceIndex(workspaces, r.workspace) < |workspaces| {
        return Failure(AlreadyExists);
      }
      var w := NewWorkspace(r.workspace, r.name);
      var reserved := ReserveNewPendingCompletion(w, NewCreation(r));
      if reserved.Failure? {
        return Failure(reserved.error);
      }
      assert |pendings| == |old(pendings)|;
      workspaces := workspaces + [w];
      pendings := pendings + [reserved.value];
      var compacted := CompactPreparedState();
      if compacted.Failure? {
        return Failure(compacted.error);
      }
      return Success(ShellPending(w, reserved.value));
    }

    // ---------- attempt, cancel, complete ----------

    method MarkOwnerAttempted(operation: Id, fingerprint: Fingerprint) returns (answer: Fallible<Pending>)
      modifies this`pendings
      ensures Computes(StoreOps.MarkOwnerAttempted(old(Value()), operation, fingerprint), answer, Value())
    {
      var i := PendingIndex(pendings, operation);
      if i == |pendings| {
        return Failure(NotFound);
      }
      if pendings[i].fingerprint != fingerprint {
        return Failure(OperationConflict);
      }
      pendings := pendings[i := pendings[i].(attempted := true)];
      return Success(pendings[i]);
    }

    method RemovePendingAt(i: nat)
      requires i < |pendings|
      modifies this`pendings, this`workspaces
      ensures Value() == RemovePending(old(Value()), i)
    {
      var p := pendings[i];
      pendings := Without(pendings, i);
      if p.createsWorkspace {
        var k := WorkspaceIndex(workspaces, p.workspace);
        if k < |workspaces| && workspaces[k].placements == []
           && !exists q :: q in pendings && q.workspace == p.workspace
        {
          workspaces := Without(workspaces, k);
        }
      }
    }

    method CancelResource(operation: Id, fingerprint: Fingerprint) returns (answer: Fallible<()>)
      modifies this`pendings, this`workspaces
      ensures Computes(StoreOps.CancelResource(old(Value()), operation, fingerprint), answer, Value())
    {
      var i := PendingIndex(pendings, operation);
      if i == |pendings| {
        var c := CompletedIndex(completed, operation);
        if c < |completed| && completed[c].fingerprint == fingerprint {
          return Success(());
        }
        return Failure(NotFound);
      }
      if pendings[i].fingerprint != fingerprint {
        return Failure(OperationConflict);
      }
      if pendings[i].createsWorkspace && pendings[i].attempted {
        return Success(());
      }
      RemovePendingAt(i);
      return Success(());
    }

    method CancelPendingOperationIfNeverAttempted(operation: Id, fingerprint: Fingerprint)
      returns (answer: Fallible<bool>)
      modifies this`pendings, this`workspaces
      ensures Computes(StoreOps.CancelIfNeverAttempted(old(Value()), operation, fingerprint), answer, Value())
    {
      var i := PendingIndex(pendings, operation);
      if i == |pendings| {
        return Success(false);
      }
      if pendings[i].fingerprint != fingerprint {
        return Failure(OperationConflict);
      }
      if pendings[i].attempted {
        return Success(false);
      }
      RemovePendingAt(i);
      return Success(true);
    }

    method CompleteResource(operation: Id, fingerprint: Fingerprint, owner: Owner, resource: Resource)
      returns (answer: Fallible<Completed>)
      modifies this`workspaces, this`pendings, this`completed
      ensures Computes(StoreOps.CompleteResource(old(Value()), operation, fingerprint, owner, resource), answer,
                       Value())
    {
      var i := PendingIndex(pendings, operation);
      if i == |pendings| {
        var c := CompletedIndex(completed, operation);
        if c < |completed| && completed[c].fingerprint == fingerprint {
          return Success(completed[c]);
        }
        return Failure(NotFound);
      }
      if pendings[i].fingerprint != fingerprint {
        return Failure(OperationConflict);
      }
      answer := CompletePending(i, owner, resource);
    }

    method CompletePending(i: nat, owner: Owner, resource: Resource) returns (answer: Fallible<Completed>)
      requires i < |pendings|
      modifies this`workspaces, this`pendings, this`completed
      ensures Computes(StoreOps.CompletePending(old(Value()), i, owner, resource), answer, Value())
    {
      hide SortByNode, CompletedBytes, StoreOps.PushCompleted, StoreOps.EvictCompleted, StoreBytes;
      hide OwnerLinkedElsewhere, WorkspaceIndex, PlacementIndex;
      var p := pendings[i];
      if owner.id != p.owner || owner.name != p.ownerName || owner.cwd != p.cwd {
        return Failure(OwnerMismatch);
      }
      if OwnerLinkedElsewhere(workspaces, p.workspace, p.node, owner.id) {
        return Failure(AlreadyExists);
      }
      var k := WorkspaceIndex(workspaces, p.workspace);
      if k == |workspaces| {
        return Failure(NotFound);
      }
      var w := workspaces[k];
      var l := PlacementIndex(w.placements, p.node);
      if l < |w.placements| {
        if w.placements[l].ownerId != owner.id {
          return Failure(DifferentPlacement);
        }
        var refreshed := w.placements[l].(ownerName := Some(owner.name), ownerRevision := owner.revision,
                                          cwd := owner.cwd, state := Active);
        workspaces := workspaces[k := w.(placements := w.placements[l := refreshed])];
      } else {
        if w.revision >= U64_MAX {
          return Failure(RevisionExhausted);
        }
        workspaces := workspaces[k := w.(revision := w.revision + 1,
                                         placements := SortByNode(w.placements + [OwnerPlacement(p.node, owner)]))];
      }
      var record := CompletionRecord(p, workspaces[k], resource);
      if CompletedBytes(record) > p.reservation {
        return Failure(ReservationExceeded);
      }
      pendings := Without(pendings, i);
      assert Value() == Settled(old(Value()), i, k, PlaceTotal(w, OwnerPlacement(p.node, owner)));
      var pushed := PushCompleted(record);
      if pushed.Failure? {
        return Failure(pushed.error);
      }
      return Success(record);
    }

    // ---------- default directory ----------

    method PrepareDefaultCwd(r: PendingCwd) returns (answer: Fallible<PreparedCwd>)
      modifies this`pendingCwd, this`completed, this`completedCwd
      ensures Computes(StoreOps.PrepareDefaultCwd(old(Value()), r), answer, Value())
    {
      var request := r.(attempted := false, reservation := CWD_RESERVATION_BYTES);
      if PendingIndex(pendings, r.operation) < |pendings| || CompletedIndex(completed, r.operation) < |completed| {
        return Failure(OperationConflict);
      }
      var e := CompletedCwdIndex(completedCwd, r.operation);
      if e < |completedCwd| {
        if !SameCwdRequest(completedCwd[e].request, request) {
          return Failure(OperationConflict);
        }
        return Success(CwdCompleted(completedCwd[e].result));
      }
      var d := CwdIndex(pendingCwd, r.operation);
      if d < |pendingCwd| {
        if !SameCwdRequest(pendingCwd[d], request) {
          return Failure(OperationConflict);
        }
        return Success(CwdPending(pendingCwd[d]));
      }
      if HasPending(Value(), r.workspace) {
        return Failure(WouldBlock);
      }
      var k := WorkspaceIndex(workspaces, r.workspace);
      if k == |workspaces| {
        return Failure(NotFound);
      }
      var w := workspaces[k];
      if !RevisionMatches(w.revision, r.expectedRevision) {
        return Failure(RevisionChanged);
      }
      if w.closing {
        return Failure(WouldBlock);
      }
      var l := PlacementIndex(w.placements, r.node);
      if l == |w.placements| || w.placements[l].ownerId != r.owner {
        return Failure(NotFound);
      }
      if !RevisionMatches(w.placements[l].ownerRevision, r.expectedOwnerRevision) {
        return Failure(RevisionChanged);
      }
      pendingCwd := pendingCwd + [request];
      var compacted := CompactPreparedState();
      if compacted.Failure? {
        return Failure(compacted.error);
      }
      return Success(CwdPending(request));
    }

    method MarkDefaultCwdOwnerAttempted(operation: PendingCwd) returns (answer: Fallible<PendingCwd>)
      modifies this`pendingCwd
      ensures Computes(MarkDefaultCwdAttempted(old(Value()), operation), answer, Value())
    {
      var d := CwdIndex(pendingCwd, operation.operation);
      if d == |pendingCwd| {
        return Failure(NotFound);
      }
      if !SameCwdRequest(pendingCwd[d], operation) {
        return Failure(OperationConflict);
      }
      pendingCwd := pendingCwd[d := pendingCwd[d].(attempted := true)];
      return Success(pendingCwd[d]);
    }

    method CancelDefaultCwd(operation: PendingCwd, onlyIfNeverAttempted: bool) returns (answer: Fallible<bool>)
      modifies this`pendingCwd
      ensures Computes(StoreOps.CancelDefaultCwd(old(Value()), operation, onlyIfNeverAttempted), answer, Value())
    {
      var d := CwdIndex(pendingCwd, operation.operation);
      if d == |pendingCwd| {
        return Success(false);
      }
      if !SameCwdRequest(pendingCwd[d], operation) {
        return Failure(OperationConflict);
      }
      if onlyIfNeverAttempted && pendingCwd[d].attempted {
        return Success(false);
      }
      pendingCwd := Without(pendingCwd, d);
      return Success(true);
    }

    method CompleteDefaultCwd(operation: PendingCwd, owner: Owner) returns (answer: Fallible<CwdResult>)
      modifies this`workspaces, this`pendingCwd, this`completed, this`completedCwd
      ensures Computes(StoreOps.CompleteDefaultCwd(old(Value()), operation, owner), answer, Value())
    {
      var e := CompletedCwdIndex(completedCwd, operation.operation);
      if e < |completedCwd| {
        if !SameCwdRequest(completedCwd[e].request, operation) {
          return Failure(OperationConflict);
        }
        return Success(completedCwd[e].result);
      }
      var d := CwdIndex(pendingCwd, operation.operation);
      if d == |pendingCwd| {
        return Failure(NotFound);
      }
      var pending := pendingCwd[d];
      if !SameCwdRequest(pending, operation) || owner.id != pending.owner || owner.cwd != Some(pending.cwd) {
        return Failure(OperationConflict);
      }
      if owner.revision < pending.expectedOwnerRevision || owner.revision - pending.expectedOwnerRevision > 1 {
        return Failure(OperationConflict);
      }
      var changed := owner.revision - pending.expectedOwnerRevision == 1;
      var k := WorkspaceIndex(workspaces, pending.workspace);
      if k == |workspaces| {
        return Failure(MissingTarget);
      }
      answer := MoveDefaultCwd(d, k, owner.revision, changed);
    }

    /** Moves the placement, takes the operation out and records its result. */
    method MoveDefaultCwd(d: nat, k: nat, ownerRevision: nat, changed: bool) returns (answer: Fallible<CwdResult>)
      requires d < |pendingCwd| && k < |workspaces|
      modifies this`workspaces, this`pendingCwd, this`completed, this`completedCwd
      ensures var pending, w := old(pendingCwd)[d], old(workspaces)[k];
              var l := PairIndex(w.placements, pending.node, pending.owner);
              if l == |w.placements| then answer == Failure(MissingTarget)
              else if w.placements[l].ownerRevision != pending.expectedOwnerRevision
              then answer == Failure(OperationConflict)
              else if changed && w.revision >= U64_MAX then answer == Failure(RevisionExhausted)
              else
                var moved := CwdMoved(w, l, pending.cwd, ownerRevision, changed);
                var result := CwdAnswer(pending.(workspace := w.id), moved.revision, ownerRevision,
                                        if changed then Updated else Unchanged);
                match Compact(CwdSettled(old(Value()), d, k, moved, result))
                case Failure(error) => answer == Failure(error)
                case Success(s) => answer == Success(result) && Value() == s
    {
      hide Compact;
      var pending, w := pendingCwd[d], workspaces[k];
      var l := PairIndex(w.placements, pending.node, pending.owner);
      if l == |w.placements| {
        return Failure(MissingTarget);
      }
      if w.placements[l].ownerRevision != pending.expectedOwnerRevision {
        return Failure(OperationConflict);
      }
      w := w.(placements := w.placements[l := w.placements[l].(ownerRevision := ownerRevision,
                                                               cwd := Some(pending.cwd))]);
      if changed {
        if w.revision >= U64_MAX {
          return Failure(RevisionExhausted);
        }
        w := w.(revision := w.revision + 1);
      }
      var result := CwdResult(w.id, pending.node, pending.owner, pending.cwd, w.revision, ownerRevision,
                              if changed then Updated else Unchanged);
      assert w == CwdMoved(old(workspaces)[k], l, pending.cwd, ownerRevision, changed);
      var settled := SettleDefaultCwd(d, k, w, result);
      if settled.Failure? {
        return Failure(settled.error);
      }
      return Success(result);
    }

    method SettleDefaultCwd(d: nat, k: nat, moved: Workspace, result: CwdResult) returns (answer: Fallible<()>)
      requires d < |pendingCwd| && k < |workspaces|
      modifies this`workspaces, this`pendingCwd, this`completed, this`completedCwd
      ensures Leaves(Compact(CwdSettled(old(Value()), d, k, moved, result)), answer, Value())
    {
      hide Compact;
      var pending := pendingCwd[d];
      workspaces := workspaces[k := moved];
      pendingCwd := Without(pendingCwd, d);
      completedCwd := completedCwd + [CompletedCwd(pending.(reservation := 0), result)];
      if |completedCwd| > MAX_COMPLETED_OPERATIONS {
        completedCwd := completedCwd[1..];
      }
      assert Value() == CwdSettled(old(Value()), d, k, moved, result);
      answer := CompactPreparedState();
    }

    // ---------- linking, renaming, closing ----------

    method Create(freshId: Id, name: string) returns (answer: Fallible<Workspace>)
      modifies this`workspaces
      ensures Computes(StoreOps.Create(old(Value()), freshId, name), answer, Value())
    {
      if !ValidName(name) {
        return Failure(InvalidName);
      }
      if NameIndex(workspaces, name) < |workspaces| {
        return Failure(AlreadyExists);
      }
      if |workspaces| >= MAX_WORKSPACES {
        return Failure(LimitReached);
      }
      var w := Workspace(freshId, 1, name, false, []);
      workspaces := workspaces + [w];
      return Success(w);
    }

    method Adopt(freshId: Id, node: Id, owner: Owner, expected: nat) returns (answer: Fallible<Workspace>)
      modifies this`workspaces
      ensures Computes(StoreOps.Adopt(old(Value()), freshId, node, owner, expected), answer, Value())
    {
      if !RevisionMatches(owner.revision, expected) {
        return Failure(RevisionChanged);
      }
      if OwnerLinked(workspaces, node, owner.id) {
        return Failure(AlreadyExists);
      }
      if NameIndex(workspaces, owner.name) < |workspaces| {
        return Failure(AlreadyExists);
      }
      var w := Workspace(freshId, 1, owner.name, false, [OwnerPlacement(node, owner)]);
      workspaces := workspaces + [w];
      return Success(w);
    }

    method Link(workspace: Id, expectedRevision: nat, node: Id, owner: Owner, expectedOwner: nat)
      returns (answer: Fallible<Workspace>)
      modifies this`workspaces
      ensures Computes(StoreOps.Link(old(Value()), workspace, expectedRevision, node, owner, expectedOwner), answer,
                       Value())
    {
      if !RevisionMatches(owner.revision, expectedOwner) {
        return Failure(RevisionChanged);
      }
      if OwnerLinked(workspaces, node, owner.id) {
        return Failure(AlreadyExists);
      }
      if HasPending(Value(), workspace) {
        return Failure(WouldBlock);
      }
      var k := WorkspaceIndex(workspaces, workspace);
      if k == |workspaces| {
        return Failure(NotFound);
      }
      var w := workspaces[k];
      if !RevisionMatches(w.revision, expectedRevision) {
        return Failure(RevisionChanged);
      }
      if w.closing {
        return Failure(WouldBlock);
      }
      if exists l :: l in w.placements && l.node == node {
        return Failure(AlreadyExists);
      }
      if w.revision >= U64_MAX {
        return Failure(RevisionExhausted);
      }
      w := w.(revision := w.revision + 1);
      w := w.(placements := w.placements + [OwnerPlacement(node, owner)]);
      w := w.(placements := SortByNode(w.placements));
      workspaces := workspaces[k := w];
      return Success(w);
    }

    method Rename(workspace: Id, expectedRevision: nat, name: string) returns (answer: Fallible<Workspace>)
      modifies this`workspaces
      ensures Computes(StoreOps.Rename(old(Value()), workspace, expectedRevision, name), answer, Value())
    {
      if !ValidName(name) {
        return Failure(InvalidName);
      }
      if HasPending(Value(), workspace) {
        return Failure(WouldBlock);
      }
      if exists w :: w in workspaces && w.id != workspace && w.name == name {
        return Failure(AlreadyExists);
      }
      var k := WorkspaceIndex(workspaces, workspace);
      if k == |workspaces| {
        return Failure(NotFound);
      }
      var w := workspaces[k];
      if !RevisionMatches(w.revision, expectedRevision) {
        return Failure(RevisionChanged);
      }
      if w.closing {
        return Failure(WouldBlock);
      }
      if w.name != name {
        w := w.(name := name);
        if w.revision >= U64_MAX {
          return Failure(RevisionExhausted);
        }
        w := w.(revision := w.revision + 1);
        workspaces := workspaces[k := w];
      }
      return Success(w);
    }

    method BeginClose(workspace: Id, expectedRevision: nat) returns (answer: Fallible<Workspace>)
      modifies this`workspaces
      ensures Computes(StoreOps.BeginClose(old(Value()), workspace, expectedRevision), answer, Value())
    {
      if HasPending(Value(), workspace) {
        return Failure(WouldBlock);
      }
      var k := WorkspaceIndex(workspaces, workspace);
      if k == |workspaces| {
        return Failure(NotFound);
      }
      var w := workspaces[k];
      if !RevisionMatches(w.revision, expectedRevision) {
        return Failure(RevisionChanged);
      }
      if !w.closing {
        if w.revision >= U64_MAX {
          return Failure(RevisionExhausted);
        }
        var pl := w.placements;
        for i := 0 to |pl|
          invariant |pl| == |w.placements|
          invariant forall j :: 0 <= j < i ==> pl[j] == w.placements[j].(state := ClosePending)
          invariant forall j :: i <= j < |pl| ==> pl[j] == w.placements[j]
        {
          pl := pl[i := pl[i].(state := ClosePending)];
        }
        assert pl == CloseAll(w.placements);
        w := w.(revision := w.revision + 1, closing := true, placements := pl);
        workspaces := workspaces[k := w];
      }
      return Success(w);
    }

    method ConfirmClosed(workspace: Id, node: Id, owner: Id) returns (answer: Fallible<Option<Workspace>>)
      modifies this`workspaces
      ensures Computes(StoreOps.ConfirmClosed(old(Value()), workspace, node, owner), answer, Value())
    {
      var k := WorkspaceIndex(workspaces, workspace);
      if k == |workspaces| {
        return Failure(NotFound);
      }
      var w := workspaces[k];
      if !w.closing {
        return Failure(InvalidInput);
      }
      var kept: seq<Placement> := [];
      for i := 0 to |w.placements|
        invariant kept == RetainOthers(w.placements[..i], node, owner)
      {
        assert w.placements[..i + 1][..i] == w.placements[..i];
        if !(w.placements[i].node == node && w.placements[i].ownerId == owner) {
          kept := kept + [w.placements[i]];
        }
      }
      assert w.placements[..|w.placements|] == w.placements;
      if kept == [] {
        workspaces := Without(workspaces, k);
        return Success(None);
      }
      if w.revision >= U64_MAX {
        return Failure(RevisionExhausted);
      }
      w := w.(placements := kept, revision := w.revision + 1);
      workspaces := workspaces[k := w];
      return Success(Some(w));
    }

    method ConfirmEmptyClosed(workspace: Id) returns (answer: Fallible<()>)
      modifies this`workspaces
      ensures Computes(StoreOps.ConfirmEmptyClosed(old(Value()), workspace), answer, Value())
    {
      var k := WorkspaceIndex(workspaces, workspace);
      if k == |workspaces| {
        return Failure(NotFound);
      }
      if !workspaces[k].closing || workspaces[k].placements != [] {
        return Failure(InvalidInput);
      }
      workspaces := Without(workspaces, k);
      return Success(());
    }

    /** The body of the one-time import, once it is known not to have run. */
    method ImportLocal(node: Id, owners: seq<Owner>) returns (answer: Fallible<bool>)
      requires !migrated
      modifies this`workspaces, this`migrated
      ensures Computes(InitializeLocalOnce(old(Value()), node, owners), answer, Value())
    {
      ghost var was := workspaces;
      for i := 0 to |owners|
        invariant ImportAll(was, node, owners[..i]) == Success(workspaces)
      {
        assert owners[..i + 1][..i] == owners[..i];
        if |workspaces| >= MAX_WORKSPACES {
          ImportPrefix(was, node, owners, i + 1);
          return Failure(LimitReached);
        }
        workspaces := workspaces
                      + [Workspace(owners[i].id, 1, owners[i].name, false, [OwnerPlacement(node, owners[i])])];
      }
      assert owners[..|owners|] == owners;
      migrated := true;
      return Success(true);
    }
  }
}
