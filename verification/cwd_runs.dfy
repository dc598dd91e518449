/** Between the preparation and the completion of a directory change, only a
    resource prepared on the same Workspace can move that Workspace. */
module CwdRuns {
  import opened Basics
  import opened StoreTypes
  import opened Placements
  import opened StoreOps
  import opened StoreInvariant
  import opened Eviction
  import opened StoreSteps
  import opened Lifecycle
  import opened Aliases
  import opened DefaultCwd

  predicate NoResourceOn(ps: seq<Pending>, id: Id) {
    forall i :: 0 <= i < |ps| ==> ps[i].workspace != id
  }

  predicate SameWorkspaceAt(ws: seq<Workspace>, vs: seq<Workspace>, id: Id) {
    Known(ws, id) && Known(vs, id) && Lookup(vs, id) == Lookup(ws, id)
  }

  lemma LookupAfterAppend(ws: seq<Workspace>, w: Workspace, id: Id)
    requires Known(ws, id) && IdsDistinct(ws)
    requires IdsDistinct(ws + [w])
    ensures SameWorkspaceAt(ws, ws + [w], id)
  {
    var n := WorkspaceIndex(ws, id);
    assert (ws + [w])[n] == ws[n];
  }

  lemma LookupAfterWithout(ws: seq<Workspace>, k: nat, id: Id)
    requires Known(ws, id) && IdsDistinct(ws) && k < |ws| && ws[k].id != id
    ensures SameWorkspaceAt(ws, Without(ws, k), id)
  {
    KnownWithout(ws, k, id);
    var m := WorkspaceIndex(Without(ws, k), id);
    var a := if m < k then m else m + 1;
    assert Without(ws, k)[m] == ws[a];
    assert a == WorkspaceIndex(ws, id);
  }

  lemma OtherUpdated(ws: seq<Workspace>, k: nat, v: Workspace, id: Id)
    requires Known(ws, id) && IdsDistinct(ws) && k < |ws| && v.id == ws[k].id && v.id != id
    ensures SameWorkspaceAt(ws, ws[k := v], id)
  {
    LookupAfterUpdate(ws, k, v, id);
  }

  lemma NoResourceAfterReserve(ps: seq<Pending>, w: Workspace, p: Pending, id: Id)
    requires Reserve(ps, w, p).Success? && NoResourceOn(ps, id) && p.workspace != id
    ensures NoResourceOn(Reserve(ps, w, p).value, id)
  {
    ReserveMeaning(ps, w, p);
  }

  lemma PrepareElsewhere(s: State, r: ResourceRequest, attempt: bool, id: Id)
    requires NoResourceOn(s.pendings, id) && r.workspace != id && PrepareResource(s, r, attempt).Success?
    ensures var s' := PrepareResource(s, r, attempt).value.0;
            s'.workspaces == s.workspaces && NoResourceOn(s'.pendings, id) && s'.pendingCwd == s.pendingCwd
  {
    if !IsCompleted(s.completed, r.operation) {
      if IsPending(s.pendings, r.operation) {
        RepeatedPrepareReveals(s, r, attempt);
      } else {
        NewResourceReveals(s, r, attempt);
        var w := s.workspaces[WorkspaceIndex(s.workspaces, r.workspace)];
        NoResourceAfterReserve(s.pendings, w, NewPending(s.pendings, w, r, attempt), id);
      }
    }
  }

  lemma ShellElsewhere(s: State, r: ShellRequest, id: Id)
    requires IdsDistinct(s.workspaces) && Known(s.workspaces, id) && NoResourceOn(s.pendings, id)
    requires PrepareWorkspaceShell(s, r).Success? && IdsDistinct(PrepareWorkspaceShell(s, r).value.0.workspaces)
    ensures var s' := PrepareWorkspaceShell(s, r).value.0;
            && SameWorkspaceAt(s.workspaces, s'.workspaces, id)
            && NoResourceOn(s'.pendings, id) && s'.pendingCwd == s.pendingCwd
  {
    ShellReveals(s, r);
    var n := NameIndex(s.workspaces, r.name);
    if PrepareWorkspaceShell(s, r).value.0.pendings != s.pendings {
      if n < |s.workspaces| {
        var e := AliasIndex(s.pendings, s.workspaces[n].id, r.semantic);
        NoResourceAfterReserve(s.pendings, s.workspaces[n], NewAlias(s.pendings[e], r), id);
      } else {
        LookupAfterAppend(s.workspaces, NewWorkspace(r.workspace, r.name), id);
        NoResourceAfterReserve(s.pendings, NewWorkspace(r.workspace, r.name), NewCreation(r), id);
      }
    }
  }

  lemma CancelElsewhere(s: State, op: Op, id: Id)
    requires IdsDistinct(s.workspaces) && Known(s.workspaces, id) && NoResourceOn(s.pendings, id)
    requires IsCancel(op) && Attempt(s, op).Success?
    ensures var s' := Attempt(s, op).value;
            && SameWorkspaceAt(s.workspaces, s'.workspaces, id)
            && NoResourceOn(s'.pendings, id) && s'.pendingCwd == s.pendingCwd
  {
    if Attempt(s, op).value != s {
      CancelReveals(s, op);
      var i := PendingIndex(s.pendings, op.operation);
      var k := WorkspaceIndex(s.workspaces, s.pendings[i].workspace);
      if k < |s.workspaces| {
        LookupAfterWithout(s.workspaces, k, id);
      }
    }
  }

  lemma CompleteElsewhere(s: State, op: Op, id: Id)
    requires IdsDistinct(s.workspaces) && Known(s.workspaces, id) && NoResourceOn(s.pendings, id)
    requires op.OpComplete? && Attempt(s, op).Success?
    ensures var s' := Attempt(s, op).value;
            && SameWorkspaceAt(s.workspaces, s'.workspaces, id)
            && NoResourceOn(s'.pendings, id) && s'.pendingCwd == s.pendingCwd
  {
    var i := PendingIndex(s.pendings, op.operation);
    if i < |s.pendings| {
      CompletionReveals(s, i, op.owner, op.resource);
      var k := WorkspaceIndex(s.workspaces, s.pendings[i].workspace);
      OtherUpdated(s.workspaces, k, Attempt(s, op).value.workspaces[k], id);
    }
  }

  predicate IsResourceOp(op: Op) {
    op.OpPrepareResource? || op.OpPrepareShell? || op.OpMark? || IsCancel(op) || op.OpComplete?
  }

  lemma ResourceOpElsewhere(s: State, op: Op, id: Id)
    requires IdsDistinct(s.workspaces) && Known(s.workspaces, id) && NoResourceOn(s.pendings, id)
    requires IsResourceOp(op) && Attempt(s, op).Success? && IdsDistinct(Attempt(s, op).value.workspaces)
    requires op.OpPrepareResource? ==> op.resourceRequest.workspace != id
    ensures var s' := Attempt(s, op).value;
            && SameWorkspaceAt(s.workspaces, s'.workspaces, id)
            && NoResourceOn(s'.pendings, id) && s'.pendingCwd == s.pendingCwd
  {
    match op
    case OpPrepareResource(r, attempt) => PrepareElsewhere(s, r, attempt, id);
    case OpPrepareShell(r) => ShellElsewhere(s, r, id);
    case OpMark(o, f) =>
    case OpComplete(o, f, owner, resource) => CompleteElsewhere(s, op, id);
    case OpCancel(o, f) => CancelElsewhere(s, op, id);
    case OpCancelUnattempted(o, f) => CancelElsewhere(s, op, id);
  }

  predicate NeedsQuietWorkspace(op: Op) {
    op.OpLink? || op.OpRename? || op.OpBeginClose?
  }

  /** One Workspace, with nothing pending, is edited and keeps its id. */
  predicate EditsQuiet(s: State, s': State, id: Id) {
    var k := WorkspaceIndex(s.workspaces, id);
    && !HasPending(s, id) && k < |s.workspaces| && |s'.workspaces| == |s.workspaces|
    && s'.workspaces[k].id == id && s' == s.(workspaces := s.workspaces[k := s'.workspaces[k]])
  }

  lemma LinkEdits(s: State, id: Id, expected: nat, node: Id, owner: Owner, expectedOwner: nat)
    requires Link(s, id, expected, node, owner, expectedOwner).Success?
    ensures EditsQuiet(s, Link(s, id, expected, node, owner, expectedOwner).value.0, id)
  {
    hide HasPending, SortByNode;
  }

  lemma RenameEdits(s: State, id: Id, expected: nat, name: string)
    requires Rename(s, id, expected, name).Success?
    ensures EditsQuiet(s, Rename(s, id, expected, name).value.0, id)
  {
    hide HasPending, ValidName;
    var k := WorkspaceIndex(s.workspaces, id);
    assert s.workspaces[k := s.workspaces[k]] == s.workspaces;
  }

  lemma CloseEdits(s: State, id: Id, expected: nat)
    requires BeginClose(s, id, expected).Success?
    ensures EditsQuiet(s, BeginClose(s, id, expected).value.0, id)
  {
    hide HasPending, CloseAll;
    var k := WorkspaceIndex(s.workspaces, id);
    assert s.workspaces[k := s.workspaces[k]] == s.workspaces;
  }

  /** What a link, a rename or the start of a close edits. */
  lemma QuietEdit(s: State, op: Op)
    requires NeedsQuietWorkspace(op) && Attempt(s, op).Success?
    ensures EditsQuiet(s, Attempt(s, op).value, op.workspace)
  {
    hide EditsQuiet, Link, Rename, BeginClose;
    match op
    case OpLink(w, e, node, owner, eo) => LinkEdits(s, w, e, node, owner, eo);
    case OpRename(w, e, name) => RenameEdits(s, w, e, name);
    case OpBeginClose(w, e) => CloseEdits(s, w, e);
  }

  /** A Workspace with a directory change pending refuses to be linked, renamed or closed. */
  lemma BlockedOpElsewhere(s: State, op: Op, id: Id)
    requires IdsDistinct(s.workspaces) && Known(s.workspaces, id) && HasPending(s, id)
    requires NeedsQuietWorkspace(op) && Attempt(s, op).Success?
    ensures var s' := Attempt(s, op).value;
            && op.workspace != id
            && SameWorkspaceAt(s.workspaces, s'.workspaces, id)
            && s'.pendings == s.pendings && s'.pendingCwd == s.pendingCwd
  {
    hide HasPending, Attempt;
    QuietEdit(s, op);
    var k := WorkspaceIndex(s.workspaces, op.workspace);
    assert op.workspace != id;
    OtherUpdated(s.workspaces, k, Attempt(s, op).value.workspaces[k], id);
  }

  predicate AddsWorkspaces(op: Op) {
    op.OpCreate? || op.OpAdopt? || op.OpInitialize?
  }

  lemma AddingElsewhere(s: State, op: Op, id: Id)
    requires IdsDistinct(s.workspaces) && Known(s.workspaces, id)
    requires AddsWorkspaces(op) && Attempt(s, op).Success? && IdsDistinct(Attempt(s, op).value.workspaces)
    ensures var s' := Attempt(s, op).value;
            && SameWorkspaceAt(s.workspaces, s'.workspaces, id)
            && s'.pendings == s.pendings && s'.pendingCwd == s.pendingCwd
  {
    match op
    case OpCreate(newId, name) => LookupAfterAppend(s.workspaces, Create(s, newId, name).value.1, id);
    case OpAdopt(newId, node, owner, e) => LookupAfterAppend(s.workspaces, Adopt(s, newId, node, owner, e).value.1, id);
    case OpInitialize(node, owners) =>
      if !s.migrated {
        ImportElsewhere(s.workspaces, node, owners, id);
      }
  }

  lemma WorkspaceOpElsewhere(s: State, op: Op, id: Id, n: nat)
    requires IsCoherent(s) && Known(s.workspaces, id) && n < |s.pendingCwd| && s.pendingCwd[n].workspace == id
    requires IsWorkspaceOp(op) && Attempt(s, op).Success? && IdsDistinct(Attempt(s, op).value.workspaces)
    ensures var s' := Attempt(s, op).value;
            && SameWorkspaceAt(s.workspaces, s'.workspaces, id)
            && s'.pendings == s.pendings && s'.pendingCwd == s.pendingCwd
  {
    assert s.pendingCwd[n] in s.pendingCwd && HasPending(s, id);
    if NeedsQuietWorkspace(op) {
      BlockedOpElsewhere(s, op, id);
    } else if AddsWorkspaces(op) {
      AddingElsewhere(s, op, id);
    } else if op.OpConfirmClosed? {
      ConfirmElsewhere(s, op.workspace, op.node, op.ownerId, id, n);
    } else {
      BusyIsOpen(s, id, n);
      LookupAfterWithout(s.workspaces, WorkspaceIndex(s.workspaces, op.workspace), id);
    }
  }

  lemma BusyIsOpen(s: State, id: Id, n: nat)
    requires ClosingIdle(s.workspaces, s.pendings, s.pendingCwd) && Known(s.workspaces, id)
    requires n < |s.pendingCwd| && s.pendingCwd[n].workspace == id
    ensures !Lookup(s.workspaces, id).closing
  {
  }

  lemma ConfirmElsewhere(s: State, w: Id, node: Id, owner: Id, id: Id, n: nat)
    requires IsCoherent(s) && Known(s.workspaces, id) && n < |s.pendingCwd| && s.pendingCwd[n].workspace == id
    requires ConfirmClosed(s, w, node, owner).Success?
    ensures var s' := ConfirmClosed(s, w, node, owner).value.0; SameWorkspaceAt(s.workspaces, s'.workspaces, id)
  {
    BusyIsOpen(s, id, n);
    var k := WorkspaceIndex(s.workspaces, w);
    var after := ConfirmClosed(s, w, node, owner).value.1;
    if after.Some? {
      OtherUpdated(s.workspaces, k, after.value, id);
    } else {
      LookupAfterWithout(s.workspaces, k, id);
    }
  }

  lemma {:induction false} ImportElsewhere(ws: seq<Workspace>, node: Id, owners: seq<Owner>, id: Id)
    requires Known(ws, id) && IdsDistinct(ws) && ImportAll(ws, node, owners).Success?
    requires IdsDistinct(ImportAll(ws, node, owners).value)
    ensures SameWorkspaceAt(ws, ImportAll(ws, node, owners).value, id)
  {
    if owners != [] {
      var init, owner := owners[..|owners| - 1], owners[|owners| - 1];
      var before := ImportAll(ws, node, init).value;
      var w := Workspace(owner.id, 1, owner.name, false, [OwnerPlacement(node, owner)]);
      assert forall i :: 0 <= i < |before| ==> (before + [w])[i] == before[i];
      ImportElsewhere(ws, node, init, id);
      LookupAfterAppend(before, w, id);
    }
  }

  // ---------- directory operations on other Workspaces ----------

  /** The same operation, no less attempted. */
  predicate SameChange(d: PendingCwd, e: PendingCwd) {
    e == d.(attempted := e.attempted) && (d.attempted ==> e.attempted)
  }

  predicate StillPending(ds: seq<PendingCwd>, d: PendingCwd) {
    exists n :: 0 <= n < |ds| && SameChange(d, ds[n])
  }

  predicate Concludes(op: Op, d: PendingCwd) {
    (op.OpCompleteCwd? || op.OpCancelCwd?) && op.cwdRequest.operation == d.operation
  }

  /** The call that may end d: not a cancel that spares what was attempted. */
  predicate MayEnd(op: Op, d: PendingCwd) {
    Concludes(op, d) && !(op.OpCancelCwd? && op.onlyIfNeverAttempted && d.attempted)
  }

  predicate IsCwdOp(op: Op) {
    op.OpPrepareCwd? || op.OpMarkCwd? || op.OpCancelCwd? || op.OpCompleteCwd?
  }

  lemma CancelCwdKeeps(s: State, r: PendingCwd, only: bool, d: PendingCwd)
    requires PendingCwdDistinct(s.pendingCwd) && StillPending(s.pendingCwd, d)
    requires r.operation == d.operation ==> only && d.attempted
    requires CancelDefaultCwd(s, r, only).Success?
    ensures StillPending(CancelDefaultCwd(s, r, only).value.0.pendingCwd, d)
  {
    var j := CwdIndex(s.pendingCwd, r.operation);
    if CancelDefaultCwd(s, r, only).value.0.pendingCwd != s.pendingCwd {
      var n :| 0 <= n < |s.pendingCwd| && SameChange(d, s.pendingCwd[n]);
      assert j != n;
      WithoutKeeps(s.pendingCwd, j, d);
    }
  }

  lemma CompleteCwdKeeps(s: State, r: PendingCwd, owner: Owner, d: PendingCwd)
    requires StillPending(s.pendingCwd, d) && r.operation != d.operation
    requires CompleteDefaultCwd(s, r, owner).Success?
    ensures StillPending(CompleteDefaultCwd(s, r, owner).value.0.pendingCwd, d)
  {
    CompleteCwdDrops(s, r, owner);
    hide CompleteDefaultCwd;
    if CompleteDefaultCwd(s, r, owner).value.0.pendingCwd != s.pendingCwd {
      WithoutKeeps(s.pendingCwd, CwdIndex(s.pendingCwd, r.operation), d);
    }
  }

  lemma CwdOpKeepsPending(s: State, op: Op, d: PendingCwd)
    requires PendingCwdDistinct(s.pendingCwd) && StillPending(s.pendingCwd, d)
    requires IsCwdOp(op) && !MayEnd(op, d) && Attempt(s, op).Success?
    ensures StillPending(Attempt(s, op).value.pendingCwd, d)
  {
    hide PrepareDefaultCwd, CancelDefaultCwd, CompleteDefaultCwd, StillPending;
    match op
    case OpPrepareCwd(r) =>
      PrepareCwdReveals(s, r);
      AppendKeeps(s.pendingCwd, r.(attempted := false, reservation := CWD_RESERVATION_BYTES), d);
    case OpMarkCwd(r) => MarkKeeps(s.pendingCwd, CwdIndex(s.pendingCwd, r.operation), d);
    case OpCancelCwd(r, only) => CancelCwdKeeps(s, r, only, d);
    case OpCompleteCwd(r, owner) => CompleteCwdKeeps(s, r, owner, d);
  }

  lemma AppendKeeps(ds: seq<PendingCwd>, e: PendingCwd, d: PendingCwd)
    requires StillPending(ds, d)
    ensures StillPending(ds + [e], d)
  {
    var n :| 0 <= n < |ds| && SameChange(d, ds[n]);
    assert (ds + [e])[n] == ds[n];
  }

  lemma MarkKeeps(ds: seq<PendingCwd>, j: nat, d: PendingCwd)
    requires StillPending(ds, d) && j < |ds|
    ensures StillPending(ds[j := ds[j].(attempted := true)], d)
  {
    var n :| 0 <= n < |ds| && SameChange(d, ds[n]);
    var es := ds[j := ds[j].(attempted := true)];
    assert SameChange(d, es[n]);
  }

  lemma WithoutKeeps(ds: seq<PendingCwd>, j: nat, d: PendingCwd)
    requires StillPending(ds, d) && j < |ds| && ds[j].operation != d.operation
    ensures StillPending(Without(ds, j), d)
  {
    var n :| 0 <= n < |ds| && SameChange(d, ds[n]);
    assert Without(ds, j)[if n < j then n else n - 1] == ds[n];
  }

  lemma CompleteCwdDrops(s: State, r: PendingCwd, owner: Owner)
    requires CompleteDefaultCwd(s, r, owner).Success?
    ensures var s' := CompleteDefaultCwd(s, r, owner).value.0;
            var j := CwdIndex(s.pendingCwd, r.operation);
            if s'.pendingCwd == s.pendingCwd then s'.workspaces == s.workspaces
            else && j < |s.pendingCwd| && s'.pendingCwd == Without(s.pendingCwd, j)
                 && SameCwdRequest(s.pendingCwd[j], r)
  {
    var d := CwdIndex(s.pendingCwd, r.operation);
    if CompletedCwdIndex(s.completedCwd, r.operation) == |s.completedCwd| {
      var pending := s.pendingCwd[d];
      var k := WorkspaceIndex(s.workspaces, pending.workspace);
      var w := s.workspaces[k];
      var changed := owner.revision == pending.expectedOwnerRevision + 1;
      var moved := CwdMoved(w, PairIndex(w.placements, pending.node, pending.owner), pending.cwd, owner.revision,
                            changed);
      var result := CwdAnswer(pending, moved.revision, owner.revision, if changed then Updated else Unchanged);
      CompactKeeps(CwdSettled(s, d, k, moved, result));
    }
  }

  lemma CompleteCwdElsewhere(s: State, r: PendingCwd, owner: Owner, d: PendingCwd)
    requires IdsDistinct(s.workspaces) && OneCwdEach(s.pendingCwd)
    requires Known(s.workspaces, d.workspace) && StillPending(s.pendingCwd, d)
    requires r.operation != d.operation && CompleteDefaultCwd(s, r, owner).Success?
    ensures var s' := CompleteDefaultCwd(s, r, owner).value.0;
            SameWorkspaceAt(s.workspaces, s'.workspaces, d.workspace) && s'.pendings == s.pendings
  {
    CompleteCwdDrops(s, r, owner);
    CompleteCwdReveals(s, r, owner);
    hide CompleteDefaultCwd;
    var s' := CompleteDefaultCwd(s, r, owner).value.0;
    if s'.workspaces != s.workspaces {
      var n :| 0 <= n < |s.pendingCwd| && SameChange(d, s.pendingCwd[n]);
      var j := CwdIndex(s.pendingCwd, r.operation);
      assert j != n;
      assert s.pendingCwd[j].workspace != s.pendingCwd[n].workspace;
      var k := WorkspaceIndex(s.workspaces, r.workspace);
      OtherUpdated(s.workspaces, k, s'.workspaces[k], d.workspace);
    }
  }

  lemma CwdOpElsewhere(s: State, op: Op, d: PendingCwd)
    requires IsCoherent(s) && Known(s.workspaces, d.workspace) && StillPending(s.pendingCwd, d)
    requires IsCwdOp(op) && !Concludes(op, d) && Attempt(s, op).Success?
    ensures var s' := Attempt(s, op).value;
            SameWorkspaceAt(s.workspaces, s'.workspaces, d.workspace) && s'.pendings == s.pendings
  {
    hide CompleteDefaultCwd, PrepareDefaultCwd, StillPending, SameCwdRequest, Known;
    match op
    case OpPrepareCwd(r) => PrepareCwdReveals(s, r);
    case OpMarkCwd(r) =>
    case OpCancelCwd(r, only) =>
    case OpCompleteCwd(r, owner) => CompleteCwdElsewhere(s, r, owner, d);
  }

  // ---------- kept until ended ----------

  lemma ResourceOpKeepsCwd(s: State, op: Op)
    requires IsResourceOp(op) && Attempt(s, op).Success?
    ensures Attempt(s, op).value.pendingCwd == s.pendingCwd
  {
    hide PrepareResource, PrepareWorkspaceShell, CompletePending;
    match op
    case OpPrepareResource(r, attempt) => PrepareKeepsCwd(s, r, attempt);
    case OpPrepareShell(r) => ShellReveals(s, r);
    case OpComplete(o, f, owner, resource) =>
      if IsPending(s.pendings, o) {
        CompletionReveals(s, PendingIndex(s.pendings, o), owner, resource);
      }
    case _ =>
  }

  lemma PrepareKeepsCwd(s: State, r: ResourceRequest, attempt: bool)
    requires PrepareResource(s, r, attempt).Success?
    ensures PrepareResource(s, r, attempt).value.0.pendingCwd == s.pendingCwd
  {
    hide PrepareNewResource;
    if IsCompleted(s.completed, r.operation) {
    } else if IsPending(s.pendings, r.operation) {
    } else {
      NewResourceReveals(s, r, attempt);
    }
  }

  lemma WorkspaceOpKeepsCwd(s: State, op: Op)
    requires IsWorkspaceOp(op) && Attempt(s, op).Success?
    ensures Attempt(s, op).value.pendingCwd == s.pendingCwd
  {
    hide RetainOthers, ImportAll, HasPending;
    if NeedsQuietWorkspace(op) {
      hide Attempt;
      QuietEdit(s, op);
    }
  }

  lemma StepKeepsCwd(s: State, op: Op, d: PendingCwd)
    requires PendingCwdDistinct(s.pendingCwd) && StillPending(s.pendingCwd, d)
    requires !MayEnd(op, d) && Attempt(s, op).Success?
    ensures StillPending(Attempt(s, op).value.pendingCwd, d)
  {
    hide Attempt, StillPending, MayEnd;
    if IsCwdOp(op) {
      CwdOpKeepsPending(s, op, d);
    } else if IsResourceOp(op) {
      ResourceOpKeepsCwd(s, op);
    } else {
      WorkspaceOpKeepsCwd(s, op);
    }
  }

  predicate NeverEnds(ops: seq<Op>, d: PendingCwd) {
    forall i :: 0 <= i < |ops| ==> !MayEnd(ops[i], d)
  }

  /** A directory change stays pending, its request intact and its attempt mark never
      withdrawn, through any calls that do not complete or cancel it; once attempted,
      not even a cancel that asks for "never attempted" ends it. */
  lemma {:induction false} CwdSurvives(before: seq<Op>, after: seq<Op>, d: PendingCwd)
    requires d in Run(EMPTY, before).pendingCwd && NeverEnds(after, d)
    ensures StillPending(Run(EMPTY, before + after).pendingCwd, d)
  {
    hide Step, StillPending, MayEnd;
    if after == [] {
      assert before + after == before;
      PresentIsPending(Run(EMPTY, before).pendingCwd, d);
    } else {
      var init, op := after[..|after| - 1], after[|after| - 1];
      CwdSurvives(before, init, d);
      assert (before + after)[..|before + after| - 1] == before + init;
      CommitKeepsCwd(before + init, op, d);
    }
  }

  lemma PresentIsPending(ds: seq<PendingCwd>, d: PendingCwd)
    requires d in ds
    ensures StillPending(ds, d)
  {
    var n :| 0 <= n < |ds| && ds[n] == d;
    assert SameChange(d, ds[n]);
  }

  lemma CommitKeepsCwd(ops: seq<Op>, op: Op, d: PendingCwd)
    requires StillPending(Run(EMPTY, ops).pendingCwd, d) && !MayEnd(op, d)
    ensures var s := Run(EMPTY, ops);
            Step(s, op).Success? ==> StillPending(Step(s, op).value.pendingCwd, d)
  {
    hide Step, StillPending, MayEnd, IsCoherent;
    EveryRunIsSound(ops);
    var s := Run(EMPTY, ops);
    if Step(s, op).Success? {
      StepIsAttempt(s, op);
      StepKeepsCwd(s, op, d);
    }
  }

  // ---------- runs ----------

  /** d is pending, its Workspace stands as it was prepared against, and no resource is prepared there. */
  predicate Undisturbed(s: State, d: PendingCwd) {
    && StillPending(s.pendingCwd, d)
    && NoResourceOn(s.pendings, d.workspace)
    && Known(s.workspaces, d.workspace)
    && PreparedAgainst(Lookup(s.workspaces, d.workspace), d)
  }

  predicate PreparedAgainst(w: Workspace, d: PendingCwd) {
    && w.revision == d.expectedRevision
    && var l := PairIndex(w.placements, d.node, d.owner);
       l < |w.placements| && w.placements[l].ownerRevision == d.expectedOwnerRevision
  }

  /** Not a resource prepared on d's Workspace, nor the end of d. */
  predicate Quiet(op: Op, d: PendingCwd) {
    !Concludes(op, d) && (op.OpPrepareResource? ==> op.resourceRequest.workspace != d.workspace)
  }

  lemma QuietStep(s: State, op: Op, d: PendingCwd)
    requires IsCoherent(s) && PendingCwdDistinct(s.pendingCwd) && Undisturbed(s, d) && Quiet(op, d)
    requires Attempt(s, op).Success? && IdsDistinct(Attempt(s, op).value.workspaces)
    ensures Undisturbed(Attempt(s, op).value, d)
  {
    var n :| 0 <= n < |s.pendingCwd| && SameChange(d, s.pendingCwd[n]);
    if IsResourceOp(op) {
      ResourceOpElsewhere(s, op, d.workspace);
    } else if IsCwdOp(op) {
      CwdOpKeepsPending(s, op, d);
      CwdOpElsewhere(s, op, d);
    } else {
      WorkspaceOpElsewhere(s, op, d.workspace, n);
    }
  }

  predicate AllQuiet(ops: seq<Op>, d: PendingCwd) {
    forall i :: 0 <= i < |ops| ==> Quiet(ops[i], d)
  }

  lemma QuietCommit(s: State, op: Op, d: PendingCwd)
    requires Sound(s) && Undisturbed(s, d) && Quiet(op, d) && Step(s, op).Success?
    ensures Undisturbed(Step(s, op).value, d)
  {
    hide Attempt, IsCoherent, Undisturbed, Quiet;
    StepKeepsSound(s, op);
    QuietStep(s, op, d);
  }

  lemma {:induction false} QuietRun(s: State, ops: seq<Op>, d: PendingCwd)
    requires Sound(s) && Undisturbed(s, d) && AllQuiet(ops, d)
    ensures Undisturbed(Run(s, ops), d)
  {
    hide Step, Sound, Undisturbed, Quiet;
    if ops != [] {
      var init, op := ops[..|ops| - 1], ops[|ops| - 1];
      QuietRun(s, init, d);
      RunKeepsSound(s, init);
      if Step(Run(s, init), op).Success? {
        QuietCommit(Run(s, init), op, d);
      }
    }
  }

  /** What a fresh preparation of a directory change has checked. */
  lemma PrepareCwdOpens(s: State, r: PendingCwd)
    requires PrepareDefaultCwd(s, r).Success? && PrepareDefaultCwd(s, r).value.1.CwdPending?
    requires CwdIndex(s.pendingCwd, r.operation) == |s.pendingCwd|
    ensures var (s', answer) := PrepareDefaultCwd(s, r).value;
            && answer.pending == r.(attempted := false, reservation := CWD_RESERVATION_BYTES)
            && s'.workspaces == s.workspaces && s'.pendings == s.pendings
            && s'.pendingCwd == s.pendingCwd + [answer.pending]
            && NoResourceOn(s.pendings, r.workspace)
            && Known(s.workspaces, r.workspace)
            && var w := Lookup(s.workspaces, r.workspace);
               var l := PlacementIndex(w.placements, r.node);
               && w.revision == r.expectedRevision
               && l < |w.placements| && w.placements[l].ownerId == r.owner
               && w.placements[l].ownerRevision == r.expectedOwnerRevision
  {
    hide Compact;
    var d := r.(attempted := false, reservation := CWD_RESERVATION_BYTES);
    HasPendingMeaning(s, r.workspace);
    CompactKeeps(s.(pendingCwd := s.pendingCwd + [d]));
  }

  lemma NodeIsPair(w: Workspace, node: Id, owner: Id)
    requires Sorted(w.placements)
    requires var l := PlacementIndex(w.placements, node); l < |w.placements| && w.placements[l].ownerId == owner
    ensures PairIndex(w.placements, node, owner) == PlacementIndex(w.placements, node)
  {
  }

  lemma PreparedIsUndisturbed(s: State, r: PendingCwd)
    requires PlacementsSorted(s.workspaces) && PrepareDefaultCwd(s, r).Success?
    requires PrepareDefaultCwd(s, r).value.1.CwdPending? && CwdIndex(s.pendingCwd, r.operation) == |s.pendingCwd|
    ensures Undisturbed(PrepareDefaultCwd(s, r).value.0, PrepareDefaultCwd(s, r).value.1.pending)
  {
    PrepareCwdOpens(s, r);
    var (s', answer) := PrepareDefaultCwd(s, r).value;
    assert s'.pendingCwd[|s.pendingCwd|] == answer.pending;
    NodeIsPair(Lookup(s.workspaces, r.workspace), r.node, r.owner);
  }

  function Expected(r: PendingCwd, owner: Owner): CwdResult {
    if Changes(r, owner) then CwdAnswer(r, r.expectedRevision + 1, r.expectedOwnerRevision + 1, Updated)
    else CwdAnswer(r, r.expectedRevision, r.expectedOwnerRevision, Unchanged)
  }

  /** There is a revision to move to. */
  predicate CanMove(r: PendingCwd, owner: Owner) {
    Changes(r, owner) ==> r.expectedRevision < U64_MAX
  }

  /** Only the request in a handle matters, not its attempt mark or padding. */
  lemma SameCompletion(s: State, a: PendingCwd, b: PendingCwd, owner: Owner)
    requires SameCwdRequest(a, b)
    ensures CompleteDefaultCwd(s, a, owner) == CompleteDefaultCwd(s, b, owner)
  {
    hide Compact, CwdSettled, CwdMoved, CwdAnswer, Step;
  }

  lemma HandleIrrelevant(s: State, a: PendingCwd, b: PendingCwd, owner: Owner)
    requires SameCwdRequest(a, b)
    ensures CompleteDefaultCwd(s, a, owner) == CompleteDefaultCwd(s, b, owner)
    ensures Step(s, OpCompleteCwd(a, owner)) == Step(s, OpCompleteCwd(b, owner))
  {
    hide CompleteDefaultCwd, IsValid, StoreBytes;
    SameCompletion(s, a, b, owner);
    assert Attempt(s, OpCompleteCwd(a, owner)) == Attempt(s, OpCompleteCwd(b, owner));
  }

  lemma PlacedCompletes(t: State, n: nat, r: PendingCwd, owner: Owner)
    requires Sound(t) && Placed(t, n) && SameCwdRequest(t.pendingCwd[n], r) && Answers(r, owner)
    requires PreparedAgainst(Lookup(t.workspaces, r.workspace), t.pendingCwd[n])
    ensures Step(t, OpCompleteCwd(r, owner)).Success? <==> CanMove(r, owner)
  {
    hide Step, RecordFits, IsValid, IsCoherent, StoreBytes;
    CwdCompletesIff(t, n, owner);
    HandleIrrelevant(t, t.pendingCwd[n], r, owner);
  }

  lemma PlacedHasRoom(t: State, n: nat, owner: Owner)
    requires Sound(t) && Placed(t, n)
    ensures Compact(CwdDone(t, n, owner)).Success?
  {
    hide Compact, CwdDone, IsCoherent, StoreBytes;
    CwdAlwaysHasRoom(t, n, owner);
  }

  lemma MovedRevision(t: State, n: nat, owner: Owner)
    requires Placed(t, n)
    ensures var d := t.pendingCwd[n];
            var w := Lookup(t.workspaces, d.workspace);
            Moved(t, n, owner).revision == if Changes(d, owner) then w.revision + 1 else w.revision
  {
  }

  lemma PendingAnswers(t: State, n: nat, owner: Owner)
    requires Sound(t) && Placed(t, n) && Answers(t.pendingCwd[n], owner)
    requires CwdIndex(t.pendingCwd, t.pendingCwd[n].operation) == n
    requires CompletedCwdIndex(t.completedCwd, t.pendingCwd[n].operation) == |t.completedCwd|
    requires var d := t.pendingCwd[n];
             PreparedAgainst(Lookup(t.workspaces, d.workspace), d) && CanMove(d, owner)
    ensures var d := t.pendingCwd[n];
            && CompleteDefaultCwd(t, d, owner).Success?
            && CompleteDefaultCwd(t, d, owner).value.1 == Expected(d, owner)
  {
    hide CompleteDefaultCwd, CwdDone, Compact, Sound, Moved, PairIn;
    PlacedHasRoom(t, n, owner);
    CompletionOf(t, n, owner);
    MovedRevision(t, n, owner);
  }

  lemma SameExpected(a: PendingCwd, b: PendingCwd, owner: Owner)
    requires SameCwdRequest(a, b)
    ensures Expected(a, owner) == Expected(b, owner) && CanMove(a, owner) == CanMove(b, owner)
    ensures Answers(a, owner) == Answers(b, owner)
  {
  }

  lemma PlacedAnswers(t: State, n: nat, r: PendingCwd, owner: Owner)
    requires Sound(t) && Placed(t, n) && SameCwdRequest(t.pendingCwd[n], r) && Answers(r, owner)
    requires CwdIndex(t.pendingCwd, r.operation) == n
    requires CompletedCwdIndex(t.completedCwd, r.operation) == |t.completedCwd|
    requires PreparedAgainst(Lookup(t.workspaces, r.workspace), t.pendingCwd[n]) && CanMove(r, owner)
    ensures CompleteDefaultCwd(t, r, owner).Success? && CompleteDefaultCwd(t, r, owner).value.1 == Expected(r, owner)
  {
    hide CompleteDefaultCwd, Sound, Expected, CanMove, Answers, PreparedAgainst;
    SameExpected(t.pendingCwd[n], r, owner);
    SameCompletion(t, t.pendingCwd[n], r, owner);
    PendingAnswers(t, n, owner);
  }

  lemma UndisturbedCompletes(t: State, r: PendingCwd, d: PendingCwd, owner: Owner)
    requires Sound(t) && Undisturbed(t, d) && SameCwdRequest(d, r) && Answers(r, owner)
    ensures
      && Placed(t, CwdIndex(t.pendingCwd, r.operation))
      && (Step(t, OpCompleteCwd(r, owner)).Success? <==> CanMove(r, owner))
      && (CanMove(r, owner) ==>
            && CompleteDefaultCwd(t, r, owner).Success?
            && CompleteDefaultCwd(t, r, owner).value.1 == Expected(r, owner))
  {
    hide Step, CompleteDefaultCwd, IsValid, StoreBytes;
    var n :| 0 <= n < |t.pendingCwd| && SameChange(d, t.pendingCwd[n]);
    NotYetCompleted(t, n);
    PlacementHeld(t, n);
    hide IsCoherent;
    PlacedCompletes(t, n, r, owner);
    if CanMove(r, owner) {
      PlacedAnswers(t, n, r, owner);
    }
  }

  lemma QuietRunCompletes(u: State, r: PendingCwd, d: PendingCwd, ops: seq<Op>, owner: Owner)
    requires Sound(u) && Undisturbed(u, d) && SameCwdRequest(d, r) && AllQuiet(ops, d) && Answers(r, owner)
    ensures var t := Run(u, ops);
            && Placed(t, CwdIndex(t.pendingCwd, r.operation))
            && (Step(t, OpCompleteCwd(r, owner)).Success? <==> CanMove(r, owner))
            && (CanMove(r, owner) ==>
                  && CompleteDefaultCwd(t, r, owner).Success?
                  && CompleteDefaultCwd(t, r, owner).value.1 == Expected(r, owner))
  {
    hide Step, Run, CompleteDefaultCwd, Sound, Undisturbed, AllQuiet;
    QuietRun(u, ops, d);
    RunKeepsSound(u, ops);
    UndisturbedCompletes(Run(u, ops), r, d, owner);
  }

  lemma PreparedStep(s: State, r: PendingCwd)
    requires IsCoherent(s) && PrepareDefaultCwd(s, r).Success? && Step(s, OpPrepareCwd(r)).Success?
    ensures Step(s, OpPrepareCwd(r)).value == PrepareDefaultCwd(s, r).value.0 && Sound(Step(s, OpPrepareCwd(r)).value)
  {
    hide Sound, IsCoherent, IsValid, PrepareDefaultCwd;
    StepKeepsSound(s, OpPrepareCwd(r));
  }

  /** Whatever calls come between, provided none prepares a resource on that Workspace, a
      prepared directory change completes if and only if there is a revision to move to:
      "updated" with both revisions up by exactly one, or "unchanged" with both as they were. */
  lemma UndisturbedCwdCompletes(s: State, r: PendingCwd, ops: seq<Op>, owner: Owner)
    requires Sound(s) && PrepareDefaultCwd(s, r).Success? && Step(s, OpPrepareCwd(r)).Success?
    requires PrepareDefaultCwd(s, r).value.1.CwdPending? && CwdIndex(s.pendingCwd, r.operation) == |s.pendingCwd|
    requires AllQuiet(ops, r) && Answers(r, owner)
    ensures var t := Run(Step(s, OpPrepareCwd(r)).value, ops);
            && Placed(t, CwdIndex(t.pendingCwd, r.operation))
            && (Step(t, OpCompleteCwd(r, owner)).Success? <==> CanMove(r, owner))
            && (CanMove(r, owner) ==>
                  && CompleteDefaultCwd(t, r, owner).Success?
                  && CompleteDefaultCwd(t, r, owner).value.1 == Expected(r, owner))
  {
    hide Step, CompleteDefaultCwd, Run;
    PreparedIsUndisturbed(s, r);
    PrepareCwdOpens(s, r);
    PreparedStep(s, r);
    hide PrepareDefaultCwd, Sound;
    var d := PrepareDefaultCwd(s, r).value.1.pending;
    QuietForHandle(ops, r, d);
    QuietRunCompletes(Step(s, OpPrepareCwd(r)).value, r, d, ops, owner);
  }

  lemma QuietForHandle(ops: seq<Op>, r: PendingCwd, d: PendingCwd)
    requires AllQuiet(ops, r) && SameCwdRequest(r, d)
    ensures AllQuiet(ops, d)
  {
    forall i | 0 <= i < |ops|
      ensures Quiet(ops[i], d)
    {
      assert Quiet(ops[i], r);
    }
  }
}
