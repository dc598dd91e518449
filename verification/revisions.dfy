/** Revisions tell the truth: while a Workspace keeps its revision, it keeps its name,
    its close mark and its owners, so a call guarded by a revision acts on what its
    caller saw. */
module Revisions {
  import opened Basics
  import opened StoreTypes
  import opened Placements
  import opened StoreOps
  import opened StoreInvariant
  import opened Eviction
  import opened StoreSteps
  import opened Lifecycle
  import opened Aliases
  import opened CwdRuns

  /** The same name, close mark and (Node, owner) pairs. */
  ghost predicate SameFace(v: Workspace, w: Workspace) {
    && v.name == w.name && v.closing == w.closing
    && forall node, owner :: PairIn(v.placements, node, owner) <==> PairIn(w.placements, node, owner)
  }

  ghost predicate Advances(v: Workspace, w: Workspace) {
    v.revision <= w.revision <= v.revision + 1 && (w.revision == v.revision ==> SameFace(v, w))
  }

  ghost predicate AllAdvance(ws: seq<Workspace>, vs: seq<Workspace>) {
    forall id :: Known(ws, id) && Known(vs, id) ==> Advances(Lookup(ws, id), Lookup(vs, id))
  }

  lemma SameAdvances(ws: seq<Workspace>)
    ensures AllAdvance(ws, ws)
  {
  }

  lemma AppendAdvances(ws: seq<Workspace>, w: Workspace)
    requires IdsDistinct(ws + [w]) && IdsDistinct(ws)
    ensures AllAdvance(ws, ws + [w])
  {
    forall id | Known(ws, id)
      ensures Known(ws + [w], id) ==> Advances(Lookup(ws, id), Lookup(ws + [w], id))
    {
      LookupAfterAppend(ws, w, id);
    }
  }

  lemma WithoutAdvances(ws: seq<Workspace>, k: nat)
    requires IdsDistinct(ws) && k < |ws|
    ensures AllAdvance(ws, Without(ws, k))
  {
    forall id | Known(ws, id) && Known(Without(ws, k), id)
      ensures Advances(Lookup(ws, id), Lookup(Without(ws, k), id))
    {
      if ws[k].id == id {
        KnownAfterWithout(ws, k);
      } else {
        LookupAfterWithout(ws, k, id);
      }
    }
  }

  lemma UpdateAdvances(ws: seq<Workspace>, k: nat, v: Workspace)
    requires IdsDistinct(ws) && k < |ws| && v.id == ws[k].id && Advances(ws[k], v)
    ensures AllAdvance(ws, ws[k := v])
  {
    forall id | Known(ws, id)
      ensures Known(ws[k := v], id) ==> Advances(Lookup(ws, id), Lookup(ws[k := v], id))
    {
      LookupAfterUpdate(ws, k, v, id);
      HomeOf(ws, k);
    }
  }

  // ---------- each operation ----------

  lemma OnlyOnNode(pl: seq<Placement>, m: Placement)
    requires Sorted(pl) && m in pl
    ensures PlacementIndex(pl, m.node) < |pl| && pl[PlacementIndex(pl, m.node)] == m
  {
    hide PlacementIndex;
    var i :| 0 <= i < |pl| && pl[i] == m;
    assert PlacementIndex(pl, m.node) <= i;
  }

  /** Replacing the placement of an owner on its Node keeps every pair of Node and owner. */
  lemma ReplacedPair(pl: seq<Placement>, x: Placement, node: Id, owner: Id)
    requires Sorted(pl) && PlacementIndex(pl, x.node) < |pl|
    requires pl[PlacementIndex(pl, x.node)].ownerId == x.ownerId
    ensures PairIn(pl, node, owner) <==> PairIn(PlaceAt(pl, x), node, owner)
  {
    hide PlaceAt, PlacementIndex, Sorted;
    PlaceAtMeaning(pl, x);
    if PairIn(pl, node, owner) {
      var m :| m in pl && m.node == node && m.ownerId == owner;
      OnlyOnNode(pl, m);
      var kept := if node == x.node then x else m;
      assert kept in PlaceAt(pl, x) && kept.node == node && kept.ownerId == owner;
    }
    if PairIn(PlaceAt(pl, x), node, owner) {
      var m :| m in PlaceAt(pl, x) && m.node == node && m.ownerId == owner;
      var was := if node == x.node then pl[PlacementIndex(pl, x.node)] else m;
      assert was in pl && was.node == node && was.ownerId == owner;
    }
  }

  /** Refreshing a placement in place keeps its owner; a new Node moves the revision. */
  lemma PlaceAdvances(w: Workspace, x: Placement)
    requires Sorted(w.placements)
    requires var l := PlacementIndex(w.placements, x.node);
             l < |w.placements| ==> w.placements[l].ownerId == x.ownerId
    ensures Advances(w, PlaceTotal(w, x))
  {
    var pl := PlaceAt(w.placements, x);
    PlaceAtMeaning(w.placements, x);
    var l := PlacementIndex(w.placements, x.node);
    if l < |w.placements| {
      forall node, owner
        ensures PairIn(w.placements, node, owner) <==> PairIn(pl, node, owner)
      {
        ReplacedPair(w.placements, x, node, owner);
      }
    }
  }

  lemma PlacedKeepsId(w: Workspace, x: Placement)
    ensures PlaceTotal(w, x).id == w.id
  {
  }

  lemma CompleteAdvances(s: State, op: Op)
    requires IsCoherent(s) && op.OpComplete? && Attempt(s, op).Success?
    ensures AllAdvance(s.workspaces, Attempt(s, op).value.workspaces)
  {
    hide AllAdvance, Advances, CompletePending, PlaceTotal;
    var i := PendingIndex(s.pendings, op.operation);
    if i < |s.pendings| {
      var p := s.pendings[i];
      var k := WorkspaceIndex(s.workspaces, p.workspace);
      CompletionReveals(s, i, op.owner, op.resource);
      OwnerAlreadyPlaced(s.workspaces, s.pendings, k, i);
      PlacedKeepsId(s.workspaces[k], OwnerPlacement(p.node, op.owner));
      PlaceAdvances(s.workspaces[k], OwnerPlacement(p.node, op.owner));
      UpdateAdvances(s.workspaces, k, PlaceTotal(s.workspaces[k], OwnerPlacement(p.node, op.owner)));
    } else {
      SameAdvances(s.workspaces);
    }
  }

  lemma PrepareAdvances(s: State, op: Op)
    requires op.OpPrepareResource? && Attempt(s, op).Success?
    ensures AllAdvance(s.workspaces, Attempt(s, op).value.workspaces)
  {
    var r := op.resourceRequest;
    if !IsCompleted(s.completed, r.operation) {
      if IsPending(s.pendings, r.operation) {
        RepeatedPrepareReveals(s, r, op.attempt);
      } else {
        NewResourceReveals(s, r, op.attempt);
      }
    }
    SameAdvances(s.workspaces);
  }

  lemma ShellAdvances(s: State, op: Op)
    requires IdsDistinct(s.workspaces) && op.OpPrepareShell? && Attempt(s, op).Success?
    requires IdsDistinct(Attempt(s, op).value.workspaces)
    ensures AllAdvance(s.workspaces, Attempt(s, op).value.workspaces)
  {
    var r := op.shellRequest;
    ShellReveals(s, r);
    SameAdvances(s.workspaces);
    if PrepareWorkspaceShell(s, r).value.0.pendings != s.pendings
       && NameIndex(s.workspaces, r.name) == |s.workspaces|
    {
      AppendAdvances(s.workspaces, NewWorkspace(r.workspace, r.name));
    }
  }

  lemma CancelAdvances(s: State, op: Op)
    requires IdsDistinct(s.workspaces) && IsCancel(op) && Attempt(s, op).Success?
    ensures AllAdvance(s.workspaces, Attempt(s, op).value.workspaces)
  {
    SameAdvances(s.workspaces);
    if Attempt(s, op).value != s {
      CancelReveals(s, op);
      var k := WorkspaceIndex(s.workspaces, s.pendings[PendingIndex(s.pendings, op.operation)].workspace);
      if k < |s.workspaces| {
        WithoutAdvances(s.workspaces, k);
      }
    }
  }

  lemma MovedAdvances(w: Workspace, l: nat, cwd: Path, ownerRevision: nat, changed: bool)
    requires Sorted(w.placements) && l < |w.placements|
    ensures Advances(w, CwdMoved(w, l, cwd, ownerRevision, changed))
  {
    MoveKeepsPairs(w.placements, l, ownerRevision, cwd);
  }

  /** The one Workspace a completed directory change touches, and how. */
  lemma CwdCompletionMoves(s: State, r: PendingCwd, owner: Owner)
    requires CompleteDefaultCwd(s, r, owner).Success?
    requires CompletedCwdIndex(s.completedCwd, r.operation) == |s.completedCwd|
    ensures var d := CwdIndex(s.pendingCwd, r.operation);
            && d < |s.pendingCwd|
            && var pending := s.pendingCwd[d];
               var k := WorkspaceIndex(s.workspaces, pending.workspace);
               && k < |s.workspaces|
               && var w := s.workspaces[k];
                  var l := PairIndex(w.placements, pending.node, pending.owner);
                  && l < |w.placements|
                  && CompleteDefaultCwd(s, r, owner).value.0.workspaces
                     == s.workspaces[k := CwdMoved(w, l, pending.cwd, owner.revision,
                                                   owner.revision == pending.expectedOwnerRevision + 1)]
  {
    hide Compact, CwdMoved, CwdAnswer;
    CwdCompletionSettles(s, r, owner);
    hide CompleteDefaultCwd;
    var d := CwdIndex(s.pendingCwd, r.operation);
    var pending := s.pendingCwd[d];
    var k := WorkspaceIndex(s.workspaces, pending.workspace);
    var w := s.workspaces[k];
    var l := PairIndex(w.placements, pending.node, pending.owner);
    var changed := owner.revision == pending.expectedOwnerRevision + 1;
    var moved := CwdMoved(w, l, pending.cwd, owner.revision, changed);
    var result := CwdAnswer(pending, moved.revision, owner.revision, if changed then Updated else Unchanged);
    CompactKeeps(CwdSettled(s, d, k, moved, result));
  }

  lemma CompleteCwdAdvances(s: State, r: PendingCwd, owner: Owner)
    requires IsCoherent(s) && CompleteDefaultCwd(s, r, owner).Success?
    ensures AllAdvance(s.workspaces, CompleteDefaultCwd(s, r, owner).value.0.workspaces)
  {
    SameAdvances(s.workspaces);
    if CompletedCwdIndex(s.completedCwd, r.operation) == |s.completedCwd| {
      CwdCompletionMoves(s, r, owner);
      hide CompleteDefaultCwd, AllAdvance, Advances, IsCoherent, CwdMoved;
      var pending := s.pendingCwd[CwdIndex(s.pendingCwd, r.operation)];
      var k := WorkspaceIndex(s.workspaces, pending.workspace);
      var w := s.workspaces[k];
      var l := PairIndex(w.placements, pending.node, pending.owner);
      var changed := owner.revision == pending.expectedOwnerRevision + 1;
      CoherentParts(s, k);
      MovedKeepsId(w, l, pending.cwd, owner.revision, changed);
      MovedAdvances(w, l, pending.cwd, owner.revision, changed);
      UpdateAdvances(s.workspaces, k, CwdMoved(w, l, pending.cwd, owner.revision, changed));
    }
  }

  lemma CoherentParts(s: State, k: nat)
    requires IsCoherent(s)
    ensures IdsDistinct(s.workspaces) && (k < |s.workspaces| ==> Sorted(s.workspaces[k].placements))
  {
  }

  lemma CwdOpAdvances(s: State, op: Op)
    requires IsCoherent(s) && IsCwdOp(op) && Attempt(s, op).Success?
    ensures AllAdvance(s.workspaces, Attempt(s, op).value.workspaces)
  {
    hide AllAdvance, IsCoherent, PrepareDefaultCwd, CompleteDefaultCwd;
    SameAdvances(s.workspaces);
    match op
    case OpPrepareCwd(r) => PrepareCwdReveals(s, r);
    case OpCompleteCwd(r, owner) => CompleteCwdAdvances(s, r, owner);
    case _ =>
  }

  lemma LinkAdvances(s: State, id: Id, expected: nat, node: Id, owner: Owner, expectedOwner: nat)
    requires Link(s, id, expected, node, owner, expectedOwner).Success?
    ensures var k := WorkspaceIndex(s.workspaces, id);
            var ws := Link(s, id, expected, node, owner, expectedOwner).value.0.workspaces;
            k < |s.workspaces| && |ws| == |s.workspaces| && Advances(s.workspaces[k], ws[k])
  {
    hide HasPending, SortByNode, SameFace;
  }

  lemma RenameAdvances(s: State, id: Id, expected: nat, name: string)
    requires Rename(s, id, expected, name).Success?
    ensures var k := WorkspaceIndex(s.workspaces, id);
            var ws := Rename(s, id, expected, name).value.0.workspaces;
            k < |s.workspaces| && |ws| == |s.workspaces| && Advances(s.workspaces[k], ws[k])
  {
    hide HasPending, ValidName;
  }

  lemma BeginCloseAdvances(s: State, id: Id, expected: nat)
    requires BeginClose(s, id, expected).Success?
    ensures var k := WorkspaceIndex(s.workspaces, id);
            var ws := BeginClose(s, id, expected).value.0.workspaces;
            k < |s.workspaces| && |ws| == |s.workspaces| && Advances(s.workspaces[k], ws[k])
  {
    hide HasPending, CloseAll;
  }

  lemma EditAdvances(s: State, op: Op)
    requires IdsDistinct(s.workspaces) && NeedsQuietWorkspace(op) && Attempt(s, op).Success?
    ensures AllAdvance(s.workspaces, Attempt(s, op).value.workspaces)
  {
    QuietEdit(s, op);
    EditedAdvances(s, op);
    hide Attempt, Advances, AllAdvance, HasPending;
    var k := WorkspaceIndex(s.workspaces, op.workspace);
    UpdateAdvances(s.workspaces, k, Attempt(s, op).value.workspaces[k]);
  }

  lemma EditedAdvances(s: State, op: Op)
    requires NeedsQuietWorkspace(op) && Attempt(s, op).Success?
    ensures var k := WorkspaceIndex(s.workspaces, op.workspace);
            && k < |s.workspaces| && k < |Attempt(s, op).value.workspaces|
            && Advances(s.workspaces[k], Attempt(s, op).value.workspaces[k])
  {
    hide Advances, Link, Rename, BeginClose;
    match op
    case OpLink(w, e, node, owner, eo) => LinkAdvances(s, w, e, node, owner, eo);
    case OpRename(w, e, name) => RenameAdvances(s, w, e, name);
    case OpBeginClose(w, e) => BeginCloseAdvances(s, w, e);
  }

  lemma CloseAdvances(s: State, op: Op)
    requires IdsDistinct(s.workspaces) && (op.OpConfirmClosed? || op.OpConfirmEmpty?) && Attempt(s, op).Success?
    ensures AllAdvance(s.workspaces, Attempt(s, op).value.workspaces)
  {
    hide AllAdvance;
    var k := WorkspaceIndex(s.workspaces, op.workspace);
    WithoutAdvances(s.workspaces, k);
    if op.OpConfirmClosed? {
      var after := ConfirmClosed(s, op.workspace, op.node, op.ownerId).value.1;
      if after.Some? {
        UpdateAdvances(s.workspaces, k, after.value);
      }
    }
  }

  lemma {:induction false} ImportAdvances(ws: seq<Workspace>, node: Id, owners: seq<Owner>)
    requires IdsDistinct(ws) && ImportAll(ws, node, owners).Success?
    requires IdsDistinct(ImportAll(ws, node, owners).value)
    ensures AllAdvance(ws, ImportAll(ws, node, owners).value)
  {
    forall id | Known(ws, id)
      ensures Known(ImportAll(ws, node, owners).value, id) ==>
                Advances(Lookup(ws, id), Lookup(ImportAll(ws, node, owners).value, id))
    {
      ImportElsewhere(ws, node, owners, id);
    }
  }

  lemma AddingAdvances(s: State, op: Op)
    requires IdsDistinct(s.workspaces) && AddsWorkspaces(op) && Attempt(s, op).Success?
    requires IdsDistinct(Attempt(s, op).value.workspaces)
    ensures AllAdvance(s.workspaces, Attempt(s, op).value.workspaces)
  {
    match op
    case OpCreate(id, name) => AppendAdvances(s.workspaces, Create(s, id, name).value.1);
    case OpAdopt(id, node, owner, e) => AppendAdvances(s.workspaces, Adopt(s, id, node, owner, e).value.1);
    case OpInitialize(node, owners) =>
      SameAdvances(s.workspaces);
      if !s.migrated {
        ImportAdvances(s.workspaces, node, owners);
      }
  }

  /** No call lowers a revision or raises it by more than one, and one that leaves a
      revision as it was leaves the name, the close mark and the owners as well. */
  lemma StepAdvances(s: State, op: Op)
    requires IsCoherent(s) && Attempt(s, op).Success? && IdsDistinct(Attempt(s, op).value.workspaces)
    ensures AllAdvance(s.workspaces, Attempt(s, op).value.workspaces)
  {
    hide AllAdvance;
    CoherentParts(s, 0);
    if IsCwdOp(op) {
      CwdOpAdvances(s, op);
    } else if NeedsQuietWorkspace(op) {
      EditAdvances(s, op);
    } else if AddsWorkspaces(op) {
      AddingAdvances(s, op);
    } else if op.OpConfirmClosed? || op.OpConfirmEmpty? {
      CloseAdvances(s, op);
    } else if IsCancel(op) {
      CancelAdvances(s, op);
    } else if op.OpPrepareResource? {
      PrepareAdvances(s, op);
    } else if op.OpPrepareShell? {
      ShellAdvances(s, op);
    } else if op.OpComplete? {
      CompleteAdvances(s, op);
    } else {
      SameAdvances(s.workspaces);
    }
  }

  // ---------- whole runs ----------

  /** The Workspace is there all along. */
  ghost predicate Stays(s: State, ops: seq<Op>, id: Id) {
    forall n :: 0 <= n <= |ops| ==> Known(Run(s, ops[..n]).workspaces, id)
  }

  ghost predicate Since(v: Workspace, w: Workspace) {
    v.revision <= w.revision && (w.revision == v.revision ==> SameFace(v, w))
  }

  lemma SinceStep(u: Workspace, v: Workspace, w: Workspace)
    requires Since(u, v) && Advances(v, w)
    ensures Since(u, w)
  {
  }

  lemma StaysBefore(s: State, ops: seq<Op>, id: Id)
    requires ops != [] && Stays(s, ops, id)
    ensures Stays(s, ops[..|ops| - 1], id)
    ensures Known(Run(s, ops).workspaces, id)
  {
    hide Step, Run;
    var init := ops[..|ops| - 1];
    assert ops[..|ops|] == ops;
    forall n | 0 <= n <= |init|
      ensures Known(Run(s, init[..n]).workspaces, id)
    {
      assert init[..n] == ops[..n];
    }
  }

  /** Over any run on which a Workspace stays, its revision never falls, and where it
      is the same at both ends so are name, close mark and owners. */
  lemma {:induction false} RevisionsTellTheTruth(s: State, ops: seq<Op>, id: Id)
    requires Sound(s) && Stays(s, ops, id)
    ensures Known(s.workspaces, id) && Known(Run(s, ops).workspaces, id)
    ensures Since(Lookup(s.workspaces, id), Lookup(Run(s, ops).workspaces, id))
  {
    hide Step, Since, Sound, Stays;
    if ops == [] {
      StaysAtStart(s, ops, id);
      SinceSelf(Lookup(s.workspaces, id));
    } else {
      var init, op := ops[..|ops| - 1], ops[|ops| - 1];
      StaysBefore(s, ops, id);
      RevisionsTellTheTruth(s, init, id);
      RunKeepsSound(s, init);
      var t := Run(s, init);
      if Step(t, op).Success? {
        CommitAdvances(t, op, id);
        SinceStep(Lookup(s.workspaces, id), Lookup(t.workspaces, id), Lookup(Step(t, op).value.workspaces, id));
      }
    }
  }

  lemma StaysAtStart(s: State, ops: seq<Op>, id: Id)
    requires ops == [] && Stays(s, ops, id)
    ensures Known(s.workspaces, id)
  {
    hide Step;
    assert ops[..0] == [];
    assert Run(s, []) == s;
  }

  lemma SinceSelf(w: Workspace)
    ensures Since(w, w)
  {
  }

  lemma CommitAdvances(t: State, op: Op, id: Id)
    requires Sound(t) && Step(t, op).Success?
    requires Known(t.workspaces, id) && Known(Step(t, op).value.workspaces, id)
    ensures Advances(Lookup(t.workspaces, id), Lookup(Step(t, op).value.workspaces, id))
  {
    StepKeepsSound(t, op);
    StepAdvances(t, op);
  }

  /** A call that a revision guards, and the Workspace and revision it names. */
  predicate Guarded(t: State, op: Op) {
    || op.OpLink? || op.OpRename? || op.OpBeginClose?
    || (op.OpPrepareResource? && !IsCompleted(t.completed, op.resourceRequest.operation)
        && !IsPending(t.pendings, op.resourceRequest.operation))
    || (op.OpPrepareCwd? && CompletedCwdIndex(t.completedCwd, op.cwdRequest.operation) == |t.completedCwd|
        && CwdIndex(t.pendingCwd, op.cwdRequest.operation) == |t.pendingCwd|)
  }

  function Names(t: State, op: Op): (Id, nat)
    requires Guarded(t, op)
  {
    match op
    case OpLink(w, e, _, _, _) => (w, e)
    case OpRename(w, e, _) => (w, e)
    case OpBeginClose(w, e) => (w, e)
    case OpPrepareResource(r, _) => (r.workspace, r.expectedRevision)
    case OpPrepareCwd(r) => (r.workspace, r.expectedRevision)
  }

  lemma GuardChecked(t: State, op: Op)
    requires Guarded(t, op) && Attempt(t, op).Success?
    ensures var (id, expected) := Names(t, op);
            && Known(t.workspaces, id) && !(Lookup(t.workspaces, id).closing && !op.OpBeginClose?)
            && Lookup(t.workspaces, id).revision == expected
  {
    hide HasPending, SortByNode, CloseAll, Reserve, Compact, NewPending, OwnerLinked, OwnerLinkedElsewhere;
  }

  /** A guarded call that succeeds acts on the Workspace its caller saw, however many
      calls came between: same name, same close mark, same owners. */
  lemma GuardedActsOnWhatWasSeen(s: State, ops: seq<Op>, op: Op)
    requires Sound(s) && Guarded(Run(s, ops), op) && Attempt(Run(s, ops), op).Success?
    requires var (id, expected) := Names(Run(s, ops), op);
             Stays(s, ops, id) && Known(s.workspaces, id) && Lookup(s.workspaces, id).revision == expected
    ensures var id := Names(Run(s, ops), op).0;
            && Known(Run(s, ops).workspaces, id)
            && SameFace(Lookup(s.workspaces, id), Lookup(Run(s, ops).workspaces, id))
  {
    hide Step, Run, Attempt, Sound, Stays, Guarded, Names;
    var t := Run(s, ops);
    GuardChecked(t, op);
    RevisionsTellTheTruth(s, ops, Names(t, op).0);
  }
}
