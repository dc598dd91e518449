/** The life of one prepared operation: kept until resolved, resolved once,
    replayed until evicted. */
module Lifecycle {
  import opened Basics
  import opened StoreTypes
  import opened Placements
  import opened StoreOps
  import opened StoreInvariant
  import opened Eviction
  import opened StoreSteps

  // ---------- removals are never refused ----------

  lemma ValidWithoutWorkspace(ws: seq<Workspace>, k: nat)
    requires ValidWorkspaces(ws) && k < |ws|
    ensures ValidWorkspaces(Without(ws, k))
  {
    var vs := Without(ws, k);
    forall i, j | 0 <= i < j < |vs|
      ensures !SharesPair(vs[i], vs[j])
    {
      assert !SharesPair(ws[if i < k then i else i + 1], ws[if j < k then j else j + 1]);
    }
  }

  lemma KnownWithout(ws: seq<Workspace>, k: nat, id: Id)
    requires IdsDistinct(ws) && k < |ws| && id != ws[k].id
    ensures Known(ws, id) ==> Known(Without(ws, k), id)
  {
    if Known(ws, id) {
      var n := WorkspaceIndex(ws, id);
      assert Without(ws, k)[if n < k then n else n - 1].id == id;
    }
  }

  lemma PendingWithout(ps: seq<Pending>, i: nat, operation: Id)
    requires i < |ps|
    ensures IsPending(Without(ps, i), operation) ==> IsPending(ps, operation)
    ensures PendingsDistinct(ps) ==> !IsPending(Without(ps, i), ps[i].operation)
  {
    var j := PendingIndex(Without(ps, i), operation);
    if j < |ps| - 1 {
      assert ps[if j < i then j else j + 1].operation == operation;
    }
  }

  /** A valid state stays valid with an operation gone and the Workspaces it no longer needs. */
  lemma ValidAfterRemoval(s: State, ws: seq<Workspace>, ps: seq<Pending>)
    requires IsValid(s) && ValidWorkspaces(ws) && |ws| <= |s.workspaces|
    requires ps == s.pendings || exists i :: 0 <= i < |s.pendings| && ps == Without(s.pendings, i)
    requires forall i :: 0 <= i < |ps| ==> Known(ws, ps[i].workspace)
    requires forall j :: 0 <= j < |s.pendingCwd| ==> Known(ws, s.pendingCwd[j].workspace)
    ensures IsValid(s.(workspaces := ws, pendings := ps))
  {
    hide ValidWorkspaces, ValidName, RecordsOwner, RevisionsAgree, IsAbsolute;
    var t := s.(workspaces := ws, pendings := ps);
    forall o | IsPending(ps, o)
      ensures IsPending(s.pendings, o)
    {
      if ps != s.pendings {
        var i :| 0 <= i < |s.pendings| && ps == Without(s.pendings, i);
        PendingWithout(s.pendings, i, o);
      }
    }
    assert ValidPendings(t) && ValidCompletions(t) && ValidPendingCwds(t) && ValidCompletedCwds(t);
  }

  lemma RemovePendingValid(s: State, i: nat)
    requires IsValid(s) && IsCoherent(s) && i < |s.pendings|
    ensures IsValid(RemovePending(s, i))
  {
    RemovePendingCoherent(s, i);
    var t := RemovePending(s, i);
    var k := WorkspaceIndex(s.workspaces, s.pendings[i].workspace);
    if k < |s.workspaces| {
      ValidWithoutWorkspace(s.workspaces, k);
    }
    ValidAfterRemoval(s, t.workspaces, t.pendings);
  }

  lemma RemovePendingBytes(s: State, i: nat)
    requires i < |s.pendings|
    ensures StoreBytes(RemovePending(s, i)) <= StoreBytes(s)
  {
    hide SumBy, WorkspaceBytes, PendingBytes, CompletedBytes, PendingCwdBytes, CompletedCwdBytes;
    SumByWithout(s.pendings, i, PendingBytes);
    var k := WorkspaceIndex(s.workspaces, s.pendings[i].workspace);
    if k < |s.workspaces| {
      SumByWithout(s.workspaces, k, WorkspaceBytes);
    }
  }

  /** Cancelling leaves no dangling operation, so neither validation nor the size limit refuses it. */
  lemma CancelIsCommitted(s: State, op: Op)
    requires IsValid(s) && IsCoherent(s) && StoreBytes(s) <= MAX_STORE_BYTES
    requires IsCancel(op) && Attempt(s, op).Success?
    ensures Step(s, op) == Attempt(s, op)
  {
    hide IsValid, IsCoherent, RemovePending, StoreBytes, Attempt, Step;
    if Attempt(s, op).value != s {
      CancelReveals(s, op);
      var i := PendingIndex(s.pendings, op.operation);
      RemovePendingValid(s, i);
      RemovePendingBytes(s, i);
    }
    ValidCommits(s, op, Attempt(s, op).value);
  }

  lemma RetainKeepsValid(w: Workspace, node: Id, owner: Id)
    requires ValidWorkspace(w) && Sorted(w.placements) && PairsDistinctWithin(w.placements) && w.revision < U64_MAX
    ensures var v := w.(placements := RetainOthers(w.placements, node, owner), revision := w.revision + 1);
            ValidWorkspace(v) && PairsDistinctWithin(v.placements)
  {
    RetainMeaning(w.placements, node, owner);
    RetainShorter(w.placements, node, owner);
  }

  lemma {:induction false} RetainShorter(pl: seq<Placement>, node: Id, owner: Id)
    ensures |RetainOthers(pl, node, owner)| <= |pl|
  {
    if pl != [] {
      RetainShorter(pl[..|pl| - 1], node, owner);
    }
  }

  lemma ShrunkWorkspaceValid(ws: seq<Workspace>, k: nat, v: Workspace)
    requires ValidWorkspaces(ws) && k < |ws| && ValidWorkspace(v) && PairsDistinctWithin(v.placements)
    requires v.id == ws[k].id && v.name == ws[k].name
    requires forall l :: l in v.placements ==> l in ws[k].placements
    ensures ValidWorkspaces(ws[k := v])
  {
    var vs := ws[k := v];
    forall i, j | 0 <= i < j < |vs|
      ensures !SharesPair(vs[i], vs[j])
    {
      assert !SharesPair(ws[i], ws[j]);
    }
  }

  /** Confirming a close, placement by placement to the last, is never refused by validation. */
  lemma ConfirmClosedIsValid(s: State, workspace: Id, node: Id, owner: Id)
    requires IsValid(s) && IsCoherent(s) && ConfirmClosed(s, workspace, node, owner).Success?
    ensures IsValid(ConfirmClosed(s, workspace, node, owner).value.0)
  {
    ConfirmClosedCoherent(s, workspace, node, owner);
    var t := ConfirmClosed(s, workspace, node, owner).value.0;
    var k := WorkspaceIndex(s.workspaces, workspace);
    var w := s.workspaces[k];
    if RetainOthers(w.placements, node, owner) == [] {
      ValidWithoutWorkspace(s.workspaces, k);
    } else {
      RetainMeaning(w.placements, node, owner);
      RetainKeepsValid(w, node, owner);
      ShrunkWorkspaceValid(s.workspaces, k, t.workspaces[k]);
    }
    ValidAfterRemoval(s, t.workspaces, s.pendings);
  }

  lemma ConfirmEmptyIsValid(s: State, workspace: Id)
    requires IsValid(s) && IsCoherent(s) && ConfirmEmptyClosed(s, workspace).Success?
    ensures IsValid(ConfirmEmptyClosed(s, workspace).value.0)
  {
    ConfirmEmptyCoherent(s, workspace);
    ValidWithoutWorkspace(s.workspaces, WorkspaceIndex(s.workspaces, workspace));
    ValidAfterRemoval(s, ConfirmEmptyClosed(s, workspace).value.0.workspaces, s.pendings);
  }

  lemma OwnerAlreadyPlaced(ws: seq<Workspace>, ps: seq<Pending>, k: nat, i: nat)
    requires OwnersPlaced(ws, ps) && k < |ws| && i < |ps| && ps[i].workspace == ws[k].id
    ensures var l := PlacementIndex(ws[k].placements, ps[i].node);
            l < |ws[k].placements| ==> ws[k].placements[l].ownerId == ps[i].owner
  {
    assert OwnerPlaced(ws[k], ps[i]);
    var l := PlacementIndex(ws[k].placements, ps[i].node);
    assert l < |ws[k].placements| ==> ws[k].placements[l] in ws[k].placements;
  }

  lemma PushNeverDiffers(s: State, c: Completed)
    ensures PushCompleted(s, c) != Failure(DifferentPlacement)
  {
    EvictCompletedError(s.(completed := s.completed + [c]));
  }

  lemma DifferentOnlyByOwner(s: State, i: nat, owner: Owner, resource: Resource)
    requires i < |s.pendings| && CompletePending(s, i, owner, resource) == Failure(DifferentPlacement)
    ensures var k := WorkspaceIndex(s.workspaces, s.pendings[i].workspace);
            && k < |s.workspaces|
            && var l := PlacementIndex(s.workspaces[k].placements, s.pendings[i].node);
               l < |s.workspaces[k].placements| && s.workspaces[k].placements[l].ownerId != s.pendings[i].owner
  {
    var p := s.pendings[i];
    var k := WorkspaceIndex(s.workspaces, p.workspace);
    if k < |s.workspaces| {
      var v := PlaceTotal(s.workspaces[k], OwnerPlacement(p.node, owner));
      PushNeverDiffers(Settled(s, i, k, v), CompletionRecord(p, v, resource));
    }
  }

  /** The owner an operation expects is the one already placed on its Node. */
  lemma DifferentPlacementUnreachable(s: State, i: nat, owner: Owner, resource: Resource)
    requires OwnersPlaced(s.workspaces, s.pendings) && i < |s.pendings|
    ensures CompletePending(s, i, owner, resource) != Failure(DifferentPlacement)
  {
    if CompletePending(s, i, owner, resource) == Failure(DifferentPlacement) {
      DifferentOnlyByOwner(s, i, owner, resource);
      OwnerAlreadyPlaced(s.workspaces, s.pendings, WorkspaceIndex(s.workspaces, s.pendings[i].workspace), i);
    }
  }

  // ---------- one ledger, one record ----------

  function InLedgers(s: State, operation: Id): nat {
    (if IsPending(s.pendings, operation) then 1 else 0)
    + (if IsCompleted(s.completed, operation) then 1 else 0)
    + (if CwdIndex(s.pendingCwd, operation) < |s.pendingCwd| then 1 else 0)
    + (if CompletedCwdIndex(s.completedCwd, operation) < |s.completedCwd| then 1 else 0)
  }

  lemma OneLedgerAtMost(s: State, operation: Id)
    requires IsValid(s)
    ensures InLedgers(s, operation) <= 1
  {
    var c := CompletedIndex(s.completed, operation);
    var d := CwdIndex(s.pendingCwd, operation);
    var e := CompletedCwdIndex(s.completedCwd, operation);
    assert c < |s.completed| ==> ValidCompleted(s.completed[c], s.pendings);
    assert d < |s.pendingCwd| ==> ValidPendingCwd(s.pendingCwd[d], s);
    assert e < |s.completedCwd| ==> ValidCompletedCwd(s.completedCwd[e], s);
  }

  lemma RecordIndex(s: State, record: Completed)
    requires IsValid(s) && record in s.completed
    ensures CompletedIndex(s.completed, record.operation) < |s.completed|
    ensures s.completed[CompletedIndex(s.completed, record.operation)] == record
    ensures !IsPending(s.pendings, record.operation)
  {
    var j :| 0 <= j < |s.completed| && s.completed[j] == record;
    assert ValidCompleted(s.completed[j], s.pendings);
  }

  /** While a record is in the ledger every replay returns it and changes nothing,
      and every other use of its operation id is a conflict. */
  lemma RecordIsReplayed(s: State, record: Completed)
    requires IsValid(s) && record in s.completed
    ensures forall owner, resource ::
              CompleteResource(s, record.operation, record.fingerprint, owner, resource) == Success((s, record))
    ensures CancelResource(s, record.operation, record.fingerprint) == Success((s, ()))
    ensures forall r: ResourceRequest, attempt :: r.operation == record.operation && ValidName(r.ownerName) ==>
              PrepareResource(s, r, attempt)
              == if r.fingerprint == record.fingerprint then Success((s, PreparedCompleted(record)))
                 else Failure(OperationConflict)
    ensures forall r: ShellRequest :: r.operation == record.operation && ValidName(r.name) ==>
              PrepareWorkspaceShell(s, r)
              == if r.fingerprint == record.fingerprint then Success((s, ShellCompleted(record)))
                 else Failure(OperationConflict)
    ensures forall d: PendingCwd :: d.operation == record.operation ==>
              PrepareDefaultCwd(s, d) == Failure(OperationConflict)
  {
    RecordIndex(s, record);
  }

  /** The ledger of completions is a queue: a step drops some oldest records and adds at most one. */
  predicate Fifo(before: seq<Completed>, after: seq<Completed>) {
    IsSuffix(after, before) || (after != [] && IsSuffix(after, before + [after[|after| - 1]]))
  }

  lemma SuffixIsFifo(before: seq<Completed>, c: Completed, after: seq<Completed>)
    requires IsSuffix(after, before + [c])
    ensures Fifo(before, after)
  {
    if after == [] {
      assert IsSuffix(after, before);
    } else {
      assert after[|after| - 1] == c;
    }
  }

  lemma PushIsFifo(s: State, c: Completed)
    requires PushCompleted(s, c).Success?
    ensures Fifo(s.completed, PushCompleted(s, c).value.completed)
  {
    PushCompletedMeaning(s, c);
    if !IsCompleted(s.completed, c.operation) {
      SuffixIsFifo(s.completed, c, PushCompleted(s, c).value.completed);
    }
  }

  lemma ShellIsFifo(s: State, r: ShellRequest)
    requires PrepareWorkspaceShell(s, r).Success?
    ensures Fifo(s.completed, PrepareWorkspaceShell(s, r).value.0.completed)
  {
    var n := NameIndex(s.workspaces, r.name);
    if IsCompleted(s.completed, r.operation) || IsPending(s.pendings, r.operation) {
    } else if n < |s.workspaces| {
      var w := s.workspaces[n];
      var c := ReplayIndex(s.completed, w.id, r.semantic);
      var e := AliasIndex(s.pendings, w.id, r.semantic);
      if c < |s.completed| {
        PushIsFifo(s, s.completed[c].(operation := r.operation, fingerprint := r.fingerprint));
      } else {
        CompactKeeps(s.(pendings := Reserve(s.pendings, w, NewAlias(s.pendings[e], r)).value));
      }
    } else {
      var w := NewWorkspace(r.workspace, r.name);
      CompactKeeps(s.(workspaces := s.workspaces + [w], pendings := Reserve(s.pendings, w, NewCreation(r)).value));
    }
  }

  lemma PrepareIsFifo(s: State, r: ResourceRequest, attempt: bool)
    requires PrepareResource(s, r, attempt).Success?
    ensures Fifo(s.completed, PrepareResource(s, r, attempt).value.0.completed)
  {
    if !IsCompleted(s.completed, r.operation) && !IsPending(s.pendings, r.operation) {
      NewResourceReveals(s, r, attempt);
    }
  }

  lemma CompleteIsFifo(s: State, operation: Id, fingerprint: Fingerprint, owner: Owner, resource: Resource)
    requires CompleteResource(s, operation, fingerprint, owner, resource).Success?
    ensures Fifo(s.completed, CompleteResource(s, operation, fingerprint, owner, resource).value.0.completed)
  {
    var i := PendingIndex(s.pendings, operation);
    if i < |s.pendings| {
      var p := s.pendings[i];
      var k := WorkspaceIndex(s.workspaces, p.workspace);
      var v := PlaceTotal(s.workspaces[k], OwnerPlacement(p.node, owner));
      PushIsFifo(Settled(s, i, k, v), CompletionRecord(p, v, resource));
    }
  }

  lemma ResourceStepIsFifo(s: State, op: Op)
    requires (op.OpPrepareResource? || op.OpPrepareShell? || op.OpComplete?) && Attempt(s, op).Success?
    ensures Fifo(s.completed, Attempt(s, op).value.completed)
  {
    hide Fifo, PrepareResource, PrepareWorkspaceShell, CompleteResource;
    match op
    case OpPrepareResource(r, attempt) => PrepareIsFifo(s, r, attempt);
    case OpPrepareShell(r) => ShellIsFifo(s, r);
    case OpComplete(o, f, owner, resource) => CompleteIsFifo(s, o, f, owner, resource);
  }

  lemma CwdStepIsFifo(s: State, op: Op)
    requires (op.OpPrepareCwd? || op.OpCompleteCwd?) && Attempt(s, op).Success?
    ensures Fifo(s.completed, Attempt(s, op).value.completed)
  {
    hide PrepareDefaultCwd, CompleteDefaultCwd;
    match op
    case OpPrepareCwd(r) => PrepareCwdReveals(s, r);
    case OpCompleteCwd(r, owner) => CompleteCwdReveals(s, r, owner);
  }

  /** The calls that never add or drop a record. */
  predicate LeavesLedger(op: Op) {
    && !op.OpPrepareResource? && !op.OpPrepareShell? && !op.OpComplete?
    && !op.OpPrepareCwd? && !op.OpCompleteCwd?
  }

  lemma OtherStepKeepsLedger(s: State, op: Op)
    requires LeavesLedger(op) && Attempt(s, op).Success?
    ensures Attempt(s, op).value.completed == s.completed
  {
    hide RetainOthers, ImportAll, CloseAll, SortByNode, HasPending, CwdIndex, PendingIndex, RemovePending;
    if IsCancel(op) {
      CancelKeepsLedger(s, op);
    }
  }

  lemma CancelKeepsLedger(s: State, op: Op)
    requires IsCancel(op) && Attempt(s, op).Success?
    ensures Attempt(s, op).value.completed == s.completed
  {
    hide Attempt;
    if Attempt(s, op).value != s {
      CancelReveals(s, op);
    }
  }

  lemma StepIsFifo(s: State, op: Op)
    requires Attempt(s, op).Success?
    ensures Fifo(s.completed, Attempt(s, op).value.completed)
  {
    hide Attempt;
    if op.OpPrepareResource? || op.OpPrepareShell? || op.OpComplete? {
      ResourceStepIsFifo(s, op);
    } else if op.OpPrepareCwd? || op.OpCompleteCwd? {
      CwdStepIsFifo(s, op);
    } else {
      OtherStepKeepsLedger(s, op);
    }
  }

  /** A call that commits takes the run to what it computes. */
  lemma Committed(ops: seq<Op>, op: Op)
    requires Step(Run(EMPTY, ops), op).Success?
    ensures Step(Run(EMPTY, ops), op) == Attempt(Run(EMPTY, ops), op) == Success(Run(EMPTY, ops + [op]))
  {
    hide Step, Run;
    RunLast(EMPTY, ops, op);
    StepIsAttempt(Run(EMPTY, ops), op);
  }

  lemma StepIsAttempt(s: State, op: Op)
    requires Step(s, op).Success?
    ensures Step(s, op) == Attempt(s, op)
  {
  }

  // ---------- completing and cancelling, interleaved ----------

  /** A repeated completion, or a late cancel, of one operation under one fingerprint. */
  datatype Late = Again(owner: Owner, resource: Resource) | LateCancel

  function LateOp(operation: Id, fingerprint: Fingerprint, late: Late): Op {
    match late
    case Again(owner, resource) => OpComplete(operation, fingerprint, owner, resource)
    case LateCancel => OpCancel(operation, fingerprint)
  }

  /** The record that a call returns, if it completes the operation. */
  function Returned(s: State, operation: Id, fingerprint: Fingerprint, late: Late): seq<Completed> {
    match late
    case LateCancel => []
    case Again(owner, resource) =>
      match CompleteResource(s, operation, fingerprint, owner, resource)
      case Failure(_) => []
      case Success(pair) => [pair.1]
  }

  /** The records returned, in order, and the state left, by calls each of which may fail. */
  function Play(s: State, operation: Id, fingerprint: Fingerprint, lates: seq<Late>): (State, seq<Completed>)
    decreases lates
  {
    if lates == [] then (s, [])
    else
      var next := Step(s, LateOp(operation, fingerprint, lates[0]));
      if next.Failure? then Play(s, operation, fingerprint, lates[1..])
      else
        var (last, records) := Play(next.value, operation, fingerprint, lates[1..]);
        (last, Returned(s, operation, fingerprint, lates[0]) + records)
  }

  lemma LateStepChangesNothing(s: State, record: Completed, late: Late)
    requires IsValid(s) && StoreBytes(s) <= MAX_STORE_BYTES && record in s.completed
    ensures Step(s, LateOp(record.operation, record.fingerprint, late)) == Success(s)
    ensures late.Again? ==> CompleteResource(s, record.operation, record.fingerprint, late.owner, late.resource)
                            == Success((s, record))
  {
    LateAttempt(s, record, late);
    UnchangedIsCommitted(s, LateOp(record.operation, record.fingerprint, late));
  }

  lemma LateAttempt(s: State, record: Completed, late: Late)
    requires IsValid(s) && record in s.completed
    ensures Attempt(s, LateOp(record.operation, record.fingerprint, late)) == Success(s)
    ensures late.Again? ==> CompleteResource(s, record.operation, record.fingerprint, late.owner, late.resource)
                            == Success((s, record))
  {
    RecordIndex(s, record);
  }

  lemma UnchangedIsCommitted(s: State, op: Op)
    requires IsValid(s) && StoreBytes(s) <= MAX_STORE_BYTES && Attempt(s, op) == Success(s)
    ensures Step(s, op) == Success(s)
  {
    ValidCommits(s, op, s);
  }

  lemma {:induction false} PlayAfterCompletion(s: State, record: Completed, lates: seq<Late>)
    requires IsValid(s) && StoreBytes(s) <= MAX_STORE_BYTES && record in s.completed
    ensures var (last, records) := Play(s, record.operation, record.fingerprint, lates);
            last == s && forall i :: 0 <= i < |records| ==> records[i] == record
  {
    hide Step, CompleteResource, IsValid, StoreBytes;
    if lates != [] {
      LateStepChangesNothing(s, record, lates[0]);
      PlayAfterCompletion(s, record, lates[1..]);
    }
  }

  lemma CompletionRecords(s: State, operation: Id, fingerprint: Fingerprint, owner: Owner, resource: Resource)
    requires CompleteResource(s, operation, fingerprint, owner, resource).Success?
    ensures var (s', record) := CompleteResource(s, operation, fingerprint, owner, resource).value;
            record in s'.completed && record.operation == operation && record.fingerprint == fingerprint
  {
    hide CompletePending;
    var i := PendingIndex(s.pendings, operation);
    if i < |s.pendings| {
      CompletionReveals(s, i, owner, resource);
    } else {
      assert s.completed[CompletedIndex(s.completed, operation)] in s.completed;
    }
  }

  lemma AfterCompletion(s: State, operation: Id, fingerprint: Fingerprint, owner: Owner, resource: Resource)
    requires Step(s, OpComplete(operation, fingerprint, owner, resource)).Success?
    ensures CompleteResource(s, operation, fingerprint, owner, resource).Success?
    ensures var (s', record) := CompleteResource(s, operation, fingerprint, owner, resource).value;
            && Step(s, OpComplete(operation, fingerprint, owner, resource)) == Success(s')
            && IsValid(s') && StoreBytes(s') <= MAX_STORE_BYTES
            && record in s'.completed && record.operation == operation && record.fingerprint == fingerprint
  {
    hide CompleteResource, IsValid, StoreBytes;
    CompletionRecords(s, operation, fingerprint, owner, resource);
  }

  /** Call n is the first to complete the operation; it returns the record and leaves the state. */
  predicate CompletedBy(s: State, operation: Id, fingerprint: Fingerprint, lates: seq<Late>, n: nat, last: State,
                        record: Completed)
    requires n < |lates|
  {
    var (reached, records) := Play(s, operation, fingerprint, lates[..n]);
    && lates[n].Again? && records == []
    && CompleteResource(reached, operation, fingerprint, lates[n].owner, lates[n].resource) == Success((last, record))
  }

  lemma PlayedOn(s: State, operation: Id, fingerprint: Fingerprint, lates: seq<Late>, n: nat)
    requires n < |lates|
    requires var next := Step(s, LateOp(operation, fingerprint, lates[0])); next.Failure? || lates[0].LateCancel?
    ensures var next := Step(s, LateOp(operation, fingerprint, lates[0]));
            Play(s, operation, fingerprint, lates[..n + 1])
            == Play(if next.Failure? then s else next.value, operation, fingerprint, lates[1..][..n])
  {
    hide Step, CompleteResource;
    assert lates[..n + 1][1..] == lates[1..][..n];
    var next := Step(s, LateOp(operation, fingerprint, lates[0]));
    if next.Success? {
      var (last, records) := Play(next.value, operation, fingerprint, lates[1..][..n]);
      assert [] + records == records;
    }
  }

  lemma FirstCompletes(s: State, operation: Id, fingerprint: Fingerprint, lates: seq<Late>)
    requires lates != [] && lates[0].Again? && Step(s, LateOp(operation, fingerprint, lates[0])).Success?
    ensures var (last, records) := Play(s, operation, fingerprint, lates);
            && records != [] && records[0] in last.completed
            && (forall i :: 0 <= i < |records| ==> records[i] == records[0])
            && CompletedBy(s, operation, fingerprint, lates, 0, last, records[0])
  {
    hide Step, CompleteResource, IsValid, StoreBytes;
    var next := Step(s, LateOp(operation, fingerprint, lates[0]));
    AfterCompletion(s, operation, fingerprint, lates[0].owner, lates[0].resource);
    var record := CompleteResource(s, operation, fingerprint, lates[0].owner, lates[0].resource).value.1;
    PlayAfterCompletion(next.value, record, lates[1..]);
  }

  /** Whatever mixture of completions and cancels of one operation arrives: they
      all return one record, and the state left is the one its first completion left. */
  lemma {:induction false} OneRecordOneEffect(s: State, operation: Id, fingerprint: Fingerprint, lates: seq<Late>)
    ensures var (last, records) := Play(s, operation, fingerprint, lates);
            && (forall i, j :: 0 <= i < |records| && 0 <= j < |records| ==> records[i] == records[j])
            && (records != [] ==>
                  && records[0] in last.completed
                  && exists n :: 0 <= n < |lates| && CompletedBy(s, operation, fingerprint, lates, n, last, records[0]))
    decreases lates
  {
    hide Step, CompleteResource;
    if lates != [] {
      var op := LateOp(operation, fingerprint, lates[0]);
      var next := Step(s, op);
      var (last, records) := Play(s, operation, fingerprint, lates);
      if next.Success? && lates[0].Again? {
        FirstCompletes(s, operation, fingerprint, lates);
      } else {
        var t := if next.Failure? then s else next.value;
        OneRecordOneEffect(t, operation, fingerprint, lates[1..]);
        if records != [] {
          var n :| 0 <= n < |lates[1..]| && CompletedBy(t, operation, fingerprint, lates[1..], n, last, records[0]);
          PlayedOn(s, operation, fingerprint, lates, n);
          assert CompletedBy(s, operation, fingerprint, lates, n + 1, last, records[0]);
        }
      }
    }
  }

  // ---------- replayed until evicted ----------

  /** The record a call added to the ledger, if it added one. */
  function Appended(before: seq<Completed>, after: seq<Completed>): seq<Completed> {
    if after == [] || IsSuffix(after, before) then [] else [after[|after| - 1]]
  }

  /** Every record the run has added, oldest first. */
  function Log(ops: seq<Op>): seq<Completed> {
    if ops == [] then []
    else
      var init := ops[..|ops| - 1];
      Log(init) + Appended(Run(EMPTY, init).completed, Run(EMPTY, ops).completed)
  }

  lemma SuffixOfLog(log: seq<Completed>, before: seq<Completed>, after: seq<Completed>)
    requires IsSuffix(before, log) && Fifo(before, after)
    ensures IsSuffix(after, log + Appended(before, after))
  {
    if after == [] {
      assert log + [] == log;
    } else if IsSuffix(after, before) {
      assert log + [] == log;
      assert after == before[|before| - |after|..] == log[|log| - |after|..];
    } else {
      var c := after[|after| - 1];
      assert after == (before + [c])[|before| + 1 - |after|..] == (log + [c])[|log| + 1 - |after|..];
    }
  }

  lemma SameIsFifo(before: seq<Completed>)
    ensures Fifo(before, before)
  {
  }

  /** At every moment the ledger is the newest end of everything ever recorded. */
  lemma {:induction false} LedgerIsNewest(ops: seq<Op>)
    ensures IsSuffix(Run(EMPTY, ops).completed, Log(ops))
  {
    hide Step;
    if ops != [] {
      var init, op := ops[..|ops| - 1], ops[|ops| - 1];
      var s := Run(EMPTY, init);
      LedgerIsNewest(init);
      SameIsFifo(s.completed);
      if Step(s, op).Success? {
        StepIsAttempt(s, op);
        StepIsFifo(s, op);
      }
      SuffixOfLog(Log(init), s.completed, Run(EMPTY, ops).completed);
    }
  }

  lemma {:induction false} LogGrows(before: seq<Op>, after: seq<Op>)
    ensures Log(before) <= Log(before + after)
  {
    hide Run, IsSuffix;
    if after == [] {
      assert before + after == before;
    } else {
      var init := after[..|after| - 1];
      assert (before + after)[..|before + after| - 1] == before + init;
      LogGrows(before, init);
    }
  }

  /** After a completion, whatever calls follow: either its record, the n-th ever made, is
      still there and every replay returns it unchanged, or it has left at the front, with
      every record made before it. */
  lemma ReplayedUntilEvicted(before: seq<Op>, after: seq<Op>, n: nat)
    requires |Log(before)| - |Run(EMPTY, before).completed| <= n < |Log(before)|
    ensures var s := Run(EMPTY, before + after);
            var log := Log(before + after);
            var record := Log(before)[n];
            && |s.completed| <= |log| && record in Run(EMPTY, before).completed
            && if |log| - |s.completed| <= n then
                 && record in s.completed
                 && forall owner, resource ::
                      CompleteResource(s, record.operation, record.fingerprint, owner, resource) == Success((s, record))
               else IsSuffix(s.completed, log[n + 1..])
  {
    hide Run, Log, CompleteResource, IsValid;
    LedgerIsNewest(before);
    LedgerIsNewest(before + after);
    LogGrows(before, after);
    EveryRunIsSound(before + after);
    var s, log := Run(EMPTY, before + after), Log(before + after);
    var record := Log(before)[n];
    SuffixHolds(Run(EMPTY, before).completed, Log(before), n);
    assert log[n] == record;
    if |log| - |s.completed| <= n {
      SuffixHolds(s.completed, log, n);
      RecordIsReplayed(s, record);
    } else {
      SuffixBeyond(s.completed, log, n);
    }
  }

  lemma SuffixHolds(cs: seq<Completed>, log: seq<Completed>, n: nat)
    requires IsSuffix(cs, log) && |log| - |cs| <= n < |log|
    ensures log[n] in cs
  {
    assert cs[n - (|log| - |cs|)] == log[n];
  }

  lemma SuffixBeyond(cs: seq<Completed>, log: seq<Completed>, n: nat)
    requires IsSuffix(cs, log) && n < |log| - |cs|
    ensures IsSuffix(cs, log[n + 1..])
  {
  }

  // ---------- reserved until resolved ----------

  /** The same operation, no less attempted and no less provided for. */
  predicate Endures(p: Pending, q: Pending) {
    && q == p.(reservation := q.reservation, attempted := q.attempted)
    && q.reservation >= p.reservation
    && (p.attempted ==> q.attempted)
  }

  predicate AllEndure(ps: seq<Pending>, qs: seq<Pending>) {
    |ps| <= |qs| && forall i :: 0 <= i < |ps| ==> Endures(ps[i], qs[i])
  }

  /** The call that may take p out of the pending ledger: its completion, a cancel unless
      it creates and was attempted, a guarded cancel unless it was attempted at all. */
  predicate Resolves(op: Op, p: Pending) {
    && (op.OpComplete? || IsCancel(op))
    && op.operation == p.operation && op.fingerprint == p.fingerprint
    && (op.OpCancel? ==> !(p.createsWorkspace && p.attempted))
    && (op.OpCancelUnattempted? ==> !p.attempted)
  }

  predicate Removes(ps: seq<Pending>, qs: seq<Pending>, op: Op) {
    exists i :: 0 <= i < |ps| && qs == Without(ps, i) && Resolves(op, ps[i])
  }

  lemma ReserveEndures(ps: seq<Pending>, w: Workspace, p: Pending)
    requires Reserve(ps, w, p).Success?
    ensures AllEndure(ps, Reserve(ps, w, p).value)
  {
    ReserveMeaning(ps, w, p);
  }

  lemma PrepareEndures(s: State, r: ResourceRequest, attempt: bool)
    requires PrepareResource(s, r, attempt).Success?
    ensures AllEndure(s.pendings, PrepareResource(s, r, attempt).value.0.pendings)
  {
    if IsCompleted(s.completed, r.operation) {
    } else if IsPending(s.pendings, r.operation) {
      RepeatedPrepareReveals(s, r, attempt);
    } else {
      NewResourceReveals(s, r, attempt);
      var w := s.workspaces[WorkspaceIndex(s.workspaces, r.workspace)];
      ReserveEndures(s.pendings, w, NewPending(s.pendings, w, r, attempt));
    }
  }

  lemma ShellEndures(s: State, r: ShellRequest)
    requires PrepareWorkspaceShell(s, r).Success?
    ensures AllEndure(s.pendings, PrepareWorkspaceShell(s, r).value.0.pendings)
  {
    ShellReveals(s, r);
    var n := NameIndex(s.workspaces, r.name);
    if PrepareWorkspaceShell(s, r).value.0.pendings != s.pendings {
      if n < |s.workspaces| {
        var e := AliasIndex(s.pendings, s.workspaces[n].id, r.semantic);
        ReserveEndures(s.pendings, s.workspaces[n], NewAlias(s.pendings[e], r));
      } else {
        ReserveEndures(s.pendings, NewWorkspace(r.workspace, r.name), NewCreation(r));
      }
    }
  }

  lemma CompleteResolves(s: State, op: Op)
    requires op.OpComplete? && Attempt(s, op).Success?
    ensures var qs := Attempt(s, op).value.pendings; AllEndure(s.pendings, qs) || Removes(s.pendings, qs, op)
  {
    var i := PendingIndex(s.pendings, op.operation);
    if i < |s.pendings| {
      CompletionReveals(s, i, op.owner, op.resource);
      assert Attempt(s, op).value.pendings == Without(s.pendings, i) && Resolves(op, s.pendings[i]);
    }
  }

  lemma CancelResolves(s: State, op: Op)
    requires IsCancel(op) && Attempt(s, op).Success?
    ensures var qs := Attempt(s, op).value.pendings; AllEndure(s.pendings, qs) || Removes(s.pendings, qs, op)
  {
    if Attempt(s, op).value != s {
      CancelReveals(s, op);
      var i := PendingIndex(s.pendings, op.operation);
      assert Attempt(s, op).value.pendings == Without(s.pendings, i) && Resolves(op, s.pendings[i]);
    }
  }

  lemma PrepareStepEndures(s: State, op: Op)
    requires (op.OpPrepareResource? || op.OpPrepareShell? || op.OpMark?) && Attempt(s, op).Success?
    ensures AllEndure(s.pendings, Attempt(s, op).value.pendings)
  {
    hide PrepareResource, PrepareWorkspaceShell;
    match op
    case OpPrepareResource(r, attempt) => PrepareEndures(s, r, attempt);
    case OpPrepareShell(r) => ShellEndures(s, r);
    case OpMark(o, f) =>
  }

  /** The calls that never touch the ledger of prepared resource operations. */
  predicate LeavesPendings(op: Op) {
    && !op.OpPrepareResource? && !op.OpPrepareShell? && !op.OpMark?
    && !op.OpComplete? && !IsCancel(op)
  }

  lemma OtherStepKeepsPendings(s: State, op: Op)
    requires LeavesPendings(op) && Attempt(s, op).Success?
    ensures Attempt(s, op).value.pendings == s.pendings
  {
    hide RetainOthers, ImportAll, CloseAll, SortByNode, HasPending, PrepareDefaultCwd, CompleteDefaultCwd;
    if op.OpPrepareCwd? {
      PrepareCwdReveals(s, op.cwdRequest);
    } else if op.OpCompleteCwd? {
      CompleteCwdReveals(s, op.cwdRequest, op.owner);
    }
  }

  predicate AttemptedIn(ps: seq<Pending>, operation: Id, fingerprint: Fingerprint) {
    exists q :: q in ps && q.operation == operation && q.fingerprint == fingerprint && q.attempted
  }

  lemma MarkMarks(s: State, operation: Id, fingerprint: Fingerprint)
    requires Attempt(s, OpMark(operation, fingerprint)).Success?
    ensures AttemptedIn(Attempt(s, OpMark(operation, fingerprint)).value.pendings, operation, fingerprint)
  {
    var i := PendingIndex(s.pendings, operation);
    assert Attempt(s, OpMark(operation, fingerprint)).value.pendings[i].attempted;
  }

  /** Every call either keeps all prepared operations or takes out exactly the one
      it resolves; an attempted creation cannot be cancelled; a mark marks. */
  lemma StepResolves(s: State, op: Op)
    requires Attempt(s, op).Success?
    ensures var qs := Attempt(s, op).value.pendings; AllEndure(s.pendings, qs) || Removes(s.pendings, qs, op)
    ensures op.OpMark? ==> AttemptedIn(Attempt(s, op).value.pendings, op.operation, op.fingerprint)
  {
    hide Attempt, Removes;
    if op.OpMark? {
      MarkMarks(s, op.operation, op.fingerprint);
    }
    if op.OpComplete? {
      CompleteResolves(s, op);
    } else if IsCancel(op) {
      CancelResolves(s, op);
    } else if LeavesPendings(op) {
      OtherStepKeepsPendings(s, op);
    } else {
      PrepareStepEndures(s, op);
    }
  }

  predicate Survives(p: Pending, qs: seq<Pending>) {
    exists j :: 0 <= j < |qs| && Endures(p, qs[j])
  }

  /** What may end an attempted operation: its completion and, unless it creates, a plain cancel. */
  predicate MayResolve(op: Op, operation: Id, creates: bool) {
    (op.OpComplete? || (op.OpCancel? && !creates)) && op.operation == operation
  }

  lemma StepSurvives(s: State, op: Op, p: Pending)
    requires Attempt(s, op).Success? && Survives(p, s.pendings) && p.attempted
    requires !MayResolve(op, p.operation, p.createsWorkspace)
    ensures Survives(p, Attempt(s, op).value.pendings)
  {
    hide Attempt, Survives, AllEndure, Removes;
    StepResolves(s, op);
    var qs := Attempt(s, op).value.pendings;
    if AllEndure(s.pendings, qs) {
      EnduresOn(p, s.pendings, qs);
    } else {
      SurvivesRemoval(p, s.pendings, qs, op);
    }
  }

  lemma EnduresOn(p: Pending, ps: seq<Pending>, qs: seq<Pending>)
    requires Survives(p, ps) && AllEndure(ps, qs)
    ensures Survives(p, qs)
  {
    var j :| 0 <= j < |ps| && Endures(p, ps[j]);
    assert Endures(p, qs[j]);
  }

  lemma SurvivesRemoval(p: Pending, ps: seq<Pending>, qs: seq<Pending>, op: Op)
    requires Survives(p, ps) && Removes(ps, qs, op) && p.attempted
    requires !MayResolve(op, p.operation, p.createsWorkspace)
    ensures Survives(p, qs)
  {
    var j :| 0 <= j < |ps| && Endures(p, ps[j]);
    var i :| 0 <= i < |ps| && qs == Without(ps, i) && Resolves(op, ps[i]);
    assert i != j;
    assert ps[j] == qs[if j < i then j else j - 1];
  }

  predicate NeverCompletes(ops: seq<Op>, operation: Id) {
    forall i :: 0 <= i < |ops| && ops[i].OpComplete? ==> ops[i].operation != operation
  }

  predicate NeverResolves(ops: seq<Op>, operation: Id, creates: bool) {
    forall i :: 0 <= i < |ops| ==> !MayResolve(ops[i], operation, creates)
  }

  lemma {:induction false} RunSurvives(before: seq<Op>, after: seq<Op>, p: Pending)
    requires p in Run(EMPTY, before).pendings && p.attempted
    requires NeverResolves(after, p.operation, p.createsWorkspace)
    ensures Survives(p, Run(EMPTY, before + after).pendings)
  {
    hide Step, Survives, MayResolve;
    if after == [] {
      assert before + after == before;
      PresentSurvives(p, Run(EMPTY, before).pendings);
    } else {
      var init, op := after[..|after| - 1], after[|after| - 1];
      RunSurvives(before, init, p);
      assert (before + after)[..|before + after| - 1] == before + init;
      var s := Run(EMPTY, before + init);
      if Step(s, op).Success? {
        StepIsAttempt(s, op);
        StepSurvives(s, op, p);
      }
    }
  }

  lemma PresentSurvives(p: Pending, ps: seq<Pending>)
    requires p in ps
    ensures Survives(p, ps)
  {
    var j :| 0 <= j < |ps| && ps[j] == p;
    assert Endures(p, ps[j]);
  }

  /** An attempted creation stays in the ledger, its identity intact and its
      reservation no smaller, and its Workspace stays under the promised name,
      through any calls whatever that do not complete it. */
  lemma AttemptedCreationSurvives(before: seq<Op>, after: seq<Op>, p: Pending)
    requires p in Run(EMPTY, before).pendings && p.createsWorkspace && p.attempted
    requires NeverCompletes(after, p.operation)
    ensures var s := Run(EMPTY, before + after);
            && Survives(p, s.pendings)
            && Known(s.workspaces, p.workspace)
            && s.workspaces[WorkspaceIndex(s.workspaces, p.workspace)].name == p.ownerName
  {
    RunSurvives(before, after, p);
    EveryRunIsSound(before + after);
    CreationKeepsName(Run(EMPTY, before + after), p);
  }

  lemma CreationKeepsName(s: State, p: Pending)
    requires IsCoherent(s) && Survives(p, s.pendings) && p.createsWorkspace
    ensures Known(s.workspaces, p.workspace)
    ensures s.workspaces[WorkspaceIndex(s.workspaces, p.workspace)].name == p.ownerName
  {
    var j :| 0 <= j < |s.pendings| && Endures(p, s.pendings[j]);
    assert Known(s.workspaces, s.pendings[j].workspace);
  }
}
