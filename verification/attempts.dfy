/** What marking an operation as attempted promises: the mark is there, and it outlives
    every call that does not resolve the operation. */
module Attempts {
  import opened Basics
  import opened StoreTypes
  import opened StoreOps
  import opened StoreInvariant
  import opened StoreSteps
  import opened Lifecycle
  import opened DefaultCwd
  import opened CwdRuns

  /** The calls made before an owner is asked to act: the mark, and a preparation for attempt
      of an operation that is not already recorded. */
  predicate Announces(s: State, op: Op, operation: Id, fingerprint: Fingerprint) {
    || op == OpMark(operation, fingerprint)
    || (op.OpPrepareResource? && op.attempt && !IsCompleted(s.completed, operation)
        && op.resourceRequest.operation == operation && op.resourceRequest.fingerprint == fingerprint)
  }

  /** Marking changes nothing but the mark: every other operation, every reservation and
      every other ledger is as it was, and the answer is the operation marked. */
  lemma MarkChangesOnlyTheMark(s: State, operation: Id, fingerprint: Fingerprint)
    requires MarkOwnerAttempted(s, operation, fingerprint).Success?
    ensures var (s', p) := MarkOwnerAttempted(s, operation, fingerprint).value;
            && p in s'.pendings && p.operation == operation && p.fingerprint == fingerprint && p.attempted
            && s' == s.(pendings := s'.pendings) && |s'.pendings| == |s.pendings|
            && (forall i :: 0 <= i < |s.pendings| ==>
                  s'.pendings[i] == s.pendings[i].(attempted := s.pendings[i].attempted || s'.pendings[i] == p))
  {
    var i := PendingIndex(s.pendings, operation);
    assert MarkOwnerAttempted(s, operation, fingerprint).value.0.pendings[i].attempted;
  }

  lemma PrepareForAttemptMarks(s: State, r: ResourceRequest)
    requires PrepareResource(s, r, true).Success? && !IsCompleted(s.completed, r.operation)
    ensures AttemptedIn(PrepareResource(s, r, true).value.0.pendings, r.operation, r.fingerprint)
  {
    hide PrepareNewResource;
    var s' := PrepareResource(s, r, true).value.0;
    var i := PendingIndex(s.pendings, r.operation);
    if i < |s.pendings| {
      assert s'.pendings[i] in s'.pendings;
    } else {
      NewResourceReveals(s, r, true);
      hide PrepareResource;
      var w := s.workspaces[WorkspaceIndex(s.workspaces, r.workspace)];
      ReserveMeaning(s.pendings, w, NewPending(s.pendings, w, r, true));
      assert s'.pendings[|s.pendings|] in s'.pendings;
    }
  }

  lemma Announced(s: State, op: Op, operation: Id, fingerprint: Fingerprint)
    requires Attempt(s, op).Success? && Announces(s, op, operation, fingerprint)
    ensures AttemptedIn(Attempt(s, op).value.pendings, operation, fingerprint)
  {
    hide PrepareResource, AttemptedIn;
    if op.OpMark? {
      MarkMarks(s, operation, fingerprint);
    } else {
      PrepareForAttemptMarks(s, op.resourceRequest);
    }
  }

  /** The cancels of an attempted operation: the guarded one answers no, and one that creates
      is kept by the plain one too. */
  lemma AttemptedIsNotCancelled(s: State, p: Pending)
    requires PendingsDistinct(s.pendings) && p in s.pendings && p.attempted
    ensures CancelIfNeverAttempted(s, p.operation, p.fingerprint) == Success((s, false))
    ensures p.createsWorkspace ==> CancelResource(s, p.operation, p.fingerprint) == Success((s, ()))
  {
    var j :| 0 <= j < |s.pendings| && s.pendings[j] == p;
    assert PendingIndex(s.pendings, p.operation) == j;
  }

  /** From the call that announced an attempt on, through any calls that do not complete the
      operation nor, unless it creates, cancel it outright: the operation is there, identity
      intact, still marked; every guarded cancel answers no; and a creation keeps its
      Workspace, under its name, against every cancel. */
  lemma AttemptIsRemembered(before: seq<Op>, op: Op, operation: Id, fingerprint: Fingerprint, creates: bool,
                            after: seq<Op>) returns (p: Pending)
    requires Step(Run(EMPTY, before), op).Success? && Announces(Run(EMPTY, before), op, operation, fingerprint)
    requires NeverResolves(after, operation, creates)
    requires forall q :: q in Run(EMPTY, before + [op]).pendings && q.operation == operation ==>
               q.createsWorkspace == creates
    ensures var s := Run(EMPTY, before + [op] + after);
            && p in s.pendings && p.operation == operation && p.fingerprint == fingerprint
            && p.attempted && p.createsWorkspace == creates
            && CancelIfNeverAttempted(s, operation, fingerprint) == Success((s, false))
            && (creates ==>
                  && CancelResource(s, operation, fingerprint) == Success((s, ()))
                  && Known(s.workspaces, p.workspace)
                  && s.workspaces[WorkspaceIndex(s.workspaces, p.workspace)].name == p.ownerName)
  {
    hide Run, Step, Attempt, NeverResolves, Announces, CancelIfNeverAttempted, CancelResource, IsCoherent;
    var reached := before + [op];
    Committed(before, op);
    Announced(Run(EMPTY, before), op, operation, fingerprint);
    var q :| q in Run(EMPTY, reached).pendings && q.operation == operation && q.fingerprint == fingerprint
             && q.attempted;
    RunSurvives(reached, after, q);
    var s := Run(EMPTY, reached + after);
    var j :| 0 <= j < |s.pendings| && Endures(q, s.pendings[j]);
    p := s.pendings[j];
    SoundPendings(reached + after);
    AttemptedIsNotCancelled(s, p);
    if creates {
      SurvivingKeepsName(reached + after, p);
    }
  }

  lemma SoundPendings(ops: seq<Op>)
    ensures PendingsDistinct(Run(EMPTY, ops).pendings) && PendingCwdDistinct(Run(EMPTY, ops).pendingCwd)
  {
    hide Run;
    EveryRunIsSound(ops);
  }

  lemma SurvivingKeepsName(ops: seq<Op>, p: Pending)
    requires p in Run(EMPTY, ops).pendings && p.createsWorkspace
    ensures var s := Run(EMPTY, ops);
            && Known(s.workspaces, p.workspace)
            && s.workspaces[WorkspaceIndex(s.workspaces, p.workspace)].name == p.ownerName
  {
    hide Run;
    EveryRunIsSound(ops);
    PresentSurvives(p, Run(EMPTY, ops).pendings);
    CreationKeepsName(Run(EMPTY, ops), p);
  }

  // ---------- directory changes ----------

  /** Marking a directory change marks it and changes nothing else; the answer is the change marked. */
  lemma CwdMarkChangesOnlyTheMark(s: State, r: PendingCwd)
    requires MarkDefaultCwdAttempted(s, r).Success?
    ensures var (s', d) := MarkDefaultCwdAttempted(s, r).value;
            && d in s'.pendingCwd && d.operation == r.operation && d.attempted
            && s' == s.(pendingCwd := s'.pendingCwd) && |s'.pendingCwd| == |s.pendingCwd|
            && (forall i :: 0 <= i < |s.pendingCwd| ==>
                  s'.pendingCwd[i]
                  == s.pendingCwd[i].(attempted := s.pendingCwd[i].attempted || s'.pendingCwd[i] == d))
  {
    var i := CwdIndex(s.pendingCwd, r.operation);
    assert MarkDefaultCwdAttempted(s, r).value.0.pendingCwd[i].attempted;
  }

  lemma CwdMarked(s: State, r: PendingCwd)
    requires Attempt(s, OpMarkCwd(r)).Success?
    ensures exists d :: d in Attempt(s, OpMarkCwd(r)).value.pendingCwd && d.operation == r.operation && d.attempted
                        && d.workspace == r.workspace && d.node == r.node && d.owner == r.owner && d.cwd == r.cwd
  {
    CwdMarkChangesOnlyTheMark(s, r);
    assert MarkDefaultCwdAttempted(s, r).value.1 in Attempt(s, OpMarkCwd(r)).value.pendingCwd;
  }

  /** From its mark on, through any calls that do not complete or outright cancel it, a
      directory change is pending as requested, still marked, and a cancel that asks for
      "never attempted" answers no. */
  lemma CwdAttemptIsRemembered(before: seq<Op>, r: PendingCwd, after: seq<Op>) returns (d: PendingCwd)
    requires Step(Run(EMPTY, before), OpMarkCwd(r)).Success?
    requires forall i :: 0 <= i < |after| ==>
               !(after[i].OpCompleteCwd? && after[i].cwdRequest.operation == r.operation)
               && !(after[i].OpCancelCwd? && after[i].cwdRequest.operation == r.operation
                    && !after[i].onlyIfNeverAttempted)
    ensures var s := Run(EMPTY, before + [OpMarkCwd(r)] + after);
            && d in s.pendingCwd && d.operation == r.operation && d.attempted
            && d.workspace == r.workspace && d.node == r.node && d.owner == r.owner && d.cwd == r.cwd
            && CancelDefaultCwd(s, d, true) == Success((s, false))
  {
    hide Run, Step, Attempt, CancelDefaultCwd;
    var reached := before + [OpMarkCwd(r)];
    Committed(before, OpMarkCwd(r));
    CwdMarked(Run(EMPTY, before), r);
    var e :| e in Run(EMPTY, reached).pendingCwd && e.operation == r.operation && e.attempted
             && e.workspace == r.workspace && e.node == r.node && e.owner == r.owner && e.cwd == r.cwd;
    CwdSurvives(reached, after, e);
    var s := Run(EMPTY, reached + after);
    var n :| 0 <= n < |s.pendingCwd| && SameChange(e, s.pendingCwd[n]);
    d := s.pendingCwd[n];
    SoundPendings(reached + after);
    MarkedCwdIsNotCancelled(s, n);
  }

  lemma MarkedCwdIsNotCancelled(s: State, n: nat)
    requires PendingCwdDistinct(s.pendingCwd) && n < |s.pendingCwd| && s.pendingCwd[n].attempted
    ensures CancelDefaultCwd(s, s.pendingCwd[n], true) == Success((s, false))
  {
    assert CwdIndex(s.pendingCwd, s.pendingCwd[n].operation) == n;
  }
}
