/** A resource id is reserved by one prepared operation; only the aliases of a creation share one. */
module ReservedOnce {
  import opened Basics
  import opened StoreTypes
  import opened StoreOps
  import opened StoreInvariant
  import opened StoreSteps
  import opened Lifecycle

  /** An operation and those prepared before it: what they reserve differs, unless it creates. */
  predicate ReservesNew(ps: seq<Pending>, p: Pending) {
    p.createsWorkspace || forall i :: 0 <= i < |ps| ==> ps[i].node != p.node || ps[i].resource != p.resource
  }

  predicate ReservedOnce(ps: seq<Pending>) {
    forall j :: 0 <= j < |ps| ==> ReservesNew(ps[..j], ps[j])
  }

  /** The same operations, or one more that reserves what none of them does. */
  predicate Admits(ps: seq<Pending>, qs: seq<Pending>) {
    || SameIdentities(ps, qs)
    || (|qs| == |ps| + 1 && SameIdentities(ps, qs[..|ps|]) && ReservesNew(ps, qs[|ps|]))
  }

  lemma SameReserved(ps: seq<Pending>, qs: seq<Pending>)
    requires ReservedOnce(ps) && SameIdentities(ps, qs)
    ensures ReservedOnce(qs)
  {
    forall j | 0 <= j < |qs|
      ensures ReservesNew(qs[..j], qs[j])
    {
      assert ReservesNew(ps[..j], ps[j]);
      assert forall i :: 0 <= i < j ==> ps[..j][i].node == qs[..j][i].node
                                        && ps[..j][i].resource == qs[..j][i].resource;
    }
  }

  lemma OneMoreReserved(ps: seq<Pending>, p: Pending)
    requires ReservedOnce(ps) && ReservesNew(ps, p)
    ensures ReservedOnce(ps + [p])
  {
    forall j | 0 <= j < |ps| + 1
      ensures ReservesNew((ps + [p])[..j], (ps + [p])[j])
    {
      if j < |ps| {
        assert (ps + [p])[..j] == ps[..j];
        assert ReservesNew(ps[..j], ps[j]);
      } else {
        assert (ps + [p])[..j] == ps;
      }
    }
  }

  lemma OneLessReserved(ps: seq<Pending>, i: nat)
    requires ReservedOnce(ps) && i < |ps|
    ensures ReservedOnce(Without(ps, i))
  {
    var qs := Without(ps, i);
    forall j | 0 <= j < |qs|
      ensures ReservesNew(qs[..j], qs[j])
    {
      var k := if j < i then j else j + 1;
      assert ReservesNew(ps[..k], ps[k]);
      forall m | 0 <= m < j && !qs[j].createsWorkspace
        ensures qs[m].node != qs[j].node || qs[m].resource != qs[j].resource
      {
        var l := if m < i then m else m + 1;
        assert ps[..k][l] == ps[l] == qs[m];
      }
    }
  }

  lemma AdmitsKeeps(ps: seq<Pending>, qs: seq<Pending>)
    requires ReservedOnce(ps) && Admits(ps, qs)
    ensures ReservedOnce(qs)
  {
    hide ReservedOnce, ReservesNew;
    if SameIdentities(ps, qs) {
      SameReserved(ps, qs);
    } else {
      var n := |ps|;
      SameReserved(ps, qs[..n]);
      SameReservesNew(ps, qs[..n], qs[n]);
      OneMoreReserved(qs[..n], qs[n]);
      assert qs == qs[..n] + [qs[n]];
    }
  }

  lemma SameReservesNew(ps: seq<Pending>, qs: seq<Pending>, p: Pending)
    requires ReservesNew(ps, p) && SameIdentities(ps, qs)
    ensures ReservesNew(qs, p)
  {
  }

  /** What a reservation adds is the operation it was asked to add. */
  lemma ReserveAdmits(ps: seq<Pending>, w: Workspace, p: Pending)
    requires Reserve(ps, w, p).Success? && ReservesNew(ps, p)
    ensures Admits(ps, Reserve(ps, w, p).value)
  {
    ReserveMeaning(ps, w, p);
  }

  lemma NewReserves(s: State, r: ResourceRequest, attempt: bool)
    requires PrepareNewResource(s, r, attempt).Success?
    ensures ReservesNew(s.pendings, NewPending(s.pendings, s.workspaces[WorkspaceIndex(s.workspaces, r.workspace)],
                                               r, attempt))
  {
    hide Reserve, Compact, OwnerLinkedElsewhere;
    forall i | 0 <= i < |s.pendings|
      ensures s.pendings[i].node != r.node || s.pendings[i].resource != r.resource
    {
      assert s.pendings[i] in s.pendings;
    }
  }

  lemma PrepareAdmits(s: State, r: ResourceRequest, attempt: bool)
    requires PrepareResource(s, r, attempt).Success?
    ensures Admits(s.pendings, PrepareResource(s, r, attempt).value.0.pendings)
  {
    hide PrepareNewResource, ReservesNew, NewPending;
    if IsCompleted(s.completed, r.operation) {
    } else if IsPending(s.pendings, r.operation) {
      RepeatedPrepareReveals(s, r, attempt);
    } else {
      NewResourceReveals(s, r, attempt);
      var w := s.workspaces[WorkspaceIndex(s.workspaces, r.workspace)];
      NewReserves(s, r, attempt);
      ReserveAdmits(s.pendings, w, NewPending(s.pendings, w, r, attempt));
    }
  }

  lemma ShellAdmits(s: State, r: ShellRequest)
    requires PrepareWorkspaceShell(s, r).Success?
    ensures Admits(s.pendings, PrepareWorkspaceShell(s, r).value.0.pendings)
  {
    ShellReveals(s, r);
    hide PrepareWorkspaceShell;
    var n := NameIndex(s.workspaces, r.name);
    if PrepareWorkspaceShell(s, r).value.0.pendings != s.pendings {
      if n < |s.workspaces| {
        var e := AliasIndex(s.pendings, s.workspaces[n].id, r.semantic);
        ReserveAdmits(s.pendings, s.workspaces[n], NewAlias(s.pendings[e], r));
      } else {
        ReserveAdmits(s.pendings, NewWorkspace(r.workspace, r.name), NewCreation(r));
      }
    }
  }

  predicate OnlyRemoves(ps: seq<Pending>, qs: seq<Pending>) {
    SameIdentities(ps, qs) || exists i :: 0 <= i < |ps| && qs == Without(ps, i)
  }

  lemma CompleteOnlyRemoves(s: State, op: Op)
    requires op.OpComplete? && Attempt(s, op).Success?
    ensures OnlyRemoves(s.pendings, Attempt(s, op).value.pendings)
  {
    var i := PendingIndex(s.pendings, op.operation);
    if i < |s.pendings| {
      CompletionReveals(s, i, op.owner, op.resource);
      assert Attempt(s, op).value.pendings == Without(s.pendings, i);
    }
  }

  lemma CancelOnlyRemoves(s: State, op: Op)
    requires IsCancel(op) && Attempt(s, op).Success?
    ensures OnlyRemoves(s.pendings, Attempt(s, op).value.pendings)
  {
    hide Attempt;
    if Attempt(s, op).value != s {
      CancelReveals(s, op);
      assert Attempt(s, op).value.pendings == Without(s.pendings, PendingIndex(s.pendings, op.operation));
    }
  }

  /** Only the two preparations add an operation. */
  lemma OtherStepOnlyRemoves(s: State, op: Op)
    requires Attempt(s, op).Success? && !op.OpPrepareResource? && !op.OpPrepareShell?
    ensures OnlyRemoves(s.pendings, Attempt(s, op).value.pendings)
  {
    hide Attempt;
    if op.OpMark? {
      MarkSame(s, op);
    } else if op.OpComplete? {
      CompleteOnlyRemoves(s, op);
    } else if IsCancel(op) {
      CancelOnlyRemoves(s, op);
    } else {
      OtherStepKeepsPendings(s, op);
    }
  }

  lemma MarkSame(s: State, op: Op)
    requires op.OpMark? && Attempt(s, op).Success?
    ensures SameIdentities(s.pendings, Attempt(s, op).value.pendings)
  {
  }

  lemma PrepareStepAdmits(s: State, op: Op)
    requires (op.OpPrepareResource? || op.OpPrepareShell?) && Attempt(s, op).Success?
    ensures Admits(s.pendings, Attempt(s, op).value.pendings)
  {
    hide PrepareResource, PrepareWorkspaceShell, Admits;
    match op
    case OpPrepareResource(r, attempt) => PrepareAdmits(s, r, attempt);
    case OpPrepareShell(r) => ShellAdmits(s, r);
  }

  lemma StepKeepsReserved(s: State, op: Op)
    requires ReservedOnce(s.pendings) && Attempt(s, op).Success?
    ensures ReservedOnce(Attempt(s, op).value.pendings)
  {
    hide ReservedOnce, Attempt, Admits;
    var qs := Attempt(s, op).value.pendings;
    if op.OpPrepareResource? || op.OpPrepareShell? {
      PrepareStepAdmits(s, op);
      AdmitsKeeps(s.pendings, qs);
    } else {
      OtherStepOnlyRemoves(s, op);
      if SameIdentities(s.pendings, qs) {
        SameReserved(s.pendings, qs);
      } else {
        var i :| 0 <= i < |s.pendings| && qs == Without(s.pendings, i);
        OneLessReserved(s.pendings, i);
      }
    }
  }

  lemma {:induction false} RunReservesOnce(ops: seq<Op>)
    ensures ReservedOnce(Run(EMPTY, ops).pendings)
  {
    hide Step, ReservedOnce;
    if ops == [] {
      NothingReserved();
    } else {
      var init, op := ops[..|ops| - 1], ops[|ops| - 1];
      RunReservesOnce(init);
      if Step(Run(EMPTY, init), op).Success? {
        StepIsAttempt(Run(EMPTY, init), op);
        StepKeepsReserved(Run(EMPTY, init), op);
      }
    }
  }

  lemma NothingReserved()
    ensures ReservedOnce([])
  {
  }

  /** After any run, of two operations for one resource on one Node the later one creates
      its Workspace: it is an alias of a creation, or a creation itself. */
  lemma ResourcesReservedOnce(ops: seq<Op>)
    ensures var ps := Run(EMPTY, ops).pendings;
            forall i, j :: 0 <= i < j < |ps| && ps[i].node == ps[j].node && ps[i].resource == ps[j].resource
                      ==> ps[j].createsWorkspace
  {
    hide Run;
    RunReservesOnce(ops);
    var ps := Run(EMPTY, ops).pendings;
    forall i, j | 0 <= i < j < |ps| && ps[i].node == ps[j].node && ps[i].resource == ps[j].resource
      ensures ps[j].createsWorkspace
    {
      assert ReservesNew(ps[..j], ps[j]) && ps[..j][i] == ps[i];
    }
  }

  /** A request under a new operation id for a resource that is reserved on its Node is
      refused, whoever reserved it and whether or not it is about to be attempted. */
  lemma ReservedIsRefused(s: State, r: ResourceRequest, attempt: bool, p: Pending)
    requires !IsCompleted(s.completed, r.operation) && !IsPending(s.pendings, r.operation) && ValidName(r.ownerName)
    requires p in s.pendings && p.node == r.node && p.resource == r.resource
    ensures PrepareResource(s, r, attempt) == Failure(AlreadyExists)
    ensures Step(s, OpPrepareResource(r, attempt)) == Failure(AlreadyExists)
  {
    hide ValidName;
  }

  /** An operation of its own that a call adds reserves what nothing reserved before. */
  lemma AddedReservesNew(s: State, op: Op, p: Pending)
    requires Attempt(s, op).Success? && p in Attempt(s, op).value.pendings && !p.createsWorkspace
    requires !IsPending(s.pendings, p.operation)
    ensures forall q :: q in s.pendings ==> q.node != p.node || q.resource != p.resource
  {
    hide Attempt;
    var ps, qs := s.pendings, Attempt(s, op).value.pendings;
    var k :| 0 <= k < |qs| && qs[k] == p;
    if op.OpPrepareResource? || op.OpPrepareShell? {
      PrepareStepAdmits(s, op);
      if k < |ps| {
        IdentityPending(ps, qs, k);
      }
    } else {
      OtherStepOnlyRemoves(s, op);
      StillPending(ps, qs, p);
    }
  }

  lemma IdentityPending(ps: seq<Pending>, qs: seq<Pending>, k: nat)
    requires Admits(ps, qs) && k < |ps|
    ensures k < |qs| && IsPending(ps, qs[k].operation)
  {
    assert !SameIdentities(ps, qs) ==> qs[..|ps|][k] == qs[k];
    assert ps[k].operation == qs[k].operation;
  }

  lemma StillPending(ps: seq<Pending>, qs: seq<Pending>, p: Pending)
    requires OnlyRemoves(ps, qs) && p in qs
    ensures IsPending(ps, p.operation)
  {
    var k :| 0 <= k < |qs| && qs[k] == p;
    if SameIdentities(ps, qs) {
      assert ps[k].operation == p.operation;
    } else {
      var i :| 0 <= i < |ps| && qs == Without(ps, i);
      assert ps[if k < i then k else k + 1] == p;
    }
  }
}
