/** Several requests may create one Workspace: completing them converges, cancelling
    them all undoes the creation. */
module Aliases {
  import opened Basics
  import opened StoreTypes
  import opened Placements
  import opened StoreOps
  import opened StoreInvariant
  import opened StoreSteps
  import opened Projection
  import opened Lifecycle

  function Lookup(ws: seq<Workspace>, id: Id): Workspace
    requires Known(ws, id)
  {
    ws[WorkspaceIndex(ws, id)]
  }

  /** v is w with at most its placement on one Node set, one revision up exactly when that Node is new. */
  ghost predicate Converged(w: Workspace, v: Workspace, node: Id) {
    && v == w.(placements := v.placements, revision := v.revision)
    && Sorted(v.placements)
    && (forall l: Placement :: l.node != node ==> (l in v.placements <==> l in w.placements))
    && (if HasNode(v.placements, node) && !HasNode(w.placements, node)
        then |v.placements| == |w.placements| + 1 && v.revision == w.revision + 1
        else |v.placements| == |w.placements| && v.revision == w.revision)
    && (HasNode(w.placements, node) ==> HasNode(v.placements, node))
  }

  lemma PlacingConverges(w: Workspace, x: Placement)
    requires Sorted(w.placements)
    ensures Converged(w, PlaceTotal(w, x), x.node) && HasNode(PlaceTotal(w, x).placements, x.node)
  {
    PlaceAtMeaning(w.placements, x);
    HasNodeMeaning(PlaceAt(w.placements, x), x.node);
    assert x in PlaceAt(w.placements, x);
  }

  lemma ConvergedTransitive(w: Workspace, u: Workspace, v: Workspace, node: Id)
    requires Converged(w, u, node) && Converged(u, v, node)
    ensures Converged(w, v, node)
  {
  }

  lemma LookupAfterUpdate(ws: seq<Workspace>, k: nat, v: Workspace, id: Id)
    requires IdsDistinct(ws) && k < |ws| && v.id == ws[k].id && Known(ws, id)
    ensures Known(ws[k := v], id)
    ensures Lookup(ws[k := v], id) == if id == v.id then v else Lookup(ws, id)
  {
    var n := WorkspaceIndex(ws, id);
    assert ws[k := v][n].id == id;
    assert IdsDistinct(ws[k := v]);
  }

  /** Calls that complete operations of one (Workspace, Node), and nothing else. */
  predicate CompletesOnly(ops: seq<Op>, ps: seq<Pending>, id: Id, node: Id) {
    forall n :: 0 <= n < |ops| ==>
      ops[n].OpComplete?
      && forall i :: 0 <= i < |ps| && ps[i].operation == ops[n].operation ==>
           ps[i].workspace == id && ps[i].node == node
  }

  predicate Within(qs: seq<Pending>, ps: seq<Pending>) {
    forall q :: q in qs ==> q in ps
  }

  lemma CompleteStepConverges(s: State, op: Op, id: Id, node: Id)
    requires IsCoherent(s) && Known(s.workspaces, id) && op.OpComplete? && Attempt(s, op).Success?
    requires forall i :: 0 <= i < |s.pendings| && s.pendings[i].operation == op.operation
               ==> s.pendings[i].workspace == id && s.pendings[i].node == node
    ensures var s' := Attempt(s, op).value;
            && Known(s'.workspaces, id)
            && Converged(Lookup(s.workspaces, id), Lookup(s'.workspaces, id), node)
            && (s'.pendings != s.pendings ==> HasNode(Lookup(s'.workspaces, id).placements, node))
            && Within(s'.pendings, s.pendings)
  {
    var i := PendingIndex(s.pendings, op.operation);
    if i < |s.pendings| {
      CompletionReveals(s, i, op.owner, op.resource);
      var k := WorkspaceIndex(s.workspaces, id);
      PlacingConverges(s.workspaces[k], OwnerPlacement(node, op.owner));
      LookupAfterUpdate(s.workspaces, k, PlaceTotal(s.workspaces[k], OwnerPlacement(node, op.owner)), id);
      WithoutContent(s.pendings, i);
    }
  }

  /** Completing any number of the operations of one (Workspace, Node), in any
      order and any number of times, sets one placement and moves the revision
      by one at most; once any of them has completed the placement is there. */
  lemma {:induction false} CompletionsConverge(s: State, ops: seq<Op>, id: Id, node: Id)
    requires IsCoherent(s) && Known(s.workspaces, id) && CompletesOnly(ops, s.pendings, id, node)
    ensures var t := Run(s, ops);
            && IsCoherent(t) && Known(t.workspaces, id) && Within(t.pendings, s.pendings)
            && Converged(Lookup(s.workspaces, id), Lookup(t.workspaces, id), node)
            && (t.pendings != s.pendings ==> HasNode(Lookup(t.workspaces, id).placements, node))
  {
    hide Step, Attempt;
    if ops == [] {
      assert Converged(Lookup(s.workspaces, id), Lookup(s.workspaces, id), node);
    } else {
      hide IsCoherent, Converged;
      var init, op := ops[..|ops| - 1], ops[|ops| - 1];
      CompletionsConverge(s, init, id, node);
      var t := Run(s, init);
      if Step(t, op).Success? {
        StepIsAttempt(t, op);
        StepKeepsCoherence(t, op);
        NarrowTargets(s.pendings, t.pendings, op, id, node);
        CompleteStepConverges(t, op, id, node);
        var u := Attempt(t, op).value;
        ConvergedTransitive(Lookup(s.workspaces, id), Lookup(t.workspaces, id), Lookup(u.workspaces, id), node);
      }
    }
  }

  lemma NarrowTargets(ps: seq<Pending>, qs: seq<Pending>, op: Op, id: Id, node: Id)
    requires op.OpComplete? && Within(qs, ps) && CompletesOnly([op], ps, id, node)
    ensures forall i :: 0 <= i < |qs| && qs[i].operation == op.operation ==> qs[i].workspace == id && qs[i].node == node
  {
    assert [op][0] == op;
    forall i | 0 <= i < |qs| && qs[i].operation == op.operation
      ensures qs[i].workspace == id && qs[i].node == node
    {
      assert qs[i] in ps;
      var j :| 0 <= j < |ps| && ps[j] == qs[i];
    }
  }

  /** Calls that complete operations creating one Workspace, and nothing else. */
  predicate CompletesAliases(ops: seq<Op>, ps: seq<Pending>, id: Id) {
    forall n :: 0 <= n < |ops| ==>
      ops[n].OpComplete?
      && forall i :: 0 <= i < |ps| && ps[i].operation == ops[n].operation ==>
           ps[i].workspace == id && ps[i].createsWorkspace
  }

  /** The operations creating one Workspace are such a family: whatever runs led
      here, completing them converges on the one Node they share. */
  lemma AliasesConverge(before: seq<Op>, ops: seq<Op>, p: Pending)
    requires p in Run(EMPTY, before).pendings && p.createsWorkspace
    requires CompletesAliases(ops, Run(EMPTY, before).pendings, p.workspace)
    ensures var s, t := Run(EMPTY, before), Run(Run(EMPTY, before), ops);
            && Known(s.workspaces, p.workspace) && Known(t.workspaces, p.workspace)
            && Converged(Lookup(s.workspaces, p.workspace), Lookup(t.workspaces, p.workspace), p.node)
            && (t.pendings != s.pendings ==> HasNode(Lookup(t.workspaces, p.workspace).placements, p.node))
  {
    hide Run, IsValid, StoreBytes, Converged;
    var s := Run(EMPTY, before);
    EveryRunIsSound(before);
    var j :| 0 <= j < |s.pendings| && s.pendings[j] == p;
    assert Known(s.workspaces, s.pendings[j].workspace);
    forall n, i | 0 <= n < |ops| && 0 <= i < |s.pendings| && s.pendings[i].operation == ops[n].operation
      ensures s.pendings[i].workspace == p.workspace && s.pendings[i].node == p.node
    {
      assert CreateTogether(s.pendings[i], s.pendings[j]);
    }
    assert CompletesOnly(ops, s.pendings, p.workspace, p.node);
    CompletionsConverge(s, ops, p.workspace, p.node);
  }

  // ---------- cancelling every alias ----------

  /** p is waiting to create the Workspace and has never been attempted. */
  predicate FreshCreation(p: Pending) {
    p.createsWorkspace && !p.attempted
  }

  /** An unfinished creation: nothing placed, nothing attempted, nothing else pending. */
  predicate Unfinished(s: State, id: Id) {
    && Known(s.workspaces, id)
    && Lookup(s.workspaces, id).placements == []
    && (forall i :: 0 <= i < |s.pendings| && s.pendings[i].workspace == id ==> FreshCreation(s.pendings[i]))
    && Awaited(s.pendings, id)
  }

  predicate Awaited(ps: seq<Pending>, id: Id) {
    exists i :: 0 <= i < |ps| && ps[i].workspace == id
  }

  predicate Cancels(op: Op, p: Pending) {
    op.OpCancel? && op.operation == p.operation && op.fingerprint == p.fingerprint
  }

  /** Each call cancels an operation on the Workspace. */
  predicate CancelsOnly(ops: seq<Op>, ps: seq<Pending>, id: Id) {
    forall n :: 0 <= n < |ops| ==> CancelsOne(ops[n], ps, id)
  }

  predicate CancelsOne(op: Op, ps: seq<Pending>, id: Id) {
    exists p :: p in ps && p.workspace == id && Cancels(op, p)
  }

  predicate Cancelled(ops: seq<Op>, p: Pending) {
    exists n :: 0 <= n < |ops| && Cancels(ops[n], p)
  }

  /** After cancelling some: exactly those are gone, and the Workspace stays while any is left. */
  predicate Remaining(s: State, t: State, id: Id, ops: seq<Op>) {
    && Within(t.pendings, s.pendings)
    && (forall p :: p in s.pendings && p.workspace == id ==> (p in t.pendings <==> !Cancelled(ops, p)))
    && (if Awaited(t.pendings, id) then Unfinished(t, id) else !Known(t.workspaces, id))
  }

  lemma WithinDistinct(ps: seq<Pending>, qs: seq<Pending>, p: Pending)
    requires PendingsDistinct(ps) && Within(qs, ps) && p in ps
    ensures IsPending(qs, p.operation) <==> p in qs
    ensures p in qs ==> qs[PendingIndex(qs, p.operation)] == p
  {
    var i := PendingIndex(qs, p.operation);
    if i < |qs| {
      assert qs[i] in ps;
      var a :| 0 <= a < |ps| && ps[a] == qs[i];
      var b :| 0 <= b < |ps| && ps[b] == p;
    }
  }

  lemma KnownAfterWithout(ws: seq<Workspace>, k: nat)
    requires IdsDistinct(ws) && k < |ws|
    ensures !Known(Without(ws, k), ws[k].id)
  {
    var vs := Without(ws, k);
    assert forall n :: 0 <= n < |vs| ==> vs[n] == ws[if n < k then n else n + 1];
  }

  lemma CoherentIds(s: State)
    requires IsCoherent(s)
    ensures IdsDistinct(s.workspaces)
  {
  }

  /** The last operation on an unfinished creation takes its Workspace along. */
  lemma CancelOneReveals(s: State, i: nat, id: Id)
    requires Unfinished(s, id) && i < |s.pendings| && s.pendings[i].workspace == id
    ensures WorkspaceIndex(s.workspaces, id) < |s.workspaces|
    ensures RemovePending(s, i)
            == s.(pendings := Without(s.pendings, i),
                  workspaces := if Awaited(Without(s.pendings, i), id) then s.workspaces
                                else Without(s.workspaces, WorkspaceIndex(s.workspaces, id)))
  {
    hide Without;
    var qs := Without(s.pendings, i);
    assert FreshCreation(s.pendings[i]);
    if Awaited(qs, id) {
      var j :| 0 <= j < |qs| && qs[j].workspace == id;
      assert qs[j] in qs;
    }
  }

  lemma StillUnfinished(s: State, i: nat, id: Id)
    requires Unfinished(s, id) && i < |s.pendings| && Awaited(Without(s.pendings, i), id)
    ensures Unfinished(s.(pendings := Without(s.pendings, i)), id)
  {
    var qs := Without(s.pendings, i);
    forall j | 0 <= j < |qs| && qs[j].workspace == id
      ensures FreshCreation(qs[j])
    {
      assert qs[j] == s.pendings[if j < i then j else j + 1];
    }
  }

  lemma CancelOne(s: State, i: nat, id: Id)
    requires IsCoherent(s) && PendingsDistinct(s.pendings) && Unfinished(s, id)
    requires i < |s.pendings| && s.pendings[i].workspace == id
    ensures var t := RemovePending(s, i);
            && t.pendings == Without(s.pendings, i)
            && (if Awaited(t.pendings, id) then Unfinished(t, id) else !Known(t.workspaces, id))
  {
    hide IsCoherent, PendingsDistinct, Unfinished, RemovePending, Awaited;
    CancelOneReveals(s, i, id);
    if Awaited(Without(s.pendings, i), id) {
      StillUnfinished(s, i, id);
    } else {
      CoherentIds(s);
      KnownAfterWithout(s.workspaces, WorkspaceIndex(s.workspaces, id));
    }
  }

  lemma RemainingAfterOne(s: State, t: State, u: State, id: Id, ops: seq<Op>, op: Op, i: nat)
    requires PendingsDistinct(s.pendings) && Remaining(s, t, id, ops) && PendingsDistinct(t.pendings)
    requires i < |t.pendings| && t.pendings[i].workspace == id && Cancels(op, t.pendings[i])
    requires u.pendings == Without(t.pendings, i)
    requires if Awaited(u.pendings, id) then Unfinished(u, id) else !Known(u.workspaces, id)
    ensures Remaining(s, u, id, ops + [op])
  {
    assert t.pendings[i] in s.pendings;
    CancelledByOne(s.pendings, ops, op, t.pendings[i]);
    WithoutContent(t.pendings, i);
    WithoutOnce(t.pendings, i);
  }

  lemma CancelAttempt(t: State, op: Op, i: nat)
    requires i < |t.pendings| && Cancels(op, t.pendings[i]) && FreshCreation(t.pendings[i])
    requires PendingIndex(t.pendings, op.operation) == i
    ensures Attempt(t, op) == Success(RemovePending(t, i))
  {
    hide RemovePending;
  }

  lemma CancelPresent(t: State, op: Op, i: nat)
    requires Sound(t) && i < |t.pendings| && Cancels(op, t.pendings[i]) && FreshCreation(t.pendings[i])
    ensures Step(t, op) == Success(RemovePending(t, i))
  {
    assert PendingIndex(t.pendings, op.operation) == i;
    hide Step, IsCoherent, RemovePending, StoreBytes;
    CancelAttempt(t, op, i);
    hide Attempt;
    CancelIsCommitted(t, op);
  }

  lemma CancelStep(s: State, t: State, id: Id, ops: seq<Op>, op: Op, p: Pending)
    requires Sound(t) && PendingsDistinct(s.pendings)
    requires Remaining(s, t, id, ops) && p in s.pendings && p.workspace == id && Cancels(op, p)
    ensures var r := Step(t, op);
            Remaining(s, if r.Success? then r.value else t, id, ops + [op])
  {
    hide Step, IsCoherent, RemovePending, StoreBytes;
    WithinDistinct(s.pendings, t.pendings, p);
    if p in t.pendings {
      var i := PendingIndex(t.pendings, p.operation);
      assert Awaited(t.pendings, id);
      CancelOne(t, i, id);
      CancelPresent(t, op, i);
      RemainingAfterOne(s, t, RemovePending(t, i), id, ops, op, i);
    } else {
      CancelledByOne(s.pendings, ops, op, p);
      GoneIsUnchanged(t, op);
    }
  }

  lemma GoneIsUnchanged(t: State, op: Op)
    requires op.OpCancel? && !IsPending(t.pendings, op.operation)
    ensures Step(t, op).Success? ==> Step(t, op).value == t
  {
  }

  lemma WithoutOnce(ps: seq<Pending>, i: nat)
    requires PendingsDistinct(ps) && i < |ps|
    ensures ps[i] !in Without(ps, i)
  {
    var qs := Without(ps, i);
    assert forall j :: 0 <= j < |qs| ==> qs[j] == ps[if j < i then j else j + 1];
  }

  lemma CancelledByOne(ps: seq<Pending>, ops: seq<Op>, op: Op, p: Pending)
    requires PendingsDistinct(ps) && p in ps && Cancels(op, p)
    ensures forall q :: q in ps ==> (Cancelled(ops + [op], q) <==> Cancelled(ops, q) || q == p)
  {
    forall q | q in ps
      ensures Cancelled(ops + [op], q) <==> Cancelled(ops, q) || q == p
    {
      var a :| 0 <= a < |ps| && ps[a] == q;
      var b :| 0 <= b < |ps| && ps[b] == p;
      assert (ops + [op])[|ops|] == op;
      if Cancelled(ops, q) {
        var n :| 0 <= n < |ops| && Cancels(ops[n], q);
        assert (ops + [op])[n] == ops[n];
      }
    }
  }

  lemma NothingCancelled(s: State, id: Id)
    requires Unfinished(s, id)
    ensures Remaining(s, Run(s, []), id, [])
  {
  }

  lemma CancellingOneMore(s: State, ops: seq<Op>, op: Op, id: Id)
    requires Sound(s) && Remaining(s, Run(s, ops), id, ops) && CancelsOne(op, s.pendings, id)
    ensures Remaining(s, Run(s, ops + [op]), id, ops + [op])
  {
    var p :| p in s.pendings && p.workspace == id && Cancels(op, p);
    RunKeepsSound(s, ops);
    CancelStep(s, Run(s, ops), id, ops, op, p);
    RunLast(s, ops, op);
  }

  lemma {:induction false} CancellingRemains(s: State, ops: seq<Op>, id: Id)
    requires Sound(s) && Unfinished(s, id) && CancelsOnly(ops, s.pendings, id)
    ensures Remaining(s, Run(s, ops), id, ops)
  {
    hide Step;
    hide Sound;
    hide Remaining;
    hide Unfinished;
    hide Run;
    if ops == [] {
      NothingCancelled(s, id);
    } else {
      var init, op := ops[..|ops| - 1], ops[|ops| - 1];
      assert ops == init + [op];
      CancellingRemains(s, init, id);
      CancellingOneMore(s, init, op, id);
    }
  }

  /** Cancelling every operation of an unfinished creation, in any order, removes
      the Workspace and leaves nothing pending on it. */
  lemma CancellingAllRemoves(s: State, ops: seq<Op>, id: Id)
    requires Sound(s) && Unfinished(s, id)
    requires CancelsOnly(ops, s.pendings, id)
    requires forall p :: p in s.pendings && p.workspace == id ==> Cancelled(ops, p)
    ensures !Known(Run(s, ops).workspaces, id) && !Awaited(Run(s, ops).pendings, id)
  {
    hide Run, Sound, CancelsOnly;
    CancellingRemains(s, ops, id);
    var t := Run(s, ops);
    assert forall i :: 0 <= i < |t.pendings| ==> t.pendings[i] in t.pendings;
  }
}
