/** Facts about Workspaces and prepared operations that `validate` does not check
    and every operation keeps. */
module StoreInvariant {
  import opened Basics
  import opened StoreTypes
  import opened Placements
  import opened StoreOps

  predicate PlacementsSorted(ws: seq<Workspace>) {
    forall k :: 0 <= k < |ws| ==> Sorted(ws[k].placements)
  }

  predicate SameTarget(p: Pending, q: Pending) {
    p.workspace == q.workspace && p.node == q.node
  }

  predicate SameOwner(p: Pending, q: Pending) {
    p.owner == q.owner && p.ownerName == q.ownerName && p.cwd == q.cwd
  }

  /** Operations on one (Workspace, Node) expect one and the same owner record. */
  predicate OwnersAgree(ps: seq<Pending>) {
    forall i, j :: 0 <= i < |ps| && 0 <= j < |ps| && SameTarget(ps[i], ps[j]) ==> SameOwner(ps[i], ps[j])
  }

  predicate OwnerPlaced(w: Workspace, p: Pending) {
    forall l :: l in w.placements && l.node == p.node ==> l.ownerId == p.owner
  }

  /** A placement already on an operation's Node belongs to the owner the operation expects. */
  predicate OwnersPlaced(ws: seq<Workspace>, ps: seq<Pending>) {
    forall k, i :: 0 <= k < |ws| && 0 <= i < |ps| && ps[i].workspace == ws[k].id ==> OwnerPlaced(ws[k], ps[i])
  }

  predicate Idle(id: Id, ps: seq<Pending>, ds: seq<PendingCwd>) {
    && (forall i :: 0 <= i < |ps| ==> ps[i].workspace != id)
    && (forall j :: 0 <= j < |ds| ==> ds[j].workspace != id)
  }

  /** Nothing is pending on a Workspace that is closing. */
  predicate ClosingIdle(ws: seq<Workspace>, ps: seq<Pending>, ds: seq<PendingCwd>) {
    forall k :: 0 <= k < |ws| && ws[k].closing ==> Idle(ws[k].id, ps, ds)
  }

  /** At most one default-directory operation a Workspace. */
  predicate OneCwdEach(ds: seq<PendingCwd>) {
    forall i, j :: 0 <= i < j < |ds| ==> ds[i].workspace != ds[j].workspace
  }

  /** The exact placement of a pending default-directory operation is still there. */
  predicate CwdPlaced(ws: seq<Workspace>, ds: seq<PendingCwd>) {
    forall k, j :: 0 <= k < |ws| && 0 <= j < |ds| && ds[j].workspace == ws[k].id
      ==> PairIn(ws[k].placements, ds[j].node, ds[j].owner)
  }

  predicate SameCreation(p: Pending, q: Pending) {
    p.node == q.node && SameOwner(p, q) && p.resource == q.resource && p.semantic == q.semantic
  }

  predicate CreateTogether(p: Pending, q: Pending) {
    p.createsWorkspace && q.createsWorkspace && p.workspace == q.workspace
  }

  /** All operations that create one Workspace are aliases of one creation. */
  predicate AliasesAgree(ps: seq<Pending>) {
    forall i, j :: 0 <= i < |ps| && 0 <= j < |ps| && CreateTogether(ps[i], ps[j]) ==> SameCreation(ps[i], ps[j])
  }

  /** A Workspace being created carries the name its creation asked for. */
  predicate CreatorsNamed(ws: seq<Workspace>, ps: seq<Pending>) {
    forall k, i :: 0 <= k < |ws| && 0 <= i < |ps| && ps[i].createsWorkspace && ps[i].workspace == ws[k].id
      ==> ps[i].ownerName == ws[k].name
  }

  predicate Homed(ws: seq<Workspace>, ps: seq<Pending>, ds: seq<PendingCwd>) {
    && (forall i :: 0 <= i < |ps| ==> Known(ws, ps[i].workspace))
    && (forall j :: 0 <= j < |ds| ==> Known(ws, ds[j].workspace))
  }

  predicate Coherent(ws: seq<Workspace>, ps: seq<Pending>, ds: seq<PendingCwd>) {
    && IdsDistinct(ws)
    && PlacementsSorted(ws)
    && OwnersAgree(ps)
    && OwnersPlaced(ws, ps)
    && ClosingIdle(ws, ps, ds)
    && OneCwdEach(ds)
    && CwdPlaced(ws, ds)
    && AliasesAgree(ps)
    && CreatorsNamed(ws, ps)
    && Homed(ws, ps, ds)
  }

  predicate IsCoherent(s: State) {
    Coherent(s.workspaces, s.pendings, s.pendingCwd)
  }

  lemma KnownMeaning(ws: seq<Workspace>, id: Id)
    ensures Known(ws, id) <==> exists k :: 0 <= k < |ws| && ws[k].id == id
  {
  }

  lemma HomeOf(ws: seq<Workspace>, k: nat)
    requires IdsDistinct(ws) && k < |ws|
    ensures WorkspaceIndex(ws, ws[k].id) == k
  {
  }

  lemma HasPendingMeaning(s: State, id: Id)
    ensures HasPending(s, id) <==> !Idle(id, s.pendings, s.pendingCwd)
  {
    if !HasPending(s, id) {
      assert forall i :: 0 <= i < |s.pendings| ==> s.pendings[i] in s.pendings;
      assert forall j :: 0 <= j < |s.pendingCwd| ==> s.pendingCwd[j] in s.pendingCwd;
    }
  }

  // ---------- edits of the pending ledger ----------

  /** Same operations; only the reservation and the attempt mark may have moved. */
  predicate SameIdentities(ps: seq<Pending>, qs: seq<Pending>) {
    |ps| == |qs|
    && forall i :: 0 <= i < |ps| ==> qs[i] == ps[i].(reservation := qs[i].reservation, attempted := qs[i].attempted)
  }

  lemma CoherentReidentified(ws: seq<Workspace>, ps: seq<Pending>, qs: seq<Pending>, ds: seq<PendingCwd>)
    requires Coherent(ws, ps, ds) && SameIdentities(ps, qs)
    ensures Coherent(ws, qs, ds)
  {
  }

  /** What an appended operation owes to those already there. */
  predicate Joins(ws: seq<Workspace>, ps: seq<Pending>, k: nat, p: Pending)
    requires k < |ws|
  {
    && p.workspace == ws[k].id
    && !ws[k].closing
    && OwnerPlaced(ws[k], p)
    && (forall i :: 0 <= i < |ps| && SameTarget(ps[i], p) ==> SameOwner(ps[i], p))
    && (p.createsWorkspace ==> p.ownerName == ws[k].name)
    && (forall i :: 0 <= i < |ps| && CreateTogether(ps[i], p) ==> SameCreation(ps[i], p))
  }

  lemma CoherentAppend(ws: seq<Workspace>, ps: seq<Pending>, ds: seq<PendingCwd>, k: nat, p: Pending)
    requires Coherent(ws, ps, ds) && k < |ws| && Joins(ws, ps, k, p)
    ensures Coherent(ws, ps + [p], ds)
  {
  }

  lemma CoherentWithout(ws: seq<Workspace>, ps: seq<Pending>, ds: seq<PendingCwd>, i: nat)
    requires Coherent(ws, ps, ds) && i < |ps|
    ensures Coherent(ws, Without(ps, i), ds)
  {
  }

  // ---------- edits of the Workspace list ----------

  lemma CoherentNewWorkspace(ws: seq<Workspace>, ps: seq<Pending>, ds: seq<PendingCwd>, w: Workspace)
    requires Coherent(ws, ps, ds) && !Known(ws, w.id) && Sorted(w.placements)
    ensures Coherent(ws + [w], ps, ds)
  {
    hide Sorted, OwnerPlaced, SameOwner, SameTarget, SameCreation, CreateTogether, PairIn;
    assert Idle(w.id, ps, ds);
    forall id | Known(ws, id)
      ensures Known(ws + [w], id)
    {
      assert (ws + [w])[WorkspaceIndex(ws, id)].id == id;
    }
  }

  lemma CoherentWithoutWorkspace(ws: seq<Workspace>, ps: seq<Pending>, ds: seq<PendingCwd>, k: nat)
    requires Coherent(ws, ps, ds) && k < |ws| && Idle(ws[k].id, ps, ds)
    ensures Coherent(Without(ws, k), ps, ds)
  {
    forall id | Known(ws, id) && id != ws[k].id
      ensures Known(Without(ws, k), id)
    {
      var n := WorkspaceIndex(ws, id);
      assert Without(ws, k)[if n < k then n else n - 1].id == id;
    }
  }

  lemma KnownAfterUpdate(ws: seq<Workspace>, k: nat, w: Workspace)
    requires k < |ws| && w.id == ws[k].id
    ensures forall id :: Known(ws, id) ==> Known(ws[k := w], id)
  {
    forall id | Known(ws, id)
      ensures Known(ws[k := w], id)
    {
      assert ws[k := w][WorkspaceIndex(ws, id)].id == id;
    }
  }

  /** An idle Workspace may change in any way that keeps its placements sorted. */
  lemma CoherentIdleUpdate(ws: seq<Workspace>, ps: seq<Pending>, ds: seq<PendingCwd>, k: nat, w: Workspace)
    requires Coherent(ws, ps, ds) && k < |ws| && w.id == ws[k].id && Sorted(w.placements)
    requires Idle(w.id, ps, ds)
    ensures Coherent(ws[k := w], ps, ds)
  {
    KnownAfterUpdate(ws, k, w);
  }

  /** A Workspace with work pending may keep its name, its close mark and, for
      each (Node, owner) pair still awaited, that pair. */
  lemma CoherentBusyUpdate(ws: seq<Workspace>, ps: seq<Pending>, ds: seq<PendingCwd>, k: nat, w: Workspace)
    requires Coherent(ws, ps, ds) && k < |ws| && w.id == ws[k].id && Sorted(w.placements)
    requires w.closing == ws[k].closing && w.name == ws[k].name
    requires forall i :: 0 <= i < |ps| && ps[i].workspace == w.id ==> OwnerPlaced(w, ps[i])
    requires forall j :: 0 <= j < |ds| && ds[j].workspace == w.id ==> PairIn(w.placements, ds[j].node, ds[j].owner)
    ensures Coherent(ws[k := w], ps, ds)
  {
    KnownAfterUpdate(ws, k, w);
  }

  // ---------- edits of the default-directory ledger ----------

  lemma CoherentAppendCwd(ws: seq<Workspace>, ps: seq<Pending>, ds: seq<PendingCwd>, k: nat, d: PendingCwd)
    requires Coherent(ws, ps, ds) && k < |ws| && d.workspace == ws[k].id && !ws[k].closing
    requires Idle(d.workspace, ps, ds) && PairIn(ws[k].placements, d.node, d.owner)
    ensures Coherent(ws, ps, ds + [d])
  {
    KnownMeaning(ws, d.workspace);
  }

  lemma CoherentWithoutCwd(ws: seq<Workspace>, ps: seq<Pending>, ds: seq<PendingCwd>, j: nat)
    requires Coherent(ws, ps, ds) && j < |ds|
    ensures Coherent(ws, ps, Without(ds, j))
  {
  }

  lemma CoherentMarkCwd(ws: seq<Workspace>, ps: seq<Pending>, ds: seq<PendingCwd>, j: nat)
    requires Coherent(ws, ps, ds) && j < |ds|
    ensures Coherent(ws, ps, ds[j := ds[j].(attempted := true)])
  {
  }
}
