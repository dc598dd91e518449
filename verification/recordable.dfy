/** Exactly when a prepared operation can always be recorded, and exactly which calls
    keep every prepared operation so. */
module Recordable {
  import opened Basics
  import opened StoreTypes
  import opened Placements
  import opened StoreOps
  import opened StoreInvariant
  import opened Eviction
  import opened Projection
  import opened StoreSteps
  import opened Capacity
  import opened Completion
  import opened Lifecycle
  import opened Revisions

  // ---------- the promise to one operation ----------

  function HeaviestOwner(p: Pending): Owner {
    Owner(p.owner, p.ownerName, U64_MAX, p.cwd)
  }

  /** The heaviest answer that fits its request. */
  function HeaviestResult(p: Pending): Resource {
    ShellResult(p.resource, p.owner, 2 * p.requestBytes + COMPLETION_RESERVATION_OVERHEAD - RECORD_OVERHEAD)
  }

  /** What p's record weighs at most, completed on w as it stands. */
  function Need(p: Pending, w: Workspace): nat {
    CompletedBytes(CompletionRecord(p, PlaceTotal(w, PlacementOf(p)), HeaviestResult(p)))
  }

  predicate Recordable(p: Pending, w: Workspace) {
    Need(p, w) <= p.reservation
  }

  /** No new Node can be placed: the revision has nowhere to go. */
  predicate Spent(w: Workspace, node: Id) {
    !HasNode(w.placements, node) && w.revision >= U64_MAX
  }

  /** Some call that should complete operation i is refused for its reservation. */
  ghost predicate MayExceed(s: State, i: nat)
    requires i < |s.pendings|
  {
    exists owner, resource ::
      OwnerMatches(s.pendings[i], owner) && ResultFits(s.pendings[i], resource)
      && CompletePending(s, i, owner, resource) == Failure(ReservationExceeded)
  }

  lemma PushNeverExceeds(s: State, c: Completed)
    ensures PushCompleted(s, c) != Failure(ReservationExceeded)
  {
    EvictCompletedError(s.(completed := s.completed + [c]));
  }

  lemma ExceedsWhen(s: State, i: nat, owner: Owner, resource: Resource)
    requires OwnersPlaced(s.workspaces, s.pendings) && i < |s.pendings|
    requires Known(s.workspaces, s.pendings[i].workspace) && OwnerMatches(s.pendings[i], owner)
    ensures var p := s.pendings[i];
            var w := s.workspaces[WorkspaceIndex(s.workspaces, p.workspace)];
            CompletePending(s, i, owner, resource) == Failure(ReservationExceeded)
            <==> && !OwnerLinkedElsewhere(s.workspaces, p.workspace, p.node, p.owner)
                 && !Spent(w, p.node)
                 && CompletedBytes(CompletionRecord(p, PlaceTotal(w, OwnerPlacement(p.node, owner)), resource))
                    > p.reservation
  {
    hide CompletedBytes, PushCompleted, PlaceTotal;
    var p := s.pendings[i];
    var k := WorkspaceIndex(s.workspaces, p.workspace);
    OwnerAlreadyPlaced(s.workspaces, s.pendings, k, i);
    var v := PlaceTotal(s.workspaces[k], OwnerPlacement(p.node, owner));
    PushNeverExceeds(Settled(s, i, k, v), CompletionRecord(p, v, resource));
  }

  lemma NeedIsMost(p: Pending, w: Workspace, owner: Owner, resource: Resource)
    requires Sorted(w.placements) && OwnerMatches(p, owner) && ResultFits(p, resource)
    ensures CompletedBytes(CompletionRecord(p, PlaceTotal(w, OwnerPlacement(p.node, owner)), resource)) <= Need(p, w)
  {
    OwnerNoHeavier(p, owner);
    PlaceMonotone(w, OwnerPlacement(p.node, owner), PlacementOf(p));
  }

  /** No matching completion of an operation exceeds its reservation if and only if its
      heaviest record, on its Workspace as it stands, fits; or completing is refused
      for another reason first. */
  lemma MayExceedIff(s: State, i: nat)
    requires IsCoherent(s) && i < |s.pendings|
    ensures Known(s.workspaces, s.pendings[i].workspace)
    ensures var p := s.pendings[i];
            var w := s.workspaces[WorkspaceIndex(s.workspaces, p.workspace)];
            MayExceed(s, i)
            <==> !OwnerLinkedElsewhere(s.workspaces, p.workspace, p.node, p.owner) && !Spent(w, p.node)
                 && !Recordable(p, w)
  {
    hide CompletePending, CompletedBytes;
    var p := s.pendings[i];
    var k := WorkspaceIndex(s.workspaces, p.workspace);
    assert Known(s.workspaces, p.workspace);
    var w := s.workspaces[k];
    forall owner, resource | OwnerMatches(p, owner) && ResultFits(p, resource)
      ensures CompletePending(s, i, owner, resource) == Failure(ReservationExceeded) ==>
                !OwnerLinkedElsewhere(s.workspaces, p.workspace, p.node, p.owner) && !Spent(w, p.node)
                && !Recordable(p, w)
    {
      ExceedsWhen(s, i, owner, resource);
      NeedIsMost(p, w, owner, resource);
    }
    assert OwnerMatches(p, HeaviestOwner(p)) && ResultFits(p, HeaviestResult(p));
    assert OwnerPlacement(p.node, HeaviestOwner(p)) == PlacementOf(p);
    ExceedsWhen(s, i, HeaviestOwner(p), HeaviestResult(p));
  }

  // ---------- every operation at once ----------

  predicate AllRecordable(ws: seq<Workspace>, ps: seq<Pending>) {
    forall k, i :: 0 <= k < |ws| && 0 <= i < |ps| && ps[i].workspace == ws[k].id ==> Recordable(ps[i], ws[k])
  }

  function Headroom(p: Pending, w: Workspace): int {
    p.reservation - Need(p, w)
  }

  /** What a record weighs apart from its Workspace. */
  function Fixed(p: Pending): nat {
    300 + OptionalFingerprintBytes(p.semantic) + BoolBytes(p.createsWorkspace) + ResourceBytes(HeaviestResult(p))
  }

  lemma NeedIs(p: Pending, w: Workspace)
    ensures Need(p, w) == Fixed(p) + WorkspaceBytes(PlaceTotal(w, PlacementOf(p)))
  {
  }

  lemma SameNeed(p: Pending, q: Pending, w: Workspace)
    requires q == p.(reservation := q.reservation, attempted := q.attempted)
    ensures Need(q, w) == Need(p, w)
  {
    NeedIs(p, w);
    NeedIs(q, w);
  }

  lemma ReidentifiedRecordable(ws: seq<Workspace>, ps: seq<Pending>, qs: seq<Pending>)
    requires AllRecordable(ws, ps) && SameIdentities(ps, qs)
    requires forall i :: 0 <= i < |ps| ==> qs[i].reservation >= ps[i].reservation
    ensures AllRecordable(ws, qs)
  {
    hide Need;
    forall k, i | 0 <= k < |ws| && 0 <= i < |qs| && qs[i].workspace == ws[k].id
      ensures Recordable(qs[i], ws[k])
    {
      assert Recordable(ps[i], ws[k]);
      SameNeed(ps[i], qs[i], ws[k]);
    }
  }

  lemma WithoutRecordable(ws: seq<Workspace>, ps: seq<Pending>, i: nat)
    requires AllRecordable(ws, ps) && i < |ps|
    ensures AllRecordable(ws, Without(ps, i))
  {
    hide Recordable;
  }

  lemma FewerRecordable(ws: seq<Workspace>, ps: seq<Pending>, k: nat)
    requires AllRecordable(ws, ps) && k < |ws|
    ensures AllRecordable(Without(ws, k), ps)
  {
    hide Recordable;
  }

  lemma AddedRecordable(ws: seq<Workspace>, ps: seq<Pending>, w: Workspace)
    requires AllRecordable(ws, ps) && !Known(ws, w.id) && forall i :: 0 <= i < |ps| ==> Known(ws, ps[i].workspace)
    ensures AllRecordable(ws + [w], ps)
  {
    hide Recordable;
    var vs := ws + [w];
    forall k, i | 0 <= k < |vs| && 0 <= i < |ps| && ps[i].workspace == vs[k].id
      ensures Recordable(ps[i], vs[k])
    {
      assert k < |ws|;
      assert Recordable(ps[i], ws[k]);
    }
  }

  /** Exactly what a change of one Workspace may add. */
  ghost predicate WithinHeadroom(w: Workspace, v: Workspace, ps: seq<Pending>) {
    forall i :: 0 <= i < |ps| && ps[i].workspace == w.id ==>
      WorkspaceBytes(PlaceTotal(v, PlacementOf(ps[i]))) - WorkspaceBytes(PlaceTotal(w, PlacementOf(ps[i])))
      <= Headroom(ps[i], w)
  }

  lemma UpdateKeepsRecordableIff(ws: seq<Workspace>, ps: seq<Pending>, k: nat, v: Workspace)
    requires IdsDistinct(ws) && AllRecordable(ws, ps) && k < |ws| && v.id == ws[k].id
    ensures AllRecordable(ws[k := v], ps) <==> WithinHeadroom(ws[k], v, ps)
  {
    hide Need, WorkspaceBytes, PlaceTotal;
    var vs := ws[k := v];
    forall i | 0 <= i < |ps| && ps[i].workspace == v.id
      ensures Recordable(ps[i], v)
              <==> WorkspaceBytes(PlaceTotal(v, PlacementOf(ps[i])))
                   - WorkspaceBytes(PlaceTotal(ws[k], PlacementOf(ps[i]))) <= Headroom(ps[i], ws[k])
    {
      NeedIs(ps[i], v);
      NeedIs(ps[i], ws[k]);
    }
    if WithinHeadroom(ws[k], v, ps) {
      forall n, i | 0 <= n < |vs| && 0 <= i < |ps| && ps[i].workspace == vs[n].id
        ensures Recordable(ps[i], vs[n])
      {
        assert n != k ==> Recordable(ps[i], ws[n]);
      }
    }
    if AllRecordable(vs, ps) {
      forall i | 0 <= i < |ps| && ps[i].workspace == v.id
        ensures Recordable(ps[i], v)
      {
        assert vs[k] == v;
      }
    }
  }

  lemma UnusedRecordable(ws: seq<Workspace>, ps: seq<Pending>, k: nat, v: Workspace)
    requires AllRecordable(ws, ps) && k < |ws| && v.id == ws[k].id
    requires forall i :: 0 <= i < |ps| ==> ps[i].workspace != v.id
    ensures AllRecordable(ws[k := v], ps)
  {
    hide Recordable;
  }

  // ---------- a new preparation ----------

  /** What is left of the record's own allowance. */
  function Spare(p: Pending): nat {
    71 - OptionalFingerprintBytes(p.semantic) - BoolBytes(p.createsWorkspace)
  }

  /** The Workspace with p placed on it as it stands does not outweigh twice its
      projection with p: earlier operations have not promised to make it much lighter. */
  predicate NotOutweighed(w: Workspace, ps: seq<Pending>, p: Pending) {
    WorkspaceBytes(PlaceTotal(w, PlacementOf(p)))
    <= 2 * WorkspaceBytes(PlaceTotal(ProjectTotal(w, ps), PlacementOf(p))) + Spare(p)
  }

  lemma ReservedRecordableIff(ps: seq<Pending>, w: Workspace, p: Pending)
    requires Reserve(ps, w, p).Success? && p.workspace == w.id
    ensures |Reserve(ps, w, p).value| == |ps| + 1
    ensures Recordable(Reserve(ps, w, p).value[|ps|], w) <==> NotOutweighed(w, ps, p)
  {
    hide Reserve, WorkspaceBytes, PlaceTotal, ProjectTotal, Need;
    ReserveMeaning(ps, w, p);
    ReserveReveals(ps, w, p);
    var q := Reserve(ps, w, p).value[|ps|];
    SameNeed(p, q, w);
    NeedIs(p, w);
  }

  /** Reserving keeps every operation recordable if and only if the new one is not outweighed. */
  lemma ReserveKeepsRecordableIff(ws: seq<Workspace>, ps: seq<Pending>, k: nat, p: Pending)
    requires IdsDistinct(ws) && AllRecordable(ws, ps) && k < |ws| && p.workspace == ws[k].id
    requires Reserve(ps, ws[k], p).Success?
    ensures AllRecordable(ws, Reserve(ps, ws[k], p).value) <==> NotOutweighed(ws[k], ps, p)
  {
    hide Reserve, Recordable, NotOutweighed;
    var qs := Reserve(ps, ws[k], p).value;
    ReserveMeaning(ps, ws[k], p);
    ReservedRecordableIff(ps, ws[k], p);
    ReidentifiedRecordable(ws, ps, qs[..|ps|]);
    if NotOutweighed(ws[k], ps, p) {
      forall n, i | 0 <= n < |ws| && 0 <= i < |qs| && qs[i].workspace == ws[n].id
        ensures Recordable(qs[i], ws[n])
      {
        if i < |ps| {
          assert qs[i] == qs[..|ps|][i];
        } else {
          assert n == k;
        }
      }
    }
    if AllRecordable(ws, qs) {
      assert Recordable(qs[|ps|], ws[k]);
    }
  }

  /** Where no earlier operation shrinks anything, the new one always fits, even when it
      is itself lighter than the placement it overwrites. */
  lemma FirstShrinkingFits(w: Workspace, ps: seq<Pending>, p: Pending)
    requires Sorted(w.placements) && OwnersAgree(ps + [p]) && NoneShrinks(w, ps) && p.workspace == w.id
    ensures NotOutweighed(w, ps, p)
  {
    var qs, x := ps + [p], PlacementOf(p);
    var v := PlaceTotal(w, x);
    assert qs[..|ps|] == ps && qs[|ps|] == p;
    ProjectFirst(w, qs, |ps|);
    PlaceAtMeaning(w.placements, x);
    forall q | q in qs && q.workspace == v.id
      ensures Grows(v, PlacementOf(q))
    {
      if q.node == x.node {
        assert p in qs;
        OneTargetOnePlacement(qs, q, p);
      } else {
        assert q in ps;
        assert Grows(w, PlacementOf(q));
      }
    }
    ProjectionGrows(v, qs);
  }

  // ---------- another operation's completion ----------

  function Overwritten(w: Workspace, node: Id): nat {
    var l := PlacementIndex(w.placements, node);
    if l < |w.placements| then PlacementBytes(w.placements[l]) else 0
  }

  /** What x adds to w once y is placed: its weight, less what it overwrites, and the
      revision's digits. */
  function Increase(w: Workspace, x: Placement, y: Placement): int {
    PlacementBytes(x) - Overwritten(w, x.node)
    + Digits(PlaceTotal(PlaceTotal(w, x), y).revision) - Digits(PlaceTotal(w, y).revision)
  }

  lemma OnePlacement(pl: seq<Placement>, y: Placement)
    requires Sorted(pl) && y in pl
    ensures HasNode(pl, y.node) && pl[PlacementIndex(pl, y.node)] == y
  {
    var i :| 0 <= i < |pl| && pl[i] == y;
    var l := PlacementIndex(pl, y.node);
    assert !(pl[l].node < pl[i].node) && l <= i;
  }

  lemma OverwrittenApart(w: Workspace, x: Placement, node: Id)
    requires Sorted(w.placements) && x.node != node
    ensures Overwritten(PlaceTotal(w, x), node) == Overwritten(w, node)
  {
    hide PlaceAt, PlacementBytes, Sorted;
    PlaceAtMeaning(w.placements, x);
    var pl, ql := w.placements, PlaceAt(w.placements, x);
    HasNodeMeaning(pl, node);
    HasNodeMeaning(ql, node);
    if HasNode(pl, node) {
      OnePlacement(ql, pl[PlacementIndex(pl, node)]);
    }
  }

  lemma IncreaseIs(w: Workspace, x: Placement, y: Placement)
    requires Sorted(w.placements) && x.node != y.node
    ensures WorkspaceBytes(PlaceTotal(PlaceTotal(w, x), y)) - WorkspaceBytes(PlaceTotal(w, y)) == Increase(w, x, y)
  {
    PlaceAtMeaning(w.placements, x);
    PlaceBytes(w, x);
    PlaceBytes(w, y);
    PlaceBytes(PlaceTotal(w, x), y);
    OverwrittenApart(w, x, y.node);
  }

  /** Placed twice on one Node, the second placement is all that stays. */
  lemma PlacedTwice(w: Workspace, x: Placement, y: Placement)
    requires Sorted(w.placements) && x.node == y.node
    ensures PlaceTotal(PlaceTotal(w, x), y) == PlaceTotal(w, y)
  {
    PlaceAtMeaning(w.placements, x);
    PlaceAtMeaning(w.placements, y);
    var pl := PlaceAt(w.placements, x);
    PlaceAtMeaning(pl, y);
    SortedExtensional(PlaceAt(pl, y), PlaceAt(w.placements, y));
    HasNodeMeaning(pl, y.node);
    assert x in pl;
  }

  /** What completing operation i with this owner adds stays within the headroom of
      every other operation of the Workspace that is for another Node. */
  ghost predicate LeavesHeadroom(w: Workspace, ps: seq<Pending>, i: nat, x: Placement)
    requires i < |ps|
  {
    forall j :: 0 <= j < |ps| && j != i && ps[j].workspace == w.id && ps[j].node != x.node ==>
      Increase(w, x, PlacementOf(ps[j])) <= Headroom(ps[j], w)
  }

  lemma SettledRecordableIff(ws: seq<Workspace>, ps: seq<Pending>, k: nat, i: nat, x: Placement)
    requires IdsDistinct(ws) && AllRecordable(ws, ps) && k < |ws| && i < |ps|
    requires Sorted(ws[k].placements) && x.node == ps[i].node
    ensures AllRecordable(ws[k := PlaceTotal(ws[k], x)], Without(ps, i)) <==> LeavesHeadroom(ws[k], ps, i, x)
  {
    hide Need, WorkspaceBytes, PlaceTotal, Increase, AllRecordable;
    var w, qs := ws[k], Without(ps, i);
    var v := PlaceTotal(w, x);
    PlacedId(w, x);
    WithoutRecordable(ws, ps, i);
    UpdateKeepsRecordableIff(ws, qs, k, v);
    forall j | 0 <= j < |ps| && ps[j].workspace == w.id
      ensures var y := PlacementOf(ps[j]);
              WorkspaceBytes(PlaceTotal(v, y)) - WorkspaceBytes(PlaceTotal(w, y))
              == if ps[j].node == x.node then 0 else Increase(w, x, y)
      ensures Headroom(ps[j], w) >= 0
    {
      var y := PlacementOf(ps[j]);
      if ps[j].node == x.node {
        PlacedTwice(w, x, y);
      } else {
        IncreaseIs(w, x, y);
      }
      RecordableAt(ws, ps, k, j);
    }
    if WithinHeadroom(w, v, qs) {
      forall j | 0 <= j < |ps| && j != i && ps[j].workspace == w.id && ps[j].node != x.node
        ensures Increase(w, x, PlacementOf(ps[j])) <= Headroom(ps[j], w)
      {
        assert qs[if j < i then j else j - 1] == ps[j];
      }
    }
    if LeavesHeadroom(w, ps, i, x) {
      forall n | 0 <= n < |qs| && qs[n].workspace == w.id
        ensures WorkspaceBytes(PlaceTotal(v, PlacementOf(qs[n]))) - WorkspaceBytes(PlaceTotal(w, PlacementOf(qs[n])))
                <= Headroom(qs[n], w)
      {
        assert qs[n] == ps[if n < i then n else n + 1];
      }
    }
  }

  lemma PlacedId(w: Workspace, x: Placement)
    ensures PlaceTotal(w, x).id == w.id
  {
  }

  lemma RecordableAt(ws: seq<Workspace>, ps: seq<Pending>, k: nat, j: nat)
    requires AllRecordable(ws, ps) && k < |ws| && j < |ps| && ps[j].workspace == ws[k].id
    ensures Headroom(ps[j], ws[k]) >= 0
  {
    assert Recordable(ps[j], ws[k]);
  }

  // ---------- a directory change ----------

  /** What moving placement l to its new directory adds once y is placed. */
  function Lengthened(w: Workspace, l: nat, cwd: Path, ownerRevision: nat, changed: bool, y: Placement): int
    requires l < |w.placements|
  {
    var v := CwdMoved(w, l, cwd, ownerRevision, changed);
    (if y.node == w.placements[l].node then 0 else PlacementBytes(v.placements[l]) - PlacementBytes(w.placements[l]))
    + Digits(PlaceTotal(v, y).revision) - Digits(PlaceTotal(w, y).revision)
  }

  lemma MovedSorted(w: Workspace, l: nat, cwd: Path, ownerRevision: nat, changed: bool)
    requires Sorted(w.placements) && l < |w.placements|
    ensures var v := CwdMoved(w, l, cwd, ownerRevision, changed);
            && Sorted(v.placements) && v.id == w.id
            && forall node :: PlacementIndex(v.placements, node) == PlacementIndex(w.placements, node)
  {
    var v := CwdMoved(w, l, cwd, ownerRevision, changed);
    forall node
      ensures PlacementIndex(v.placements, node) == PlacementIndex(w.placements, node)
    {
      var a, b := PlacementIndex(w.placements, node), PlacementIndex(v.placements, node);
      assert forall i :: 0 <= i < |w.placements| ==> v.placements[i].node == w.placements[i].node;
    }
  }

  lemma LengthenedIs(w: Workspace, l: nat, cwd: Path, ownerRevision: nat, changed: bool, y: Placement)
    requires Sorted(w.placements) && l < |w.placements|
    ensures WorkspaceBytes(PlaceTotal(CwdMoved(w, l, cwd, ownerRevision, changed), y))
            - WorkspaceBytes(PlaceTotal(w, y))
            == Lengthened(w, l, cwd, ownerRevision, changed, y)
  {
    var v := CwdMoved(w, l, cwd, ownerRevision, changed);
    MovedSorted(w, l, cwd, ownerRevision, changed);
    PlaceBytes(v, y);
    PlaceBytes(w, y);
    SumByUpdate(w.placements, l, v.placements[l], PlacementBytes);
    var i := PlacementIndex(w.placements, y.node);
    if i < |w.placements| && i != l {
      assert v.placements[i] == w.placements[i];
      assert w.placements[l].node != y.node;
    }
  }

  /** What the change adds stays within the headroom of every operation of the Workspace. */
  ghost predicate LeavesRoomToMove(w: Workspace, ps: seq<Pending>, l: nat, cwd: Path, ownerRevision: nat, changed: bool)
    requires l < |w.placements|
  {
    forall j :: 0 <= j < |ps| && ps[j].workspace == w.id ==>
      Lengthened(w, l, cwd, ownerRevision, changed, PlacementOf(ps[j])) <= Headroom(ps[j], w)
  }

  lemma MovedRecordableIff(ws: seq<Workspace>, ps: seq<Pending>, k: nat, l: nat, cwd: Path, ownerRevision: nat,
                           changed: bool)
    requires IdsDistinct(ws) && AllRecordable(ws, ps) && k < |ws|
    requires Sorted(ws[k].placements) && l < |ws[k].placements|
    ensures AllRecordable(ws[k := CwdMoved(ws[k], l, cwd, ownerRevision, changed)], ps)
            <==> LeavesRoomToMove(ws[k], ps, l, cwd, ownerRevision, changed)
  {
    hide Need, WorkspaceBytes, PlaceTotal, Lengthened, AllRecordable, CwdMoved, Headroom;
    var w := ws[k];
    var v := CwdMoved(w, l, cwd, ownerRevision, changed);
    MovedSorted(w, l, cwd, ownerRevision, changed);
    UpdateKeepsRecordableIff(ws, ps, k, v);
    forall j | 0 <= j < |ps| && ps[j].workspace == w.id
      ensures WorkspaceBytes(PlaceTotal(v, PlacementOf(ps[j]))) - WorkspaceBytes(PlaceTotal(w, PlacementOf(ps[j])))
              == Lengthened(w, l, cwd, ownerRevision, changed, PlacementOf(ps[j]))
    {
      LengthenedIs(w, l, cwd, ownerRevision, changed, PlacementOf(ps[j]));
    }
  }

  // ---------- call by call ----------

  /** A ready state is recordable; the converse fails, as a lighter operation shows. */
  lemma ReadyIsRecordable(ws: seq<Workspace>, ps: seq<Pending>)
    requires PlacementsSorted(ws) && OwnersAgree(ps) && Ready(ws, ps)
    ensures AllRecordable(ws, ps)
  {
    hide WorkspaceBytes, PlaceTotal, ProjectTotal, Need;
    forall k, i | 0 <= k < |ws| && 0 <= i < |ps| && ps[i].workspace == ws[k].id
      ensures Recordable(ps[i], ws[k])
    {
      assert Covers(ps[i], ws[k], ps) && NoneShrinks(ws[k], ps);
      CompletionWithinProjection(ws[k], ps, i, PlacementOf(ps[i]));
      NeedIs(ps[i], ws[k]);
    }
  }

  /** What a call must satisfy, seen from the state it is made in. */
  ghost predicate StaysRecordable(s: State, op: Op) {
    match op
    case OpPrepareResource(r, attempt) => PreparesRecordable(s, r, attempt)
    case OpPrepareShell(r) => JoinsRecordable(s, r)
    case OpComplete(o, f, owner, resource) => CompletesRecordable(s, o, owner)
    case OpCompleteCwd(r, owner) => MovesRecordable(s, r, owner)
    case _ => true
  }

  predicate PreparesRecordable(s: State, r: ResourceRequest, attempt: bool) {
    var k := WorkspaceIndex(s.workspaces, r.workspace);
    !IsCompleted(s.completed, r.operation) && !IsPending(s.pendings, r.operation) && k < |s.workspaces| ==>
      NotOutweighed(s.workspaces[k], s.pendings, NewPending(s.pendings, s.workspaces[k], r, attempt))
  }

  predicate JoinsRecordable(s: State, r: ShellRequest) {
    var n := NameIndex(s.workspaces, r.name);
    !IsCompleted(s.completed, r.operation) && !IsPending(s.pendings, r.operation) && n < |s.workspaces| ==>
      var w := s.workspaces[n];
      var e := AliasIndex(s.pendings, w.id, r.semantic);
      ReplayIndex(s.completed, w.id, r.semantic) == |s.completed| && e < |s.pendings| ==>
        NotOutweighed(w, s.pendings, NewAlias(s.pendings[e], r))
  }

  ghost predicate CompletesRecordable(s: State, operation: Id, owner: Owner) {
    var i := PendingIndex(s.pendings, operation);
    i < |s.pendings| ==>
      var k := WorkspaceIndex(s.workspaces, s.pendings[i].workspace);
      k < |s.workspaces| ==>
        LeavesHeadroom(s.workspaces[k], s.pendings, i, OwnerPlacement(s.pendings[i].node, owner))
  }

  ghost predicate MovesRecordable(s: State, r: PendingCwd, owner: Owner) {
    var d := CwdIndex(s.pendingCwd, r.operation);
    CompletedCwdIndex(s.completedCwd, r.operation) == |s.completedCwd| && d < |s.pendingCwd| ==>
      var pending := s.pendingCwd[d];
      var k := WorkspaceIndex(s.workspaces, pending.workspace);
      k < |s.workspaces| ==>
        var w := s.workspaces[k];
        var l := PairIndex(w.placements, pending.node, pending.owner);
        l < |w.placements| ==>
          LeavesRoomToMove(w, s.pendings, l, pending.cwd, owner.revision,
                           owner.revision == pending.expectedOwnerRevision + 1)
  }

  predicate IsRecordable(s: State) {
    AllRecordable(s.workspaces, s.pendings)
  }

  lemma PrepareKeepsRecordableIff(s: State, r: ResourceRequest, attempt: bool)
    requires IsCoherent(s) && IsRecordable(s) && PrepareResource(s, r, attempt).Success?
    ensures IsRecordable(PrepareResource(s, r, attempt).value.0) <==> PreparesRecordable(s, r, attempt)
  {
    hide AllRecordable, NotOutweighed, Reserve, Compact, NewPending;
    if IsCompleted(s.completed, r.operation) {
    } else if IsPending(s.pendings, r.operation) {
      RepeatedPrepareReveals(s, r, attempt);
      ReidentifiedRecordable(s.workspaces, s.pendings, PrepareResource(s, r, attempt).value.0.pendings);
    } else {
      NewResourceReveals(s, r, attempt);
      var k := WorkspaceIndex(s.workspaces, r.workspace);
      NewPendingWorkspace(s.pendings, s.workspaces[k], r, attempt);
      ReserveKeepsRecordableIff(s.workspaces, s.pendings, k, NewPending(s.pendings, s.workspaces[k], r, attempt));
    }
  }

  lemma NewPendingWorkspace(ps: seq<Pending>, w: Workspace, r: ResourceRequest, attempt: bool)
    ensures NewPending(ps, w, r, attempt).workspace == r.workspace
  {
  }

  lemma CreationFits(s: State, r: ShellRequest)
    requires IsCoherent(s) && IsRecordable(s) && !Known(s.workspaces, r.workspace)
    requires Reserve(s.pendings, NewWorkspace(r.workspace, r.name), NewCreation(r)).Success?
    ensures AllRecordable(s.workspaces + [NewWorkspace(r.workspace, r.name)],
                          Reserve(s.pendings, NewWorkspace(r.workspace, r.name), NewCreation(r)).value)
  {
    hide AllRecordable, NotOutweighed, Reserve;
    var w, p := NewWorkspace(r.workspace, r.name), NewCreation(r);
    CoherentNewWorkspace(s.workspaces, s.pendings, s.pendingCwd, w);
    AddedRecordable(s.workspaces, s.pendings, w);
    UntargetedNoneShrinks(w, s.pendings);
    assert OwnersAgree(s.pendings + [p]);
    FirstShrinkingFits(w, s.pendings, p);
    ReserveKeepsRecordableIff(s.workspaces + [w], s.pendings, |s.workspaces|, p);
  }

  /** Creating a Workspace always fits; joining its creation fits under the same condition
      as any preparation. */
  lemma ShellKeepsRecordableIff(s: State, r: ShellRequest)
    requires IsCoherent(s) && IsRecordable(s) && PrepareWorkspaceShell(s, r).Success?
    ensures IsRecordable(PrepareWorkspaceShell(s, r).value.0) <==> JoinsRecordable(s, r)
  {
    hide AllRecordable, NotOutweighed, Reserve, IsCoherent, NewAlias, NewCreation, PrepareNamed, PrepareFresh;
    ShellReveals(s, r);
    var n := NameIndex(s.workspaces, r.name);
    if IsCompleted(s.completed, r.operation) || IsPending(s.pendings, r.operation) {
    } else if n < |s.workspaces| {
      var w := s.workspaces[n];
      var e := AliasIndex(s.pendings, w.id, r.semantic);
      NamedReserves(s, w, r);
      if ReplayIndex(s.completed, w.id, r.semantic) == |s.completed| {
        AliasKeepsRecordableIff(s, n, e, r);
      }
    } else {
      FreshReserves(s, r);
      CreationFits(s, r);
    }
  }

  /** A creation is replayed without touching the pending ledger, or joined by one more operation. */
  lemma NamedReserves(s: State, w: Workspace, r: ShellRequest)
    requires PrepareNamed(s, w, r).Success?
    ensures PrepareNamed(s, w, r).value.0.pendings == s.pendings
            <==> ReplayIndex(s.completed, w.id, r.semantic) < |s.completed|
    ensures ReplayIndex(s.completed, w.id, r.semantic) == |s.completed| ==>
              AliasIndex(s.pendings, w.id, r.semantic) < |s.pendings|
  {
    hide Reserve, Compact, PushCompleted;
    var c := ReplayIndex(s.completed, w.id, r.semantic);
    if c < |s.completed| {
      PushCompletedMeaning(s, s.completed[c].(operation := r.operation, fingerprint := r.fingerprint));
    } else {
      var p := NewAlias(s.pendings[AliasIndex(s.pendings, w.id, r.semantic)], r);
      ReserveMeaning(s.pendings, w, p);
      CompactKeeps(s.(pendings := Reserve(s.pendings, w, p).value));
    }
  }

  lemma FreshReserves(s: State, r: ShellRequest)
    requires PrepareFresh(s, r).Success?
    ensures PrepareFresh(s, r).value.0.pendings != s.pendings
  {
    var w := NewWorkspace(r.workspace, r.name);
    ReserveMeaning(s.pendings, w, NewCreation(r));
    CompactKeeps(s.(workspaces := s.workspaces + [w],
                    pendings := Reserve(s.pendings, w, NewCreation(r)).value));
  }

  lemma AliasKeepsRecordableIff(s: State, n: nat, e: nat, r: ShellRequest)
    requires IsCoherent(s) && IsRecordable(s) && n < |s.workspaces| && e < |s.pendings|
    requires s.pendings[e].workspace == s.workspaces[n].id
    requires Reserve(s.pendings, s.workspaces[n], NewAlias(s.pendings[e], r)).Success?
    ensures AllRecordable(s.workspaces, Reserve(s.pendings, s.workspaces[n], NewAlias(s.pendings[e], r)).value)
            <==> NotOutweighed(s.workspaces[n], s.pendings, NewAlias(s.pendings[e], r))
  {
    hide AllRecordable, NotOutweighed, Reserve;
    ReserveKeepsRecordableIff(s.workspaces, s.pendings, n, NewAlias(s.pendings[e], r));
  }

  lemma CompleteKeepsRecordableIff(s: State, operation: Id, fingerprint: Fingerprint, owner: Owner,
                                   resource: Resource)
    requires IsCoherent(s) && IsRecordable(s)
    requires CompleteResource(s, operation, fingerprint, owner, resource).Success?
    ensures IsRecordable(CompleteResource(s, operation, fingerprint, owner, resource).value.0)
            <==> CompletesRecordable(s, operation, owner)
  {
    hide AllRecordable, LeavesHeadroom, CompletePending, PlaceTotal;
    var i := PendingIndex(s.pendings, operation);
    if i < |s.pendings| {
      var p := s.pendings[i];
      var k := WorkspaceIndex(s.workspaces, p.workspace);
      CompletionReveals(s, i, owner, resource);
      SettledRecordableIff(s.workspaces, s.pendings, k, i, OwnerPlacement(p.node, owner));
    }
  }

  lemma MoveKeepsRecordableIff(s: State, r: PendingCwd, owner: Owner)
    requires IsCoherent(s) && IsRecordable(s) && CompleteDefaultCwd(s, r, owner).Success?
    ensures IsRecordable(CompleteDefaultCwd(s, r, owner).value.0) <==> MovesRecordable(s, r, owner)
  {
    hide AllRecordable, LeavesRoomToMove, CwdMoved;
    CompleteCwdReveals(s, r, owner);
    if CompletedCwdIndex(s.completedCwd, r.operation) == |s.completedCwd| {
      CwdCompletionMoves(s, r, owner);
      hide CompleteDefaultCwd;
      var pending := s.pendingCwd[CwdIndex(s.pendingCwd, r.operation)];
      var k := WorkspaceIndex(s.workspaces, pending.workspace);
      var l := PairIndex(s.workspaces[k].placements, pending.node, pending.owner);
      MovedRecordableIff(s.workspaces, s.pendings, k, l, pending.cwd, owner.revision,
                         owner.revision == pending.expectedOwnerRevision + 1);
    }
  }

  lemma CancelKeepsRecordable(s: State, op: Op)
    requires IsRecordable(s) && IsCancel(op) && Attempt(s, op).Success?
    ensures IsRecordable(Attempt(s, op).value)
  {
    hide AllRecordable;
    if Attempt(s, op).value != s {
      CancelReveals(s, op);
      var i := PendingIndex(s.pendings, op.operation);
      WithoutRecordable(s.workspaces, s.pendings, i);
      var k := WorkspaceIndex(s.workspaces, s.pendings[i].workspace);
      if k < |s.workspaces| {
        FewerRecordable(s.workspaces, Without(s.pendings, i), k);
      }
    }
  }

  lemma IdleUpdateRecordable(s: State, id: Id, v: Workspace)
    requires IsRecordable(s) && !HasPending(s, id) && Known(s.workspaces, id) && v.id == id
    ensures AllRecordable(s.workspaces[WorkspaceIndex(s.workspaces, id) := v], s.pendings)
  {
    hide AllRecordable;
    UnpendingFromHasPending(s, id);
    UnusedRecordable(s.workspaces, s.pendings, WorkspaceIndex(s.workspaces, id), v);
  }

  lemma AppendedRecordable(s: State, w: Workspace)
    requires IsCoherent(s) && IsRecordable(s) && IdsDistinct(s.workspaces + [w])
    ensures AllRecordable(s.workspaces + [w], s.pendings)
  {
    hide AllRecordable;
    FreshIdUnknown(s.workspaces, w);
    AddedRecordable(s.workspaces, s.pendings, w);
  }

  lemma ConfirmClosedRecordable(s: State, id: Id, node: Id, owner: Id)
    requires IsCoherent(s) && IsRecordable(s) && ConfirmClosed(s, id, node, owner).Success?
    ensures IsRecordable(ConfirmClosed(s, id, node, owner).value.0)
  {
    hide AllRecordable;
    var k := WorkspaceIndex(s.workspaces, id);
    var after := ConfirmClosed(s, id, node, owner).value.1;
    assert Idle(id, s.pendings, s.pendingCwd);
    if after.Some? {
      UnusedRecordable(s.workspaces, s.pendings, k, after.value);
    } else {
      FewerRecordable(s.workspaces, s.pendings, k);
    }
  }

  lemma {:induction false} ImportRecordable(ws: seq<Workspace>, ps: seq<Pending>, node: Id, owners: seq<Owner>)
    requires Shaped(ws, ps) && AllRecordable(ws, ps) && ImportAll(ws, node, owners).Success?
    requires IdsDistinct(ImportAll(ws, node, owners).value)
    ensures AllRecordable(ImportAll(ws, node, owners).value, ps)
    ensures forall id :: Known(ws, id) ==> Known(ImportAll(ws, node, owners).value, id)
  {
    hide AllRecordable;
    if owners != [] {
      var init, owner := owners[..|owners| - 1], owners[|owners| - 1];
      var before := ImportAll(ws, node, init).value;
      var w := Workspace(owner.id, 1, owner.name, false, [OwnerPlacement(node, owner)]);
      assert forall i :: 0 <= i < |before| ==> (before + [w])[i] == before[i];
      ImportRecordable(ws, ps, node, init);
      FreshIdUnknown(before, w);
      AddedRecordable(before, ps, w);
      forall id | Known(before, id)
        ensures Known(before + [w], id)
      {
        assert (before + [w])[WorkspaceIndex(before, id)].id == id;
      }
    }
  }

  lemma GrowingStepRecordable(s: State, op: Op)
    requires IsCoherent(s) && IsRecordable(s) && (op.OpCreate? || op.OpAdopt? || op.OpInitialize?)
    requires Attempt(s, op).Success? && IdsDistinct(Attempt(s, op).value.workspaces)
    ensures IsRecordable(Attempt(s, op).value)
  {
    hide AllRecordable, IsCoherent, IdsDistinct, ImportAll;
    CoherentIsShaped(s);
    hide Shaped;
    match op
    case OpCreate(id, name) => AppendedRecordable(s, Create(s, id, name).value.1);
    case OpAdopt(id, node, owner, expected) => AppendedRecordable(s, Adopt(s, id, node, owner, expected).value.1);
    case OpInitialize(node, owners) =>
      if !s.migrated {
        ImportRecordable(s.workspaces, s.pendings, node, owners);
      }
  }

  lemma QuietStepRecordable(s: State, op: Op)
    requires IsRecordable(s) && (op.OpLink? || op.OpRename? || op.OpBeginClose?) && Attempt(s, op).Success?
    ensures IsRecordable(Attempt(s, op).value)
  {
    hide AllRecordable, HasPending, SortByNode, CloseAll;
    match op
    case OpLink(w, e, node, owner, eo) => IdleUpdateRecordable(s, w, Link(s, w, e, node, owner, eo).value.1);
    case OpRename(w, e, name) => IdleUpdateRecordable(s, w, Rename(s, w, e, name).value.1);
    case OpBeginClose(w, e) => IdleUpdateRecordable(s, w, BeginClose(s, w, e).value.1);
  }

  lemma ClosingStepRecordable(s: State, op: Op)
    requires IsCoherent(s) && IsRecordable(s) && (op.OpConfirmClosed? || op.OpConfirmEmpty?)
    requires Attempt(s, op).Success?
    ensures IsRecordable(Attempt(s, op).value)
  {
    hide AllRecordable, IsCoherent, RetainOthers;
    match op
    case OpConfirmClosed(w, node, owner) => ConfirmClosedRecordable(s, w, node, owner);
    case OpConfirmEmpty(w) => FewerRecordable(s.workspaces, s.pendings, WorkspaceIndex(s.workspaces, w));
  }

  lemma WorkspaceStepRecordable(s: State, op: Op)
    requires IsCoherent(s) && IsRecordable(s) && IsWorkspaceOp(op) && Attempt(s, op).Success?
    requires IdsDistinct(Attempt(s, op).value.workspaces)
    ensures IsRecordable(Attempt(s, op).value)
  {
    hide IsRecordable, IsCoherent, IdsDistinct, Attempt;
    if op.OpCreate? || op.OpAdopt? || op.OpInitialize? {
      GrowingStepRecordable(s, op);
    } else if op.OpLink? || op.OpRename? || op.OpBeginClose? {
      QuietStepRecordable(s, op);
    } else {
      ClosingStepRecordable(s, op);
    }
  }

  lemma MarkKeepsRecordable(s: State, operation: Id, fingerprint: Fingerprint)
    requires IsRecordable(s) && MarkOwnerAttempted(s, operation, fingerprint).Success?
    ensures IsRecordable(MarkOwnerAttempted(s, operation, fingerprint).value.0)
  {
    hide AllRecordable;
    ReidentifiedRecordable(s.workspaces, s.pendings, MarkOwnerAttempted(s, operation, fingerprint).value.0.pendings);
  }

  lemma CwdStepRecordable(s: State, op: Op)
    requires IsRecordable(s) && (op.OpPrepareCwd? || op.OpMarkCwd? || op.OpCancelCwd?) && Attempt(s, op).Success?
    ensures IsRecordable(Attempt(s, op).value)
  {
    hide AllRecordable, Compact;
    if op.OpPrepareCwd? {
      PrepareCwdReveals(s, op.cwdRequest);
    }
  }

  /** Exactly which successful calls keep every prepared operation recordable. */
  lemma StepKeepsRecordableIff(s: State, op: Op)
    requires IsCoherent(s) && IsRecordable(s) && Attempt(s, op).Success?
    requires IdsDistinct(Attempt(s, op).value.workspaces)
    ensures IsRecordable(Attempt(s, op).value) <==> StaysRecordable(s, op)
  {
    hide AllRecordable, IsCoherent, IdsDistinct, PrepareResource, PrepareWorkspaceShell, CompleteResource;
    hide CompleteDefaultCwd, MarkOwnerAttempted, PreparesRecordable, JoinsRecordable, CompletesRecordable;
    hide MovesRecordable;
    if IsWorkspaceOp(op) {
      WorkspaceStepRecordable(s, op);
    } else if IsCancel(op) {
      CancelKeepsRecordable(s, op);
    } else {
      match op
      case OpPrepareResource(r, attempt) => PrepareKeepsRecordableIff(s, r, attempt);
      case OpPrepareShell(r) => ShellKeepsRecordableIff(s, r);
      case OpComplete(o, f, owner, resource) => CompleteKeepsRecordableIff(s, o, f, owner, resource);
      case OpCompleteCwd(r, owner) => MoveKeepsRecordableIff(s, r, owner);
      case OpMark(o, f) => MarkKeepsRecordable(s, o, f);
      case _ => CwdStepRecordable(s, op);
    }
  }

  // ---------- over runs ----------

  /** Every successful call of the run stays recordable. */
  ghost predicate EachStays(ops: seq<Op>) {
    ops != [] ==>
      var init, op := ops[..|ops| - 1], ops[|ops| - 1];
      EachStays(init) && (Step(Run(EMPTY, init), op).Success? ==> StaysRecordable(Run(EMPTY, init), op))
  }

  /** Every state the run passes through is recordable. */
  ghost predicate AlwaysRecordable(ops: seq<Op>) {
    forall n :: 0 <= n <= |ops| ==> IsRecordable(Run(EMPTY, ops[..n]))
  }

  lemma AlwaysLast(ops: seq<Op>)
    requires ops != []
    ensures AlwaysRecordable(ops) <==> AlwaysRecordable(ops[..|ops| - 1]) && IsRecordable(Run(EMPTY, ops))
  {
    hide Run, IsRecordable;
    var init := ops[..|ops| - 1];
    assert ops[..|ops|] == ops && init[..|init|] == init;
    assert forall n :: 0 <= n <= |init| ==> ops[..n] == init[..n];
  }

  /** Over any run from the empty store, every prepared operation is recordable in every
      state passed through if and only if every successful call satisfies its condition. */
  lemma {:induction false} RunsRecordableIff(ops: seq<Op>)
    ensures AlwaysRecordable(ops) <==> EachStays(ops)
  {
    hide Step, StaysRecordable, Sound;
    if ops == [] {
      assert ops[..0] == [] && IsRecordable(Run(EMPTY, []));
    } else {
      hide Run, IsRecordable;
      var init := ops[..|ops| - 1];
      RunsRecordableIff(init);
      AlwaysLast(ops);
      if AlwaysRecordable(init) {
        EveryRunIsSound(init);
        assert init[..|init|] == init;
        LastStaysRecordable(ops);
      }
    }
  }

  lemma LastStaysRecordable(ops: seq<Op>)
    requires ops != [] && Sound(Run(EMPTY, ops[..|ops| - 1])) && IsRecordable(Run(EMPTY, ops[..|ops| - 1]))
    ensures var init, op := ops[..|ops| - 1], ops[|ops| - 1];
            IsRecordable(Run(EMPTY, ops))
            <==> (Step(Run(EMPTY, init), op).Success? ==> StaysRecordable(Run(EMPTY, init), op))
  {
    hide IsRecordable, StaysRecordable, IsCoherent, Attempt;
    var s, op := Run(EMPTY, ops[..|ops| - 1]), ops[|ops| - 1];
    if Step(s, op).Success? {
      StepKeepsRecordableIff(s, op);
    }
  }

  /** On such a run no matching completion, with any answer that fits its request, exceeds
      its reservation. */
  lemma RecordableNeverExceeds(s: State, i: nat)
    requires IsCoherent(s) && IsRecordable(s) && i < |s.pendings|
    ensures !MayExceed(s, i)
  {
    hide MayExceed;
    MayExceedIff(s, i);
    assert Recordable(s.pendings[i], s.workspaces[WorkspaceIndex(s.workspaces, s.pendings[i].workspace)]);
  }

  /** Where it is recordable, an operation completes with a matching owner and a result that
      fits its request if and only if it is still completable. */
  lemma RecordableCompletesIff(s: State, i: nat, owner: Owner, resource: Resource)
    requires Sound(s) && IsRecordable(s) && i < |s.pendings|
    requires OwnerMatches(s.pendings[i], owner) && ResultFits(s.pendings[i], resource)
    ensures Known(s.workspaces, s.pendings[i].workspace)
    ensures Step(s, OpComplete(s.pendings[i].operation, s.pendings[i].fingerprint, owner, resource)).Success?
            <==> Completable(s, i, owner, resource)
  {
    hide Step, Completable, Need, CompletedBytes, PlaceTotal;
    CompletesIff(s, i, owner, resource);
    var w := s.workspaces[WorkspaceIndex(s.workspaces, s.pendings[i].workspace)];
    assert Recordable(s.pendings[i], w) && Sorted(w.placements);
    NeedIsMost(s.pendings[i], w, owner, resource);
  }
}
