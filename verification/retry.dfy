/** Repeating a preparation: the request is compared with what was stored, and an
    operation may have been stored with an earlier one's name and directory. */
module Retry {
  import opened Basics
  import opened StoreTypes
  import opened Placements
  import opened StoreOps
  import opened StoreInvariant
  import opened Eviction
  import opened StoreSteps
  import opened Counterexamples

  /** No earlier operation on this Workspace and Node lends a different name or directory. */
  predicate StoredAsAsked(s: State, r: ResourceRequest) {
    var q := PriorIndex(s.pendings, r.workspace, r.node);
    q < |s.pendings| ==> s.pendings[q].ownerName == r.ownerName && s.pendings[q].cwd == r.cwd
  }

  lemma NotAmong<T>(a: seq<T>, b: seq<T>)
    requires IsSuffix(b, a)
    ensures forall x :: x in b ==> x in a
  {
  }

  lemma StillUncompleted(before: seq<Completed>, after: seq<Completed>, operation: Id)
    requires IsSuffix(after, before) && !IsCompleted(before, operation)
    ensures !IsCompleted(after, operation)
  {
    NotAmong(before, after);
  }

  lemma FoundLast(ps: seq<Pending>, qs: seq<Pending>, operation: Id)
    requires |qs| == |ps| + 1 && SameIdentities(ps, qs[..|ps|]) && qs[|ps|].operation == operation
    requires !IsPending(ps, operation)
    ensures PendingIndex(qs, operation) == |ps|
  {
    assert forall i :: 0 <= i < |ps| ==> qs[i] == qs[..|ps|][i] && qs[i].operation == ps[i].operation;
  }

  /** The operation as a successful first preparation stored it. */
  lemma StoredOperation(s: State, r: ResourceRequest, attempt: bool)
    requires PrepareResource(s, r, attempt).Success?
    requires !IsCompleted(s.completed, r.operation) && !IsPending(s.pendings, r.operation)
    ensures var s' := PrepareResource(s, r, attempt).value.0;
            var k := WorkspaceIndex(s.workspaces, r.workspace);
            var n := |s.pendings|;
            && !IsCompleted(s'.completed, r.operation)
            && PendingIndex(s'.pendings, r.operation) == n < |s'.pendings|
            && k < |s.workspaces|
            && s'.pendings[n] == NewPending(s.pendings, s.workspaces[k], r, attempt)
                                 .(reservation := s'.pendings[n].reservation)
  {
    hide Compact, Reserve, StoreBytes;
    NewResourceReveals(s, r, attempt);
    var s' := PrepareResource(s, r, attempt).value.0;
    var w := s.workspaces[WorkspaceIndex(s.workspaces, r.workspace)];
    ReserveMeaning(s.pendings, w, NewPending(s.pendings, w, r, attempt));
    StillUncompleted(s.completed, s'.completed, r.operation);
    FoundLast(s.pendings, s'.pendings, r.operation);
  }

  /** Repeating a prepared request returns the same operation, unless it was stored
      under a name or directory lent by an earlier one: then, and only then, it is
      refused as a conflict with itself. */
  lemma RetryIff(s: State, r: ResourceRequest, attempt: bool, again: bool)
    requires PrepareResource(s, r, attempt).Success?
    requires !IsCompleted(s.completed, r.operation) && !IsPending(s.pendings, r.operation)
    ensures |PrepareResource(s, r, attempt).value.0.pendings| > |s.pendings|
    ensures var s' := PrepareResource(s, r, attempt).value.0;
            var p := s'.pendings[|s.pendings|];
            if StoredAsAsked(s, r) then
              var q := p.(attempted := attempt || again);
              PrepareResource(s', r, again)
              == Success((s'.(pendings := s'.pendings[|s.pendings| := q]), PreparedPending(q, false)))
            else PrepareResource(s', r, again) == Failure(OperationConflict)
  {
    hide PrepareResource, ValidName, SameResourceRequest;
    var s' := PrepareResource(s, r, attempt).value.0;
    StoredOperation(s, r, attempt);
    NameWasValid(s, r, attempt);
    WorkspaceFound(s.workspaces, r.workspace);
    ComparesStored(s, s.workspaces[WorkspaceIndex(s.workspaces, r.workspace)], r, attempt, s'.pendings[|s.pendings|]);
    Repeated(s', r, again, |s.pendings|);
  }

  lemma WorkspaceFound(ws: seq<Workspace>, id: Id)
    ensures WorkspaceIndex(ws, id) < |ws| ==> ws[WorkspaceIndex(ws, id)].id == id
  {
  }

  lemma ComparesStored(s: State, w: Workspace, r: ResourceRequest, attempt: bool, p: Pending)
    requires w.id == r.workspace
    requires p == NewPending(s.pendings, w, r, attempt).(reservation := p.reservation)
    ensures SameResourceRequest(p, r) <==> StoredAsAsked(s, r)
    ensures p.attempted == attempt
  {
  }

  lemma Repeated(s: State, r: ResourceRequest, again: bool, i: nat)
    requires ValidName(r.ownerName) && !IsCompleted(s.completed, r.operation)
    requires PendingIndex(s.pendings, r.operation) == i < |s.pendings|
    ensures PrepareResource(s, r, again)
            == if !SameResourceRequest(s.pendings[i], r) then Failure(OperationConflict)
               else
                 var q := s.pendings[i].(attempted := s.pendings[i].attempted || again);
                 Success((s.(pendings := s.pendings[i := q]), PreparedPending(q, false)))
  {
    hide PrepareNewResource, ValidName, SameResourceRequest;
  }

  lemma NameWasValid(s: State, r: ResourceRequest, attempt: bool)
    requires PrepareResource(s, r, attempt).Success?
    ensures ValidName(r.ownerName)
  {
  }

  /** Joining a creation under way asks for the very Workspace, Node, directory and Shell that it has. */
  predicate AliasAsAsked(s: State, r: ShellRequest) {
    var n := NameIndex(s.workspaces, r.name);
    n < |s.workspaces| ==>
      var e := AliasIndex(s.pendings, s.workspaces[n].id, r.semantic);
      e < |s.pendings| ==>
        && s.workspaces[n].id == r.workspace && s.pendings[e].node == r.node
        && s.pendings[e].cwd == Some(r.cwd) && s.pendings[e].resource == r.shell
  }

  lemma StoredCreation(s: State, r: ShellRequest)
    requires IsCoherent(s) && PrepareWorkspaceShell(s, r).Success? && PrepareWorkspaceShell(s, r).value.1.ShellPending?
    requires !IsCompleted(s.completed, r.operation) && !IsPending(s.pendings, r.operation)
    ensures var s' := PrepareWorkspaceShell(s, r).value.0;
            var n := |s.pendings|;
            && !IsCompleted(s'.completed, r.operation)
            && PendingIndex(s'.pendings, r.operation) == n < |s'.pendings|
            && Known(s'.workspaces, s'.pendings[n].workspace)
            && (SameShellRequest(s'.pendings[n], r) <==> AliasAsAsked(s, r))
  {
    hide Compact, Reserve, StoreBytes, ValidName;
    var k := NameIndex(s.workspaces, r.name);
    if k < |s.workspaces| {
      AliasStored(s, k, r);
    } else {
      FreshStored(s, r);
    }
  }

  lemma AliasStored(s: State, k: nat, r: ShellRequest)
    requires IsCoherent(s) && k < |s.workspaces| && s.workspaces[k].name == r.name
    requires PrepareNamed(s, s.workspaces[k], r).Success? && PrepareNamed(s, s.workspaces[k], r).value.1.ShellPending?
    requires !IsCompleted(s.completed, r.operation) && !IsPending(s.pendings, r.operation)
    ensures var s' := PrepareNamed(s, s.workspaces[k], r).value.0;
            var n := |s.pendings|;
            var e := AliasIndex(s.pendings, s.workspaces[k].id, r.semantic);
            && !IsCompleted(s'.completed, r.operation)
            && PendingIndex(s'.pendings, r.operation) == n < |s'.pendings|
            && s'.workspaces == s.workspaces && Known(s.workspaces, s.workspaces[k].id)
            && e < |s.pendings| && s.pendings[e].ownerName == r.name
            && s'.pendings[n] == NewAlias(s.pendings[e], r).(reservation := s'.pendings[n].reservation)
            && s'.pendings[n].workspace == s.workspaces[k].id
  {
    hide Compact, Reserve, StoreBytes, PushCompleted;
    var w := s.workspaces[k];
    var e := AliasIndex(s.pendings, w.id, r.semantic);
    var ps := Reserve(s.pendings, w, NewAlias(s.pendings[e], r)).value;
    ReserveMeaning(s.pendings, w, NewAlias(s.pendings[e], r));
    CompactKeeps(s.(pendings := ps));
    var s' := PrepareNamed(s, w, r).value.0;
    StillUncompleted(s.completed, s'.completed, r.operation);
    FoundLast(s.pendings, s'.pendings, r.operation);
    HomeOf(s.workspaces, k);
  }

  lemma FreshStored(s: State, r: ShellRequest)
    requires PrepareFresh(s, r).Success?
    requires !IsCompleted(s.completed, r.operation) && !IsPending(s.pendings, r.operation)
    ensures var s' := PrepareFresh(s, r).value.0;
            var n := |s.pendings|;
            && !IsCompleted(s'.completed, r.operation)
            && PendingIndex(s'.pendings, r.operation) == n < |s'.pendings|
            && Known(s'.workspaces, r.workspace)
            && s'.pendings[n] == NewCreation(r).(reservation := s'.pendings[n].reservation)
  {
    hide Compact, Reserve, StoreBytes;
    var w := NewWorkspace(r.workspace, r.name);
    var ps := Reserve(s.pendings, w, NewCreation(r)).value;
    ReserveMeaning(s.pendings, w, NewCreation(r));
    CompactKeeps(s.(workspaces := s.workspaces + [w], pendings := ps));
    var s' := PrepareFresh(s, r).value.0;
    StillUncompleted(s.completed, s'.completed, r.operation);
    FoundLast(s.pendings, s'.pendings, r.operation);
    assert s'.workspaces[|s.workspaces|] == w;
  }

  /** The same for creations: a retry that joined another request's creation is
      refused exactly when that creation differs from what it asks for. */
  lemma RetryShellIff(s: State, r: ShellRequest)
    requires IsCoherent(s) && PrepareWorkspaceShell(s, r).Success? && PrepareWorkspaceShell(s, r).value.1.ShellPending?
    requires !IsCompleted(s.completed, r.operation) && !IsPending(s.pendings, r.operation)
    ensures |PrepareWorkspaceShell(s, r).value.0.pendings| > |s.pendings|
    ensures var s' := PrepareWorkspaceShell(s, r).value.0;
            if AliasAsAsked(s, r) then
              && PrepareWorkspaceShell(s', r).Success?
              && PrepareWorkspaceShell(s', r).value.0 == s'
              && PrepareWorkspaceShell(s', r).value.1.ShellPending?
              && PrepareWorkspaceShell(s', r).value.1.pending == s'.pendings[|s.pendings|]
            else PrepareWorkspaceShell(s', r) == Failure(OperationConflict)
  {
    hide PrepareWorkspaceShell, ValidName, SameShellRequest, AliasAsAsked, IsCoherent;
    StoredCreation(s, r);
    ShellNameWasValid(s, r);
    RepeatedShell(PrepareWorkspaceShell(s, r).value.0, r, |s.pendings|);
  }

  lemma RepeatedShell(s: State, r: ShellRequest, i: nat)
    requires ValidName(r.name) && !IsCompleted(s.completed, r.operation)
    requires PendingIndex(s.pendings, r.operation) == i < |s.pendings| && Known(s.workspaces, s.pendings[i].workspace)
    ensures PrepareWorkspaceShell(s, r)
            == if !SameShellRequest(s.pendings[i], r) then Failure(OperationConflict)
               else
                 var w := s.workspaces[WorkspaceIndex(s.workspaces, s.pendings[i].workspace)];
                 Success((s, ShellPending(w, s.pendings[i])))
  {
    hide PrepareNamed, PrepareFresh, ValidName, SameShellRequest;
  }

  lemma ShellNameWasValid(s: State, r: ShellRequest)
    requires PrepareWorkspaceShell(s, r).Success?
    ensures ValidName(r.name)
  {
  }

  // ---------- a creation answered from the record ----------

  /** A finished creation of the Workspace of that name, for a request of the same meaning. */
  predicate Created(s: State, r: ShellRequest, c: Completed) {
    && c.createsWorkspace && c.semantic == Some(r.semantic)
    && exists w :: w in s.workspaces && w.name == r.name && w.id == c.workspace.id
  }

  /** The record repeats the latest such creation, entry i of the ledger, under another operation. */
  predicate Replays(s: State, r: ShellRequest, record: Completed, i: nat) {
    && i < |s.completed| && Created(s, r, s.completed[i])
    && (forall j :: i < j < |s.completed| && s.completed[j].workspace.id == record.workspace.id
          ==> !Created(s, r, s.completed[j]))
    && record.workspace == s.completed[i].workspace && record.resource == s.completed[i].resource
    && record.semantic == s.completed[i].semantic && record.createsWorkspace
  }

  lemma RecordedLast(cs: seq<Completed>, record: Completed, ds: seq<Completed>)
    requires IsSuffix(ds, cs + [record]) && ds != [] && !IsCompleted(cs, record.operation)
    ensures IsCompleted(ds, record.operation) && ds[CompletedIndex(ds, record.operation)] == record
  {
    assert ds[|ds| - 1] == (cs + [record])[|cs|] == record;
    var j := CompletedIndex(ds, record.operation);
    assert ds[j] == (cs + [record])[|cs| + 1 - |ds| + j];
  }

  lemma NamedReplay(s: State, n: nat, r: ShellRequest)
    requires n < |s.workspaces| && s.workspaces[n].name == r.name && !IsCompleted(s.completed, r.operation)
    requires PrepareNamed(s, s.workspaces[n], r).Success? && PrepareNamed(s, s.workspaces[n], r).value.1.ShellCompleted?
    ensures var (s', answer) := PrepareNamed(s, s.workspaces[n], r).value;
            var record := answer.record;
            && record.operation == r.operation && record.fingerprint == r.fingerprint
            && (exists i :: Replays(s, r, record, i))
            && s' == s.(completed := s'.completed)
            && IsCompleted(s'.completed, r.operation)
            && s'.completed[CompletedIndex(s'.completed, r.operation)] == record
  {
    hide Reserve, Compact, PushCompleted, StoreBytes;
    var w := s.workspaces[n];
    var c := ReplayIndex(s.completed, w.id, r.semantic);
    var record := PrepareNamed(s, w, r).value.1.record;
    assert w in s.workspaces && Replays(s, r, record, c);
    PushCompletedMeaning(s, record);
    RecordedLast(s.completed, record, PrepareNamed(s, w, r).value.0.completed);
  }

  /** Whenever a creation is answered from the record, the record is of this very request, by
      operation and fingerprint; it was there already or repeats, in everything else, the
      latest creation of that name and meaning; nothing but the ledger of completions
      changes, and the same request again is answered by it and changes nothing. */
  lemma ReplayedCreation(s: State, r: ShellRequest)
    requires PrepareWorkspaceShell(s, r).Success? && PrepareWorkspaceShell(s, r).value.1.ShellCompleted?
    ensures var (s', answer) := PrepareWorkspaceShell(s, r).value;
            var record := answer.record;
            && record.operation == r.operation && record.fingerprint == r.fingerprint && record in s'.completed
            && (if IsCompleted(s.completed, r.operation) then record in s.completed && s' == s
                else exists i :: Replays(s, r, record, i))
            && s' == s.(completed := s'.completed)
            && PrepareWorkspaceShell(s', r) == Success((s', answer))
  {
    hide PrepareNamed, PrepareFresh, Replays;
    var n := NameIndex(s.workspaces, r.name);
    var i := CompletedIndex(s.completed, r.operation);
    if i < |s.completed| {
      assert s.completed[i] in s.completed;
    } else {
      FreshIsPending(s, r);
      NamedReplay(s, n, r);
      var s' := PrepareNamed(s, s.workspaces[n], r).value.0;
      assert s'.completed[CompletedIndex(s'.completed, r.operation)] in s'.completed;
    }
  }

  lemma FreshIsPending(s: State, r: ShellRequest)
    ensures PrepareFresh(s, r).Success? ==> PrepareFresh(s, r).value.1.ShellPending?
  {
    hide Reserve, Compact;
  }

  // ---------- a request that conflicts with itself ----------

  const RENAMED: ResourceRequest := ResourceRequest(102, 2, 0, 10, 2, 1, 97, "x", None, 502, Shell)

  const RENAMED_PENDING: Pending :=
    Pending(102, false, 2, None, 0, false, 10, 2, 1, 97, 20, "o", None, 502, Shell, 0)

  function RenamedPending(reservation: nat): Pending {
    RENAMED_PENDING.(reservation := reservation)
  }

  lemma RenamedIs(path: Path, first: nat)
    ensures NewPending([LightPending(first)], Heavy(path), RENAMED, false) == RENAMED_PENDING
  {
    assert PlacementIndex(Heavy(path).placements, 1) == 0;
    assert PriorIndex([LightPending(first)], 10, 1) == 0;
  }

  lemma RenamedReserve(path: Path, first: nat) returns (second: nat)
    requires first < 67_000
    ensures Reserve([LightPending(first)], Heavy(path), RENAMED_PENDING)
            == Success([LightPending(first), RenamedPending(second)])
    ensures second < 70_000
  {
    var light, v := LightPending(first), LIGHT_WORKSPACE;
    LightProjects(path, first);
    LightWorkspaceBytes();
    RenamedReplaces();
    hide WorkspaceBytes, PlaceTotal, Project, Reserve;
    ReserveIs([light], Heavy(path), RENAMED_PENDING, v);
    second := 2 * WorkspaceBytes(v) + COMPLETION_RESERVATION_OVERHEAD;
    assert Grow([light], 10, 0) == [light];
    assert [light] + [RenamedPending(second)] == [light, RenamedPending(second)];
  }

  lemma RenamedReplaces()
    ensures PlaceTotal(LIGHT_WORKSPACE, PlacementOf(RENAMED_PENDING)) == LIGHT_WORKSPACE
  {
    var x := PlacementOf(LIGHT_PENDING);
    assert PlacementOf(RENAMED_PENDING) == x;
    assert PlacementIndex([x], 1) == 0 && [x][0 := x] == [x];
  }

  lemma RenamedBytes(path: Path, first: nat, second: nat)
    requires Fits(path) && first < 70_000 && second < 70_000
    ensures StoreBytes(Linked(path).(pendings := [LightPending(first), RenamedPending(second)]))
            < 500_000
  {
    HeavyBytes(path);
    var a, b := LightPending(first), RenamedPending(second);
    assert [a, b] == [a] + [b];
    SumByAppend([a], b, PendingBytes);
    SumOfOne(a, PendingBytes);
    assert TextBytes("o") == 1 && Digits(2) == 1;
  }

  lemma RenamedSucceeds(path: Path, first: nat)
    requires Fits(path) && first < 67_000
    ensures PrepareResource(Counterexamples.Prepared(path, first), RENAMED, false).Success?
  {
    hide Reserve, PrepareResource, IsValid;
    var second := RenamedReserve(path, first);
    RenamedBytes(path, first, second);
    RenamedIs(path, first);
    assert TextBytes("x") == 1 && ValidName("x");
    hide NewPending, StoreBytes, TextBytes, ValidName;
    NewResourceSucceeds(Counterexamples.Prepared(path, first), RENAMED, [LightPending(first), RenamedPending(second)]);
    SucceedsByAttempt(Counterexamples.Prepared(path, first), RENAMED);
  }

  lemma SucceedsByAttempt(s: State, r: ResourceRequest)
    requires Attempt(s, OpPrepareResource(r, false)).Success?
    ensures PrepareResource(s, r, false).Success?
  {
  }

  /** A run from the empty store after which a request is prepared, and the very same
      request, repeated at once, is refused. */
  lemma RetryMayConflict(path: Path)
    requires Fits(path)
    ensures exists first :: first < 67_000
              && Run(EMPTY, [CREATE, LinkFar(path), OpPrepareResource(LIGHT, false)])
                 == Counterexamples.Prepared(path, first)
              && var t := PrepareResource(Counterexamples.Prepared(path, first), RENAMED, false);
                 t.Success? && PrepareResource(t.value.0, RENAMED, false) == Failure(OperationConflict)
  {
    hide Step, PrepareResource, Reserve, Run;
    var first := LightIsReached(path);
    assert [CREATE, LinkFar(path)] + [OpPrepareResource(LIGHT, false)]
        == [CREATE, LinkFar(path), OpPrepareResource(LIGHT, false)];
    RenamedSucceeds(path, first);
    var s := Counterexamples.Prepared(path, first);
    assert PriorIndex(s.pendings, 10, 1) == 0 && !StoredAsAsked(s, RENAMED);
    RetryIff(s, RENAMED, false, false);
  }
}
