/** Changing a Workspace's default directory: exactly when completion is accepted,
    and why nothing but a resource can get in its way. */
module DefaultCwd {
  import opened Basics
  import opened StoreTypes
  import opened Placements
  import opened StoreOps
  import opened StoreInvariant
  import opened Eviction
  import opened StoreSteps
  import opened Lifecycle
  import opened Aliases

  // ---------- exactly when completion is accepted ----------

  /** The owner's answer to the prepared request: its directory, its revision moved by at most one. */
  predicate Answers(d: PendingCwd, owner: Owner) {
    && owner.id == d.owner
    && owner.cwd == Some(d.cwd)
    && (owner.revision == d.expectedOwnerRevision || owner.revision == d.expectedOwnerRevision + 1)
  }

  predicate Changes(d: PendingCwd, owner: Owner) {
    owner.revision == d.expectedOwnerRevision + 1
  }

  /** The exact placement operation n was prepared for is there. */
  predicate Placed(s: State, n: nat) {
    && n < |s.pendingCwd|
    && Known(s.workspaces, s.pendingCwd[n].workspace)
    && PairIn(Lookup(s.workspaces, s.pendingCwd[n].workspace).placements, s.pendingCwd[n].node, s.pendingCwd[n].owner)
  }

  function Moved(s: State, n: nat, owner: Owner): Workspace
    requires Placed(s, n)
  {
    var d := s.pendingCwd[n];
    var w := Lookup(s.workspaces, d.workspace);
    CwdMoved(w, PairIndex(w.placements, d.node, d.owner), d.cwd, owner.revision, Changes(d, owner))
  }

  /** The state a completion reaches before any eviction. */
  function CwdDone(s: State, n: nat, owner: Owner): State
    requires Placed(s, n)
  {
    var d := s.pendingCwd[n];
    var moved := Moved(s, n, owner);
    CwdSettled(s, n, WorkspaceIndex(s.workspaces, d.workspace), moved,
               CwdAnswer(d, moved.revision, owner.revision, if Changes(d, owner) then Updated else Unchanged))
  }

  lemma PlacementHeld(s: State, n: nat)
    requires IsCoherent(s) && n < |s.pendingCwd|
    ensures Known(s.workspaces, s.pendingCwd[n].workspace)
    ensures var w := Lookup(s.workspaces, s.pendingCwd[n].workspace);
            && PairIn(w.placements, s.pendingCwd[n].node, s.pendingCwd[n].owner)
            && var l := PairIndex(w.placements, s.pendingCwd[n].node, s.pendingCwd[n].owner);
               && l < |w.placements|
               && (forall m :: m in w.placements && m.node == s.pendingCwd[n].node ==> m == w.placements[l])
  {
    var d := s.pendingCwd[n];
    assert Known(s.workspaces, d.workspace);
    var k := WorkspaceIndex(s.workspaces, d.workspace);
    assert PairIn(s.workspaces[k].placements, d.node, d.owner);
  }

  lemma MovedIsValid(w: Workspace, l: nat, cwd: Path, ownerRevision: nat, changed: bool)
    requires ValidWorkspace(w) && PairsDistinctWithin(w.placements) && l < |w.placements|
    ensures var v := CwdMoved(w, l, cwd, ownerRevision, changed);
            ValidWorkspace(v) && PairsDistinctWithin(v.placements)
  {
    var v := CwdMoved(w, l, cwd, ownerRevision, changed);
    assert forall a :: 0 <= a < |v.placements| ==>
        v.placements[a].node == w.placements[a].node && v.placements[a].ownerId == w.placements[a].ownerId;
    forall m | m in v.placements
      ensures v.closing <==> m.state == ClosePending
    {
      var a :| 0 <= a < |v.placements| && v.placements[a] == m;
      assert w.placements[a] in w.placements && w.placements[a].state == m.state;
    }
  }

  predicate SamePairs(w: Workspace, v: Workspace) {
    forall m :: m in v.placements ==> PairIn(w.placements, m.node, m.ownerId)
  }

  lemma SamePairsShare(w: Workspace, v: Workspace, o: Workspace)
    requires SamePairs(w, v)
    ensures SharesPair(v, o) ==> SharesPair(w, o)
    ensures SharesPair(o, v) ==> SharesPair(o, w)
  {
  }

  lemma ReplacedWorkspaceValid(ws: seq<Workspace>, k: nat, v: Workspace)
    requires ValidWorkspaces(ws) && k < |ws| && ValidWorkspace(v) && PairsDistinctWithin(v.placements)
    requires v.id == ws[k].id && v.name == ws[k].name && SamePairs(ws[k], v)
    ensures ValidWorkspaces(ws[k := v])
  {
    var vs := ws[k := v];
    forall i, j | 0 <= i < j < |vs|
      ensures !SharesPair(vs[i], vs[j])
    {
      assert !SharesPair(ws[i], ws[j]);
      SamePairsShare(ws[k], v, vs[i]);
      SamePairsShare(ws[k], v, vs[j]);
    }
  }

  lemma MovedWorkspaceValid(ws: seq<Workspace>, k: nat, l: nat, cwd: Path, ownerRevision: nat, changed: bool)
    requires ValidWorkspaces(ws) && PlacementsSorted(ws) && k < |ws| && l < |ws[k].placements|
    ensures ValidWorkspaces(ws[k := CwdMoved(ws[k], l, cwd, ownerRevision, changed)])
  {
    var w := ws[k];
    MovedIsValid(w, l, cwd, ownerRevision, changed);
    MoveKeepsPairs(w.placements, l, ownerRevision, cwd);
    ReplacedWorkspaceValid(ws, k, CwdMoved(w, l, cwd, ownerRevision, changed));
  }

  /** Compaction never makes a valid state invalid. */
  lemma ValidAfterEviction(s: State, t: State)
    requires IsValid(s) && OnlyEvicts(s, t)
    ensures IsValid(t)
  {
    assert forall o :: IsCompleted(t.completed, o) ==> IsCompleted(s.completed, o) by {
      forall o | IsCompleted(t.completed, o)
        ensures IsCompleted(s.completed, o)
      {
        var c := CompletedIndex(t.completed, o);
        assert s.completed[|s.completed| - |t.completed| + c] == t.completed[c];
      }
    }
    forall i | 0 <= i < |t.completed|
      ensures ValidCompleted(t.completed[i], t.pendings)
    {
      assert ValidCompleted(s.completed[|s.completed| - |t.completed| + i], s.pendings);
    }
    forall i | 0 <= i < |t.pendingCwd|
      ensures ValidPendingCwd(t.pendingCwd[i], t)
    {
      assert ValidPendingCwd(s.pendingCwd[i], s);
    }
    forall i | 0 <= i < |t.completedCwd|
      ensures ValidCompletedCwd(t.completedCwd[i], t)
    {
      assert ValidCompletedCwd(s.completedCwd[|s.completedCwd| - |t.completedCwd| + i], s);
    }
  }

  lemma DoneLedgersValid(s: State, n: nat, owner: Owner)
    requires IsValid(s) && IsCoherent(s) && n < |s.pendingCwd| && Answers(s.pendingCwd[n], owner)
    requires Placed(s, n)
    ensures var t := CwdDone(s, n, owner);
            ValidPendings(t) && ValidCompletions(t) && ValidPendingCwds(t)
  {
    var t := CwdDone(s, n, owner);
    var k := WorkspaceIndex(s.workspaces, s.pendingCwd[n].workspace);
    KnownAfterUpdate(s.workspaces, k, Moved(s, n, owner));
    forall i | 0 <= i < |t.pendings|
      ensures ValidPending(t.pendings[i], t.workspaces)
    {
      assert ValidPending(s.pendings[i], s.workspaces);
    }
    forall i | 0 <= i < |t.pendingCwd|
      ensures ValidPendingCwd(t.pendingCwd[i], t)
    {
      assert ValidPendingCwd(s.pendingCwd[if i < n then i else i + 1], s);
    }
  }

  lemma CwdGone(ds: seq<PendingCwd>, n: nat, o: Id)
    requires PendingCwdDistinct(ds) && n < |ds|
    ensures CwdIndex(Without(ds, n), o) < |ds| - 1 ==> CwdIndex(ds, o) < |ds| && o != ds[n].operation
  {
    var vs := Without(ds, n);
    assert forall i :: 0 <= i < |vs| ==> vs[i] == ds[if i < n then i else i + 1];
  }

  /** Earlier directory records stay valid beside the new one. */
  lemma OlderRecordsValid(s: State, n: nat, owner: Owner, i: nat)
    requires ValidCompletedCwds(s) && PendingCwdDistinct(s.pendingCwd)
    requires Placed(s, n) && Answers(s.pendingCwd[n], owner)
    requires i < |CwdDone(s, n, owner).completedCwd| - 1
    ensures var t := CwdDone(s, n, owner);
            ValidCompletedCwd(t.completedCwd[i], t) && t.completedCwd[i].request.operation != s.pendingCwd[n].operation
  {
    var es := CwdDone(s, n, owner).completedCwd;
    var j := i + (|s.completedCwd| + 1 - |es|);
    assert es[i] == s.completedCwd[j];
    assert ValidCompletedCwd(s.completedCwd[j], s);
    CwdGone(s.pendingCwd, n, es[i].request.operation);
  }

  lemma NewRecordIs(s: State, n: nat, owner: Owner)
    requires Placed(s, n)
    ensures var d, t := s.pendingCwd[n], CwdDone(s, n, owner);
            && t.pendings == s.pendings && t.completed == s.completed && t.pendingCwd == Without(s.pendingCwd, n)
            && t.completedCwd != []
            && t.completedCwd[|t.completedCwd| - 1]
               == CompletedCwd(d.(reservation := 0),
                               CwdAnswer(d, Moved(s, n, owner).revision, owner.revision,
                                         if Changes(d, owner) then Updated else Unchanged))
  {
    hide CwdMoved;
  }

  lemma NewRecordValidIff(s: State, n: nat, owner: Owner)
    requires ValidPendingCwds(s) && Placed(s, n) && Answers(s.pendingCwd[n], owner)
    ensures var t := CwdDone(s, n, owner);
            var e := t.completedCwd[|t.completedCwd| - 1];
            && e.request.operation == s.pendingCwd[n].operation
            && (ValidCompletedCwd(e, t)
                <==> Lookup(s.workspaces, s.pendingCwd[n].workspace).revision == s.pendingCwd[n].expectedRevision)
  {
    hide CwdDone, IsPending, IsCompleted, IsAbsolute;
    NewRecordIs(s, n, owner);
    assert ValidPendingCwd(s.pendingCwd[n], s);
    CwdGone(s.pendingCwd, n, s.pendingCwd[n].operation);
  }

  lemma DoneCompletedValid(s: State, n: nat, owner: Owner)
    requires ValidCompletedCwds(s) && ValidPendingCwds(s) && Placed(s, n) && Answers(s.pendingCwd[n], owner)
    ensures ValidCompletedCwds(CwdDone(s, n, owner))
            <==> Lookup(s.workspaces, s.pendingCwd[n].workspace).revision == s.pendingCwd[n].expectedRevision
  {
    var t := CwdDone(s, n, owner);
    var es := t.completedCwd;
    NewRecordValidIff(s, n, owner);
    forall i | 0 <= i < |es| - 1
      ensures ValidCompletedCwd(es[i], t) && es[i].request.operation != es[|es| - 1].request.operation
    {
      OlderRecordsValid(s, n, owner, i);
    }
    DoneRecordsDistinct(s, n, owner);
  }

  lemma DoneRecordsDistinct(s: State, n: nat, owner: Owner)
    requires CompletedCwdDistinct(s.completedCwd) && Placed(s, n)
    requires var es := CwdDone(s, n, owner).completedCwd;
             forall i :: 0 <= i < |es| - 1 ==> es[i].request.operation != es[|es| - 1].request.operation
    ensures CompletedCwdDistinct(CwdDone(s, n, owner).completedCwd)
  {
    var es := CwdDone(s, n, owner).completedCwd;
    var shift := |s.completedCwd| + 1 - |es|;
    assert forall i :: 0 <= i < |es| - 1 ==> es[i] == s.completedCwd[i + shift];
  }

  /** Validation accepts the completed state exactly when no one moved the Workspace meanwhile. */
  lemma DoneValidIff(s: State, n: nat, owner: Owner)
    requires IsValid(s) && IsCoherent(s) && n < |s.pendingCwd| && Answers(s.pendingCwd[n], owner)
    requires Placed(s, n)
    ensures IsValid(CwdDone(s, n, owner))
            <==> Lookup(s.workspaces, s.pendingCwd[n].workspace).revision == s.pendingCwd[n].expectedRevision
  {
    hide ValidPendings, ValidCompletions, ValidPendingCwds, ValidCompletedCwds, ValidWorkspaces;
    var d := s.pendingCwd[n];
    var k := WorkspaceIndex(s.workspaces, d.workspace);
    DoneLedgersValid(s, n, owner);
    DoneCompletedValid(s, n, owner);
    MovedWorkspaceValid(s.workspaces, k, PairIndex(s.workspaces[k].placements, d.node, d.owner), d.cwd, owner.revision,
                        Changes(d, owner));
  }

  lemma NotYetCompleted(s: State, n: nat)
    requires IsValid(s) && n < |s.pendingCwd|
    ensures CwdIndex(s.pendingCwd, s.pendingCwd[n].operation) == n
    ensures CompletedCwdIndex(s.completedCwd, s.pendingCwd[n].operation) == |s.completedCwd|
  {
    assert forall i :: 0 <= i < |s.completedCwd| ==> ValidCompletedCwd(s.completedCwd[i], s);
  }

  /** What completing a pending operation computes, once its guards are passed. */
  lemma CompletionOf(s: State, n: nat, owner: Owner)
    requires n < |s.pendingCwd| && Answers(s.pendingCwd[n], owner)
    requires CwdIndex(s.pendingCwd, s.pendingCwd[n].operation) == n
    requires CompletedCwdIndex(s.completedCwd, s.pendingCwd[n].operation) == |s.completedCwd|
    requires Placed(s, n)
    ensures var d := s.pendingCwd[n];
            var w := Lookup(s.workspaces, d.workspace);
            CompleteDefaultCwd(s, d, owner)
            == if w.placements[PairIndex(w.placements, d.node, d.owner)].ownerRevision != d.expectedOwnerRevision
               then Failure(OperationConflict)
               else if Changes(d, owner) && w.revision >= U64_MAX then Failure(RevisionExhausted)
               else
                 var s' :- Compact(CwdDone(s, n, owner));
                 Success((s', CwdAnswer(d, Moved(s, n, owner).revision, owner.revision,
                                        if Changes(d, owner) then Updated else Unchanged)))
  {
  }

  lemma CommittedWhen(s: State, op: Op)
    ensures Step(s, op).Success? <==>
              && Attempt(s, op).Success? && IsValid(Attempt(s, op).value)
              && StoreBytes(Attempt(s, op).value) <= MAX_STORE_BYTES
  {
  }

  /** The latest directory record is the last to be evicted. */
  lemma CompactedValidIff(s: State, n: nat, owner: Owner)
    requires IsValid(s) && IsCoherent(s) && Placed(s, n) && Answers(s.pendingCwd[n], owner)
    requires Compact(CwdDone(s, n, owner)).Success?
    ensures var t := Compact(CwdDone(s, n, owner)).value;
            var d := s.pendingCwd[n];
            IsValid(t) <==> t.completedCwd == [] || Lookup(s.workspaces, d.workspace).revision == d.expectedRevision
  {
    var u := CwdDone(s, n, owner);
    var t := Compact(u).value;
    CompactMeaning(u);
    if t.completedCwd == [] {
      ForgottenIsValid(s, n, owner, t);
    } else if Lookup(s.workspaces, s.pendingCwd[n].workspace).revision == s.pendingCwd[n].expectedRevision {
      HeldIsValid(s, n, owner, t);
    } else if IsValid(t) {
      LastRecordJudged(s, n, owner, t);
    }
  }

  lemma HeldIsValid(s: State, n: nat, owner: Owner, t: State)
    requires IsValid(s) && IsCoherent(s) && Placed(s, n) && Answers(s.pendingCwd[n], owner)
    requires Lookup(s.workspaces, s.pendingCwd[n].workspace).revision == s.pendingCwd[n].expectedRevision
    requires OnlyEvicts(CwdDone(s, n, owner), t)
    ensures IsValid(t)
  {
    DoneValidIff(s, n, owner);
    ValidAfterEviction(CwdDone(s, n, owner), t);
  }

  lemma LastRecordJudged(s: State, n: nat, owner: Owner, t: State)
    requires n < |s.pendingCwd| && Answers(s.pendingCwd[n], owner)
    requires Placed(s, n)
    requires t.completedCwd != [] && OnlyEvicts(CwdDone(s, n, owner), t) && ValidCompletedCwds(t)
    ensures Lookup(s.workspaces, s.pendingCwd[n].workspace).revision == s.pendingCwd[n].expectedRevision
  {
    var u := CwdDone(s, n, owner);
    var e := t.completedCwd[|t.completedCwd| - 1];
    assert e == u.completedCwd[|u.completedCwd| - 1];
    assert ValidCompletedCwd(e, t);
    assert RevisionsAgree(e);
  }

  lemma ForgottenIsValid(s: State, n: nat, owner: Owner, t: State)
    requires IsValid(s) && IsCoherent(s) && n < |s.pendingCwd| && Answers(s.pendingCwd[n], owner)
    requires Placed(s, n)
    requires OnlyEvicts(CwdDone(s, n, owner), t) && t.completedCwd == []
    ensures IsValid(t)
  {
    var d := s.pendingCwd[n];
    var k := WorkspaceIndex(s.workspaces, d.workspace);
    DoneLedgersValid(s, n, owner);
    MovedWorkspaceValid(s.workspaces, k, PairIndex(s.workspaces[k].placements, d.node, d.owner), d.cwd, owner.revision,
                        Changes(d, owner));
    var u := CwdDone(s, n, owner).(completedCwd := []);
    assert IsValid(u);
    ValidAfterEviction(u, t);
  }

  // ---------- room ----------

  function NewRecord(s: State, n: nat, owner: Owner): CompletedCwd
    requires Placed(s, n)
  {
    var d := s.pendingCwd[n];
    CompletedCwd(d.(reservation := 0), CwdAnswer(d, Moved(s, n, owner).revision, owner.revision,
                                                 if Changes(d, owner) then Updated else Unchanged))
  }

  /** What the Workspace gains by the move. */
  function MoveGrowth(s: State, n: nat, owner: Owner): int
    requires Placed(s, n)
  {
    WorkspaceBytes(Moved(s, n, owner)) - WorkspaceBytes(Lookup(s.workspaces, s.pendingCwd[n].workspace))
  }

  /** With both completed ledgers emptied, the move made and the operation taken out, there
      is room for the record of its completion. */
  predicate RecordFits(s: State, n: nat, owner: Owner)
    requires Placed(s, n)
  {
    StoreBytes(Bare(s)) + MoveGrowth(s, n, owner) + CompletedCwdBytes(NewRecord(s, n, owner))
    <= MAX_STORE_BYTES + PendingCwdBytes(s.pendingCwd[n])
  }

  lemma SumOfLast<T>(x: T, f: T -> nat)
    ensures SumBy([x], f) == f(x)
  {
    assert [x][1..] == [];
  }

  lemma DoneBytes(s: State, n: nat, owner: Owner)
    requires Placed(s, n)
    ensures var t := CwdDone(s, n, owner);
            && StoreBytes(Bare(t)) == StoreBytes(Bare(s)) + MoveGrowth(s, n, owner) - PendingCwdBytes(s.pendingCwd[n])
            && t.completedCwd != [] && t.completedCwd[|t.completedCwd| - 1] == NewRecord(s, n, owner)
            && StoreBytes(OnlyLatestCwd(t)) == StoreBytes(Bare(t)) + CompletedCwdBytes(NewRecord(s, n, owner))
  {
    hide WorkspaceBytes, PendingBytes, PendingCwdBytes, CompletedCwdBytes, CwdMoved;
    var k := WorkspaceIndex(s.workspaces, s.pendingCwd[n].workspace);
    SumByUpdate(s.workspaces, k, Moved(s, n, owner), WorkspaceBytes);
    SumByWithout(s.pendingCwd, n, PendingCwdBytes);
    SumOfLast(NewRecord(s, n, owner), CompletedCwdBytes);
  }

  /** The move adds at most the new name and a few digits. */
  lemma MoveGrowthBound(s: State, n: nat, owner: Owner)
    requires Placed(s, n)
    ensures MoveGrowth(s, n, owner) <= TextBytes(s.pendingCwd[n].cwd) + 37
  {
    var d := s.pendingCwd[n];
    var w := Lookup(s.workspaces, d.workspace);
    var l := PairIndex(w.placements, d.node, d.owner);
    SumByUpdate(w.placements, l, Moved(s, n, owner).placements[l], PlacementBytes);
    U64Digits(owner.revision);
    NextDigits(w.revision);
  }

  /** The padding kept while it was pending is more than a completed change can add. */
  lemma CwdAlwaysHasRoom(s: State, n: nat, owner: Owner)
    requires Placed(s, n) && ValidPendingCwds(s) && StoreBytes(s) <= MAX_STORE_BYTES
    ensures Compact(CwdDone(s, n, owner)).Success?
  {
    hide StoreBytes, MoveGrowth, CwdDone, NewRecord, Compact;
    var d := s.pendingCwd[n];
    assert ValidPendingCwd(d, s);
    DoneBytes(s, n, owner);
    MoveGrowthBound(s, n, owner);
    BareIsLightest(s);
    CompactMeaning(CwdDone(s, n, owner));
  }

  lemma RecordKeptIff(s: State, n: nat, owner: Owner)
    requires Placed(s, n) && ValidPendingCwds(s) && StoreBytes(s) <= MAX_STORE_BYTES
    ensures Compact(CwdDone(s, n, owner)).Success?
    ensures Compact(CwdDone(s, n, owner)).value.completedCwd != [] <==> RecordFits(s, n, owner)
  {
    hide StoreBytes, MoveGrowth, CwdDone, NewRecord, Compact, ValidPendingCwds;
    CwdAlwaysHasRoom(s, n, owner);
    DoneBytes(s, n, owner);
    LatestCwdKeptIff(CwdDone(s, n, owner));
  }

  /** A directory name of at most 3,800 bytes always leaves room for its record. */
  lemma ShortNamesAreRecorded(s: State, n: nat, owner: Owner)
    requires Placed(s, n) && ValidPendingCwds(s) && StoreBytes(s) <= MAX_STORE_BYTES
    requires TextBytes(s.pendingCwd[n].cwd) <= 3_800
    requires Lookup(s.workspaces, s.pendingCwd[n].workspace).revision < U64_MAX
    ensures RecordFits(s, n, owner)
  {
    hide StoreBytes, MoveGrowth;
    assert ValidPendingCwd(s.pendingCwd[n], s);
    MoveGrowthBound(s, n, owner);
    BareIsLightest(s);
    U64Digits(owner.revision);
    U64Digits(Moved(s, n, owner).revision);
  }

  /** In every sound state a matching answer completes a prepared directory change if and
      only if the placement's revision is still the one it was prepared against and so is
      the Workspace's, unless there is not even room for the record that would show the
      difference. The size limit never refuses it. */
  lemma CwdCompletesIff(s: State, n: nat, owner: Owner)
    requires Sound(s) && n < |s.pendingCwd| && Answers(s.pendingCwd[n], owner)
    ensures Placed(s, n)
    ensures var d := s.pendingCwd[n];
            var w := Lookup(s.workspaces, d.workspace);
            Step(s, OpCompleteCwd(d, owner)).Success?
            <==> && w.placements[PairIndex(w.placements, d.node, d.owner)].ownerRevision == d.expectedOwnerRevision
                 && (Changes(d, owner) ==> w.revision < U64_MAX)
                 && (w.revision == d.expectedRevision || !RecordFits(s, n, owner))
  {
    hide Step, Compact, CwdDone, RecordFits, StoreBytes;
    PlacementHeld(s, n);
    NotYetCompleted(s, n);
    CwdAttemptIff(s, n, owner);
    RecordKeptIff(s, n, owner);
    CompactedValidIff(s, n, owner);
    CompactMeaning(CwdDone(s, n, owner));
    hide IsValid, IsCoherent;
    CommittedWhen(s, OpCompleteCwd(s.pendingCwd[n], owner));
  }

  lemma CwdAttemptIff(s: State, n: nat, owner: Owner)
    requires Placed(s, n) && Answers(s.pendingCwd[n], owner)
    requires CwdIndex(s.pendingCwd, s.pendingCwd[n].operation) == n
    requires CompletedCwdIndex(s.completedCwd, s.pendingCwd[n].operation) == |s.completedCwd|
    ensures var d := s.pendingCwd[n];
            var w := Lookup(s.workspaces, d.workspace);
            var r := Attempt(s, OpCompleteCwd(d, owner));
            && (r.Success? <==>
                  && w.placements[PairIndex(w.placements, d.node, d.owner)].ownerRevision == d.expectedOwnerRevision
                  && (Changes(d, owner) ==> w.revision < U64_MAX)
                  && Compact(CwdDone(s, n, owner)).Success?)
            && (r.Success? ==> r == Compact(CwdDone(s, n, owner)))
  {
    CompletionOf(s, n, owner);
  }
}
