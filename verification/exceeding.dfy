/** Runs on which a matching completion exceeds its reservation: each makes one call
    that breaks exactly the condition it is under. */
module Exceeding {
  import opened Basics
  import opened StoreTypes
  import opened Placements
  import opened StoreOps
  import opened StoreInvariant
  import opened Eviction
  import opened Projection
  import opened StoreSteps
  import opened Capacity
  import opened DefaultCwd
  import opened Counterexamples
  import opened Recordable

  /** A call after which a matching completion exceeds its reservation broke its condition. */
  lemma ExceedingBreaksCondition(s: State, op: Op, i: nat, owner: Owner, resource: Resource)
    requires IsCoherent(s) && IsRecordable(s) && Step(s, op).Success?
    requires var s' := Step(s, op).value;
             && i < |s'.pendings| && OwnerMatches(s'.pendings[i], owner) && ResultFits(s'.pendings[i], resource)
             && CompletePending(s', i, owner, resource) == Failure(ReservationExceeded)
    ensures !StaysRecordable(s, op)
  {
    hide CompletePending, Attempt, IsRecordable, StaysRecordable, IsCoherent;
    var s' := Step(s, op).value;
    StepKeepsSound(s, op);
    StepKeepsRecordableIff(s, op);
    if IsRecordable(s') {
      assert MayExceed(s', i);
      RecordableNeverExceeds(s', i);
    }
  }

  // ---------- the lighter operation ----------

  lemma LightIsRecordable(path: Path, once: nat)
    requires IsLong(path)
    requires Reserve([], Heavy(path), LIGHT_PENDING) == Success([LightPending(once)])
    ensures IsRecordable(Counterexamples.Prepared(path, once))
  {
    FirstIsRecordable(Heavy(path), LIGHT_PENDING);
  }

  lemma FirstIsRecordable(w: Workspace, p: Pending)
    requires Sorted(w.placements) && p.workspace == w.id && Reserve([], w, p).Success?
    ensures AllRecordable([w], Reserve([], w, p).value)
  {
    hide Reserve, NotOutweighed;
    FirstShrinkingFits(w, [], p);
    ReserveKeepsRecordableIff([w], [], 0, p);
  }

  lemma BothExceed(path: Path, first: nat, second: nat)
    requires IsLong(path) && first < 70_000 && second < 66_600
    ensures var s := BothPrepared(path, first, second);
            && OwnerMatches(s.pendings[1], NEAR_OWNER) && ResultFits(s.pendings[1], FULL_ANSWER)
            && CompletePending(s, 1, NEAR_OWNER, FULL_ANSWER) == Failure(ReservationExceeded)
            && CompleteResource(s, LATER.operation, LATER.fingerprint, NEAR_OWNER, FULL_ANSWER)
               == Failure(ReservationExceeded)
  {
    SecondExceeds(path, first, second);
  }

  /** Preparing an operation for another Node, after one lighter than the placement it
      will overwrite, breaks exactly its condition, and its own completion is refused. */
  lemma LaterPreparationBreaks(path: Path)
    requires IsLong(path)
    ensures var s := Run(EMPTY, [CREATE, LinkFar(path), OpPrepareResource(LIGHT, false)]);
            var op := OpPrepareResource(LATER, false);
            && IsRecordable(s) && !StaysRecordable(s, op)
            && CompleteResource(Run(EMPTY, [CREATE, LinkFar(path), OpPrepareResource(LIGHT, false), op]),
                                LATER.operation, LATER.fingerprint, NEAR_OWNER, FULL_ANSWER)
               == Failure(ReservationExceeded)
  {
    hide StaysRecordable, IsRecordable, Step, CompletePending;
    var run := [CREATE, LinkFar(path), OpPrepareResource(LIGHT, false)];
    var op := OpPrepareResource(LATER, false);
    assert [CREATE, LinkFar(path)] + [OpPrepareResource(LIGHT, false)] == run;
    assert run + [op] == [CREATE, LinkFar(path), OpPrepareResource(LIGHT, false), op];
    EveryRunIsSound(run);
    var once := LightIsReached(path);
    LightIsRecordable(path, once);
    var first, second := BothFollow(path, once);
    RunLast(EMPTY, run, op);
    BothExceed(path, first, second);
    ExceedingBreaksCondition(Run(EMPTY, run), op, 1, NEAR_OWNER, FULL_ANSWER);
  }

  // ---------- the longer directory ----------

  function MovedHeavy(cwd: Path): Workspace {
    CwdMoved(Heavy(HOME), 0, cwd, 2, true)
  }

  function AfterMove(cwd: Path, reservation: nat): State {
    MoveOvertaken(cwd, reservation)
    .(workspaces := [MovedHeavy(cwd)], pendingCwd := [],
      completedCwd := [CompletedCwd(Move(cwd).(reservation := 0), CwdAnswer(Move(cwd), 3, 2, Updated))])
  }

  lemma MovedBytes(cwd: Path)
    requires Reachable(cwd)
    ensures TextBytes(cwd) + 150 < WorkspaceBytes(MovedHeavy(cwd)) < 1_000 + TextBytes(cwd)
  {
    SmallTexts();
    HeavyBytes(HOME);
    SumByUpdate(Heavy(HOME).placements, 0, MovedHeavy(cwd).placements[0], PlacementBytes);
    assert MovedHeavy(cwd).placements == [MovedHeavy(cwd).placements[0]];
    SumOfOne(MovedHeavy(cwd).placements[0], PlacementBytes);
  }

  lemma AfterMoveBytes(cwd: Path, reservation: nat)
    requires Reachable(cwd) && reservation < 66_600
    ensures StoreBytes(AfterMove(cwd, reservation)) < MAX_STORE_BYTES
  {
    var t := AfterMove(cwd, reservation);
    SmallTexts();
    MovedBytes(cwd);
    SumOfOne(t.workspaces[0], WorkspaceBytes);
    SumOfOne(t.pendings[0], PendingBytes);
    SumOfOne(t.completedCwd[0], CompletedCwdBytes);
  }

  lemma DoneIsAfterMove(cwd: Path, reservation: nat)
    requires Placed(MoveOvertaken(cwd, reservation), 0)
    ensures CwdDone(MoveOvertaken(cwd, reservation), 0, MovedOwner(cwd)) == AfterMove(cwd, reservation)
  {
    var s := MoveOvertaken(cwd, reservation);
    assert WorkspaceIndex(s.workspaces, 10) == 0 && PairIndex(s.workspaces[0].placements, 1, 20) == 0;
    assert Without(s.pendingCwd, 0) == [];
  }

  lemma MoveIsCommitted(cwd: Path, reservation: nat)
    requires Reachable(cwd) && reservation < 66_600 && Sound(MoveOvertaken(cwd, reservation))
    ensures Step(MoveOvertaken(cwd, reservation), OpCompleteCwd(Move(cwd), MovedOwner(cwd)))
            == Success(AfterMove(cwd, reservation))
  {
    hide Step, Attempt, Compact, IsCoherent, IsValid;
    var s := MoveOvertaken(cwd, reservation);
    PlacementHeld(s, 0);
    NotYetCompleted(s, 0);
    DoneIsAfterMove(cwd, reservation);
    AfterMoveBytes(cwd, reservation);
    NothingToCompact(AfterMove(cwd, reservation));
    CwdCompletesIff(s, 0, MovedOwner(cwd));
    CwdAttemptIff(s, 0, MovedOwner(cwd));
    CommittedIsAttempted(s, OpCompleteCwd(Move(cwd), MovedOwner(cwd)));
  }

  lemma NothingToCompact(s: State)
    requires StoreBytes(s) <= MAX_STORE_BYTES
    ensures Compact(s) == Success(s)
  {
  }

  lemma CommittedIsAttempted(s: State, op: Op)
    requires Step(s, op).Success?
    ensures Step(s, op) == Attempt(s, op)
  {
  }

  lemma LaterExceeds(cwd: Path, reservation: nat)
    requires IsLong(cwd) && reservation < 66_600
    ensures var s := AfterMove(cwd, reservation);
            && OwnerMatches(s.pendings[0], NEAR_OWNER) && ResultFits(s.pendings[0], FULL_ANSWER)
            && CompletePending(s, 0, NEAR_OWNER, FULL_ANSWER) == Failure(ReservationExceeded)
            && CompleteResource(s, LATER.operation, LATER.fingerprint, NEAR_OWNER, FULL_ANSWER)
               == Failure(ReservationExceeded)
  {
    hide StoreBytes, PlacementBytes, PushCompleted, Step;
    var s := AfterMove(cwd, reservation);
    assert PendingIndex(s.pendings, LATER.operation) == 0;
    assert WorkspaceIndex(s.workspaces, 10) == 0;
    var x := OwnerPlacement(2, NEAR_OWNER);
    MovedBytes(cwd);
    NearPlacementBytes();
    assert PlacementIndex(MovedHeavy(cwd).placements, 2) == 1;
    PlaceBytes(MovedHeavy(cwd), x);
    assert Digits(3) == 1 && Digits(4) == 1;
    assert WorkspaceBytes(PlaceTotal(MovedHeavy(cwd), x)) >= TextBytes(cwd) + 320;
  }

  /** Completing a directory change whose new name is longer than the other operations'
      headroom breaks exactly its condition, and the completion of a resource prepared
      meanwhile is refused. */
  lemma DirectoryChangeBreaks(cwd: Path)
    requires IsLong(cwd)
    ensures var s := Run(EMPTY, PreparingRun(cwd));
            var op := OpCompleteCwd(Move(cwd), MovedOwner(cwd));
            && IsRecordable(s) && Answers(Move(cwd), MovedOwner(cwd)) && Step(s, op).Success? && !StaysRecordable(s, op)
            && CompleteResource(Run(EMPTY, PreparingRun(cwd) + [op]), LATER.operation, LATER.fingerprint, NEAR_OWNER,
                                FULL_ANSWER) == Failure(ReservationExceeded)
  {
    hide StaysRecordable, IsRecordable, Step, CompletePending, CompleteResource, PreparingRun, Reserve;
    var op := OpCompleteCwd(Move(cwd), MovedOwner(cwd));
    var reservation := OvertakingIsReached(cwd);
    var s := MoveOvertaken(cwd, reservation);
    EveryRunIsSound(PreparingRun(cwd));
    OvertakenIsRecordable(cwd, reservation);
    MoveIsCommitted(cwd, reservation);
    RunOneMore(PreparingRun(cwd), op, s, AfterMove(cwd, reservation));
    LaterExceeds(cwd, reservation);
    ExceedingBreaksCondition(s, op, 0, NEAR_OWNER, FULL_ANSWER);
  }

  lemma OvertakenIsRecordable(cwd: Path, reservation: nat)
    requires Reserve([], Heavy(HOME), LATER_PENDING)
             == Success(MoveOvertaken(cwd, reservation).pendings)
    ensures IsRecordable(MoveOvertaken(cwd, reservation))
  {
    FirstIsRecordable(Heavy(HOME), LATER_PENDING);
  }
}
