/** Runs on which a hoped-for property fails, as the code stands. */
module Counterexamples {
  import opened Basics
  import opened StoreTypes
  import opened Placements
  import opened StoreOps
  import opened StoreInvariant
  import opened Eviction
  import opened Projection
  import opened StoreSteps
  import opened Aliases
  import opened DefaultCwd

  /** A directory name of ordinary length, longer than a light Workspace weighs. */
  predicate IsLong(path: Path) {
    IsAbsolute(path) && 1_000 <= TextBytes(path) <= 4_000
  }

  /** "/d/d/d…": so many directories deep. */
  function Deep(n: nat): Path {
    if n == 0 then "" else "/d" + Deep(n - 1)
  }

  lemma {:induction false} DeepBytes(n: nat)
    ensures TextBytes(Deep(n)) == 2 * n
  {
    if n > 0 {
      DeepBytes(n - 1);
      assert TextBytes("/d") == 2;
      SumByConcat("/d", Deep(n - 1), Utf8Width);
    }
  }

  predicate Fits(path: Path) {
    TextBytes(path) <= 4_000
  }

  lemma LongPathsExist()
    ensures exists path :: IsLong(path)
  {
    DeepBytes(500);
    assert Deep(500) == "/d" + Deep(499);
    assert IsLong(Deep(500));
  }

  function FarOwner(path: Path): Owner {
    Owner(20, "o", 1, Some(path))
  }

  function Heavy(path: Path): Workspace {
    Workspace(10, 2, "w", false, [OwnerPlacement(1, FarOwner(path))])
  }

  function Linked(path: Path): State {
    State(false, [Heavy(path)], [], [], [], [])
  }

  const CREATE: Op := OpCreate(10, "w")

  function LinkFar(path: Path): Op {
    OpLink(10, 1, 1, FarOwner(path), 1)
  }

  const CREATED: State := State(false, [NewWorkspace(10, "w")], [], [], [], [])

  lemma CreatedIsValid()
    ensures ValidName("w") && IsValid(CREATED)
  {
    assert TextBytes("w") == 1;
  }

  lemma CreatedIsSmall()
    ensures StoreBytes(CREATED) <= MAX_STORE_BYTES
  {
    assert TextBytes("w") == 1 && Digits(1) == 1;
  }

  lemma CreateStep()
    ensures Step(EMPTY, CREATE) == Success(CREATED)
  {
    hide IsValid, StoreBytes;
    CreatedIsValid();
    CreatedIsSmall();
    assert EMPTY.workspaces + [NewWorkspace(10, "w")] == CREATED.workspaces;
    assert Attempt(EMPTY, CREATE) == Success(CREATED);
  }

  lemma HeavyBytes(path: Path)
    requires Fits(path)
    ensures TextBytes(path) + 150 < WorkspaceBytes(Heavy(path)) < TextBytes(path) + 300
    ensures StoreBytes(Linked(path)) < TextBytes(path) + 1_000
  {
    assert TextBytes("w") == 1 && TextBytes("o") == 1;
    assert Digits(1) == 1 && Digits(2) == 1;
    SumOfOne(OwnerPlacement(1, FarOwner(path)), PlacementBytes);
    SumOfOne(Heavy(path), WorkspaceBytes);
  }

  lemma SumOfOne<T>(x: T, f: T -> nat)
    ensures SumBy([x], f) == f(x)
  {
    assert [x][1..] == [];
  }

  lemma LinkStep(path: Path)
    requires Fits(path)
    ensures Step(CREATED, LinkFar(path)) == Success(Linked(path))
  {
    LinkAttempt(path);
    HeavyBytes(path);
    LinkedIsValid(path);
  }

  lemma LinkAttempt(path: Path)
    ensures Attempt(CREATED, LinkFar(path)) == Success(Linked(path))
  {
    assert WorkspaceIndex(CREATED.workspaces, 10) == 0;
    var x := OwnerPlacement(1, FarOwner(path));
    assert ([] + [x])[..0] == [];
    assert SortByNode([] + [x]) == [x];
    assert CREATED.workspaces[0 := Heavy(path)] == Linked(path).workspaces;
  }

  lemma LinkedIsValid(path: Path)
    ensures IsValid(Linked(path))
  {
    assert TextBytes("w") == 1 && ValidName("w");
  }

  /** A Workspace linked to a far owner whose directory is a given one. */
  lemma LinkedIsReached(path: Path)
    requires Fits(path)
    ensures Run(EMPTY, [CREATE, LinkFar(path)]) == Linked(path)
  {
    hide Step;
    CreateStep();
    LinkStep(path);
    RunLast(EMPTY, [], CREATE);
    RunLast(EMPTY, [CREATE], LinkFar(path));
    assert [] + [CREATE] == [CREATE];
    assert [CREATE] + [LinkFar(path)] == [CREATE, LinkFar(path)];
  }

  // ---------- a light operation, then another that pays for it ----------

  const LIGHT: ResourceRequest := ResourceRequest(100, 0, 0, 10, 2, 1, 99, "o", None, 500, Shell)
  const LATER: ResourceRequest := ResourceRequest(101, 1, 0, 10, 2, 2, 98, "o", None, 501, Shell)
  const NEAR_OWNER: Owner := Owner(98, "o", 1, None)
  const ANSWER: Resource := ShellResult(501, 98, 10)

  /** The heaviest answer that fits a request of no length. */
  const FULL_ANSWER: Resource := ShellResult(501, 98, 65_165)

  const LIGHT_PENDING: Pending :=
    Pending(100, false, 0, None, 0, false, 10, 2, 1, 99, 20, "o", None, 500, Shell, 0)
  const LATER_PENDING: Pending :=
    Pending(101, false, 1, None, 0, false, 10, 2, 2, 98, 98, "o", None, 501, Shell, 0)

  function LightPending(reservation: nat): Pending {
    LIGHT_PENDING.(reservation := reservation)
  }

  function LaterPending(reservation: nat): Pending {
    LATER_PENDING.(reservation := reservation)
  }

  lemma LightIs(path: Path)
    ensures NewPending([], Heavy(path), LIGHT, false) == LIGHT_PENDING
  {
    assert PlacementIndex(Heavy(path).placements, 1) == 0;
  }

  lemma LaterIs(path: Path, reservation: nat)
    ensures NewPending([], Heavy(path), LATER, false) == LATER_PENDING
    ensures NewPending([LightPending(reservation)], Heavy(path), LATER, false) == LATER_PENDING
  {
    assert PlacementIndex(Heavy(path).placements, 2) == 1;
    assert PriorIndex([LightPending(reservation)], 10, 2) == 1;
  }

  lemma LightBytes(p: Pending)
    requires p.ownerName == "o" && p.cwd == None
    ensures PlacementBytes(PlacementOf(p)) < 200
  {
    hide Digits;
    U64Digits(U64_MAX);
    assert TextBytes("o") == 1;
  }

  /** What a reservation that nothing refuses computes. */
  lemma ReserveIs(ps: seq<Pending>, w: Workspace, p: Pending, v: Workspace)
    requires Project(w, ps) == Success(v) && v.revision < U64_MAX
    requires var after := PlaceTotal(v, PlacementOf(p));
             && 2 * p.requestBytes + 2 * WorkspaceBytes(after) + COMPLETION_RESERVATION_OVERHEAD
                <= MAX_COMPLETION_RESERVATION_BYTES
             && forall q :: q in ps ==> q.reservation + Growth(v, after) <= MAX_COMPLETION_RESERVATION_BYTES
    ensures var after := PlaceTotal(v, PlacementOf(p));
            Reserve(ps, w, p)
            == Success(Grow(ps, w.id, Growth(v, after))
                       + [p.(reservation := 2 * p.requestBytes + 2 * WorkspaceBytes(after)
                                            + COMPLETION_RESERVATION_OVERHEAD)])
  {
    hide WorkspaceBytes, PlaceTotal, Project, Grow, PlacementOf, Growth;
  }

  const LIGHT_WORKSPACE: Workspace := Workspace(10, 2, "w", false, [PlacementOf(LIGHT_PENDING)])

  lemma LightReplaces(path: Path)
    ensures PlaceTotal(Heavy(path), PlacementOf(LIGHT_PENDING)) == LIGHT_WORKSPACE
  {
    var x := PlacementOf(LIGHT_PENDING);
    assert Heavy(path).placements[0].node == 1 && PlacementIndex(Heavy(path).placements, 1) == 0;
    assert PlaceAt(Heavy(path).placements, x) == [x];
  }

  lemma LightWorkspaceBytes()
    ensures WorkspaceBytes(LIGHT_WORKSPACE) < 300
  {
    hide PlacementBytes;
    var x := PlacementOf(LIGHT_PENDING);
    LightBytes(LIGHT_PENDING);
    SumOfOne(x, PlacementBytes);
    assert TextBytes("w") == 1 && Digits(2) == 1;
  }

  lemma LightReserve(path: Path) returns (once: nat)
    ensures Reserve([], Heavy(path), LIGHT_PENDING) == Success([LightPending(once)]) && once < 67_000
  {
    LightReplaces(path);
    LightWorkspaceBytes();
    hide WorkspaceBytes, PlaceTotal, Reserve;
    ReserveIs([], Heavy(path), LIGHT_PENDING, Heavy(path));
    once := 2 * WorkspaceBytes(LIGHT_WORKSPACE) + COMPLETION_RESERVATION_OVERHEAD;
    assert Grow([], 10, Growth(Heavy(path), LIGHT_WORKSPACE)) == [];
    assert [] + [LightPending(once)] == [LightPending(once)];
  }

  function Prepared(path: Path, reservation: nat): State {
    Linked(path).(pendings := [LightPending(reservation)])
  }

  lemma LightStep(path: Path, reservation: nat)
    requires Fits(path)
    requires Reserve([], Heavy(path), LIGHT_PENDING) == Success([LightPending(reservation)])
    requires reservation < 67_000
    ensures Step(Linked(path), OpPrepareResource(LIGHT, false)) == Success(Prepared(path, reservation))
  {
    hide Attempt, IsValid, StoreBytes;
    LightAttempt(path, reservation);
    PreparedBytes(path, reservation);
    PreparedIsValid(path, reservation);
  }

  lemma PreparedBytes(path: Path, reservation: nat)
    requires Fits(path)
    requires reservation < 67_000
    ensures StoreBytes(Prepared(path, reservation)) < 370_000
  {
    HeavyBytes(path);
    SumOfOne(LightPending(reservation), PendingBytes);
    assert TextBytes("o") == 1 && Digits(2) == 1;
  }

  lemma NewResourceSucceeds(s: State, r: ResourceRequest, ps: seq<Pending>)
    requires ValidName(r.ownerName) && !IsCompleted(s.completed, r.operation) && !IsPending(s.pendings, r.operation)
    requires forall i :: 0 <= i < |s.pendings| ==> s.pendings[i].node != r.node || s.pendings[i].resource != r.resource
    requires |s.pendings| < MAX_PENDING_RESOURCES && |s.workspaces| == 1 && s.workspaces[0].id == r.workspace
    requires s.workspaces[0].revision == r.expectedRevision > 0 && !s.workspaces[0].closing
    requires Reserve(s.pendings, s.workspaces[0], NewPending(s.pendings, s.workspaces[0], r, false)) == Success(ps)
    requires |ps| == |s.pendings| + 1 && StoreBytes(s.(pendings := ps)) <= MAX_STORE_BYTES
    ensures Attempt(s, OpPrepareResource(r, false)) == Success(s.(pendings := ps))
  {
    hide Reserve, NewPending, ValidName;
    assert WorkspaceIndex(s.workspaces, r.workspace) == 0;
    assert Compact(s.(pendings := ps)) == Success(s.(pendings := ps));
  }

  lemma LightAttempt(path: Path, reservation: nat)
    requires Fits(path)
    requires Reserve([], Heavy(path), LIGHT_PENDING) == Success([LightPending(reservation)])
    requires reservation < 67_000
    ensures Attempt(Linked(path), OpPrepareResource(LIGHT, false)) == Success(Prepared(path, reservation))
  {
    SmallTexts();
    hide ValidName, Reserve, StoreBytes, TextBytes;
    PreparedBytes(path, reservation);
    LightIs(path);
    NewResourceSucceeds(Linked(path), LIGHT, [LightPending(reservation)]);
  }

  lemma PreparedIsValid(path: Path, reservation: nat)
    requires reservation < 67_000
    ensures IsValid(Prepared(path, reservation))
  {
    LinkedIsValid(path);
    assert TextBytes("o") == 1 && ValidName("o");
    assert WorkspaceIndex(Linked(path).workspaces, 10) == 0;
  }

  /** The projection forgets the long directory that the light operation would replace. */
  lemma LaterReserve(path: Path, once: nat) returns (first: nat, second: nat)
    requires once < 67_000
    ensures Reserve([LightPending(once)], Heavy(path), LATER_PENDING)
            == Success([LightPending(first), LaterPending(second)])
    ensures first < 70_000 && second < 66_600
  {
    var light, v := LightPending(once), LIGHT_WORKSPACE;
    LightProjects(path, once);
    LightWorkspaceBytes();
    LaterProjection(v, LATER_PENDING);
    hide WorkspaceBytes, PlaceTotal, Project, Reserve;
    ReserveIs([light], Heavy(path), LATER_PENDING, v);
    var after := PlaceTotal(v, PlacementOf(LATER_PENDING));
    first, second := once + Growth(v, after), 2 * WorkspaceBytes(after) + COMPLETION_RESERVATION_OVERHEAD;
    assert Grow([light], 10, Growth(v, after)) == [LightPending(first)];
    assert [LightPending(first)] + [LaterPending(second)] == [LightPending(first), LaterPending(second)];
  }

  lemma LightProjects(path: Path, once: nat)
    ensures Project(Heavy(path), [LightPending(once)]) == Success(LIGHT_WORKSPACE)
  {
    var light := LightPending(once);
    assert PlacementOf(light) == PlacementOf(LIGHT_PENDING);
    LightReplaces(path);
    assert HasNode(Heavy(path).placements, 1);
    hide PlaceTotal;
    assert [light][..0] == [];
  }

  lemma LaterProjection(w: Workspace, p: Pending)
    requires WorkspaceBytes(w) < 300 && w.revision == 2 && Sorted(w.placements)
    requires p.ownerName == "o" && p.cwd == None
    ensures WorkspaceBytes(PlaceTotal(w, PlacementOf(p))) < 500
  {
    LightBytes(p);
    PlaceBytes(w, PlacementOf(p));
    assert Digits(2) == 1 && Digits(3) == 1;
  }

  function BothPrepared(path: Path, first: nat, second: nat): State {
    Linked(path).(pendings := [LightPending(first), LaterPending(second)])
  }

  lemma LaterBytes(path: Path, first: nat, second: nat)
    requires Fits(path) && first < 70_000 && second < 70_000
    ensures StoreBytes(BothPrepared(path, first, second)) < 500_000
  {
    HeavyBytes(path);
    var a, b := LightPending(first), LaterPending(second);
    assert [a, b] == [a] + [b];
    SumByAppend([a], b, PendingBytes);
    SumOfOne(a, PendingBytes);
    assert TextBytes("o") == 1 && Digits(2) == 1;
  }

  lemma LaterIsValid(path: Path, first: nat, second: nat)
    requires first < 70_000 && second < 70_000
    ensures IsValid(BothPrepared(path, first, second))
  {
    LinkedIsValid(path);
    assert TextBytes("o") == 1 && ValidName("o");
    assert WorkspaceIndex(Linked(path).workspaces, 10) == 0;
  }

  /** An operation prepared that is lighter than the placement it will overwrite. */
  lemma LightIsReached(path: Path) returns (once: nat)
    requires Fits(path)
    ensures Run(EMPTY, [CREATE, LinkFar(path)] + [OpPrepareResource(LIGHT, false)]) == Prepared(path, once)
    ensures Reserve([], Heavy(path), LIGHT_PENDING) == Success([LightPending(once)]) && once < 67_000
  {
    hide Step, Reserve, Run;
    LinkedIsReached(path);
    once := LightReserve(path);
    LightStep(path, once);
    RunOneMore([CREATE, LinkFar(path)], OpPrepareResource(LIGHT, false), Linked(path), Prepared(path, once));
  }

  lemma BothFollow(path: Path, once: nat) returns (first: nat, second: nat)
    requires Fits(path) && once < 67_000
    ensures first < 70_000 && second < 66_600
    ensures Step(Prepared(path, once), OpPrepareResource(LATER, false)) == Success(BothPrepared(path, first, second))
  {
    hide Step, Reserve;
    first, second := LaterReserve(path, once);
    LaterStep(path, once, first, second);
  }

  /** Two operations prepared, the first one lighter than the placement it will overwrite. */
  lemma BothAreReached(path: Path) returns (first: nat, second: nat)
    requires Fits(path)
    ensures first < 70_000 && second < 66_600
    ensures Run(EMPTY, [CREATE, LinkFar(path), OpPrepareResource(LIGHT, false), OpPrepareResource(LATER, false)])
            == BothPrepared(path, first, second)
  {
    hide Step, Reserve, Run;
    var once := LightIsReached(path);
    first, second := BothFollow(path, once);
    var ops := [CREATE, LinkFar(path)] + [OpPrepareResource(LIGHT, false)];
    RunOneMore(ops, OpPrepareResource(LATER, false), Prepared(path, once), BothPrepared(path, first, second));
    assert ops + [OpPrepareResource(LATER, false)]
        == [CREATE, LinkFar(path), OpPrepareResource(LIGHT, false), OpPrepareResource(LATER, false)];
  }

  lemma LaterStep(path: Path, once: nat, first: nat, second: nat)
    requires Fits(path) && first < 70_000 && second < 70_000
    requires Reserve([LightPending(once)], Heavy(path), LATER_PENDING)
             == Success([LightPending(first), LaterPending(second)])
    ensures Step(Prepared(path, once), OpPrepareResource(LATER, false)) == Success(BothPrepared(path, first, second))
  {
    SmallTexts();
    hide ValidName, Reserve, IsValid, StoreBytes, Attempt, TextBytes;
    LaterBytes(path, first, second);
    LaterIsValid(path, first, second);
    LaterIs(path, once);
    NewResourceSucceeds(Prepared(path, once), LATER, [LightPending(first), LaterPending(second)]);
  }

  lemma NearPlacementBytes()
    ensures 170 <= PlacementBytes(OwnerPlacement(2, NEAR_OWNER)) <= 200
  {
    assert TextBytes("o") == 1 && Digits(1) == 1;
  }

  lemma SecondExceeds(path: Path, first: nat, second: nat)
    requires IsLong(path) && second < 66_600
    ensures var s := BothPrepared(path, first, second);
            && CompletePending(s, 1, NEAR_OWNER, FULL_ANSWER) == Failure(ReservationExceeded)
            && CompleteResource(s, LATER.operation, LATER.fingerprint, NEAR_OWNER, FULL_ANSWER)
               == Failure(ReservationExceeded)
  {
    hide StoreBytes, PlacementBytes, PushCompleted, Step;
    var s := BothPrepared(path, first, second);
    assert PendingIndex(s.pendings, LATER.operation) == 1;
    assert WorkspaceIndex(s.workspaces, 10) == 0;
    var x := OwnerPlacement(2, NEAR_OWNER);
    HeavyBytes(path);
    NearPlacementBytes();
    assert PlacementIndex(Heavy(path).placements, 2) == 1;
    PlaceBytes(Heavy(path), x);
    assert Digits(2) == 1 && Digits(3) == 1;
    assert WorkspaceBytes(PlaceTotal(Heavy(path), x)) >= TextBytes(path) + 320;
  }

  /** The capacity promise without its side condition: completing the second of the
      two with its own matching owner and an answer that fits exceeds its reservation. */
  lemma ShrinkingBreaksReservation(path: Path)
    requires IsLong(path)
    ensures var s := Run(EMPTY, [CREATE, LinkFar(path), OpPrepareResource(LIGHT, false),
                                 OpPrepareResource(LATER, false)]);
            CompleteResource(s, LATER.operation, LATER.fingerprint, NEAR_OWNER, FULL_ANSWER)
            == Failure(ReservationExceeded)
  {
    hide Run, CompleteResource;
    var first, second := BothAreReached(path);
    SecondExceeds(path, first, second);
  }

  // ---------- a directory change overtaken by a resource ----------

  const HOME: Path := "/p"

  /** A change of the far owner's directory, asked for by a short name. */
  function Move(cwd: Path): PendingCwd {
    PendingCwd(200, 10, 2, 1, 20, 1, "/x", cwd, false, CWD_RESERVATION_BYTES)
  }

  function MovedOwner(cwd: Path): Owner {
    Owner(20, "o", 2, Some(cwd))
  }

  function MovePending(cwd: Path): State {
    Linked(HOME).(pendingCwd := [Move(cwd)])
  }

  function MoveOvertaken(cwd: Path, reservation: nat): State {
    MovePending(cwd).(pendings := [LATER_PENDING.(reservation := reservation)])
  }

  function Overtaken(): State {
    var p := LATER_PENDING;
    var v := PlaceTotal(Heavy(HOME), OwnerPlacement(2, NEAR_OWNER));
    MovePending("/x").(workspaces := [v], completed := [CompletionRecord(p, v, ANSWER)])
  }

  predicate Reachable(cwd: Path) {
    IsAbsolute(cwd) && Fits(cwd)
  }

  lemma SmallTexts()
    ensures TextBytes("o") == 1 && TextBytes("w") == 1 && TextBytes(HOME) == 2 && TextBytes("/x") == 2
    ensures Digits(1) == 1 && Digits(2) == 1 && Digits(3) == 1 && ValidName("o") && ValidName("w")
    ensures Fits(HOME) && Reachable("/x")
  {
  }

  lemma MoveBytes(cwd: Path)
    ensures StoreBytes(MovePending(cwd)) < 12_000 + TextBytes(cwd)
  {
    SmallTexts();
    HeavyBytes(HOME);
    SumOfOne(Move(cwd), PendingCwdBytes);
  }

  lemma MoveAttempt(cwd: Path)
    requires Reachable(cwd)
    ensures Attempt(Linked(HOME), OpPrepareCwd(Move(cwd))) == Success(MovePending(cwd))
  {
    hide StoreBytes, Step;
    var s := Linked(HOME);
    assert WorkspaceIndex(s.workspaces, 10) == 0 && PlacementIndex(Heavy(HOME).placements, 1) == 0;
    assert !HasPending(s, 10);
    assert s.pendingCwd + [Move(cwd)] == [Move(cwd)];
    MoveBytes(cwd);
    assert Compact(MovePending(cwd)) == Success(MovePending(cwd));
  }

  lemma MoveIsValid(cwd: Path)
    requires Reachable(cwd)
    ensures IsValid(MovePending(cwd))
  {
    LinkedIsValid(HOME);
    assert WorkspaceIndex(Linked(HOME).workspaces, 10) == 0;
  }

  lemma MoveStep(cwd: Path)
    requires Reachable(cwd)
    ensures Step(Linked(HOME), OpPrepareCwd(Move(cwd))) == Success(MovePending(cwd))
  {
    MoveAttempt(cwd);
    MoveIsValid(cwd);
    MoveBytes(cwd);
  }

  lemma OvertakingReserve(cwd: Path) returns (reservation: nat)
    ensures 65_000 < reservation < 66_600
    ensures Reserve([], Heavy(HOME), LATER_PENDING)
            == Success(MoveOvertaken(cwd, reservation).pendings)
  {
    var p := LATER_PENDING;
    SmallTexts();
    HeavyBytes(HOME);
    LightBytes(p);
    PlaceBytes(Heavy(HOME), PlacementOf(p));
    hide WorkspaceBytes, PlaceTotal, PlacementBytes, Reserve;
    ReserveIs([], Heavy(HOME), p, Heavy(HOME));
    reservation := 2 * WorkspaceBytes(PlaceTotal(Heavy(HOME), PlacementOf(p))) + COMPLETION_RESERVATION_OVERHEAD;
    assert Grow([], 10, Growth(Heavy(HOME), PlaceTotal(Heavy(HOME), PlacementOf(p)))) == [];
    assert [] + [LaterPending(reservation)] == MoveOvertaken(cwd, reservation).pendings;
  }

  lemma OvertakingStep(cwd: Path, reservation: nat)
    requires Reachable(cwd) && 65_000 < reservation < 66_600
    requires Reserve([], Heavy(HOME), LATER_PENDING)
             == Success(MoveOvertaken(cwd, reservation).pendings)
    ensures Step(MovePending(cwd), OpPrepareResource(LATER, false)) == Success(MoveOvertaken(cwd, reservation))
  {
    hide Attempt, Reserve, IsValid, StoreBytes;
    var t := MoveOvertaken(cwd, reservation);
    SmallTexts();
    OvertakenBytes(cwd, reservation);
    LaterIs(HOME, 0);
    NewResourceSucceeds(MovePending(cwd), LATER, t.pendings);
    OvertakenIsValid(cwd, reservation);
  }

  lemma OvertakenBytes(cwd: Path, reservation: nat)
    requires reservation < 70_000
    ensures StoreBytes(MoveOvertaken(cwd, reservation)) < 83_000 + TextBytes(cwd)
  {
    SmallTexts();
    MoveBytes(cwd);
    SumOfOne(MoveOvertaken(cwd, reservation).pendings[0], PendingBytes);
  }

  lemma OvertakenIsValid(cwd: Path, reservation: nat)
    requires Reachable(cwd) && reservation < 70_000
    ensures IsValid(MoveOvertaken(cwd, reservation))
  {
    MoveIsValid(cwd);
    SmallTexts();
    assert WorkspaceIndex(Linked(HOME).workspaces, 10) == 0;
  }

  lemma NearBytes()
    ensures WorkspaceBytes(PlaceTotal(Heavy(HOME), OwnerPlacement(2, NEAR_OWNER))) < 1_000
    ensures StoreBytes(Overtaken()) < 15_000
  {
    var x := OwnerPlacement(2, NEAR_OWNER);
    var v := PlaceTotal(Heavy(HOME), x);
    SmallTexts();
    HeavyBytes(HOME);
    PlaceBytes(Heavy(HOME), x);
    SumOfOne(v, WorkspaceBytes);
    SumOfOne(Overtaken().completed[0], CompletedBytes);
    SumOfOne(Move("/x"), PendingCwdBytes);
  }

  lemma NearPlacements()
    ensures var v := PlaceTotal(Heavy(HOME), OwnerPlacement(2, NEAR_OWNER));
            v == Workspace(10, 3, "w", false, [OwnerPlacement(1, FarOwner(HOME)), OwnerPlacement(2, NEAR_OWNER)])
  {
    var a, x := OwnerPlacement(1, FarOwner(HOME)), OwnerPlacement(2, NEAR_OWNER);
    PushAndSort([a], x);
    assert PlacementIndex([a], 2) == 1;
  }

  lemma OvertakenPushes()
    ensures var t := Overtaken();
            PushCompleted(t.(completed := []), t.completed[0]) == Success(t)
  {
    hide PlaceTotal, StoreBytes;
    NearBytes();
    var t := Overtaken();
    assert t.(completed := []).completed + [t.completed[0]] == t.completed;
    assert EvictCompleted(t) == Success(t);
  }

  lemma NearRecordBytes()
    ensures CompletedBytes(Overtaken().completed[0]) < 2_000
  {
    hide PlaceTotal;
    NearBytes();
  }

  lemma OvertakenAttempt(reservation: nat)
    requires 65_000 < reservation < 66_600
    ensures Attempt(MoveOvertaken("/x", reservation),
                    OpComplete(LATER.operation, LATER.fingerprint, NEAR_OWNER, ANSWER)) == Success(Overtaken())
  {
    hide PushCompleted, CompletedBytes, PlaceTotal, Step;
    var s := MoveOvertaken("/x", reservation);
    var v := PlaceTotal(Heavy(HOME), OwnerPlacement(2, NEAR_OWNER));
    OvertakenPushes();
    NearRecordBytes();
    assert PendingIndex(s.pendings, 101) == 0 && WorkspaceIndex(s.workspaces, 10) == 0;
    assert PlacementIndex(s.workspaces[0].placements, 2) == 1;
    assert Settled(s, 0, 0, v) == Overtaken().(completed := []);
    assert CompletePending(s, 0, NEAR_OWNER, ANSWER).Success?;
  }

  lemma OvertakenWorkspacesValid()
    ensures ValidWorkspaces(Overtaken().workspaces)
  {
    SmallTexts();
    NearPlacements();
  }

  lemma OvertakenRecordValid()
    ensures ValidCompleted(Overtaken().completed[0], [])
  {
    hide PlaceTotal;
    NearPlacements();
    var v := Overtaken().workspaces[0];
    assert v.placements[1] in v.placements;
  }

  lemma OvertakenStateIsValid()
    ensures IsValid(Overtaken())
  {
    hide PlaceTotal, ValidWorkspaces, ValidCompleted;
    NearPlacements();
    OvertakenWorkspacesValid();
    OvertakenRecordValid();
    assert WorkspaceIndex(Overtaken().workspaces, 10) == 0;
    assert Overtaken().pendings == [];
  }

  function PreparingRun(cwd: Path): seq<Op> {
    [CREATE, LinkFar(HOME)] + [OpPrepareCwd(Move(cwd))] + [OpPrepareResource(LATER, false)]
  }

  function OvertakingRun(): seq<Op> {
    PreparingRun("/x") + [OpComplete(LATER.operation, LATER.fingerprint, NEAR_OWNER, ANSWER)]
  }

  lemma OvertakenStep(reservation: nat)
    requires 65_000 < reservation < 66_600
    ensures Step(MoveOvertaken("/x", reservation), OpComplete(LATER.operation, LATER.fingerprint, NEAR_OWNER, ANSWER))
            == Success(Overtaken())
  {
    OvertakenAttempt(reservation);
    OvertakenStateIsValid();
    NearBytes();
  }

  lemma RunOneMore(ops: seq<Op>, op: Op, s: State, t: State)
    requires Run(EMPTY, ops) == s && Step(s, op) == Success(t)
    ensures Run(EMPTY, ops + [op]) == t
  {
    RunLast(EMPTY, ops, op);
  }

  lemma MoveIsReached(cwd: Path)
    requires Reachable(cwd)
    ensures Run(EMPTY, [CREATE, LinkFar(HOME)] + [OpPrepareCwd(Move(cwd))]) == MovePending(cwd)
  {
    assert Fits(HOME) by {
      SmallTexts();
    }
    LinkedIsReached(HOME);
    MoveStep(cwd);
    RunOneMore([CREATE, LinkFar(HOME)], OpPrepareCwd(Move(cwd)), Linked(HOME), MovePending(cwd));
  }

  lemma OvertakingIsReached(cwd: Path) returns (reservation: nat)
    requires Reachable(cwd)
    ensures 65_000 < reservation < 66_600
    ensures Reserve([], Heavy(HOME), LATER_PENDING)
            == Success(MoveOvertaken(cwd, reservation).pendings)
    ensures Run(EMPTY, PreparingRun(cwd)) == MoveOvertaken(cwd, reservation)
  {
    MoveIsReached(cwd);
    reservation := OvertakingReserve(cwd);
    OvertakingStep(cwd, reservation);
    RunOneMore([CREATE, LinkFar(HOME)] + [OpPrepareCwd(Move(cwd))], OpPrepareResource(LATER, false), MovePending(cwd),
               MoveOvertaken(cwd, reservation));
  }

  lemma OvertakenIsReached()
    ensures Run(EMPTY, OvertakingRun()) == Overtaken()
  {
    SmallTexts();
    var reservation := OvertakingIsReached("/x");
    OvertakenStep(reservation);
    RunOneMore(PreparingRun("/x"), OpComplete(LATER.operation, LATER.fingerprint, NEAR_OWNER, ANSWER),
               MoveOvertaken("/x", reservation), Overtaken());
  }

  lemma OvertakenIsRefused()
    requires Sound(Overtaken())
    ensures Step(Overtaken(), OpCompleteCwd(Move("/x"), MovedOwner("/x"))).Failure?
  {
    hide Step, IsCoherent, StoreBytes, PlaceTotal, RecordFits;
    var s := Overtaken();
    NearPlacements();
    assert Lookup(s.workspaces, 10).revision == 3 by {
      assert WorkspaceIndex(s.workspaces, 10) == 0;
    }
    SmallTexts();
    CwdCompletesIff(s, 0, MovedOwner("/x"));
    ShortNamesAreRecorded(s, 0, MovedOwner("/x"));
  }

  /** The directory change without its side condition: a resource prepared after it
      completes first, and validation then refuses the owner's matching answer. */
  lemma ResourceOvertakesDirectoryChange()
    ensures Run(EMPTY, OvertakingRun()).pendingCwd == [Move("/x")] && Answers(Move("/x"), MovedOwner("/x"))
    ensures Step(Run(EMPTY, OvertakingRun()), OpCompleteCwd(Move("/x"), MovedOwner("/x"))).Failure?
  {
    hide Step, Sound, Run, OvertakingRun;
    OvertakenIsReached();
    EveryRunIsSound(OvertakingRun());
    OvertakenIsRefused();
  }
}
