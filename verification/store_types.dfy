/** The coordinator's durable records, their lookups and their weight on disk. */
module StoreTypes {
  import opened Basics

  const MAX_STORE_BYTES: nat := 1024 * 1024
  const MAX_WORKSPACES: nat := 1024
  const MAX_PLACEMENTS: nat := 128
  const MAX_PENDING_RESOURCES: nat := 1024
  const MAX_COMPLETED_OPERATIONS: nat := 256
  const MAX_COMPLETION_RESERVATION_BYTES: nat := 768 * 1024
  const COMPLETION_RESERVATION_OVERHEAD: nat := 64 * 1024
  const CWD_RESERVATION_BYTES: nat := 8 * 1024

  // A UUID, ordered as its canonical text is; a digest of a request.
  type Id = nat
  type Fingerprint = nat
  type Path = string

  datatype StoreError =
    | OperationConflict
    | NotFound
    | AlreadyExists
    | WouldBlock
    | RevisionChanged
    | RevisionExhausted
    | InvalidInput
    | LimitReached
    | MissingTarget
    | OwnerMismatch
    | DifferentPlacement
    | ReservationExceeded
    | CapacityExceeded
    | StoreFull
    | InvalidName
    | InvalidStore
    | SaveFailed

  type Fallible<+T> = Result<T, StoreError>

  datatype PlacementState = Active | ClosePending | Unavailable

  datatype Placement = Placement(
    node: Id,
    ownerId: Id,
    ownerName: Option<string>,
    ownerRevision: nat,
    cwd: Option<Path>,
    state: PlacementState)

  datatype Workspace = Workspace(
    id: Id,
    revision: nat,
    name: string,
    closing: bool,
    placements: seq<Placement>)

  datatype ResourceKind = Shell | Launcher

  /** A prepared resource operation. `reservation` is the length of the blank
      padding that holds room for its completion. `requestBytes` is the request
      length given at preparation; no operation reads it back, it is kept so
      that the capacity invariant can speak of it. */
  datatype Pending = Pending(
    operation: Id,
    createsWorkspace: bool,
    fingerprint: Fingerprint,
    semantic: Option<Fingerprint>,
    reservation: nat,
    attempted: bool,
    workspace: Id,
    expectedRevision: nat,
    node: Id,
    requestedOwner: Id,
    owner: Id,
    ownerName: string,
    cwd: Option<Path>,
    resource: Id,
    kind: ResourceKind,
    requestBytes: nat)

  /** What the owner Node answered: only Shell and Launcher results may be recorded. */
  datatype Resource =
    | ShellResult(resource: Id, ownerId: Id, bytes: nat)
    | LauncherResult(resource: Id, ownerId: Id, bytes: nat)
    | OtherResult(bytes: nat)

  datatype Completed = Completed(
    operation: Id,
    fingerprint: Fingerprint,
    semantic: Option<Fingerprint>,
    createsWorkspace: bool,
    workspace: Workspace,
    resource: Resource)

  datatype PendingCwd = PendingCwd(
    operation: Id,
    workspace: Id,
    expectedRevision: nat,
    node: Id,
    owner: Id,
    expectedOwnerRevision: nat,
    requestedCwd: Path,
    cwd: Path,
    attempted: bool,
    reservation: nat)

  datatype CwdOutcome = Updated | Unchanged

  datatype CwdResult = CwdResult(
    workspace: Id,
    node: Id,
    owner: Id,
    cwd: Path,
    globalRevision: nat,
    ownerRevision: nat,
    outcome: CwdOutcome)

  datatype CompletedCwd = CompletedCwd(request: PendingCwd, result: CwdResult)

  /** The owner Node's own Workspace record, as observed by the coordinator. */
  datatype Owner = Owner(id: Id, name: string, revision: U64, cwd: Option<Path>)

  datatype State = State(
    migrated: bool,
    workspaces: seq<Workspace>,
    pendings: seq<Pending>,
    completed: seq<Completed>,
    pendingCwd: seq<PendingCwd>,
    completedCwd: seq<CompletedCwd>)

  const EMPTY: State := State(false, [], [], [], [], [])

  // ---------- lookups: the first matching index, or the length ----------

  function WorkspaceIndex(ws: seq<Workspace>, id: Id): (i: nat)
    ensures i <= |ws|
    ensures i < |ws| ==> ws[i].id == id
    ensures forall j :: 0 <= j < i ==> ws[j].id != id
  {
    if ws == [] then 0
    else if ws[0].id == id then 0
    else
      var rest := WorkspaceIndex(ws[1..], id);
      assert forall j :: 0 < j < rest + 1 ==> ws[j] == ws[1..][j - 1];
      rest + 1
  }

  function NameIndex(ws: seq<Workspace>, name: string): (i: nat)
    ensures i <= |ws|
    ensures i < |ws| ==> ws[i].name == name
    ensures forall j :: 0 <= j < i ==> ws[j].name != name
  {
    if ws == [] then 0
    else if ws[0].name == name then 0
    else
      var rest := NameIndex(ws[1..], name);
      assert forall j :: 0 < j < rest + 1 ==> ws[j] == ws[1..][j - 1];
      rest + 1
  }

  function PlacementIndex(pl: seq<Placement>, node: Id): (i: nat)
    ensures i <= |pl|
    ensures i < |pl| ==> pl[i].node == node
    ensures forall j :: 0 <= j < i ==> pl[j].node != node
  {
    if pl == [] then 0
    else if pl[0].node == node then 0
    else
      var rest := PlacementIndex(pl[1..], node);
      assert forall j :: 0 < j < rest + 1 ==> pl[j] == pl[1..][j - 1];
      rest + 1
  }

  function PendingIndex(ps: seq<Pending>, operation: Id): (i: nat)
    ensures i <= |ps|
    ensures i < |ps| ==> ps[i].operation == operation
    ensures forall j :: 0 <= j < i ==> ps[j].operation != operation
  {
    if ps == [] then 0
    else if ps[0].operation == operation then 0
    else
      var rest := PendingIndex(ps[1..], operation);
      assert forall j :: 0 < j < rest + 1 ==> ps[j] == ps[1..][j - 1];
      rest + 1
  }

  /** The first operation already prepared for this Workspace and Node. */
  function PriorIndex(ps: seq<Pending>, workspace: Id, node: Id): (i: nat)
    ensures i <= |ps|
    ensures i < |ps| ==> ps[i].workspace == workspace && ps[i].node == node
    ensures forall j :: 0 <= j < i ==> !(ps[j].workspace == workspace && ps[j].node == node)
  {
    if ps == [] then 0
    else if ps[0].workspace == workspace && ps[0].node == node then 0
    else
      var rest := PriorIndex(ps[1..], workspace, node);
      assert forall j :: 0 < j < rest + 1 ==> ps[j] == ps[1..][j - 1];
      rest + 1
  }

  predicate IsAliasTarget(p: Pending, workspace: Id, semantic: Fingerprint) {
    p.createsWorkspace && p.workspace == workspace && p.semantic == Some(semantic) && p.kind == Shell
  }

  /** The first creating operation on this Workspace with the same meaning. */
  function AliasIndex(ps: seq<Pending>, workspace: Id, semantic: Fingerprint): (i: nat)
    ensures i <= |ps|
    ensures i < |ps| ==> IsAliasTarget(ps[i], workspace, semantic)
    ensures forall j :: 0 <= j < i ==> !IsAliasTarget(ps[j], workspace, semantic)
  {
    if ps == [] then 0
    else if IsAliasTarget(ps[0], workspace, semantic) then 0
    else
      var rest := AliasIndex(ps[1..], workspace, semantic);
      assert forall j :: 0 < j < rest + 1 ==> ps[j] == ps[1..][j - 1];
      rest + 1
  }

  function CompletedIndex(cs: seq<Completed>, operation: Id): (i: nat)
    ensures i <= |cs|
    ensures i < |cs| ==> cs[i].operation == operation
    ensures forall j :: 0 <= j < i ==> cs[j].operation != operation
  {
    if cs == [] then 0
    else if cs[0].operation == operation then 0
    else
      var rest := CompletedIndex(cs[1..], operation);
      assert forall j :: 0 < j < rest + 1 ==> cs[j] == cs[1..][j - 1];
      rest + 1
  }

  predicate IsReplayTarget(c: Completed, workspace: Id, semantic: Fingerprint) {
    c.createsWorkspace && c.workspace.id == workspace && c.semantic == Some(semantic)
  }

  /** The latest completed creation of this Workspace with the same meaning
      (the ledger is searched backwards), or the length of the ledger. */
  function ReplayIndex(cs: seq<Completed>, workspace: Id, semantic: Fingerprint): (i: nat)
    ensures i <= |cs|
    ensures i < |cs| ==> IsReplayTarget(cs[i], workspace, semantic)
    ensures i < |cs| ==> forall j :: i < j < |cs| ==> !IsReplayTarget(cs[j], workspace, semantic)
    ensures i == |cs| ==> forall j :: 0 <= j < |cs| ==> !IsReplayTarget(cs[j], workspace, semantic)
  {
    if cs == [] then 0
    else
      var rest := ReplayIndex(cs[1..], workspace, semantic);
      assert forall j :: 0 < j < |cs| ==> cs[j] == cs[1..][j - 1];
      if rest < |cs| - 1 then rest + 1
      else if IsReplayTarget(cs[0], workspace, semantic) then 0
      else |cs|
  }

  function CwdIndex(ds: seq<PendingCwd>, operation: Id): (i: nat)
    ensures i <= |ds|
    ensures i < |ds| ==> ds[i].operation == operation
    ensures forall j :: 0 <= j < i ==> ds[j].operation != operation
  {
    if ds == [] then 0
    else if ds[0].operation == operation then 0
    else
      var rest := CwdIndex(ds[1..], operation);
      assert forall j :: 0 < j < rest + 1 ==> ds[j] == ds[1..][j - 1];
      rest + 1
  }

  function CompletedCwdIndex(es: seq<CompletedCwd>, operation: Id): (i: nat)
    ensures i <= |es|
    ensures i < |es| ==> es[i].request.operation == operation
    ensures forall j :: 0 <= j < i ==> es[j].request.operation != operation
  {
    if es == [] then 0
    else if es[0].request.operation == operation then 0
    else
      var rest := CompletedCwdIndex(es[1..], operation);
      assert forall j :: 0 < j < rest + 1 ==> es[j] == es[1..][j - 1];
      rest + 1
  }

  // ---------- names ----------

  function Utf8Width(c: char): nat {
    var code := c as int;
    if code < 0x80 then 1 else if code < 0x800 then 2 else if code < 0x1_0000 then 3 else 4
  }

  function TextBytes(text: string): nat {
    SumBy(text, Utf8Width)
  }

  predicate IsControl(c: char) {
    var code := c as int;
    code < 0x20 || 0x7F <= code < 0xA0
  }

  predicate ValidName(name: string) {
    name != [] && TextBytes(name) <= 256 && forall i :: 0 <= i < |name| ==> !IsControl(name[i])
  }

  predicate IsAbsolute(path: Path) {
    path != [] && path[0] == '/'
  }

  // ---------- one additive measure of what a record weighs on disk ----------

  function Digits(n: nat): (d: nat)
    ensures d >= 1
  {
    if n < 10 then 1 else 1 + Digits(n / 10)
  }

  function OptionalPathBytes(path: Option<Path>): nat {
    match path
    case None => 0
    case Some(p) => 17 + TextBytes(p)
  }

  function OptionalNameBytes(name: Option<string>): nat {
    match name
    case None => 0
    case Some(n) => 26 + TextBytes(n)
  }

  function OptionalFingerprintBytes(fingerprint: Option<Fingerprint>): nat {
    if fingerprint.None? then 4 else 66
  }

  function PlacementStateBytes(state: PlacementState): nat {
    match state
    case Active => 8
    case ClosePending => 15
    case Unavailable => 13
  }

  function BoolBytes(b: bool): nat {
    if b then 4 else 5
  }

  function PlacementBytes(p: Placement): nat {
    135 + OptionalNameBytes(p.ownerName) + Digits(p.ownerRevision) + OptionalPathBytes(p.cwd)
    + PlacementStateBytes(p.state)
  }

  function WorkspaceBytes(w: Workspace): nat {
    90 + Digits(w.revision) + TextBytes(w.name) + BoolBytes(w.closing)
    + SumBy(w.placements, PlacementBytes)
  }

  function PendingBytes(p: Pending): nat {
    640 + BoolBytes(p.createsWorkspace) + OptionalFingerprintBytes(p.semantic) + p.reservation
    + BoolBytes(p.attempted) + Digits(p.expectedRevision) + TextBytes(p.ownerName)
    + OptionalPathBytes(p.cwd)
  }

  function ResourceBytes(resource: Resource): nat {
    resource.bytes
  }

  function CompletedBytes(c: Completed): nat {
    300 + OptionalFingerprintBytes(c.semantic) + BoolBytes(c.createsWorkspace)
    + WorkspaceBytes(c.workspace) + ResourceBytes(c.resource)
  }

  function PendingCwdBytes(d: PendingCwd): nat {
    420 + Digits(d.expectedRevision) + Digits(d.expectedOwnerRevision) + TextBytes(d.requestedCwd)
    + TextBytes(d.cwd) + BoolBytes(d.attempted) + d.reservation
  }

  function CompletedCwdBytes(e: CompletedCwd): nat {
    300 + PendingCwdBytes(e.request) + TextBytes(e.result.cwd) + Digits(e.result.globalRevision)
    + Digits(e.result.ownerRevision)
  }

  function StoreBytes(s: State): nat {
    220 + SumBy(s.workspaces, WorkspaceBytes) + SumBy(s.pendings, PendingBytes)
    + SumBy(s.completed, CompletedBytes) + SumBy(s.pendingCwd, PendingCwdBytes)
    + SumBy(s.completedCwd, CompletedCwdBytes)
  }

  lemma {:induction false} DigitsGrow(m: nat, n: nat)
    requires m <= n
    ensures Digits(m) <= Digits(n)
  {
    if m >= 10 {
      DigitsGrow(m / 10, n / 10);
    }
  }

  function Power10(k: nat): nat {
    if k == 0 then 1 else 10 * Power10(k - 1)
  }

  lemma {:induction false} DigitsBound(n: nat, k: nat, limit: nat)
    requires k >= 1 && limit == Power10(k) && n < limit
    ensures Digits(n) <= k
  {
    if k > 1 && n >= 10 {
      DigitsBound(n / 10, k - 1, Power10(k - 1));
    }
  }

  lemma U64Digits(n: U64)
    ensures Digits(n) <= 20
  {
    assert Power10(5) == 100_000;
    assert Power10(10) == 10_000_000_000;
    assert Power10(15) == 1_000_000_000_000_000;
    assert Power10(20) == 100_000_000_000_000_000_000;
    DigitsBound(n, 20, Power10(20));
  }

  lemma {:induction false} NextDigits(n: nat)
    ensures Digits(n + 1) <= Digits(n) + 1
  {
    if n >= 10 {
      NextDigits(n / 10);
    }
  }
}
