/** The gate before a worktree is removed: inspection, activity, the blockers they
    raise, and the one blocker that may be overridden. */
module RemovalGate {
  import opened Basics
  import DiskUsage

  type Path = string

  const MAX_LISTED: nat := 512

  /** The reasons to refuse, in the alphabetical order of their texts. */
  datatype Blocker =
    | NoCommittedBranch
    | ActivityUnverified
    | ScanIncomplete
    | HiddenIndexEntries
    | LocalChanges
    | Locked
    | NestedRepository
    | PrimaryWorktree
    | ActiveShell
    | Submodules

  function Rank(b: Blocker): nat {
    match b
    case NoCommittedBranch => 0
    case ActivityUnverified => 1
    case ScanIncomplete => 2
    case HiddenIndexEntries => 3
    case LocalChanges => 4
    case Locked => 5
    case NestedRepository => 6
    case PrimaryWorktree => 7
    case ActiveShell => 8
    case Submodules => 9
  }

  datatype Target = Target(root: Path, commonDir: Path, gitDir: Path, branch: string, head: string, device: nat,
                           inode: nat)

  datatype Status = Status(staged: nat, unstaged: nat, untracked: nat, conflicts: nat) {
    predicate Dirty() {
      staged + unstaged + untracked + conflicts > 0
    }
  }

  /** What the probes of one inspection found, had they all answered. */
  datatype Probe = Probe(
    target: Target,
    primary: bool,
    locked: bool,
    status: Status,
    gitmodules: bool,
    hiddenIndex: bool,
    rootMeta: Option<DiskUsage.Meta>,
    listing: DiskUsage.Listing,
    late: nat -> bool)

  datatype Shell = Shell(id: nat, name: string, cwd: Path, running: bool, run: Option<nat>)

  /** `live` says that the observed state is neither done nor inactive. */
  datatype Agent = Agent(shell: nat, run: nat, live: bool, contexts: seq<Path>)

  datatype WorkspaceView = WorkspaceView(name: string, shells: seq<Shell>, agents: seq<Agent>)

  datatype Line = Line(workspace: string, shell: string, running: bool)

  datatype Review = Review(target: Target, status: Status, blockers: seq<Blocker>, activity: seq<Line>,
                           bytes: U64, sizeComplete: bool)

  predicate CanDiscardChanges(review: Review) {
    review.status.Dirty() && forall i :: 0 <= i < |review.blockers| ==> review.blockers[i] == LocalChanges
  }

  // ---------- inspection ----------

  /** What the repository itself says against removal. */
  predicate Blocks(probe: Probe, b: Blocker) {
    match b
    case PrimaryWorktree => probe.primary || probe.target.commonDir == probe.target.gitDir
    case Locked => probe.locked
    case NoCommittedBranch => probe.target.branch == "(detached)" || probe.target.head == "(initial)"
    case LocalChanges => probe.status.Dirty()
    case Submodules => probe.gitmodules
    case HiddenIndexEntries => probe.hiddenIndex
    case _ => false
  }

  predicate TreeTyped(probe: Probe) {
    probe.listing.Listed? ==> DiskUsage.WellTyped(probe.listing.items)
  }

  /** Every entry under the root lies on its device and no directory is or holds a repository. */
  predicate TreeClean(probe: Probe) {
    && probe.rootMeta.Some? && probe.listing.Listed?
    && DiskUsage.Clean(probe.listing.items, probe.rootMeta.value.device, true)
  }

  predicate TreeUnique(probe: Probe) {
    probe.listing.Listed? ==> DiskUsage.DirectoriesUnique(DiskUsage.Metas(probe.listing.items))
  }

  /** None of the walk's limits on time, entries and depth is reached. */
  ghost predicate InLimits(probe: Probe) {
    && (forall turn :: !probe.late(turn))
    && (probe.listing.Listed? ==>
          && |DiskUsage.Metas(probe.listing.items)| < DiskUsage.MAX_SEEN
          && DiskUsage.Depth(probe.listing.items) < DiskUsage.MAX_DEPTH)
  }

  /** The root can be looked up and listed: there is a tree to walk. */
  predicate HasTree(probe: Probe) {
    probe.rootMeta.Some? && probe.listing.Listed?
  }

  predicate TreeForeign(probe: Probe) {
    HasTree(probe) && DiskUsage.Foreign(probe.listing.items, probe.rootMeta.value.device, true)
  }

  predicate TreeReadable(probe: Probe) {
    HasTree(probe) && DiskUsage.Readable(probe.listing.items, probe.rootMeta.value.device, true)
  }

  /** The weight of the distinct inodes of the tree, the root's included. */
  ghost function TreeBytes(probe: Probe): U64
    requires HasTree(probe)
  {
    var root := probe.rootMeta.value;
    DiskUsage.Saturated(
      DiskUsage.Weight(root)
      + DiskUsage.DistinctWeight(DiskUsage.Counted(probe.listing.items, root.device, true), {}))
  }

  lemma CleanTree(probe: Probe)
    ensures TreeClean(probe) <==> TreeReadable(probe) && !TreeForeign(probe)
  {
    if HasTree(probe) {
      DiskUsage.CleanMeaning(probe.listing.items, probe.rootMeta.value.device, true);
    }
  }

  method MeasureTree(probe: Probe) returns (bytes: U64, complete: bool, nested: bool)
    requires TreeTyped(probe)
    ensures nested ==> TreeForeign(probe)
    ensures TreeUnique(probe) && (complete || (HasTree(probe) && InLimits(probe))) ==>
              && HasTree(probe) && bytes == TreeBytes(probe)
              && (complete <==> TreeReadable(probe)) && (nested <==> TreeForeign(probe))
    ensures !HasTree(probe) ==> !complete && !nested
  {
    hide DiskUsage.Clean, DiskUsage.Foreign, DiskUsage.Readable, DiskUsage.WellTyped, DiskUsage.Metas,
         DiskUsage.Depth, DiskUsage.Counted, DiskUsage.DirectoriesUnique, DiskUsage.DistinctWeight;
    ghost var cut;
    bytes, complete, nested, cut := DiskUsage.Measure(probe.rootMeta, probe.listing, probe.late);
  }

  method RepositoryBlockers(probe: Probe) returns (blockers: seq<Blocker>)
    ensures forall b :: b in blockers <==> Blocks(probe, b)
  {
    blockers := [];
    if probe.primary || probe.target.commonDir == probe.target.gitDir {
      blockers := blockers + [PrimaryWorktree];
    }
    if probe.locked {
      blockers := blockers + [Locked];
    }
    if probe.target.branch == "(detached)" || probe.target.head == "(initial)" {
      blockers := blockers + [NoCommittedBranch];
    }
    if probe.status.Dirty() {
      blockers := blockers + [LocalChanges];
    }
    if probe.gitmodules {
      blockers := blockers + [Submodules];
    }
    if probe.hiddenIndex {
      blockers := blockers + [HiddenIndexEntries];
    }
  }

  /** Exactly the blockers the repository gives cause for, and two more from the walk: an
      incomplete scan whenever the size is not complete, and a nested repository only when the
      walk reaches one. Within the limits, and whenever the size is complete, both are exact
      and the size is that of the tree. */
  method Inspect(probe: Probe) returns (review: Review)
    requires TreeTyped(probe)
    ensures review.target == probe.target && review.status == probe.status && review.activity == []
    ensures forall b :: b in review.blockers <==>
                        Blocks(probe, b) || (b == NestedRepository && NestedRepository in review.blockers)
                        || (b == ScanIncomplete && !review.sizeComplete)
    ensures NestedRepository in review.blockers ==> TreeForeign(probe)
    ensures TreeUnique(probe) && (review.sizeComplete || (HasTree(probe) && InLimits(probe))) ==>
              && HasTree(probe) && review.bytes == TreeBytes(probe)
              && (review.sizeComplete <==> TreeReadable(probe))
              && (NestedRepository in review.blockers <==> TreeForeign(probe))
    ensures TreeUnique(probe) && NestedRepository !in review.blockers && ScanIncomplete !in review.blockers ==>
              TreeClean(probe)
    ensures TreeUnique(probe) && InLimits(probe) && TreeClean(probe) ==>
              NestedRepository !in review.blockers && ScanIncomplete !in review.blockers
  {
    hide TreeTyped, TreeUnique, TreeClean, InLimits, TreeForeign, TreeReadable, TreeBytes;
    var blockers := RepositoryBlockers(probe);
    var bytes, complete, nested := MeasureTree(probe);
    CleanTree(probe);
    BlocksOnlyItsOwn(probe);
    CleanHasTree(probe);
    if nested {
      blockers := blockers + [NestedRepository];
    }
    if !complete {
      blockers := blockers + [ScanIncomplete];
    }
    review := Review(probe.target, probe.status, blockers, [], bytes, complete);
  }

  lemma CleanHasTree(probe: Probe)
    ensures TreeClean(probe) ==> HasTree(probe)
  {
  }

  // ---------- activity ----------

  /** What the daemon knows of its Shells when removal is asked for. `within` decides
      whether a path lies under the worktree's root. */
  datatype Activity = Activity(views: seq<WorkspaceView>, live: seq<(nat, Path)>, unknown: bool, within: Path -> bool)

  type Row = (WorkspaceView, Shell)

  function RowsOf(w: WorkspaceView, shells: seq<Shell>): seq<Row> {
    if shells == [] then [] else [(w, shells[0])] + RowsOf(w, shells[1..])
  }

  function Rows(views: seq<WorkspaceView>): seq<Row> {
    if views == [] then [] else RowsOf(views[0], views[0].shells) + Rows(views[1..])
  }

  predicate AgentWorks(a: Agent, s: Shell, within: Path -> bool) {
    && a.shell == s.id && s.run == Some(a.run) && a.live
    && exists i :: 0 <= i < |a.contexts| && within(a.contexts[i])
  }

  predicate HasContext(agents: seq<Agent>, s: Shell, within: Path -> bool) {
    exists i :: 0 <= i < |agents| && AgentWorks(agents[i], s, within)
  }

  predicate InDirectory(s: Shell, live: seq<(nat, Path)>, within: Path -> bool) {
    within(s.cwd) || exists i :: 0 <= i < |live| && live[i].0 == s.id && within(live[i].1)
  }

  /** A running Shell in the worktree, or a live Agent of its current run working there. */
  predicate Busy(row: Row, a: Activity) {
    || (row.1.running && InDirectory(row.1, a.live, a.within))
    || HasContext(row.0.agents, row.1, a.within)
  }

  function Shown(agents: seq<Agent>): seq<Agent> {
    if |agents| > MAX_LISTED then agents[..MAX_LISTED] else agents
  }

  predicate Verified(a: Activity) {
    var rows := Rows(a.views);
    !a.unknown && |rows| <= MAX_LISTED && forall i :: 0 <= i < |rows| ==> |rows[i].0.agents| <= MAX_LISTED
  }

  /** Whether one of the first n rows is seen to be busy. */
  predicate SeenBusy(rows: seq<Row>, n: nat, a: Activity)
    requires n <= |rows|
  {
    exists i :: 0 <= i < n && ((rows[i].1.running && InDirectory(rows[i].1, a.live, a.within))
                               || HasContext(Shown(rows[i].0.agents), rows[i].1, a.within))
  }

  predicate Associated(row: Row, a: Activity) {
    InDirectory(row.1, a.live, a.within) || HasContext(Shown(row.0.agents), row.1, a.within)
  }

  /** One line for each associated Shell among the first n rows. */
  function Lines(rows: seq<Row>, n: nat, a: Activity): seq<Line>
    requires n <= |rows|
  {
    if n == 0 then []
    else
      var (workspace, shell) := rows[n - 1];
      Lines(rows, n - 1, a)
      + if Associated(rows[n - 1], a) then [Line(workspace.name, shell.name, shell.running)] else []
  }

  lemma ShownContext(agents: seq<Agent>, s: Shell, within: Path -> bool)
    ensures HasContext(Shown(agents), s, within) ==> HasContext(agents, s, within)
    ensures |agents| <= MAX_LISTED ==> Shown(agents) == agents
  {
  }

  predicate Increasing(bs: seq<Blocker>) {
    forall i, j :: 0 <= i < j < |bs| ==> Rank(bs[i]) < Rank(bs[j])
  }

  /** Puts b in its place, once. */
  method InsertOnce(bs: seq<Blocker>, b: Blocker) returns (r: seq<Blocker>)
    requires Increasing(bs)
    ensures Increasing(r) && forall x :: x in r <==> x in bs || x == b
  {
    var i := 0;
    while i < |bs| && Rank(bs[i]) < Rank(b)
      invariant 0 <= i <= |bs|
      invariant forall j :: 0 <= j < i ==> Rank(bs[j]) < Rank(b)
    {
      i := i + 1;
    }
    if i < |bs| && bs[i] == b {
      return bs;
    }
    r := bs[..i] + [b] + bs[i..];
    Inserted(bs, i, b);
    InsertedInOrder(bs, i, b);
  }

  lemma Inserted(bs: seq<Blocker>, i: nat, b: Blocker)
    requires i <= |bs|
    ensures forall x :: x in bs[..i] + [b] + bs[i..] <==> x in bs || x == b
  {
    assert bs == bs[..i] + bs[i..];
  }

  lemma InsertedInOrder(bs: seq<Blocker>, i: nat, b: Blocker)
    requires i <= |bs| && Increasing(bs)
    requires forall j :: 0 <= j < i ==> Rank(bs[j]) < Rank(b)
    requires i < |bs| ==> Rank(b) < Rank(bs[i])
    ensures Increasing(bs[..i] + [b] + bs[i..])
  {
    hide Rank;
    var r := bs[..i] + [b] + bs[i..];
    forall j, k | 0 <= j < k < |r|
      ensures Rank(r[j]) < Rank(r[k])
    {
      assert k > i ==> r[k] == bs[k - 1];
    }
  }

  method SortAndDedup(bs: seq<Blocker>) returns (r: seq<Blocker>)
    ensures Increasing(r) && forall b :: b in r <==> b in bs
  {
    r := [];
    for i := 0 to |bs|
      invariant Increasing(r) && forall b :: b in r <==> b in bs[..i]
    {
      assert bs[..i + 1] == bs[..i] + [bs[i]];
      r := InsertOnce(r, bs[i]);
    }
    assert bs[..|bs|] == bs;
  }

  /** Lists the Shells associated with the worktree and blocks on a busy one; whatever
      lies beyond the two cut-offs blocks as well. */
  method AddActivity(review: Review, a: Activity) returns (r: Review)
    ensures r == review.(blockers := r.blockers, activity := r.activity)
    ensures var rows := Rows(a.views);
            r.activity == review.activity + Lines(rows, if |rows| < MAX_LISTED then |rows| else MAX_LISTED, a)
    ensures Increasing(r.blockers)
    ensures forall b :: b !in {ActiveShell, ActivityUnverified} ==> (b in r.blockers <==> b in review.blockers)
    ensures ActivityUnverified in r.blockers <==> ActivityUnverified in review.blockers || !Verified(a)
    ensures ActiveShell in r.blockers && ActiveShell !in review.blockers ==>
              exists i :: 0 <= i < |Rows(a.views)| && Busy(Rows(a.views)[i], a)
    ensures ActivityUnverified !in r.blockers && ActiveShell !in r.blockers ==>
              forall i :: 0 <= i < |Rows(a.views)| ==> !Busy(Rows(a.views)[i], a)
  {
    hide Rows, InDirectory, HasContext, Shown, Busy, Increasing;
    var rows := Rows(a.views);
    var unknown := a.unknown;
    var blockers, activity := review.blockers, review.activity;
    var index := 0;
    while index < |rows|
      invariant index <= |rows| && index <= MAX_LISTED
      invariant unknown <==> a.unknown || exists i :: 0 <= i < index && |rows[i].0.agents| > MAX_LISTED
      invariant activity == review.activity + Lines(rows, index, a)
      invariant forall b :: b != ActiveShell ==> (b in blockers <==> b in review.blockers)
      invariant ActiveShell in blockers <==> ActiveShell in review.blockers || SeenBusy(rows, index, a)
    {
      var (workspace, shell) := rows[index];
      if |workspace.agents| > MAX_LISTED {
        unknown := true;
      }
      if index >= MAX_LISTED {
        unknown := true;
        break;
      }
      var context := HasContext(Shown(workspace.agents), shell, a.within);
      var associated := InDirectory(shell, a.live, a.within) || context;
      if associated {
        activity := activity + [Line(workspace.name, shell.name, shell.running)];
        if shell.running || context {
          blockers := blockers + [ActiveShell];
        }
      }
      index := index + 1;
    }
    assert index < |rows| ==> !Verified(a);
    assert unknown <==> !Verified(a);
    ActivityMeaning(rows, index, a);
    if unknown {
      blockers := blockers + [ActivityUnverified];
    }
    var sorted := SortAndDedup(blockers);
    r := review.(blockers := sorted, activity := activity);
  }

  lemma ActivityMeaning(rows: seq<Row>, n: nat, a: Activity)
    requires n <= |rows|
    ensures SeenBusy(rows, n, a) ==> exists i :: 0 <= i < |rows| && Busy(rows[i], a)
    ensures n == |rows| && (forall i :: 0 <= i < |rows| ==> |rows[i].0.agents| <= MAX_LISTED) && !SeenBusy(rows, n, a)
            ==> forall i :: 0 <= i < |rows| ==> !Busy(rows[i], a)
  {
    hide HasContext;
    forall i | 0 <= i < |rows|
      ensures HasContext(Shown(rows[i].0.agents), rows[i].1, a.within) ==>
                HasContext(rows[i].0.agents, rows[i].1, a.within)
      ensures |rows[i].0.agents| <= MAX_LISTED ==> Shown(rows[i].0.agents) == rows[i].0.agents
    {
      ShownContext(rows[i].0.agents, rows[i].1, a.within);
    }
    if SeenBusy(rows, n, a) {
      var i :| 0 <= i < n && ((rows[i].1.running && InDirectory(rows[i].1, a.live, a.within))
                              || HasContext(Shown(rows[i].0.agents), rows[i].1, a.within));
      assert Busy(rows[i], a);
    }
  }

  // ---------- removal ----------

  datatype Outcome = Removed | Refused | OutcomeUnknown

  /** Everything a removal must find to be true. */
  ghost predicate Permitted(expected: Target, discard: bool, probe: Probe, a: Activity, head: Option<string>,
                            branch: Option<string>)
  {
    && probe.target == expected
    && (forall b :: b != LocalChanges ==> !Blocks(probe, b))
    && (probe.status.Dirty() ==> discard)
    && TreeClean(probe)
    && Verified(a)
    && (forall i :: 0 <= i < |Rows(a.views)| ==> !Busy(Rows(a.views)[i], a))
    && head == Some(expected.head) && branch == Some(expected.branch)
  }

  /** `issued` is the removal command's force flag, if it was run. The command runs only
      for what Permitted describes, and for all of that within the walk's limits. */
  method Remove(expected: Target, discard: bool, inspected: Option<Probe>, activity: Option<Activity>,
                head: Option<string>, branch: Option<string>, confirmed: bool)
    returns (outcome: Outcome, issued: Option<bool>)
    requires inspected.Some? ==> TreeTyped(inspected.value)
    ensures issued.Some? ==> inspected.Some? && activity.Some?
    ensures issued.Some? && TreeUnique(inspected.value) ==>
              Permitted(expected, discard, inspected.value, activity.value, head, branch)
    ensures (inspected.Some? && activity.Some? && TreeUnique(inspected.value) && InLimits(inspected.value)
             && Permitted(expected, discard, inspected.value, activity.value, head, branch)) ==> issued.Some?
    ensures issued.Some? ==> issued.value == discard
    ensures outcome == if issued.None? then Refused else if confirmed then Removed else OutcomeUnknown
  {
    hide TreeTyped, TreeUnique, TreeClean, InLimits, Busy, Rows, Verified, Blocks;
    outcome, issued := Refused, None;
    if inspected.None? {
      return;
    }
    var current := Inspect(inspected.value);
    if current.target != expected {
      return;
    }
    if activity.None? {
      return;
    }
    BlocksOnlyItsOwn(inspected.value);
    current := AddActivity(current, activity.value);
    ghost var raised := current.blockers;
    if discard && CanDiscardChanges(current) {
      current := current.(blockers := []);
    }
    assert current.blockers == [] ==> forall b :: b in raised ==> b == LocalChanges;
    if current.blockers != [] {
      assert raised[0] in raised;
      assert forall i :: 0 <= i < |raised| ==> raised[i] in raised;
      return;
    }
    if head != Some(expected.head) || branch != Some(expected.branch) {
      return;
    }
    issued := Some(discard);
    outcome := if confirmed then Removed else OutcomeUnknown;
  }

  /** Local changes block exactly when there are some, and the four blockers found by
      other means are not the repository's to raise. */
  lemma BlocksOnlyItsOwn(probe: Probe)
    ensures Blocks(probe, LocalChanges) <==> probe.status.Dirty()
    ensures !Blocks(probe, NestedRepository) && !Blocks(probe, ScanIncomplete)
    ensures !Blocks(probe, ActiveShell) && !Blocks(probe, ActivityUnverified)
  {
  }
}
