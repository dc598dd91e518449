/** Workspace conversations: one entry for each harness session, and the plan that
    opens one without ever starting it twice. */
module Conversations {
  import opened Basics
  import GeneratedNames

  // Identifiers and harness keys are only compared and ordered.
  type Id = nat

  datatype AgentState = Unknown | Working | Blocked | Idle | Inactive | Done

  datatype Agent = Agent(
    id: Id,
    workspace: Id,
    shell: Id,
    run: Id,
    name: string,
    integration: Id,
    session: Option<Id>,
    startedAt: nat,
    observedAt: nat,
    state: AgentState,
    cwd: Option<string>)

  datatype ShellStatus = Pending | Running | Exited

  type Command = seq<string>

  datatype Shell = Shell(id: Id, workspace: Id, name: string, command: Command, status: ShellStatus, run: Option<Id>)

  datatype Workspace = Workspace(id: Id, defaultCwd: Option<string>, shells: seq<Shell>, agents: seq<Agent>)

  /** What the integrations say: which session ids are well formed, which could be
      taken for an option, and the exact resume command of a session. */
  datatype Registry = Registry(
    valid: Id -> bool,
    dashed: Id -> bool,
    resumable: Id -> bool,
    command: (Id, Id) -> Option<Command>,
    canonical: Id -> Id)

  datatype Conversation = Conversation(
    agentId: Id,
    integration: Id,
    session: Id,
    title: string,
    updatedAt: nat,
    runningShell: Option<Id>,
    resumable: bool)

  type Key = (Id, Id)

  function KeyOf(c: Conversation): Key {
    (c.integration, c.session)
  }

  // ---------- searches ----------

  /** The shell a map from ids would hold: the last with this id. */
  function ShellById(shells: seq<Shell>, id: Id): Option<Shell> {
    if shells == [] then None
    else if shells[|shells| - 1].id == id then Some(shells[|shells| - 1])
    else ShellById(shells[..|shells| - 1], id)
  }

  /** The first shell with this id. */
  function FindShell(shells: seq<Shell>, id: Id): Option<Shell> {
    if shells == [] then None else if shells[0].id == id then Some(shells[0]) else FindShell(shells[1..], id)
  }

  function FindAgent(agents: seq<Agent>, id: Id): Option<Agent> {
    if agents == [] then None else if agents[0].id == id then Some(agents[0]) else FindAgent(agents[1..], id)
  }

  function FindMember(agents: seq<Agent>, id: Id, workspace: Id): Option<Agent> {
    if agents == [] then None
    else if agents[0].id == id && agents[0].workspace == workspace then Some(agents[0])
    else FindMember(agents[1..], id, workspace)
  }

  function RunningShell(shells: seq<Shell>, a: Agent): Option<Shell> {
    var shell := ShellById(shells, a.shell);
    if a.state.Inactive? || a.state.Done? || shell.None? then None
    else if shell.value.status.Running? && shell.value.run == Some(a.run) then shell
    else None
  }

  // ---------- one entry a conversation ----------

  predicate Counts(reg: Registry, w: Workspace, a: Agent) {
    a.workspace == w.id && a.session.Some? && reg.valid(a.session.value)
  }

  function EntryOf(reg: Registry, w: Workspace, a: Agent): Conversation
    requires a.session.Some?
  {
    var running := RunningShell(w.shells, a);
    Conversation(a.id, a.integration, a.session.value, a.name,
                 if a.observedAt > a.startedAt then a.observedAt else a.startedAt,
                 if running.Some? then Some(running.value.id) else None,
                 reg.resumable(a.integration))
  }

  /** Later by (running, time, agent id). */
  predicate Newer(a: Conversation, b: Conversation) {
    if a.runningShell.Some? != b.runningShell.Some? then a.runningShell.Some?
    else a.updatedAt > b.updatedAt || (a.updatedAt == b.updatedAt && a.agentId > b.agentId)
  }

  /** The entry kept for a key after going through the agents in order. */
  function Best(reg: Registry, w: Workspace, agents: seq<Agent>, key: Key): Option<Conversation> {
    if agents == [] then None
    else
      var before := Best(reg, w, agents[..|agents| - 1], key);
      var a := agents[|agents| - 1];
      if !Counts(reg, w, a) || (a.integration, a.session.value) != key then before
      else if before.None? || Newer(EntryOf(reg, w, a), before.value) then Some(EntryOf(reg, w, a))
      else before
  }

  predicate Claimed(w: Workspace, shell: Id, run: Id) {
    exists a :: a in w.agents && a.workspace == w.id && a.session.Some? && a.shell == shell && a.run == run
  }

  /** A running shell whose run no reported session has claimed. */
  predicate MayBeResume(w: Workspace, s: Shell) {
    s.workspace == w.id && s.status.Running? && s.run.Some? && !Claimed(w, s.id, s.run.value)
  }

  /** Among them, the one with the least id that runs this command. */
  function ResumeOf(w: Workspace, shells: seq<Shell>, command: Command): Option<Shell> {
    if shells == [] then None
    else
      var before := ResumeOf(w, shells[..|shells| - 1], command);
      var s := shells[|shells| - 1];
      if !MayBeResume(w, s) || s.command != command then before
      else if before.None? || s.id < before.value.id then Some(s)
      else before
  }

  function CommandFor(reg: Registry, integration: Id, session: Id): Option<Command> {
    if reg.resumable(integration) then reg.command(integration, session) else None
  }

  /** An entry not known to run may be running under its exact resume command. */
  function Patched(reg: Registry, w: Workspace, c: Conversation): Conversation {
    var command := CommandFor(reg, c.integration, c.session);
    if c.runningShell.Some? || command.None? then c
    else
      var shell := ResumeOf(w, w.shells, command.value);
      if shell.None? then c else c.(runningShell := Some(shell.value.id))
  }

  function EntryFor(reg: Registry, w: Workspace, key: Key): Option<Conversation> {
    var best := Best(reg, w, w.agents, key);
    if best.None? then None else Some(Patched(reg, w, best.value))
  }

  predicate Speaks(reg: Registry, w: Workspace, a: Agent, key: Key) {
    Counts(reg, w, a) && (a.integration, a.session.value) == key
  }

  /** The kept entry is that of a counted agent of the conversation that no other
      agent of it surpasses; there is one exactly when there is such an agent. */
  lemma {:induction false} BestIsGreatest(reg: Registry, w: Workspace, agents: seq<Agent>, key: Key)
    ensures match Best(reg, w, agents, key)
            case None => forall i :: 0 <= i < |agents| ==> !Speaks(reg, w, agents[i], key)
            case Some(c) =>
              && KeyOf(c) == key
              && (exists i :: 0 <= i < |agents| && Speaks(reg, w, agents[i], key) && c == EntryOf(reg, w, agents[i]))
              && (forall i :: 0 <= i < |agents| && Speaks(reg, w, agents[i], key) ==>
                    !Newer(EntryOf(reg, w, agents[i]), c))
  {
    if agents != [] {
      var init := agents[..|agents| - 1];
      BestIsGreatest(reg, w, init, key);
      assert forall i :: 0 <= i < |init| ==> agents[i] == init[i];
      var before := Best(reg, w, init, key);
      if before.Some? {
        var i :| 0 <= i < |init| && Speaks(reg, w, init[i], key) && before.value == EntryOf(reg, w, init[i]);
        assert agents[i] == init[i];
      }
    }
  }

  // ---------- the listing ----------

  predicate Precedes(a: Conversation, b: Conversation) {
    a.updatedAt > b.updatedAt || (a.updatedAt == b.updatedAt && a.agentId <= b.agentId)
  }

  predicate Ordered(cs: seq<Conversation>) {
    forall i, j :: 0 <= i < j < |cs| ==> Precedes(cs[i], cs[j])
  }

  /** Latest first, then by agent id; a stable sort. */
  function Sorted(cs: seq<Conversation>): (r: seq<Conversation>)
    ensures |r| == |cs|
  {
    if cs == [] then [] else Placed(Sorted(cs[..|cs| - 1]), cs[|cs| - 1])
  }

  function Placed(cs: seq<Conversation>, c: Conversation): (r: seq<Conversation>)
    ensures |r| == |cs| + 1
  {
    if cs == [] then [c]
    else if Precedes(cs[|cs| - 1], c) then cs + [c]
    else Placed(cs[..|cs| - 1], c) + [cs[|cs| - 1]]
  }

  lemma {:induction false} PlacedContent(cs: seq<Conversation>, c: Conversation)
    ensures multiset(Placed(cs, c)) == multiset(cs) + multiset{c}
  {
    hide Precedes;
    if cs != [] && !Precedes(cs[|cs| - 1], c) {
      var init, last := cs[..|cs| - 1], cs[|cs| - 1];
      PlacedContent(init, c);
      assert cs == init + [last];
    }
  }

  lemma PlacedBefore(cs: seq<Conversation>, c: Conversation, last: Conversation)
    requires Precedes(c, last) && forall i :: 0 <= i < |cs| ==> Precedes(cs[i], last)
    ensures forall i :: 0 <= i < |Placed(cs, c)| ==> Precedes(Placed(cs, c)[i], last)
  {
    hide Precedes;
    PlacedContent(cs, c);
    forall i | 0 <= i < |Placed(cs, c)|
      ensures Precedes(Placed(cs, c)[i], last)
    {
      assert Placed(cs, c)[i] in multiset(cs) + multiset{c};
    }
  }

  lemma {:induction false} PlacedOrdered(cs: seq<Conversation>, c: Conversation)
    requires Ordered(cs)
    ensures Ordered(Placed(cs, c))
  {
    if cs != [] && !Precedes(cs[|cs| - 1], c) {
      var init, last := cs[..|cs| - 1], cs[|cs| - 1];
      PlacedOrdered(init, c);
      PlacedBefore(init, c, last);
    }
  }

  lemma {:induction false} SortedMeaning(cs: seq<Conversation>)
    ensures Ordered(Sorted(cs)) && multiset(Sorted(cs)) == multiset(cs)
  {
    hide Precedes, Placed, Ordered;
    if cs == [] {
      NoneOrdered();
    } else {
      var init, last := cs[..|cs| - 1], cs[|cs| - 1];
      SortedMeaning(init);
      PlacedOrdered(Sorted(init), last);
      PlacedContent(Sorted(init), last);
      assert cs == init + [last];
    }
  }

  lemma NoneOrdered()
    ensures Ordered([])
  {
  }

  /** Exactly one entry, the right one, for each conversation that some agent counts for. */
  ghost predicate IsListing(reg: Registry, w: Workspace, cs: seq<Conversation>) {
    && (forall i :: 0 <= i < |cs| ==> EntryFor(reg, w, KeyOf(cs[i])) == Some(cs[i]))
    && (forall i, j :: 0 <= i < j < |cs| ==> KeyOf(cs[i]) != KeyOf(cs[j]))
    && (forall key :: EntryFor(reg, w, key).Some? ==> exists i :: 0 <= i < |cs| && KeyOf(cs[i]) == key)
  }

  method ResumesOf(w: Workspace) returns (resumes: map<Command, Shell>)
    ensures forall c :: c in resumes <==> ResumeOf(w, w.shells, c).Some?
    ensures forall c :: c in resumes ==> ResumeOf(w, w.shells, c) == Some(resumes[c])
  {
    resumes := map[];
    assert w.shells[..0] == [];
    for i := 0 to |w.shells|
      invariant forall c :: c in resumes <==> ResumeOf(w, w.shells[..i], c).Some?
      invariant forall c :: c in resumes ==> ResumeOf(w, w.shells[..i], c) == Some(resumes[c])
    {
      var shell := w.shells[i];
      assert w.shells[..i + 1][..i] == w.shells[..i];
      if MayBeResume(w, shell) {
        if shell.command !in resumes || shell.id < resumes[shell.command].id {
          resumes := resumes[shell.command := shell];
        }
      }
    }
    assert w.shells[..|w.shells|] == w.shells;
  }

  method KeepNewest(reg: Registry, w: Workspace) returns (entries: map<Key, Conversation>)
    ensures forall key :: key in entries <==> Best(reg, w, w.agents, key).Some?
    ensures forall key :: key in entries ==> Best(reg, w, w.agents, key) == Some(entries[key])
  {
    entries := map[];
    assert w.agents[..0] == [];
    for i := 0 to |w.agents|
      invariant forall key :: key in entries <==> Best(reg, w, w.agents[..i], key).Some?
      invariant forall key :: key in entries ==> Best(reg, w, w.agents[..i], key) == Some(entries[key])
    {
      var a := w.agents[i];
      assert w.agents[..i + 1][..i] == w.agents[..i];
      if Counts(reg, w, a) {
        var entry := EntryOf(reg, w, a);
        var key := (entry.integration, entry.session);
        if key !in entries || Newer(entry, entries[key]) {
          entries := entries[key := entry];
        }
      }
    }
    assert w.agents[..|w.agents|] == w.agents;
  }

  /** The entry as it is shown: running, if its exact resume command is. */
  method PatchRunning(reg: Registry, w: Workspace, resumes: map<Command, Shell>, entry: Conversation)
    returns (r: Conversation)
    requires forall c :: c in resumes <==> ResumeOf(w, w.shells, c).Some?
    requires forall c :: c in resumes ==> ResumeOf(w, w.shells, c) == Some(resumes[c])
    ensures r == Patched(reg, w, entry)
  {
    hide ResumeOf;
    r := entry;
    if entry.runningShell.None? {
      var command := CommandFor(reg, entry.integration, entry.session);
      if command.Some? && command.value in resumes {
        r := entry.(runningShell := Some(resumes[command.value].id));
      }
    }
  }

  /** All keys but those left have their entry. */
  ghost predicate Collected(reg: Registry, w: Workspace, cs: seq<Conversation>, left: set<Key>) {
    && (forall i :: 0 <= i < |cs| ==> EntryFor(reg, w, KeyOf(cs[i])) == Some(cs[i]) && KeyOf(cs[i]) !in left)
    && (forall i, j :: 0 <= i < j < |cs| ==> KeyOf(cs[i]) != KeyOf(cs[j]))
    && (forall key :: EntryFor(reg, w, key).Some? && key !in left ==> exists i :: 0 <= i < |cs| && KeyOf(cs[i]) == key)
  }

  lemma CollectOne(reg: Registry, w: Workspace, cs: seq<Conversation>, left: set<Key>, c: Conversation)
    requires Collected(reg, w, cs, left) && KeyOf(c) in left && EntryFor(reg, w, KeyOf(c)) == Some(c)
    ensures Collected(reg, w, cs + [c], left - {KeyOf(c)})
  {
    hide EntryFor;
    var more := cs + [c];
    forall key | EntryFor(reg, w, key).Some? && key !in left - {KeyOf(c)}
      ensures exists i :: 0 <= i < |more| && KeyOf(more[i]) == key
    {
      if key == KeyOf(c) {
        assert more[|cs|] == c;
      } else {
        var i :| 0 <= i < |cs| && KeyOf(cs[i]) == key;
        assert more[i] == cs[i];
      }
    }
  }

  lemma BestHasKey(reg: Registry, w: Workspace, key: Key)
    requires Best(reg, w, w.agents, key).Some?
    ensures KeyOf(Best(reg, w, w.agents, key).value) == key
    ensures EntryFor(reg, w, key) == Some(Patched(reg, w, Best(reg, w, w.agents, key).value))
    ensures KeyOf(Patched(reg, w, Best(reg, w, w.agents, key).value)) == key
  {
    BestIsGreatest(reg, w, w.agents, key);
  }

  method List(reg: Registry, w: Workspace) returns (cs: seq<Conversation>)
    ensures IsListing(reg, w, cs) && Ordered(cs)
  {
    var resumes := ResumesOf(w);
    var entries := KeepNewest(reg, w);
    var patched: seq<Conversation> := [];
    var left := entries.Keys;
    assert Collected(reg, w, patched, left);
    while left != {}
      invariant left <= entries.Keys && Collected(reg, w, patched, left)
      decreases |left|
    {
      hide Collected, Best, EntryFor, ResumeOf, Patched, KeyOf;
      var key :| key in left;
      BestHasKey(reg, w, key);
      var entry := PatchRunning(reg, w, resumes, entries[key]);
      CollectOne(reg, w, patched, left, entry);
      patched := patched + [entry];
      left := left - {key};
    }
    assert IsListing(reg, w, patched);
    SortedMeaning(patched);
    PermutedListing(reg, w, patched, Sorted(patched));
    cs := Sorted(patched);
  }

  lemma PermutedListing(reg: Registry, w: Workspace, a: seq<Conversation>, b: seq<Conversation>)
    requires IsListing(reg, w, a) && multiset(a) == multiset(b)
    ensures IsListing(reg, w, b)
  {
    forall i | 0 <= i < |b|
      ensures EntryFor(reg, w, KeyOf(b[i])) == Some(b[i])
    {
      assert b[i] in multiset(b);
      assert b[i] in a;
    }
    forall i, j | 0 <= i < j < |b|
      ensures KeyOf(b[i]) != KeyOf(b[j])
    {
      if KeyOf(b[i]) == KeyOf(b[j]) {
        TwiceIn(b, i, j);
        NotTwice(a, b[i]);
      }
    }
    forall key | EntryFor(reg, w, key).Some?
      ensures exists i :: 0 <= i < |b| && KeyOf(b[i]) == key
    {
      var i :| 0 <= i < |a| && KeyOf(a[i]) == key;
      assert a[i] in multiset(a);
      assert a[i] in b;
    }
  }

  lemma TwiceIn(b: seq<Conversation>, i: nat, j: nat)
    requires i < j < |b| && b[i] == b[j]
    ensures multiset(b)[b[i]] >= 2
  {
    assert b == b[..j] + [b[j]] + b[j + 1..];
    assert b[i] in b[..j];
  }

  lemma {:induction false} NotTwice(a: seq<Conversation>, c: Conversation)
    requires forall i, j :: 0 <= i < j < |a| ==> KeyOf(a[i]) != KeyOf(a[j])
    ensures multiset(a)[c] <= 1
  {
    if a != [] {
      var init, last := a[..|a| - 1], a[|a| - 1];
      assert a == init + [last];
      NotTwice(init, c);
      if last == c {
        assert c !in init;
      }
    }
  }

  // ---------- titles from the harness's own catalogue ----------

  datatype HostSession = HostSession(integration: Id, root: Id, title: string, updatedAt: nat)

  /** The last titled session of this canonical identity. */
  function TitleFor(reg: Registry, sessions: seq<HostSession>, key: Key): Option<HostSession> {
    if sessions == [] then None
    else
      var last := sessions[|sessions| - 1];
      if last.title != "" && (reg.canonical(last.integration), last.root) == key then Some(last)
      else TitleFor(reg, sessions[..|sessions| - 1], key)
  }

  function Enriched(reg: Registry, sessions: seq<HostSession>, c: Conversation): Conversation {
    var found := TitleFor(reg, sessions, (reg.canonical(c.integration), c.session));
    if found.None? then c
    else c.(title := found.value.title,
            updatedAt := if found.value.updatedAt > c.updatedAt then found.value.updatedAt else c.updatedAt)
  }

  function EnrichedAll(reg: Registry, sessions: seq<HostSession>, cs: seq<Conversation>): (r: seq<Conversation>)
    ensures |r| == |cs| && forall i :: 0 <= i < |cs| ==> r[i] == Enriched(reg, sessions, cs[i])
  {
    if cs == [] then [] else EnrichedAll(reg, sessions, cs[..|cs| - 1]) + [Enriched(reg, sessions, cs[|cs| - 1])]
  }

  /** Titles arrive trimmed. Nothing is added or dropped: each entry is enriched, and the order restored. */
  method EnrichTitles(reg: Registry, entries: seq<Conversation>, sessions: seq<HostSession>)
    returns (r: seq<Conversation>)
    ensures Ordered(r)
    ensures multiset(r) == multiset(EnrichedAll(reg, sessions, entries))
  {
    var titles: map<Key, HostSession> := map[];
    assert sessions[..0] == [];
    for i := 0 to |sessions|
      invariant forall key :: key in titles <==> TitleFor(reg, sessions[..i], key).Some?
      invariant forall key :: key in titles ==> TitleFor(reg, sessions[..i], key) == Some(titles[key])
    {
      assert sessions[..i + 1][..i] == sessions[..i];
      if sessions[i].title != "" {
        titles := titles[(reg.canonical(sessions[i].integration), sessions[i].root) := sessions[i]];
      }
    }
    assert sessions[..|sessions|] == sessions;
    r := entries;
    for i := 0 to |r|
      invariant |r| == |entries|
      invariant forall j :: 0 <= j < i ==> r[j] == Enriched(reg, sessions, entries[j])
      invariant forall j :: i <= j < |r| ==> r[j] == entries[j]
    {
      var key := (reg.canonical(r[i].integration), r[i].session);
      if key in titles {
        var found := titles[key];
        r := r[i := r[i].(title := found.title,
                          updatedAt := if found.updatedAt > r[i].updatedAt then found.updatedAt else r[i].updatedAt)];
      }
    }
    assert r == EnrichedAll(reg, sessions, entries);
    SortedMeaning(r);
    r := Sorted(r);
  }

  // ---------- opening a conversation ----------

  datatype ShellSpec = ShellSpec(name: string, cwd: string, command: Command)

  datatype PlanError = NotInWorkspace | NoSession | InvalidSession | OptionLike | Unavailable | NoResume | CannotResume
                     | NoDirectory | NamesExhausted

  datatype OpenPlan = Existing(shell: Shell) | Resume(spec: ShellSpec)

  /** A run of this shell is claimed by a reported session, in any Workspace's records. */
  predicate RunClaimed(w: Workspace, s: Shell) {
    exists a :: a in w.agents && a.shell == s.id && a.session.Some? && s.run == Some(a.run)
  }

  /** A resume of this command under way: the very shell asked for, a pending one, or
      a running one that no session has claimed. */
  predicate InFlight(w: Workspace, s: Shell, command: Command, shellId: Id) {
    s.command == command && (s.id == shellId || s.status.Pending? || (s.status.Running? && !RunClaimed(w, s)))
  }

  function FindInFlight(w: Workspace, shells: seq<Shell>, command: Command, shellId: Id): (r: Option<Shell>)
    ensures r.Some? ==> r.value in shells && InFlight(w, r.value, command, shellId)
    ensures r.None? ==> forall i :: 0 <= i < |shells| ==> !InFlight(w, shells[i], command, shellId)
  {
    if shells == [] then None
    else if InFlight(w, shells[0], command, shellId) then Some(shells[0])
    else
      var rest := FindInFlight(w, shells[1..], command, shellId);
      assert forall i :: 0 < i < |shells| ==> shells[i] == shells[1..][i - 1];
      rest
  }

  function ShellNames(shells: seq<Shell>): set<string> {
    set s | s in shells :: s.name
  }

  /** What is left to decide once the conversation is known not to be running. */
  function PlanResume(reg: Registry, w: Workspace, a: Agent, newest: Agent, shellId: Id, seed: U64)
    : Result<OpenPlan, PlanError>
    requires a.session.Some?
  {
    var cwd := if newest.cwd.Some? then newest.cwd else w.defaultCwd;
    if !reg.resumable(a.integration) then Failure(NoResume)
    else if reg.command(a.integration, a.session.value).None? then Failure(CannotResume)
    else
      var command := reg.command(a.integration, a.session.value).value;
      var flying := FindInFlight(w, w.shells, command, shellId);
      var name := GeneratedNames.FromSeed(seed, ShellNames(w.shells));
      if flying.Some? then Success(Existing(flying.value))
      else if cwd.None? then Failure(NoDirectory)
      else if name.None? then Failure(NamesExhausted)
      else Success(Resume(ShellSpec(name.value, cwd.value, command)))
  }

  function PlanFor(reg: Registry, w: Workspace, agentId: Id, shellId: Id, seed: U64): Result<OpenPlan, PlanError> {
    var found := FindMember(w.agents, agentId, w.id);
    if found.None? then Failure(NotInWorkspace)
    else if found.value.session.None? then Failure(NoSession)
    else if !reg.valid(found.value.session.value) then Failure(InvalidSession)
    else if reg.dashed(found.value.session.value) then Failure(OptionLike)
    else
      var a := found.value;
      var entry := EntryFor(reg, w, (a.integration, a.session.value));
      if entry.None? then Failure(Unavailable)
      else if entry.value.runningShell.Some? then
        var shell := FindShell(w.shells, entry.value.runningShell.value);
        if shell.None? then Failure(Unavailable) else Success(Existing(shell.value))
      else
        var newest := FindAgent(w.agents, entry.value.agentId);
        if newest.None? then Failure(Unavailable) else PlanResume(reg, w, a, newest.value, shellId, seed)
  }

  lemma {:induction false} ShellByIdMeaning(shells: seq<Shell>, id: Id)
    ensures var r := ShellById(shells, id);
            if r.None? then forall i :: 0 <= i < |shells| ==> shells[i].id != id
            else r.value in shells && r.value.id == id
  {
    if shells != [] && shells[|shells| - 1].id != id {
      ShellByIdMeaning(shells[..|shells| - 1], id);
    }
  }

  lemma {:induction false} FindShellMeaning(shells: seq<Shell>, id: Id)
    ensures var r := FindShell(shells, id);
            if r.None? then forall s :: s in shells ==> s.id != id else r.value in shells && r.value.id == id
  {
    if shells != [] && shells[0].id != id {
      FindShellMeaning(shells[1..], id);
    }
  }

  lemma {:induction false} FindAgentMeaning(agents: seq<Agent>, id: Id)
    ensures FindAgent(agents, id).None? ==> forall a :: a in agents ==> a.id != id
    ensures FindAgent(agents, id).Some? ==>
              FindAgent(agents, id).value in agents && FindAgent(agents, id).value.id == id
  {
    if agents != [] && agents[0].id != id {
      FindAgentMeaning(agents[1..], id);
    }
  }

  lemma {:induction false} FindMemberMeaning(agents: seq<Agent>, id: Id, workspace: Id)
    ensures var r := FindMember(agents, id, workspace);
            r.Some? ==> r.value in agents && r.value.id == id && r.value.workspace == workspace
  {
    if agents != [] && !(agents[0].id == id && agents[0].workspace == workspace) {
      FindMemberMeaning(agents[1..], id, workspace);
    }
  }

  lemma {:induction false} ResumeOfMeaning(w: Workspace, shells: seq<Shell>, command: Command)
    ensures var r := ResumeOf(w, shells, command);
            r.Some? ==> r.value in shells && MayBeResume(w, r.value) && r.value.command == command
                        && forall s :: s in shells && MayBeResume(w, s) && s.command == command ==> r.value.id <= s.id
    ensures ResumeOf(w, shells, command).None? ==>
              forall s :: s in shells ==> !(MayBeResume(w, s) && s.command == command)
  {
    hide MayBeResume;
    if shells != [] {
      ResumeOfMeaning(w, shells[..|shells| - 1], command);
      assert shells == shells[..|shells| - 1] + [shells[|shells| - 1]];
    }
  }

  /** Where an entry's running shell comes from: the agent's own run, or its exact resume command. */
  lemma RunningShellIsListed(reg: Registry, w: Workspace, key: Key)
    requires EntryFor(reg, w, key).Some?
    ensures var c := EntryFor(reg, w, key).value;
            && KeyOf(c) == key
            && (exists a :: a in w.agents && Speaks(reg, w, a, key) && a.id == c.agentId)
            && (c.runningShell.Some? ==>
                  exists s :: s in w.shells && s.id == c.runningShell.value
                              && (Carries(reg, w, s, key)
                                  || (MayBeResume(w, s) && Some(s.command) == CommandFor(reg, key.0, key.1))))
  {
    hide MayBeResume;
    BestIsGreatest(reg, w, w.agents, key);
    var best := Best(reg, w, w.agents, key).value;
    var i :| 0 <= i < |w.agents| && Speaks(reg, w, w.agents[i], key) && best == EntryOf(reg, w, w.agents[i]);
    var a := w.agents[i];
    assert a in w.agents;
    ShellByIdMeaning(w.shells, a.shell);
    if best.runningShell.Some? {
      var s := RunningShell(w.shells, a).value;
      assert Carries(reg, w, s, key);
    } else {
      var command := CommandFor(reg, key.0, key.1);
      if command.Some? {
        ResumeOfMeaning(w, w.shells, command.value);
      }
    }
  }

  /** The shell's current run is the run of a live agent of the conversation. */
  ghost predicate Carries(reg: Registry, w: Workspace, s: Shell, key: Key) {
    s.status.Running?
    && exists a :: a in w.agents && Speaks(reg, w, a, key) && a.shell == s.id && s.run == Some(a.run)
                   && !a.state.Inactive? && !a.state.Done?
  }

  /** The listing always holds what a plan looks up in it, so neither the lookups nor
      the "unavailable" answer can fail a plan. */
  lemma NeverUnavailable(reg: Registry, w: Workspace, agentId: Id, shellId: Id, seed: U64)
    ensures PlanFor(reg, w, agentId, shellId, seed) != Failure(Unavailable)
  {
    hide PlanResume, EntryFor, Carries, MayBeResume;
    var found := FindMember(w.agents, agentId, w.id);
    FindMemberMeaning(w.agents, agentId, w.id);
    if found.Some? && found.value.session.Some? && reg.valid(found.value.session.value) {
      var key := (found.value.integration, found.value.session.value);
      MemberHasEntry(reg, w, found.value);
      RunningShellIsListed(reg, w, key);
      var entry := EntryFor(reg, w, key).value;
      if entry.runningShell.Some? {
        FindShellMeaning(w.shells, entry.runningShell.value);
      }
      FindAgentMeaning(w.agents, entry.agentId);
      if FindAgent(w.agents, entry.agentId).Some? {
        ResumeIsAvailable(reg, w, found.value, FindAgent(w.agents, entry.agentId).value, shellId, seed);
      }
    }
  }

  lemma ResumeIsAvailable(reg: Registry, w: Workspace, a: Agent, newest: Agent, shellId: Id, seed: U64)
    requires a.session.Some?
    ensures PlanResume(reg, w, a, newest, shellId, seed) != Failure(Unavailable)
  {
  }

  lemma MemberHasEntry(reg: Registry, w: Workspace, a: Agent)
    requires a in w.agents && Counts(reg, w, a)
    ensures EntryFor(reg, w, (a.integration, a.session.value)).Some?
  {
    BestIsGreatest(reg, w, w.agents, (a.integration, a.session.value));
    var i :| 0 <= i < |w.agents| && w.agents[i] == a;
    assert Speaks(reg, w, w.agents[i], (a.integration, a.session.value));
  }

  /** The plan, as it is made: from the listing, by first matches. */
  method Plan(reg: Registry, w: Workspace, agentId: Id, shellId: Id, seed: U64) returns (r: Result<OpenPlan, PlanError>)
    ensures r == PlanFor(reg, w, agentId, shellId, seed)
  {
    hide PlanResume, EntryFor, IsListing;
    NeverUnavailable(reg, w, agentId, shellId, seed);
    var found := FindMember(w.agents, agentId, w.id);
    if found.None? {
      return Failure(NotInWorkspace);
    }
    var a := found.value;
    if a.session.None? {
      return Failure(NoSession);
    }
    if !reg.valid(a.session.value) {
      return Failure(InvalidSession);
    }
    if reg.dashed(a.session.value) {
      return Failure(OptionLike);
    }
    var cs := List(reg, w);
    var i := FindKey(reg, w, cs, (a.integration, a.session.value));
    if i == |cs| {
      return Failure(Unavailable);
    }
    var entry := cs[i];
    if entry.runningShell.Some? {
      var shell := FindShell(w.shells, entry.runningShell.value);
      return Success(Existing(shell.value));
    }
    var newest := FindAgent(w.agents, entry.agentId);
    r := PlanResume(reg, w, a, newest.value, shellId, seed);
  }

  /** The first entry with this key; the listing makes it the only one. */
  method FindKey(reg: Registry, w: Workspace, cs: seq<Conversation>, key: Key) returns (i: nat)
    requires IsListing(reg, w, cs)
    ensures i <= |cs|
    ensures i < |cs| ==> EntryFor(reg, w, key) == Some(cs[i])
    ensures i == |cs| ==> EntryFor(reg, w, key).None?
  {
    hide EntryFor;
    i := 0;
    while i < |cs| && KeyOf(cs[i]) != key
      invariant 0 <= i <= |cs|
      invariant forall j :: 0 <= j < i ==> KeyOf(cs[j]) != key
    {
      i := i + 1;
    }
  }

  /** A shell that was asked to resume a conversation and is still pending, or runs
      without any session having claimed its run. */
  predicate Opening(w: Workspace, s: Shell, command: Command) {
    s in w.shells && s.command == command && (s.status.Pending? || (s.status.Running? && !RunClaimed(w, s)))
  }

  lemma OpeningIsFound(reg: Registry, w: Workspace, a: Agent, newest: Agent, shellId: Id, seed: U64, s: Shell)
    requires a.session.Some? && CommandFor(reg, a.integration, a.session.value) == Some(s.command)
    requires Opening(w, s, s.command)
    ensures PlanResume(reg, w, a, newest, shellId, seed).Success?
            && PlanResume(reg, w, a, newest, shellId, seed).value.Existing?
  {
    var i :| 0 <= i < |w.shells| && w.shells[i] == s;
    assert InFlight(w, w.shells[i], s.command, shellId);
  }

  /** Once a plan has said to resume, every later plan for the same conversation, by
      whichever of its agents and whatever else has changed, opens an existing shell,
      as long as the resumed one is pending or runs unclaimed. */
  lemma OpenedOnce(reg: Registry, w: Workspace, agentId: Id, shellId: Id, seed: U64, later: Workspace, otherId: Id,
                   otherShell: Id, otherSeed: U64, s: Shell)
    requires var plan := PlanFor(reg, w, agentId, shellId, seed);
             plan.Success? && plan.value.Resume? && Opening(later, s, plan.value.spec.command)
    requires var a, b := FindMember(w.agents, agentId, w.id), FindMember(later.agents, otherId, later.id);
             b.Some? && b.value.integration == a.value.integration && b.value.session == a.value.session
    ensures var plan := PlanFor(reg, later, otherId, otherShell, otherSeed); plan.Success? && plan.value.Existing?
  {
    hide PlanResume, EntryFor, Opening;
    ResumedCommand(reg, w, agentId, shellId, seed);
    NeverUnavailable(reg, later, otherId, otherShell, otherSeed);
    var b := FindMember(later.agents, otherId, later.id).value;
    SameCommand(later, s, PlanFor(reg, w, agentId, shellId, seed).value.spec.command);
    var entry := EntryFor(reg, later, (b.integration, b.session.value));
    if entry.Some? && entry.value.runningShell.None? && FindAgent(later.agents, entry.value.agentId).Some? {
      OpeningIsFound(reg, later, b, FindAgent(later.agents, entry.value.agentId).value, otherShell, otherSeed, s);
    }
  }

  lemma SameCommand(w: Workspace, s: Shell, command: Command)
    requires Opening(w, s, command)
    ensures s.command == command && Opening(w, s, s.command)
  {
  }

  /** A resume carries the conversation's own exact command, under a name no shell has. */
  lemma ResumedCommand(reg: Registry, w: Workspace, agentId: Id, shellId: Id, seed: U64)
    requires var plan := PlanFor(reg, w, agentId, shellId, seed); plan.Success? && plan.value.Resume?
    ensures var a := FindMember(w.agents, agentId, w.id);
            && a.Some? && a.value.session.Some?
            && reg.valid(a.value.session.value) && !reg.dashed(a.value.session.value)
            && var spec := PlanFor(reg, w, agentId, shellId, seed).value.spec;
               && CommandFor(reg, a.value.integration, a.value.session.value) == Some(spec.command)
               && (forall s :: s in w.shells ==> s.name != spec.name)
               && (forall s :: s in w.shells ==> !Opening(w, s, spec.command))
  {
    hide EntryFor, GeneratedNames.FindFrom;
    var a := FindMember(w.agents, agentId, w.id).value;
    var spec := PlanFor(reg, w, agentId, shellId, seed).value.spec;
    GeneratedNames.FirstFree(seed, ShellNames(w.shells));
    forall s | s in w.shells
      ensures s.name != spec.name && !Opening(w, s, spec.command)
    {
      assert s.name in ShellNames(w.shells);
      var i :| 0 <= i < |w.shells| && w.shells[i] == s;
      assert !InFlight(w, w.shells[i], spec.command, shellId);
    }
  }

  /** A resume starts in the directory of the conversation's newest agent, else in the
      Workspace's own. */
  lemma ResumedDirectory(reg: Registry, w: Workspace, agentId: Id, shellId: Id, seed: U64)
    requires var plan := PlanFor(reg, w, agentId, shellId, seed); plan.Success? && plan.value.Resume?
    ensures var a := FindMember(w.agents, agentId, w.id).value;
            var entry := EntryFor(reg, w, (a.integration, a.session.value));
            && entry.Some? && entry.value.runningShell.None?
            && exists b :: b in w.agents && b.id == entry.value.agentId
                 && Some(PlanFor(reg, w, agentId, shellId, seed).value.spec.cwd)
                    == if b.cwd.Some? then b.cwd else w.defaultCwd
  {
    hide EntryFor, GeneratedNames.FindFrom, FindInFlight;
    var a := FindMember(w.agents, agentId, w.id).value;
    var entry := EntryFor(reg, w, (a.integration, a.session.value)).value;
    FindAgentMeaning(w.agents, entry.agentId);
    assert FindAgent(w.agents, entry.agentId).value in w.agents;
  }

  predicate NameTaken(w: Workspace, name: string) {
    exists s :: s in w.shells && s.name == name
  }

  predicate AllNamesTaken(w: Workspace) {
    forall i :: 0 <= i < GeneratedNames.COUNT ==> NameTaken(w, GeneratedNames.Name(i))
  }

  /** A resume of this command is under way, or the very shell asked for exists. */
  predicate UnderWay(w: Workspace, command: Command, shellId: Id) {
    exists s :: s in w.shells && s.command == command && (s.id == shellId || Opening(w, s, command))
  }

  /** The reasons not to open a conversation, for the agent asked about. */
  predicate PlanRefuses(reg: Registry, w: Workspace, agentId: Id, shellId: Id, e: PlanError) {
    var found := FindMember(w.agents, agentId, w.id);
    if found.None? then e == NotInWorkspace
    else if found.value.session.None? then e == NoSession
    else if !reg.valid(found.value.session.value) then e == InvalidSession
    else if reg.dashed(found.value.session.value) then e == OptionLike
    else ResumeRefuses(reg, w, found.value, found.value.session.value, shellId, e)
  }

  /** Only a conversation that runs nowhere has to be resumed; one whose resume is under way
      needs neither a directory nor a name. */
  predicate ResumeRefuses(reg: Registry, w: Workspace, a: Agent, session: Id, shellId: Id, e: PlanError) {
    var entry := EntryFor(reg, w, (a.integration, session));
    && entry.Some? && entry.value.runningShell.None?
    && if !reg.resumable(a.integration) then e == NoResume
       else if reg.command(a.integration, session).None? then e == CannotResume
       else
         var newest := FindAgent(w.agents, entry.value.agentId);
         && !UnderWay(w, reg.command(a.integration, session).value, shellId)
         && ((e == NoDirectory && w.defaultCwd.None? && newest.Some? && newest.value.cwd.None?)
             || (e == NamesExhausted && AllNamesTaken(w)))
  }

  lemma UnderWayMeaning(w: Workspace, command: Command, shellId: Id)
    ensures FindInFlight(w, w.shells, command, shellId).Some? <==> UnderWay(w, command, shellId)
  {
    hide RunClaimed;
    if UnderWay(w, command, shellId) {
      var s :| s in w.shells && s.command == command && (s.id == shellId || Opening(w, s, command));
      var i :| 0 <= i < |w.shells| && w.shells[i] == s;
      assert InFlight(w, w.shells[i], command, shellId);
    }
  }

  lemma NameTakenMeaning(w: Workspace, name: string)
    ensures name in ShellNames(w.shells) <==> NameTaken(w, name)
  {
  }

  lemma NamesMeaning(w: Workspace, seed: U64)
    ensures GeneratedNames.FromSeed(seed, ShellNames(w.shells)).None? <==> AllNamesTaken(w)
  {
    hide GeneratedNames.Name, GeneratedNames.Position, GeneratedNames.FindFrom, GeneratedNames.FromSeed,
         GeneratedNames.Taken, ShellNames, NameTaken;
    GeneratedNames.FirstFree(seed, ShellNames(w.shells));
    match GeneratedNames.FromSeed(seed, ShellNames(w.shells))
    case None =>
      forall i | 0 <= i < GeneratedNames.COUNT
        ensures NameTaken(w, GeneratedNames.Name(i))
      {
        NameTakenMeaning(w, GeneratedNames.Name(i));
      }
    case Some(name) =>
      var k :| 0 <= k < GeneratedNames.COUNT && name == GeneratedNames.Name(GeneratedNames.Position(seed, k))
               && name !in ShellNames(w.shells);
      NameTakenMeaning(w, name);
  }

  lemma ResumeRefusedIff(reg: Registry, w: Workspace, a: Agent, newest: Agent, shellId: Id, seed: U64)
    requires a.session.Some? && EntryFor(reg, w, (a.integration, a.session.value)).Some?
    requires EntryFor(reg, w, (a.integration, a.session.value)).value.runningShell.None?
    requires FindAgent(w.agents, EntryFor(reg, w, (a.integration, a.session.value)).value.agentId) == Some(newest)
    ensures var r := PlanResume(reg, w, a, newest, shellId, seed);
            && (r.Failure? ==> ResumeRefuses(reg, w, a, a.session.value, shellId, r.error))
            && (r.Success? ==> forall e :: !ResumeRefuses(reg, w, a, a.session.value, shellId, e))
  {
    hide EntryFor, UnderWay, AllNamesTaken, FindInFlight, GeneratedNames.FromSeed, ShellNames;
    NamesMeaning(w, seed);
    if reg.command(a.integration, a.session.value).Some? {
      UnderWayMeaning(w, reg.command(a.integration, a.session.value).value, shellId);
    }
  }

  /** A plan fails if and only if one of these reasons applies, and with one that does. */
  lemma PlanRefusedIff(reg: Registry, w: Workspace, agentId: Id, shellId: Id, seed: U64)
    ensures var r := PlanFor(reg, w, agentId, shellId, seed);
            && (r.Failure? ==> PlanRefuses(reg, w, agentId, shellId, r.error))
            && (r.Success? ==> forall e :: !PlanRefuses(reg, w, agentId, shellId, e))
  {
    hide PlanResume, EntryFor, ResumeRefuses;
    NeverUnavailable(reg, w, agentId, shellId, seed);
    var found := FindMember(w.agents, agentId, w.id);
    if found.Some? && found.value.session.Some? {
      var a := found.value;
      var entry := EntryFor(reg, w, (a.integration, a.session.value));
      if entry.Some? && entry.value.runningShell.None? && FindAgent(w.agents, entry.value.agentId).Some? {
        ResumeRefusedIff(reg, w, a, FindAgent(w.agents, entry.value.agentId).value, shellId, seed);
      } else if entry.Some? && entry.value.runningShell.Some? {
        RunningIsNotRefused(reg, w, a, shellId);
      }
    }
  }

  lemma RunningIsNotRefused(reg: Registry, w: Workspace, a: Agent, shellId: Id)
    requires a.session.Some? && EntryFor(reg, w, (a.integration, a.session.value)).Some?
    requires EntryFor(reg, w, (a.integration, a.session.value)).value.runningShell.Some?
    ensures forall e :: !ResumeRefuses(reg, w, a, a.session.value, shellId, e)
  {
    hide EntryFor, UnderWay, AllNamesTaken;
  }

  predicate IdsDistinct(shells: seq<Shell>) {
    forall i, j :: 0 <= i < j < |shells| ==> shells[i].id != shells[j].id
  }

  /** An existing shell that a plan opens belongs to that conversation: it carries it,
      or was started with its exact resume command. */
  lemma ExistingIsThisConversation(reg: Registry, w: Workspace, agentId: Id, shellId: Id, seed: U64)
    requires IdsDistinct(w.shells)
    requires var plan := PlanFor(reg, w, agentId, shellId, seed); plan.Success? && plan.value.Existing?
    ensures var a := FindMember(w.agents, agentId, w.id).value;
            var s := PlanFor(reg, w, agentId, shellId, seed).value.shell;
            && s in w.shells
            && (Carries(reg, w, s, (a.integration, a.session.value))
                || (Some(s.command) == CommandFor(reg, a.integration, a.session.value)
                    && (s.id == shellId || s.status.Pending? || s.status.Running?)))
  {
    hide EntryFor, Carries;
    var a := FindMember(w.agents, agentId, w.id).value;
    var key := (a.integration, a.session.value);
    RunningShellIsListed(reg, w, key);
    var entry := EntryFor(reg, w, key).value;
    if entry.runningShell.Some? {
      FindShellMeaning(w.shells, entry.runningShell.value);
      var t :| t in w.shells && t.id == entry.runningShell.value
               && (Carries(reg, w, t, key) || (MayBeResume(w, t) && Some(t.command) == CommandFor(reg, key.0, key.1)));
      assert t == FindShell(w.shells, entry.runningShell.value).value;
    }
  }
}
