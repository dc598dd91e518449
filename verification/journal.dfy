/** The store and its file: saves that may be refused or cut short, transactions,
    checkpoints and crashes, against the plain list of operations that took effect. */
module Journal {
  import opened Basics
  import opened StoreTypes
  import opened StoreOps
  import opened StoreInvariant
  import opened Eviction
  import opened StoreSteps
  import opened Lifecycle

  /** The state in memory and the one in the file, if the file exists. */
  datatype Store = Store(memory: State, disk: Option<State>)

  /** How a save ends: the write is refused, or the process dies before or after
      the rename that puts the new file in place. */
  datatype Fate = Saved | Refused | CutBeforeRename | CutAfterRename

  datatype Event =
    | Call(op: Op, fate: Fate)
    | Commit(staged: seq<Op>)
    | Drop(staged: seq<Op>)
    | Checkpoint(fate: Fate)
    | Crash

  function Loaded(disk: Option<State>): Fallible<State> {
    match disk
    case None => Success(EMPTY)
    case Some(s) => if StoreBytes(s) > MAX_STORE_BYTES || !IsValid(s) then Failure(InvalidStore) else Success(s)
  }

  function Reopen(disk: Option<State>): Fallible<Store> {
    var memory :- Loaded(disk);
    Success(Store(memory, disk))
  }

  predicate Savable(s: State) {
    IsValid(s) && StoreBytes(s) <= MAX_STORE_BYTES
  }

  /** Saves s, then adopts it. */
  function SaveAs(j: Store, s: State, fate: Fate): Fallible<Store> {
    match fate
    case Saved => Success(Store(s, Some(s)))
    case Refused => Success(j)
    case CutBeforeRename => Reopen(j.disk)
    case CutAfterRename => Reopen(Some(s))
  }

  /** One call inside a transaction: validated, not saved. */
  function StagedStep(s: State, op: Op): State {
    var a := Attempt(s, op);
    if a.Success? && IsValid(a.value) then a.value else s
  }

  function Stage(s: State, ops: seq<Op>): State {
    if ops == [] then s else StagedStep(Stage(s, ops[..|ops| - 1]), ops[|ops| - 1])
  }

  /** The import once it has been done: it answers before anything is validated or saved. */
  predicate AlreadyDone(s: State, op: Op) {
    op.OpInitialize? && s.migrated
  }

  function React(j: Store, e: Event): Fallible<Store> {
    match e
    case Call(op, fate) =>
      var a := Attempt(j.memory, op);
      if AlreadyDone(j.memory, op) || a.Failure? || !Savable(a.value) then Success(j) else SaveAs(j, a.value, fate)
    case Commit(ops) =>
      var s := Stage(j.memory, ops);
      Success(if IsValid(s) then j.(memory := s) else j)
    case Drop(ops) => Success(j)
    case Checkpoint(fate) => if Savable(j.memory) then SaveAs(j, j.memory, fate) else Success(j)
    case Crash => Reopen(j.disk)
  }

  function After(events: seq<Event>): Fallible<Store> {
    if events == [] then Success(Store(EMPTY, None))
    else
      var j :- After(events[..|events| - 1]);
      React(j, events[|events| - 1])
  }

  // ---------- the plain account of what took effect ----------

  /** All operations in effect, and how many of them a crash cannot undo. */
  datatype History = History(ops: seq<Op>, durable: nat)

  function Lost(h: History): History
    requires h.durable <= |h.ops|
  {
    h.(ops := h.ops[..h.durable])
  }

  function Settle(h: History, ops: seq<Op>, fate: Fate): (r: History)
    requires h.durable <= |h.ops|
    ensures r.durable <= |r.ops|
  {
    match fate
    case Saved => History(ops, |ops|)
    case Refused => h
    case CutBeforeRename => Lost(h)
    case CutAfterRename => History(ops, |ops|)
  }

  function Note(h: History, e: Event): (r: History)
    requires h.durable <= |h.ops|
    ensures r.durable <= |r.ops|
  {
    match e
    case Call(op, fate) =>
      var s := Run(EMPTY, h.ops);
      if AlreadyDone(s, op) || Step(s, op).Failure? then h else Settle(h, h.ops + [op], fate)
    case Commit(ops) => h.(ops := h.ops + ops)
    case Drop(ops) => h
    case Checkpoint(fate) => Settle(h, h.ops, fate)
    case Crash => Lost(h)
  }

  function Told(events: seq<Event>): (h: History)
    ensures h.durable <= |h.ops|
  {
    if events == [] then History([], 0) else Note(Told(events[..|events| - 1]), events[|events| - 1])
  }

  /** The store is its history run from empty, the file a durable part of it run from empty. */
  predicate Realizes(j: Store, h: History)
    requires h.durable <= |h.ops|
  {
    && j.memory == Run(EMPTY, h.ops)
    && (if j.disk.None? then h.durable == 0 else j.disk.value == Run(EMPTY, h.ops[..h.durable]))
  }

  /** The file these operations leave once all of them are saved. */
  predicate FileOf(disk: Option<State>, ops: seq<Op>) {
    if disk.None? then ops == [] else disk.value == Run(EMPTY, ops)
  }

  /** The two operations a transaction offers. */
  predicate Stageable(op: Op) {
    (op.OpPrepareResource? && op.attempt) || op.OpComplete?
  }

  predicate WellFormed(e: Event) {
    e.Commit? || e.Drop? ==> forall i :: 0 <= i < |e.staged| ==> Stageable(e.staged[i])
  }

  // ---------- staged operations need no size check ----------

  lemma MarkedBytes(ps: seq<Pending>, i: nat)
    requires i < |ps|
    ensures SumBy(ps[i := ps[i].(attempted := true)], PendingBytes) <= SumBy(ps, PendingBytes)
  {
    SumByUpdate(ps, i, ps[i].(attempted := true), PendingBytes);
  }

  lemma PrepareFits(s: State, r: ResourceRequest)
    requires StoreBytes(s) <= MAX_STORE_BYTES && PrepareResource(s, r, true).Success?
    ensures StoreBytes(PrepareResource(s, r, true).value.0) <= MAX_STORE_BYTES
  {
    if !IsCompleted(s.completed, r.operation) {
      var i := PendingIndex(s.pendings, r.operation);
      if i < |s.pendings| {
        MarkedBytes(s.pendings, i);
      } else {
        NewResourceReveals(s, r, true);
      }
    }
  }

  lemma CompleteFits(s: State, operation: Id, fingerprint: Fingerprint, owner: Owner, resource: Resource)
    requires StoreBytes(s) <= MAX_STORE_BYTES && IsValid(s)
    requires CompleteResource(s, operation, fingerprint, owner, resource).Success?
    ensures StoreBytes(CompleteResource(s, operation, fingerprint, owner, resource).value.0) <= MAX_STORE_BYTES
  {
    hide IsValid, StoreBytes, CompletePending;
    var i := PendingIndex(s.pendings, operation);
    if i < |s.pendings| {
      OneLedgerAtMost(s, operation);
      CompletionReveals(s, i, owner, resource);
    }
  }

  lemma StagedFits(s: State, op: Op)
    requires IsValid(s) && StoreBytes(s) <= MAX_STORE_BYTES && Stageable(op) && Attempt(s, op).Success?
    ensures StoreBytes(Attempt(s, op).value) <= MAX_STORE_BYTES
  {
    if op.OpComplete? {
      CompleteFits(s, op.operation, op.fingerprint, op.owner, op.resource);
    } else {
      PrepareFits(s, op.resourceRequest);
    }
  }

  lemma StagedIsStep(s: State, op: Op)
    requires IsValid(s) && StoreBytes(s) <= MAX_STORE_BYTES && Stageable(op)
    ensures StagedStep(s, op) == if Step(s, op).Success? then Step(s, op).value else s
  {
    hide Attempt, IsValid, StoreBytes;
    if Attempt(s, op).Success? {
      StagedFits(s, op);
    }
  }

  /** A committed transaction leaves what running its operations directly would. */
  lemma {:induction false} CommitIsDirect(s: State, ops: seq<Op>)
    requires Sound(s) && forall i :: 0 <= i < |ops| ==> Stageable(ops[i])
    ensures Stage(s, ops) == Run(s, ops) && Sound(Run(s, ops))
  {
    hide Step, StagedStep, Sound, IsValid;
    if ops != [] {
      var init, op := ops[..|ops| - 1], ops[|ops| - 1];
      CommitIsDirect(s, init);
      SoundParts(Run(s, init));
      StagedIsStep(Run(s, init), op);
    }
    RunKeepsSound(s, ops);
  }

  lemma SoundParts(s: State)
    requires Sound(s)
    ensures IsValid(s) && StoreBytes(s) <= MAX_STORE_BYTES && Savable(s)
  {
  }

  // ---------- the refinement ----------

  lemma ReopenRealizes(disk: Option<State>, ops: seq<Op>)
    requires FileOf(disk, ops)
    ensures Reopen(disk).Success? && Realizes(Reopen(disk).value, History(ops, |ops|))
  {
    hide Run, Sound, IsValid, StoreBytes;
    EmptyRealizes();
    if disk.Some? {
      EveryRunIsSound(ops);
      SoundParts(Run(EMPTY, ops));
      assert ops[..|ops|] == ops;
    }
  }

  lemma SaveRealizes(j: Store, h: History, ops: seq<Op>, fate: Fate)
    requires h.durable <= |h.ops| && Realizes(j, h)
    ensures SaveAs(j, Run(EMPTY, ops), fate).Success?
    ensures Realizes(SaveAs(j, Run(EMPTY, ops), fate).value, Settle(h, ops, fate))
  {
    hide Step;
    match fate
    case Saved => assert ops[..|ops|] == ops;
    case Refused =>
    case CutBeforeRename =>
      assert h.ops[..h.durable][..h.durable] == h.ops[..h.durable];
      ReopenRealizes(j.disk, h.ops[..h.durable]);
    case CutAfterRename => ReopenRealizes(Some(Run(EMPTY, ops)), ops);
  }

  lemma CallIsStep(j: Store, op: Op, fate: Fate)
    ensures React(j, Call(op, fate))
            == if AlreadyDone(j.memory, op) || Step(j.memory, op).Failure? then Success(j)
               else SaveAs(j, Step(j.memory, op).value, fate)
  {
    hide Attempt, IsValid, SaveAs;
  }

  lemma CallRealizes(j: Store, h: History, op: Op, fate: Fate)
    requires h.durable <= |h.ops| && Realizes(j, h)
    ensures React(j, Call(op, fate)).Success?
    ensures Realizes(React(j, Call(op, fate)).value, Note(h, Call(op, fate)))
  {
    hide React, Run, Sound, Step, SaveAs, Settle, AlreadyDone;
    CallIsStep(j, op, fate);
    RunLast(EMPTY, h.ops, op);
    if Step(Run(EMPTY, h.ops), op).Success? && !AlreadyDone(Run(EMPTY, h.ops), op) {
      SaveRealizes(j, h, h.ops + [op], fate);
    }
  }

  lemma RealizedIsSavable(j: Store, h: History)
    requires h.durable <= |h.ops| && Realizes(j, h)
    ensures Savable(j.memory)
  {
    hide Run, Sound, Savable;
    EveryRunIsSound(h.ops);
    SoundParts(Run(EMPTY, h.ops));
  }

  lemma CommitRealizes(j: Store, h: History, ops: seq<Op>)
    requires h.durable <= |h.ops| && Realizes(j, h) && forall i :: 0 <= i < |ops| ==> Stageable(ops[i])
    ensures React(j, Commit(ops)).Success?
    ensures Realizes(React(j, Commit(ops)).value, Note(h, Commit(ops)))
  {
    hide Step, StagedStep, IsValid, IsCoherent, StoreBytes, Run, Stage;
    EveryRunIsSound(h.ops);
    CommitIsDirect(j.memory, ops);
    SoundParts(Run(j.memory, ops));
    RunConcat(EMPTY, h.ops, ops);
    assert (h.ops + ops)[..h.durable] == h.ops[..h.durable];
  }

  lemma EventRealizes(j: Store, h: History, e: Event)
    requires h.durable <= |h.ops| && Realizes(j, h) && WellFormed(e)
    ensures React(j, e).Success? && Realizes(React(j, e).value, Note(h, e))
  {
    hide Step, Run, Stage, IsValid;
    match e
    case Call(op, fate) => CallRealizes(j, h, op, fate);
    case Commit(ops) => CommitRealizes(j, h, ops);
    case Drop(ops) =>
    case Checkpoint(fate) =>
      EveryRunIsSound(h.ops);
      SoundParts(Run(EMPTY, h.ops));
      SaveRealizes(j, h, h.ops, fate);
    case Crash => SaveRealizes(j, h, h.ops, CutBeforeRename);
  }

  /** Whatever calls, transactions, checkpoints, refused saves and crashes happen, in
      any order: the file can always be opened, memory is exactly the operations that
      took effect, and the file exactly the durable part of them. */
  lemma {:induction false} JournalRefines(events: seq<Event>)
    requires forall i :: 0 <= i < |events| ==> WellFormed(events[i])
    ensures After(events).Success? && Realizes(After(events).value, Told(events))
  {
    hide Step, Run, React, Note, Realizes;
    if events == [] {
      EmptyRealizes();
    } else {
      var init := events[..|events| - 1];
      JournalRefines(init);
      EventRealizes(After(init).value, Told(init), events[|events| - 1]);
    }
  }

  lemma EmptyRealizes()
    ensures Realizes(Store(EMPTY, None), History([], 0)) && Run(EMPTY, []) == EMPTY
  {
    hide Step;
  }

  /** What is durable stays durable, in order, whatever happens next. */
  lemma DurableIsKept(h: History, e: Event)
    requires h.durable <= |h.ops|
    ensures var g := Note(h, e);
            h.durable <= g.durable && g.ops[..h.durable] == h.ops[..h.durable]
  {
    hide Step;
  }

  /** Once a call or a checkpoint has been saved, a crash changes nothing at all. The one
      call that succeeds without a save is the import that was already done. */
  lemma SavedSurvivesCrash(events: seq<Event>, e: Event)
    requires forall i :: 0 <= i < |events| ==> WellFormed(events[i])
    requires After(events).Success? && (e.Checkpoint? || e.Call?) && e.fate == Saved
    requires e.Call? ==>
               Step(After(events).value.memory, e.op).Success? && !AlreadyDone(After(events).value.memory, e.op)
    ensures var now := React(After(events).value, e).value;
            now.disk == Some(now.memory) && React(now, Crash) == Success(now)
  {
    hide Step, Run, After, Told, Note, React, Realizes, Savable;
    JournalRefines(events);
    SavedIsOnDisk(After(events).value, Told(events), e);
    CrashOfSaved(React(After(events).value, e).value.memory);
  }

  lemma CrashOfSaved(s: State)
    requires Savable(s)
    ensures React(Store(s, Some(s)), Crash) == Success(Store(s, Some(s)))
  {
    hide IsValid;
  }

  lemma SavedIsOnDisk(j: Store, h: History, e: Event)
    requires h.durable <= |h.ops| && Realizes(j, h)
    requires (e.Checkpoint? || e.Call?) && e.fate == Saved
    requires e.Call? ==> Step(j.memory, e.op).Success? && !AlreadyDone(j.memory, e.op)
    ensures React(j, e).Success? && React(j, e).value == Store(React(j, e).value.memory, Some(React(j, e).value.memory))
    ensures Savable(React(j, e).value.memory)
  {
    hide IsValid, Run, Sound;
    EveryRunIsSound(h.ops);
    SoundParts(Run(EMPTY, h.ops));
  }

  /** A refused save, a dropped transaction, a failed call and a second import change
      neither copy. */
  lemma RefusalChangesNothing(j: Store, op: Op, ops: seq<Op>)
    ensures React(j, Call(op, Refused)) == Success(j)
    ensures React(j, Checkpoint(Refused)) == Success(j)
    ensures React(j, Drop(ops)) == Success(j)
    ensures Step(j.memory, op).Failure? || AlreadyDone(j.memory, op) ==>
              forall fate :: React(j, Call(op, fate)) == Success(j)
  {
    hide Attempt, IsValid, StoreBytes;
  }

  /** `mutate` on a persistent store is a call whose save succeeds or is refused. */
  lemma MutateIsCall<T>(j: Store, op: Op, spec: Fallible<(State, T)>, saves: bool)
    requires Kept(spec) == Attempt(j.memory, op) && !AlreadyDone(j.memory, op)
    ensures React(j, Call(op, if saves then Saved else Refused))
            == match Mutate(spec, true, saves)
               case Success(pair) => Success(Store(pair.0, Some(pair.0)))
               case Failure(_) => Success(j)
  {
    hide Attempt, IsValid;
  }

  /** `mutate` on a staged copy is a staged call. */
  lemma MutateIsStaged<T>(base: State, ops: seq<Op>, op: Op, spec: Fallible<(State, T)>)
    requires Kept(spec) == Attempt(Stage(base, ops), op)
    ensures Stage(base, ops + [op])
            == match Mutate(spec, false, true)
               case Success(pair) => pair.0
               case Failure(_) => Stage(base, ops)
  {
    hide Attempt, IsValid;
    assert (ops + [op])[..|ops|] == ops;
  }
}
