/** The coordinator itself: a state, its file, and one method for each operation,
    each a journal step around the corresponding edit; and the staged transaction. */
module Coordinator {
  import opened Basics
  import opened StoreTypes
  import opened StoreOps
  import opened CoordinatorState
  import Journal
  import Validation

  /** How a call's save ended. */
  function Ended(saves: bool): Journal.Fate {
    if saves then Journal.Saved else Journal.Refused
  }

  class GlobalWorkspaceStore {
    var state: PersistedGlobalWorkspaces
    var disk: Option<State>
    const persist: bool
    ghost var history: Journal.History

    function Memory(): State
      reads this, state
    {
      state.Value()
    }

    /** The journal of this store: its memory is the history run from the empty store,
        its file the durable part of it. */
    ghost predicate Valid()
      reads this, state
    {
      history.durable <= |history.ops| && Journal.Realizes(Journal.Store(Memory(), disk), history)
    }

    /** A persistent store in step with its journal has taken one more event into it. */
    ghost predicate Follows(e: Journal.Event, was: bool, before: Journal.History)
      reads this, state
    {
      persist && was && before.durable <= |before.ops| ==> Valid() && history == Journal.Note(before, e)
    }

    constructor (memory: State, disk: Option<State>, persist: bool, ghost history: Journal.History)
      ensures Memory() == memory && this.disk == disk && this.persist == persist && fresh(state)
      ensures this.history == history
    {
      this.state := new PersistedGlobalWorkspaces(memory);
      this.disk := disk;
      this.persist := persist;
      this.history := history;
    }

    /** Opens the file: absent means an empty store, anything unacceptable is refused. */
    static method Load(disk: Option<State>, ghost ops: seq<Op>) returns (r: Fallible<GlobalWorkspaceStore>)
      ensures match Journal.Loaded(disk)
              case Failure(error) => r == Failure(error)
              case Success(memory) =>
                r.Success? && fresh(r.value) && r.value.Memory() == memory && r.value.disk == disk && r.value.persist
      ensures Journal.FileOf(disk, ops) ==>
                r.Success? && r.value.Valid() && r.value.history == Journal.History(ops, |ops|)
    {
      hide Run, StoreBytes;
      ghost var history := Journal.History(ops, |ops|);
      if Journal.FileOf(disk, ops) {
        Journal.ReopenRealizes(disk, ops);
      }
      var memory := EMPTY;
      if disk.Some? {
        if StoreBytes(disk.value) > MAX_STORE_BYTES {
          return Failure(InvalidStore);
        }
        memory := disk.value;
      }
      var ok := Validation.Validate(memory);
      if !ok {
        return Failure(InvalidStore);
      }
      var store := new GlobalWorkspaceStore(memory, disk, true, history);
      return Success(store);
    }

    method Save(s: State, saves: bool) returns (answer: Fallible<()>)
      modifies this`disk
      ensures answer == if StoreBytes(s) > MAX_STORE_BYTES || !saves then Failure(SaveFailed) else Success(())
      ensures disk == if answer.Success? then Some(s) else old(disk)
    {
      if StoreBytes(s) > MAX_STORE_BYTES || !saves {
        return Failure(SaveFailed);
      }
      disk := Some(s);
      return Success(());
    }

    /** An operation that computed spec ended as a journal step: committed to memory,
        and to the file of a persistent store, or both as they were. */
    ghost predicate Journaled<T>(spec: Fallible<(State, T)>, saves: bool, answer: Fallible<T>, memory: State,
                                     file: Option<State>)
      reads this, state
    {
      match Mutate(spec, persist, saves)
      case Success(pair) =>
        answer == Success(pair.1) && Memory() == pair.0 && disk == if persist then Some(pair.0) else file
      case Failure(error) => answer == Failure(error) && Memory() == memory && disk == file
    }

    /** The end of `mutate`: validate the edited copy, save it, adopt it. */
    method Finish<T>(ghost spec: Fallible<(State, T)>, replacement: PersistedGlobalWorkspaces,
                         outcome: Fallible<T>, saves: bool)
      returns (answer: Fallible<T>)
      requires Computes(spec, outcome, replacement.Value())
      modifies this
      ensures Journaled(spec, saves, answer, old(Memory()), old(disk)) && history == old(history)
      ensures state == old(state) || state == replacement
    {
      if outcome.Failure? {
        return outcome;
      }
      var ok := Validation.Validate(replacement.Value());
      if !ok {
        return Failure(InvalidStore);
      }
      if persist {
        var saved := Save(replacement.Value(), saves);
        if saved.Failure? {
          return Failure(saved.error);
        }
      }
      state := replacement;
      return outcome;
    }

    /** The end of `mutate` for one operation, which joins the journal. */
    method Conclude<T>(ghost op: Op, ghost spec: Fallible<(State, T)>, replacement: PersistedGlobalWorkspaces,
                           outcome: Fallible<T>, saves: bool)
      returns (answer: Fallible<T>)
      requires Computes(spec, outcome, replacement.Value())
      requires Kept(spec) == Attempt(Memory(), op) && !op.OpInitialize?
      modifies this
      ensures Journaled(spec, saves, answer, old(Memory()), old(disk))
      ensures Follows(Journal.Call(op, Ended(saves)), old(Valid()), old(history))
      ensures state == old(state) || state == replacement
    {
      hide Attempt, Journal.Realizes, Journal.Note, Journal.React, Mutate;
      ghost var was, j := Valid(), Journal.Store(Memory(), disk);
      answer := Finish(spec, replacement, outcome, saves);
      if persist && was {
        Journal.MutateIsCall(j, op, spec, saves);
        Journal.CallRealizes(j, history, op, Ended(saves));
        JournaledIsReaction(spec, saves, answer, j);
        history := Journal.Note(history, Journal.Call(op, Ended(saves)));
      }
    }

    lemma JournaledIsReaction<T>(spec: Fallible<(State, T)>, saves: bool, answer: Fallible<T>, j: Journal.Store)
      requires persist && Journaled(spec, saves, answer, j.memory, j.disk)
      ensures Journal.Store(Memory(), disk)
              == match Mutate(spec, true, saves)
                 case Success(pair) => Journal.Store(pair.0, Some(pair.0))
                 case Failure(_) => j
    {
      hide Mutate;
    }

    method Checkpoint(saves: bool) returns (answer: Fallible<()>)
      modifies this`disk, this`history
      ensures answer == if !IsValid(Memory()) then Failure(InvalidStore)
                        else if StoreBytes(Memory()) > MAX_STORE_BYTES || !saves then Failure(SaveFailed)
                        else Success(())
      ensures disk == if answer.Success? then Some(Memory()) else old(disk)
      ensures Follows(Journal.Checkpoint(Ended(saves)), old(Valid()), old(history))
    {
      hide Run, IsValid, StoreBytes, Journal.Realizes, Journal.Note;
      if Valid() {
        Journal.EventRealizes(Journal.Store(Memory(), disk), history, Journal.Checkpoint(Ended(saves)));
        Journal.RealizedIsSavable(Journal.Store(Memory(), disk), history);
        history := Journal.Note(history, Journal.Checkpoint(Ended(saves)));
      }
      var ok := Validation.Validate(state.Value());
      if !ok {
        return Failure(InvalidStore);
      }
      answer := Save(state.Value(), saves);
    }

    method InitializeLocalOnce(node: Id, owners: seq<Owner>, saves: bool) returns (answer: Fallible<bool>)
      modifies this
      ensures if old(Memory()).migrated then
                answer == Success(false) && Memory() == old(Memory()) && disk == old(disk)
              else
                match Mutate(StoreOps.InitializeLocalOnce(old(Memory()), node, owners), true, saves)
                case Success(pair) => answer == Success(true) && Memory() == pair.0 && disk == Some(pair.0)
                case Failure(error) => answer == Failure(error) && Memory() == old(Memory()) && disk == old(disk)
      ensures Follows(Journal.Call(OpInitialize(node, owners), Ended(saves)), old(Valid()), old(history))
    {
      hide Journal.Realizes, Journal.Note, Journal.React, IsValid, StoreBytes, ImportAll, Run;
      ghost var j, e := Journal.Store(Memory(), disk), Journal.Call(OpInitialize(node, owners), Ended(saves));
      if Valid() {
        Journal.CallRealizes(j, history, e.op, Ended(saves));
        history := Journal.Note(history, e);
      }
      if state.migrated {
        Journal.RefusalChangesNothing(j, e.op, []);
        return Success(false);
      }
      Journal.MutateIsCall(j, e.op, StoreOps.InitializeLocalOnce(j.memory, node, owners), saves);
      var replacement := new PersistedGlobalWorkspaces(state.Value());
      var outcome := replacement.ImportLocal(node, owners);
      if outcome.Failure? {
        return outcome;
      }
      var ok := Validation.Validate(replacement.Value());
      if !ok {
        return Failure(InvalidStore);
      }
      var saved := Save(replacement.Value(), saves);
      if saved.Failure? {
        return Failure(saved.error);
      }
      state := replacement;
      return Success(true);
    }

    method PrepareResource(r: ResourceRequest, attempt: bool, saves: bool) returns (answer: Fallible<Prepared>)
      modifies this
      ensures fresh(state) || state == old(state)
      ensures Journaled(StoreOps.PrepareResource(old(Memory()), r, attempt), saves, answer, old(Memory()), old(disk))
      ensures Follows(Journal.Call(OpPrepareResource(r, attempt), Ended(saves)), old(Valid()), old(history))
    {
      ghost var was := Memory();
      var replacement := new PersistedGlobalWorkspaces(state.Value());
      var outcome := replacement.PrepareResource(r, attempt);
      hide StoreOps.PrepareResource;
      answer := Conclude(OpPrepareResource(r, attempt),
                         StoreOps.PrepareResource(was, r, attempt), replacement, outcome, saves);
    }

    method PrepareWorkspaceShell(r: ShellRequest, saves: bool) returns (answer: Fallible<PreparedShell>)
      modifies this
      ensures fresh(state) || state == old(state)
      ensures Journaled(StoreOps.PrepareWorkspaceShell(old(Memory()), r), saves, answer, old(Memory()), old(disk))
      ensures Follows(Journal.Call(OpPrepareShell(r), Ended(saves)), old(Valid()), old(history))
    {
      ghost var was := Memory();
      var replacement := new PersistedGlobalWorkspaces(state.Value());
      var outcome := replacement.PrepareWorkspaceShell(r);
      hide StoreOps.PrepareWorkspaceShell;
      answer := Conclude(OpPrepareShell(r), StoreOps.PrepareWorkspaceShell(was, r), replacement, outcome, saves);
    }

    method MarkOwnerAttempted(operation: Id, fingerprint: Fingerprint, saves: bool)
      returns (answer: Fallible<Pending>)
      modifies this
      ensures fresh(state) || state == old(state)
      ensures Journaled(StoreOps.MarkOwnerAttempted(old(Memory()), operation, fingerprint), saves, answer,
                        old(Memory()), old(disk))
      ensures Follows(Journal.Call(OpMark(operation, fingerprint), Ended(saves)), old(Valid()), old(history))
    {
      ghost var was := Memory();
      var replacement := new PersistedGlobalWorkspaces(state.Value());
      var outcome := replacement.MarkOwnerAttempted(operation, fingerprint);
      hide StoreOps.MarkOwnerAttempted;
      answer := Conclude(OpMark(operation, fingerprint),
                         StoreOps.MarkOwnerAttempted(was, operation, fingerprint), replacement, outcome, saves);
    }

    method CancelResource(operation: Id, fingerprint: Fingerprint, saves: bool) returns (answer: Fallible<()>)
      modifies this
      ensures fresh(state) || state == old(state)
      ensures Journaled(StoreOps.CancelResource(old(Memory()), operation, fingerprint), saves, answer,
                        old(Memory()), old(disk))
      ensures Follows(Journal.Call(OpCancel(operation, fingerprint), Ended(saves)), old(Valid()), old(history))
    {
      ghost var was := Memory();
      var replacement := new PersistedGlobalWorkspaces(state.Value());
      var outcome := replacement.CancelResource(operation, fingerprint);
      hide StoreOps.CancelResource;
      answer := Conclude(OpCancel(operation, fingerprint),
                         StoreOps.CancelResource(was, operation, fingerprint), replacement, outcome, saves);
    }

    method CancelPendingOperationIfNeverAttempted(operation: Id, fingerprint: Fingerprint, saves: bool)
      returns (answer: Fallible<bool>)
      modifies this
      ensures fresh(state) || state == old(state)
      ensures Journaled(StoreOps.CancelIfNeverAttempted(old(Memory()), operation, fingerprint), saves, answer,
                        old(Memory()), old(disk))
      ensures Follows(Journal.Call(OpCancelUnattempted(operation, fingerprint), Ended(saves)),
                      old(Valid()), old(history))
    {
      ghost var was := Memory();
      var replacement := new PersistedGlobalWorkspaces(state.Value());
      var outcome := replacement.CancelPendingOperationIfNeverAttempted(operation, fingerprint);
      hide StoreOps.CancelIfNeverAttempted;
      answer := Conclude(OpCancelUnattempted(operation, fingerprint),
                         StoreOps.CancelIfNeverAttempted(was, operation, fingerprint), replacement, outcome, saves);
    }

    method CompleteResource(operation: Id, fingerprint: Fingerprint, owner: Owner, resource: Resource, saves: bool)
      returns (answer: Fallible<Completed>)
      modifies this
      ensures fresh(state) || state == old(state)
      ensures Journaled(StoreOps.CompleteResource(old(Memory()), operation, fingerprint, owner, resource), saves,
                        answer, old(Memory()), old(disk))
      ensures Follows(Journal.Call(OpComplete(operation, fingerprint, owner, resource), Ended(saves)),
                      old(Valid()), old(history))
    {
      ghost var was := Memory();
      var replacement := new PersistedGlobalWorkspaces(state.Value());
      var outcome := replacement.CompleteResource(operation, fingerprint, owner, resource);
      hide StoreOps.CompleteResource;
      answer := Conclude(OpComplete(operation, fingerprint, owner, resource),
                         StoreOps.CompleteResource(was, operation, fingerprint, owner, resource), replacement,
                         outcome, saves);
    }

    method PrepareDefaultCwd(r: PendingCwd, saves: bool) returns (answer: Fallible<PreparedCwd>)
      modifies this
      ensures fresh(state) || state == old(state)
      ensures Journaled(StoreOps.PrepareDefaultCwd(old(Memory()), r), saves, answer, old(Memory()), old(disk))
      ensures Follows(Journal.Call(OpPrepareCwd(r), Ended(saves)), old(Valid()), old(history))
    {
      ghost var was := Memory();
      var replacement := new PersistedGlobalWorkspaces(state.Value());
      var outcome := replacement.PrepareDefaultCwd(r);
      hide StoreOps.PrepareDefaultCwd;
      answer := Conclude(OpPrepareCwd(r), StoreOps.PrepareDefaultCwd(was, r), replacement, outcome, saves);
    }

    method MarkDefaultCwdOwnerAttempted(operation: PendingCwd, saves: bool) returns (answer: Fallible<PendingCwd>)
      modifies this
      ensures fresh(state) || state == old(state)
      ensures Journaled(StoreOps.MarkDefaultCwdAttempted(old(Memory()), operation), saves, answer,
                        old(Memory()), old(disk))
      ensures Follows(Journal.Call(OpMarkCwd(operation), Ended(saves)), old(Valid()), old(history))
    {
      ghost var was := Memory();
      var replacement := new PersistedGlobalWorkspaces(state.Value());
      var outcome := replacement.MarkDefaultCwdOwnerAttempted(operation);
      hide StoreOps.MarkDefaultCwdAttempted;
      answer := Conclude(OpMarkCwd(operation),
                         StoreOps.MarkDefaultCwdAttempted(was, operation), replacement, outcome, saves);
    }

    method CancelDefaultCwd(operation: PendingCwd, onlyIfNeverAttempted: bool, saves: bool)
      returns (answer: Fallible<bool>)
      modifies this
      ensures fresh(state) || state == old(state)
      ensures Journaled(StoreOps.CancelDefaultCwd(old(Memory()), operation, onlyIfNeverAttempted), saves, answer,
                        old(Memory()), old(disk))
      ensures Follows(Journal.Call(OpCancelCwd(operation, onlyIfNeverAttempted), Ended(saves)),
                      old(Valid()), old(history))
    {
      ghost var was := Memory();
      var replacement := new PersistedGlobalWorkspaces(state.Value());
      var outcome := replacement.CancelDefaultCwd(operation, onlyIfNeverAttempted);
      hide StoreOps.CancelDefaultCwd;
      answer := Conclude(OpCancelCwd(operation, onlyIfNeverAttempted),
                         StoreOps.CancelDefaultCwd(was, operation, onlyIfNeverAttempted), replacement, outcome, saves);
    }

    method CompleteDefaultCwd(operation: PendingCwd, owner: Owner, saves: bool) returns (answer: Fallible<CwdResult>)
      modifies this
      ensures fresh(state) || state == old(state)
      ensures Journaled(StoreOps.CompleteDefaultCwd(old(Memory()), operation, owner), saves, answer,
                        old(Memory()), old(disk))
      ensures Follows(Journal.Call(OpCompleteCwd(operation, owner), Ended(saves)), old(Valid()), old(history))
    {
      ghost var was := Memory();
      var replacement := new PersistedGlobalWorkspaces(state.Value());
      var outcome := replacement.CompleteDefaultCwd(operation, owner);
      hide StoreOps.CompleteDefaultCwd;
      answer := Conclude(OpCompleteCwd(operation, owner),
                         StoreOps.CompleteDefaultCwd(was, operation, owner), replacement, outcome, saves);
    }

    method Create(freshId: Id, name: string, saves: bool) returns (answer: Fallible<Workspace>)
      modifies this
      ensures fresh(state) || state == old(state)
      ensures Journaled(StoreOps.Create(old(Memory()), freshId, name), saves, answer, old(Memory()), old(disk))
      ensures Follows(Journal.Call(OpCreate(freshId, name), Ended(saves)), old(Valid()), old(history))
    {
      ghost var was := Memory();
      var replacement := new PersistedGlobalWorkspaces(state.Value());
      var outcome := replacement.Create(freshId, name);
      hide StoreOps.Create;
      answer := Conclude(OpCreate(freshId, name), StoreOps.Create(was, freshId, name), replacement, outcome, saves);
    }

    method Adopt(freshId: Id, node: Id, owner: Owner, expected: nat, saves: bool)
      returns (answer: Fallible<Workspace>)
      modifies this
      ensures fresh(state) || state == old(state)
      ensures Journaled(StoreOps.Adopt(old(Memory()), freshId, node, owner, expected), saves, answer,
                        old(Memory()), old(disk))
      ensures Follows(Journal.Call(OpAdopt(freshId, node, owner, expected), Ended(saves)), old(Valid()), old(history))
    {
      ghost var was := Memory();
      var replacement := new PersistedGlobalWorkspaces(state.Value());
      var outcome := replacement.Adopt(freshId, node, owner, expected);
      hide StoreOps.Adopt;
      answer := Conclude(OpAdopt(freshId, node, owner, expected),
                         StoreOps.Adopt(was, freshId, node, owner, expected), replacement, outcome, saves);
    }

    method Link(workspace: Id, expectedRevision: nat, node: Id, owner: Owner, expectedOwner: nat, saves: bool)
      returns (answer: Fallible<Workspace>)
      modifies this
      ensures fresh(state) || state == old(state)
      ensures Journaled(StoreOps.Link(old(Memory()), workspace, expectedRevision, node, owner, expectedOwner), saves,
                        answer, old(Memory()), old(disk))
      ensures Follows(Journal.Call(OpLink(workspace, expectedRevision, node, owner, expectedOwner), Ended(saves)),
                      old(Valid()), old(history))
    {
      ghost var was := Memory();
      var replacement := new PersistedGlobalWorkspaces(state.Value());
      var outcome := replacement.Link(workspace, expectedRevision, node, owner, expectedOwner);
      hide StoreOps.Link;
      answer := Conclude(OpLink(workspace, expectedRevision, node, owner, expectedOwner),
                         StoreOps.Link(was, workspace, expectedRevision, node, owner, expectedOwner), replacement,
                         outcome, saves);
    }

    method Rename(workspace: Id, expectedRevision: nat, name: string, saves: bool)
      returns (answer: Fallible<Workspace>)
      modifies this
      ensures fresh(state) || state == old(state)
      ensures Journaled(StoreOps.Rename(old(Memory()), workspace, expectedRevision, name), saves, answer,
                        old(Memory()), old(disk))
      ensures Follows(Journal.Call(OpRename(workspace, expectedRevision, name), Ended(saves)),
                      old(Valid()), old(history))
    {
      ghost var was := Memory();
      var replacement := new PersistedGlobalWorkspaces(state.Value());
      var outcome := replacement.Rename(workspace, expectedRevision, name);
      hide StoreOps.Rename;
      answer := Conclude(OpRename(workspace, expectedRevision, name),
                         StoreOps.Rename(was, workspace, expectedRevision, name), replacement, outcome, saves);
    }

    method BeginClose(workspace: Id, expectedRevision: nat, saves: bool) returns (answer: Fallible<Workspace>)
      modifies this
      ensures fresh(state) || state == old(state)
      ensures Journaled(StoreOps.BeginClose(old(Memory()), workspace, expectedRevision), saves, answer,
                        old(Memory()), old(disk))
      ensures Follows(Journal.Call(OpBeginClose(workspace, expectedRevision), Ended(saves)), old(Valid()), old(history))
    {
      ghost var was := Memory();
      var replacement := new PersistedGlobalWorkspaces(state.Value());
      var outcome := replacement.BeginClose(workspace, expectedRevision);
      hide StoreOps.BeginClose;
      answer := Conclude(OpBeginClose(workspace, expectedRevision),
                         StoreOps.BeginClose(was, workspace, expectedRevision), replacement, outcome, saves);
    }

    method ConfirmClosed(workspace: Id, node: Id, owner: Id, saves: bool)
      returns (answer: Fallible<Option<Workspace>>)
      modifies this
      ensures fresh(state) || state == old(state)
      ensures Journaled(StoreOps.ConfirmClosed(old(Memory()), workspace, node, owner), saves, answer,
                        old(Memory()), old(disk))
      ensures Follows(Journal.Call(OpConfirmClosed(workspace, node, owner), Ended(saves)), old(Valid()), old(history))
    {
      ghost var was := Memory();
      var replacement := new PersistedGlobalWorkspaces(state.Value());
      var outcome := replacement.ConfirmClosed(workspace, node, owner);
      hide StoreOps.ConfirmClosed;
      answer := Conclude(OpConfirmClosed(workspace, node, owner),
                         StoreOps.ConfirmClosed(was, workspace, node, owner), replacement, outcome, saves);
    }

    method ConfirmEmptyClosed(workspace: Id, saves: bool) returns (answer: Fallible<()>)
      modifies this
      ensures fresh(state) || state == old(state)
      ensures Journaled(StoreOps.ConfirmEmptyClosed(old(Memory()), workspace), saves, answer,
                        old(Memory()), old(disk))
      ensures Follows(Journal.Call(OpConfirmEmpty(workspace), Ended(saves)), old(Valid()), old(history))
    {
      ghost var was := Memory();
      var replacement := new PersistedGlobalWorkspaces(state.Value());
      var outcome := replacement.ConfirmEmptyClosed(workspace);
      hide StoreOps.ConfirmEmptyClosed;
      answer := Conclude(OpConfirmEmpty(workspace),
                         StoreOps.ConfirmEmptyClosed(was, workspace), replacement, outcome, saves);
    }
  }

  /** A staged copy that its operations edit without saving. The target's lock is held
      for the whole life of the transaction; dropping it without a commit does nothing. */
  class GlobalWorkspaceTransaction {
    const target: GlobalWorkspaceStore
    const staged: GlobalWorkspaceStore
    ghost const base: State
    ghost var ops: seq<Op>

    /** The staged copy is the operations so far, staged on the target's state. */
    ghost predicate Valid()
      reads this, staged, staged.state
    {
      && !staged.persist && staged.Memory() == Journal.Stage(base, ops)
      && forall i :: 0 <= i < |ops| ==> Journal.Stageable(ops[i])
    }

    constructor (target: GlobalWorkspaceStore)
      ensures this.target == target && fresh(staged) && fresh(staged.state)
      ensures staged.Memory() == target.Memory() && !staged.persist
      ensures Valid() && base == target.Memory() && ops == []
    {
      this.target := target;
      this.base := target.Memory();
      this.ops := [];
      this.staged := new GlobalWorkspaceStore(target.state.Value(), target.disk, false, target.history);
    }

    method PrepareResourceForAttempt(r: ResourceRequest) returns (answer: Fallible<Prepared>)
      modifies staged, this`ops
      ensures staged.Journaled(PrepareResource(old(staged.Memory()), r, true), true, answer, old(staged.Memory()),
                               old(staged.disk))
      ensures ops == old(ops) + [OpPrepareResource(r, true)] && (old(Valid()) ==> Valid())
    {
      hide StoreOps.PrepareResource, Journal.Stage, Mutate;
      ghost var op := OpPrepareResource(r, true);
      if Valid() {
        Journal.MutateIsStaged(base, ops, op, StoreOps.PrepareResource(staged.Memory(), r, true));
      }
      answer := staged.PrepareResource(r, true, true);
      ops := ops + [op];
    }

    method CompleteResource(operation: Id, fingerprint: Fingerprint, owner: Owner, resource: Resource)
      returns (answer: Fallible<Completed>)
      modifies staged, this`ops
      ensures staged.Journaled(StoreOps.CompleteResource(old(staged.Memory()), operation, fingerprint, owner, resource),
                               true, answer, old(staged.Memory()), old(staged.disk))
      ensures ops == old(ops) + [OpComplete(operation, fingerprint, owner, resource)] && (old(Valid()) ==> Valid())
    {
      hide StoreOps.CompleteResource, Journal.Stage, Mutate;
      ghost var op := OpComplete(operation, fingerprint, owner, resource);
      if Valid() {
        Journal.MutateIsStaged(base, ops, op,
                               StoreOps.CompleteResource(staged.Memory(), operation, fingerprint, owner, resource));
      }
      answer := staged.CompleteResource(operation, fingerprint, owner, resource, true);
      ops := ops + [op];
    }

    /** Replaces the target's memory by the staged state; its file waits for a checkpoint. */
    method Commit() returns (answer: Fallible<()>)
      modifies target`state, target`history
      ensures target.disk == old(target.disk)
      ensures if IsValid(old(staged.Memory()))
              then answer == Success(()) && target.Memory() == old(staged.Memory())
              else answer == Failure(InvalidStore) && target.Memory() == old(target.Memory())
      ensures old(Valid()) && base == old(target.Memory()) ==>
                target.Follows(Journal.Commit(ops), old(target.Valid()), old(target.history))
    {
      hide IsValid, Run, Journal.Stage, Journal.Realizes, Journal.Note;
      if Valid() && target.Valid() && base == target.Memory() {
        Journal.CommitRealizes(Journal.Store(base, target.disk), target.history, ops);
        target.history := Journal.Note(target.history, Journal.Commit(ops));
      }
      var ok := Validation.Validate(staged.state.Value());
      if !ok {
        return Failure(InvalidStore);
      }
      target.state := staged.state;
      return Success(());
    }
  }
}
