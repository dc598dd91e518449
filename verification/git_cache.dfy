/** The Git metadata cache: a caller and a worker thread joined by two bounded
    channels, as the atomic steps either side can take. */
module GitCacheSteps {
  import opened Basics

  datatype Path = Path(name: string)

  datatype Metadata = Metadata(repository: string, branch: string, state: string, worktree: string)

  const UNKNOWN: Metadata := Metadata("-", "-", "-", "-")

  const REFRESH_INTERVAL_MS: nat := 2000
  const MAX_CACHE_ENTRIES: nat := 256
  const MAX_PENDING_INSPECTIONS: nat := 64

  datatype Entry = Entry(value: Metadata, inspectedAt: nat, accessedAt: nat)

  /** Where the worker's loop stands. */
  datatype Worker =
    | Waiting
    | Checking(path: Path)
    | Inspecting(path: Path)
    | Publishing(path: Path, value: Metadata)
    | Stopped

  /** Where the owner of the cache stands: at rest, inside `inspect`, or dropping it. */
  datatype Caller =
    | Resting
    | Draining(path: Path)
    | Looking(path: Path)
    | Requesting(path: Path)
    | Sent(path: Path)
    | Answering(path: Path)
    | Dropping
    | Gone

  type Inspection = (Path, Metadata)

  /** `produced` and `answers` only record what the inspector returned and what `inspect` did. */
  datatype System = System(
    entries: map<Path, Entry>,
    pending: set<Path>,
    queue: seq<Path>,
    results: seq<Inspection>,
    stopped: bool,
    caller: Caller,
    worker: Worker,
    produced: set<Inspection>,
    answers: seq<Inspection>)

  const FRESH: System := System(map[], {}, [], [], false, Resting, Waiting, {}, [])

  /** A step of either side, with what is not determined by the state: the path asked
      for, the time, the entry evicted among the oldest, the inspector's result. */
  datatype Step =
    | Call(path: Path)
    | Drain(now: nat, victim: Path)
    | EndDrain
    | Look(now: nat)
    | TrySend
    | Record
    | Answer
    | SetStopped
    | Close
    | Receive
    | Check
    | Inspect(value: Metadata)
    | Publish

  predicate IsWorkerStep(step: Step) {
    step.Receive? || step.Check? || step.Inspect? || step.Publish?
  }

  predicate Oldest(entries: map<Path, Entry>, victim: Path) {
    victim in entries && forall p :: p in entries ==> entries[victim].accessedAt <= entries[p].accessedAt
  }

  predicate MustEvict(entries: map<Path, Entry>, path: Path) {
    path !in entries && |entries| >= MAX_CACHE_ENTRIES
  }

  function Insert(entries: map<Path, Entry>, path: Path, entry: Entry, victim: Path): map<Path, Entry> {
    (if MustEvict(entries, path) then entries - {victim} else entries)[path := entry]
  }

  function Lookup(entries: map<Path, Entry>, path: Path): Metadata {
    if path in entries then entries[path].value else UNKNOWN
  }

  function Next(s: System, step: Step): System {
    if IsWorkerStep(step) then WorkerNext(s, step) else CallerNext(s, step)
  }

  /** A step that is not enabled changes nothing. */
  function CallerNext(s: System, step: Step): System {
    match step
    case Call(path) => if s.caller.Resting? then s.(caller := Draining(path)) else s
    case Drain(now, victim) =>
      if s.caller.Draining? && s.results != [] && (MustEvict(s.entries, s.results[0].0) ==> Oldest(s.entries, victim))
      then
        var (path, value) := s.results[0];
        s.(results := s.results[1..], pending := s.pending - {path},
           entries := Insert(s.entries, path, Entry(value, now, now), victim))
      else s
    case EndDrain =>
      if s.caller.Draining? && s.results == [] then s.(caller := Looking(s.caller.path)) else s
    case Look(now) =>
      if !s.caller.Looking? then s
      else if s.caller.path !in s.entries then s.(caller := Requesting(s.caller.path))
      else
        var path, entry := s.caller.path, s.entries[s.caller.path];
        var t := s.(entries := s.entries[path := entry.(accessedAt := now)]);
        if now < entry.inspectedAt + REFRESH_INTERVAL_MS
        then t.(caller := Resting, answers := s.answers + [(path, entry.value)])
        else t.(caller := Requesting(path))
    case TrySend =>
      if !s.caller.Requesting? then s
      else if |s.pending| < MAX_PENDING_INSPECTIONS && s.caller.path !in s.pending
              && |s.queue| < MAX_PENDING_INSPECTIONS && !s.worker.Stopped?
      then s.(queue := s.queue + [s.caller.path], caller := Sent(s.caller.path))
      else s.(caller := Answering(s.caller.path))
    case Record =>
      if s.caller.Sent? then s.(pending := s.pending + {s.caller.path}, caller := Answering(s.caller.path)) else s
    case Answer =>
      if s.caller.Answering?
      then s.(caller := Resting, answers := s.answers + [(s.caller.path, Lookup(s.entries, s.caller.path))])
      else s
    case SetStopped => if s.caller.Resting? then s.(caller := Dropping, stopped := true) else s
    case Close => if s.caller.Dropping? then s.(caller := Gone) else s
    case _ => s
  }

  function WorkerNext(s: System, step: Step): System {
    match step
    case Receive =>
      if !s.worker.Waiting? then s
      else if s.queue != [] then s.(worker := Checking(s.queue[0]), queue := s.queue[1..])
      else if s.caller.Gone? then s.(worker := Stopped)
      else s
    case Check =>
      if !s.worker.Checking? then s
      else s.(worker := if s.stopped then Stopped else Inspecting(s.worker.path))
    case Inspect(value) =>
      if !s.worker.Inspecting? then s
      else s.(worker := Publishing(s.worker.path, value), produced := s.produced + {(s.worker.path, value)})
    case Publish =>
      if !s.worker.Publishing? then s
      else if s.caller.Gone? then s.(worker := Stopped)
      else if |s.results| < MAX_PENDING_INSPECTIONS
      then s.(worker := Waiting, results := s.results + [(s.worker.path, s.worker.value)])
      else s
    case _ => s
  }

  function Run(s: System, steps: seq<Step>): System {
    if steps == [] then s else Next(Run(s, steps[..|steps| - 1]), steps[|steps| - 1])
  }

  // ---------- what every interleaving keeps ----------

  function Unread(results: seq<Inspection>): multiset<Path> {
    if results == [] then multiset{} else multiset{results[0].0} + Unread(results[1..])
  }

  function InHand(w: Worker): multiset<Path> {
    if w.Waiting? || w.Stopped? then multiset{} else multiset{w.path}
  }

  /** The paths queued, in the worker's hand, or inspected and not yet read. */
  function InFlight(s: System): multiset<Path> {
    multiset(s.queue) + InHand(s.worker) + Unread(s.results)
  }

  /** `pending`, with the path that has been sent and is about to be recorded there. */
  function Expected(s: System): set<Path> {
    s.pending + if s.caller.Sent? then {s.caller.path} else {}
  }

  predicate Dropped(s: System) {
    s.caller.Dropping? || s.caller.Gone?
  }

  predicate Genuine(s: System, answer: Inspection) {
    answer.1 == UNKNOWN || answer in s.produced
  }

  predicate Traffic(s: System) {
    !Dropped(s) ==>
      && InFlight(s) == multiset(Expected(s))
      && |s.pending| <= MAX_PENDING_INSPECTIONS
      && (s.caller.Sent? ==> |s.pending| < MAX_PENDING_INSPECTIONS && s.caller.path !in s.pending)
      && !s.worker.Stopped?
      && !s.stopped
  }

  predicate Honest(s: System) {
    && (forall p :: p in s.entries ==> (p, s.entries[p].value) in s.produced)
    && (forall i :: 0 <= i < |s.results| ==> s.results[i] in s.produced)
    && (s.worker.Publishing? ==> (s.worker.path, s.worker.value) in s.produced)
    && (forall i :: 0 <= i < |s.answers| ==> Genuine(s, s.answers[i]))
  }

  predicate Inv(s: System) {
    Traffic(s) && Honest(s) && |s.entries| <= MAX_CACHE_ENTRIES && (Dropped(s) ==> s.stopped)
  }

  lemma {:induction false} UnreadAppend(results: seq<Inspection>, r: Inspection)
    ensures Unread(results + [r]) == Unread(results) + multiset{r.0}
  {
    if results == [] {
      assert [r][1..] == [];
    } else {
      assert (results + [r])[1..] == results[1..] + [r];
      UnreadAppend(results[1..], r);
    }
  }

  lemma Popped(queue: seq<Path>)
    requires queue != []
    ensures multiset(queue) == multiset{queue[0]} + multiset(queue[1..])
  {
    assert queue == [queue[0]] + queue[1..];
  }

  lemma Taken(paths: set<Path>, path: Path)
    ensures path in paths ==> multiset(paths) == multiset{path} + multiset(paths - {path})
    ensures path !in paths ==> multiset(paths + {path}) == multiset{path} + multiset(paths)
  {
  }

  lemma Received(queue: seq<Path>, unread: multiset<Path>)
    requires queue != []
    ensures multiset(queue[1..]) + multiset{queue[0]} + unread == multiset(queue) + multiset{} + unread
  {
    Popped(queue);
  }

  lemma Published(queue: multiset<Path>, path: Path, value: Metadata, results: seq<Inspection>)
    ensures queue + multiset{} + Unread(results + [(path, value)]) == queue + multiset{path} + Unread(results)
  {
    UnreadAppend(results, (path, value));
  }

  lemma Queued(queue: seq<Path>, path: Path, hand: multiset<Path>, unread: multiset<Path>)
    ensures multiset(queue + [path]) + hand + unread == multiset{path} + (multiset(queue) + hand + unread)
  {
  }

  lemma DrainTraffic(s: System, now: nat, victim: Path)
    requires Traffic(s) && s.caller.Draining? && s.results != []
    ensures Traffic(CallerNext(s, Drain(now, victim)))
  {
    hide Insert, MustEvict, Oldest;
    var path := s.results[0].0;
    assert path in InFlight(s);
    assert path in multiset(s.pending) by {
      assert Expected(s) == s.pending;
    }
    Taken(s.pending, path);
    var t := CallerNext(s, Drain(now, victim));
    if t != s {
      assert Expected(t) == t.pending == s.pending - {path};
      assert InFlight(s) == multiset{path} + InFlight(t);
      Cancelled(path, InFlight(t), multiset(t.pending));
    }
  }

  lemma Cancelled(path: Path, a: multiset<Path>, b: multiset<Path>)
    requires multiset{path} + a == multiset{path} + b
    ensures a == b
  {
    assert a == multiset{path} + a - multiset{path};
    assert b == multiset{path} + b - multiset{path};
  }

  lemma TrySendTraffic(s: System)
    requires Traffic(s)
    ensures Traffic(CallerNext(s, TrySend))
  {
    hide Unread;
    var t := CallerNext(s, TrySend);
    if t.caller.Sent? && s.caller.Requesting? {
      Taken(s.pending, s.caller.path);
      ExpectedOf(s);
      ExpectedOf(t);
      Queued(s.queue, s.caller.path, InHand(s.worker), Unread(s.results));
    } else {
      ExpectedOf(s);
      ExpectedOf(t);
    }
  }

  lemma ExpectedOf(s: System)
    ensures Expected(s) == if s.caller.Sent? then s.pending + {s.caller.path} else s.pending
  {
  }

  lemma RecordTraffic(s: System)
    requires Traffic(s)
    ensures Traffic(CallerNext(s, Record))
  {
    hide InFlight, Expected;
    var t := CallerNext(s, Record);
    FlightOf(s);
    FlightOf(t);
    ExpectedOf(s);
    ExpectedOf(t);
  }

  /** A step that moves nothing through the channels. */
  lemma SameTraffic(s: System, t: System)
    requires Traffic(s) && t.queue == s.queue && t.worker == s.worker && t.results == s.results
    requires t.pending == s.pending && !s.caller.Sent? && !t.caller.Sent? && (!Dropped(t) ==> !Dropped(s) && !t.stopped)
    ensures Traffic(t)
  {
    assert InFlight(t) == InFlight(s);
    assert Expected(t) == Expected(s);
  }

  lemma CallerTraffic(s: System, step: Step)
    requires Traffic(s) && (Dropped(s) ==> s.stopped)
    ensures Traffic(CallerNext(s, step))
  {
    hide Traffic, Insert, MustEvict, Oldest, Lookup;
    match step
    case Drain(now, victim) =>
      if s.caller.Draining? && s.results != [] {
        DrainTraffic(s, now, victim);
      }
    case TrySend => TrySendTraffic(s);
    case Record => RecordTraffic(s);
    case _ =>
      var t := CallerNext(s, step);
      if t != s {
        NotStopped(s);
        SameTraffic(s, t);
      }
  }

  lemma NotStopped(s: System)
    requires Traffic(s)
    ensures !Dropped(s) ==> !s.stopped
  {
  }

  lemma FlightOf(s: System)
    ensures InFlight(s) == multiset(s.queue) + InHand(s.worker) + Unread(s.results)
  {
  }

  lemma WorkerFlight(s: System, step: Step)
    requires IsWorkerStep(step) && !Dropped(s) && !s.stopped
    ensures InFlight(WorkerNext(s, step)) == InFlight(s)
  {
    hide Unread, InFlight;
    FlightOf(s);
    FlightOf(WorkerNext(s, step));
    match step
    case Receive =>
      if s.worker.Waiting? && s.queue != [] {
        Received(s.queue, Unread(s.results));
      }
    case Publish =>
      if s.worker.Publishing? {
        Published(multiset(s.queue), s.worker.path, s.worker.value, s.results);
      }
    case Check =>
    case Inspect(value) =>
  }

  lemma WorkerTraffic(s: System, step: Step)
    requires Traffic(s) && IsWorkerStep(step)
    ensures Traffic(WorkerNext(s, step))
  {
    hide InFlight, Expected;
    ExpectedOf(s);
    ExpectedOf(WorkerNext(s, step));
    if !Dropped(s) {
      WorkerFlight(s, step);
    }
  }

  lemma InsertSize(entries: map<Path, Entry>, path: Path, entry: Entry, victim: Path)
    requires |entries| <= MAX_CACHE_ENTRIES && (MustEvict(entries, path) ==> Oldest(entries, victim))
    ensures |Insert(entries, path, entry, victim)| <= MAX_CACHE_ENTRIES
  {
    if MustEvict(entries, path) {
      assert (entries - {victim}).Keys == entries.Keys - {victim};
      assert Insert(entries, path, entry, victim).Keys == entries.Keys - {victim} + {path};
    } else {
      assert Insert(entries, path, entry, victim).Keys == entries.Keys + {path};
      assert path in entries ==> entries.Keys + {path} == entries.Keys;
    }
  }

  lemma LookSize(s: System, now: nat)
    ensures |CallerNext(s, Look(now)).entries| == |s.entries|
  {
    if s.caller.Looking? && s.caller.path in s.entries {
      assert CallerNext(s, Look(now)).entries.Keys == s.entries.Keys;
    }
  }

  lemma WorkerKeepsHonest(s: System, step: Step)
    requires Honest(s)
    ensures Honest(WorkerNext(s, step))
  {
  }

  lemma DrainKeepsHonest(s: System, now: nat, victim: Path)
    requires Honest(s)
    ensures Honest(CallerNext(s, Drain(now, victim)))
  {
  }

  lemma LookKeepsHonest(s: System, now: nat)
    requires Honest(s)
    ensures Honest(CallerNext(s, Look(now)))
  {
  }

  lemma CallerKeepsHonest(s: System, step: Step)
    requires Honest(s)
    ensures Honest(CallerNext(s, step))
  {
    hide Insert;
    match step
    case Drain(now, victim) => DrainKeepsHonest(s, now, victim);
    case Look(now) => LookKeepsHonest(s, now);
    case _ =>
  }

  lemma NextKeepsHonest(s: System, step: Step)
    requires Honest(s)
    ensures Honest(Next(s, step))
  {
    hide Honest, CallerNext, WorkerNext;
    WorkerKeepsHonest(s, step);
    CallerKeepsHonest(s, step);
  }

  lemma NextKeepsSize(s: System, step: Step)
    requires |s.entries| <= MAX_CACHE_ENTRIES && (Dropped(s) ==> s.stopped)
    ensures |Next(s, step).entries| <= MAX_CACHE_ENTRIES && (Dropped(Next(s, step)) ==> Next(s, step).stopped)
  {
    hide Insert;
    if step.Look? {
      LookSize(s, step.now);
    }
    if step.Drain? && s.caller.Draining? && s.results != []
       && (MustEvict(s.entries, s.results[0].0) ==> Oldest(s.entries, step.victim))
    {
      InsertSize(s.entries, s.results[0].0, Entry(s.results[0].1, step.now, step.now), step.victim);
    }
  }

  lemma NextKeepsInv(s: System, step: Step)
    requires Inv(s)
    ensures Inv(Next(s, step))
  {
    hide Traffic, Honest, CallerNext, WorkerNext;
    NextKeepsHonest(s, step);
    NextKeepsSize(s, step);
    if IsWorkerStep(step) {
      WorkerTraffic(s, step);
    } else {
      CallerTraffic(s, step);
    }
  }

  lemma {:induction false} RunKeepsInv(s: System, steps: seq<Step>)
    requires Inv(s)
    ensures Inv(Run(s, steps))
  {
    hide Inv, Next;
    if steps != [] {
      RunKeepsInv(s, steps[..|steps| - 1]);
      NextKeepsInv(Run(s, steps[..|steps| - 1]), steps[|steps| - 1]);
    }
  }

  lemma {:induction false} RunConcat(s: System, a: seq<Step>, b: seq<Step>)
    ensures Run(s, a + b) == Run(Run(s, a), b)
  {
    if b == [] {
      assert a + b == a;
    } else {
      assert (a + b)[..|a + b| - 1] == a + b[..|b| - 1];
      RunConcat(s, a, b[..|b| - 1]);
    }
  }

  lemma FreshInv()
    ensures Inv(FRESH)
  {
  }

  /** Until the cache is dropped, every interleaving of the two sides keeps `pending`
      the duplicate-free union of what is queued, in hand and unread (with the path
      just sent); so at most 64 are in flight, a send is never refused by a full
      queue or a dead worker, and a result always finds room. */
  lemma PendingIsInFlight(steps: seq<Step>)
    requires !Dropped(Run(FRESH, steps))
    ensures var s := Run(FRESH, steps);
            && InFlight(s) == multiset(Expected(s))
            && |InFlight(s)| <= MAX_PENDING_INSPECTIONS
            && (s.caller.Requesting? && |s.pending| < MAX_PENDING_INSPECTIONS && s.caller.path !in s.pending ==>
                  CallerNext(s, TrySend).caller.Sent?)
            && (s.worker.Publishing? ==> WorkerNext(s, Publish).worker.Waiting?)
            && |s.entries| <= MAX_CACHE_ENTRIES
  {
    hide Traffic, CallerNext, WorkerNext, InFlight, Run;
    var s := Run(FRESH, steps);
    FreshInv();
    RunKeepsInv(FRESH, steps);
    FlightSize(s);
    NeverRefused(s);
  }

  lemma NeverRefused(s: System)
    requires Traffic(s) && !Dropped(s)
    ensures InFlight(s) == multiset(Expected(s))
    ensures s.caller.Requesting? && |s.pending| < MAX_PENDING_INSPECTIONS && s.caller.path !in s.pending ==>
              CallerNext(s, TrySend).caller.Sent?
    ensures s.worker.Publishing? ==> WorkerNext(s, Publish).worker.Waiting?
  {
    hide InFlight;
    FlightSize(s);
    assert s.worker.Publishing? ==> |InHand(s.worker)| == 1;
  }

  lemma {:induction false} UnreadSize(results: seq<Inspection>)
    ensures |Unread(results)| == |results|
  {
    if results != [] {
      UnreadSize(results[1..]);
    }
  }

  lemma FlightSize(s: System)
    requires Traffic(s) && !Dropped(s)
    ensures |InFlight(s)| == |Expected(s)| <= MAX_PENDING_INSPECTIONS
    ensures |s.queue| + |InHand(s.worker)| + |s.results| == |InFlight(s)|
    ensures !s.caller.Sent? ==> |InFlight(s)| == |s.pending|
  {
    UnreadSize(s.results);
    assert |multiset(s.queue)| == |s.queue|;
    assert |multiset(Expected(s))| == |Expected(s)|;
    if s.caller.Sent? {
      assert |Expected(s)| == |s.pending| + 1;
    } else {
      assert Expected(s) == s.pending;
    }
  }

  /** Every answer ever given is the default or something the inspector returned for that very path. */
  lemma AnswersAreGenuine(steps: seq<Step>, i: nat)
    requires i < |Run(FRESH, steps).answers|
    ensures var s := Run(FRESH, steps); s.answers[i].1 == UNKNOWN || s.answers[i] in s.produced
  {
    FreshInv();
    RunKeepsInv(FRESH, steps);
  }

  // ---------- after the drop ----------

  function Inspections(s: System, steps: seq<Step>): nat {
    if steps == [] then 0
    else
      var before := Run(s, steps[..|steps| - 1]);
      Inspections(s, steps[..|steps| - 1])
      + if steps[|steps| - 1].Inspect? && before.worker.Inspecting? then 1 else 0
  }

  /** Once stopped, the worker finishes at most the inspection it is in, and starts no other. */
  lemma {:induction false} StoppedWorkerWindsDown(s: System, steps: seq<Step>)
    requires s.stopped
    ensures Run(s, steps).stopped
    ensures Inspections(s, steps) + (if Run(s, steps).worker.Inspecting? then 1 else 0)
            <= if s.worker.Inspecting? then 1 else 0
  {
    if steps != [] {
      StoppedWorkerWindsDown(s, steps[..|steps| - 1]);
    }
  }
}

/** The cache object itself: `inspect` takes its steps one at a time, and between any
    two of them the worker thread may take as many of its own as it likes. */
module GitCache {
  import opened Basics
  import opened GitCacheSteps

  predicate AllWorker(steps: seq<Step>) {
    forall i :: 0 <= i < |steps| ==> IsWorkerStep(steps[i])
  }

  lemma RunOne(s: System, steps: seq<Step>, step: Step)
    ensures Run(s, steps + [step]) == Next(Run(s, steps), step)
  {
    assert (steps + [step])[..|steps|] == steps;
  }

  lemma {:induction false} OldestExists(entries: map<Path, Entry>)
    requires entries != map[]
    ensures exists victim :: Oldest(entries, victim)
    decreases |entries|
  {
    var p :| p in entries;
    var rest := entries - {p};
    assert rest.Keys == entries.Keys - {p};
    if rest == map[] {
      assert forall x :: x in entries && x != p ==> x in rest;
      assert Oldest(entries, p);
    } else {
      OldestExists(rest);
      var q :| Oldest(rest, q);
      assert forall x :: x in entries && x != p ==> x in rest && rest[x] == entries[x];
      assert Oldest(entries, if entries[p].accessedAt <= entries[q].accessedAt then p else q);
    }
  }

  lemma {:induction false} WorkerLeavesCaller(s: System, steps: seq<Step>)
    requires AllWorker(steps)
    ensures var t := Run(s, steps);
            t.caller == s.caller && t.pending == s.pending && t.entries == s.entries && t.answers == s.answers
            && t.stopped == s.stopped
  {
    if steps != [] {
      WorkerLeavesCaller(s, steps[..|steps| - 1]);
    }
  }

  class Cache {
    var entries: map<Path, Entry>
    var pending: set<Path>
    var queue: seq<Path>
    var results: seq<Inspection>
    var stopped: bool
    var open: bool
    var worker: Worker
    ghost var caller: Caller
    ghost var produced: set<Inspection>
    ghost var answers: seq<Inspection>

    ghost function Value(): System
      reads this
    {
      System(entries, pending, queue, results, stopped, caller, worker, produced, answers)
    }

    /** The channels are open until the cache is gone. */
    ghost predicate Valid()
      reads this
    {
      (open <==> !caller.Gone?) && Inv(Value())
    }

    constructor ()
      ensures Valid() && Value() == FRESH
    {
      entries, pending, queue, results := map[], {}, [], [];
      stopped, worker, open := false, Waiting, true;
      caller, produced, answers := Resting, {}, [];
    }

    /** One step of the worker's loop; the inspector's result is the step's. */
    method WorkerStep(step: Step)
      requires Valid() && IsWorkerStep(step)
      modifies this`queue, this`results, this`worker, this`produced
      ensures Valid() && Value() == Next(old(Value()), step)
    {
      hide Inv, CallerNext;
      NextKeepsInv(Value(), step);
      match step {
        case Receive =>
          if worker.Waiting? {
            if queue != [] {
              worker := Checking(queue[0]);
              queue := queue[1..];
            } else if !open {
              worker := Stopped;
            }
          }
        case Check =>
          if worker.Checking? {
            worker := if stopped then Stopped else Inspecting(worker.path);
          }
        case Inspect(value) =>
          if worker.Inspecting? {
            produced := produced + {(worker.path, value)};
            worker := Publishing(worker.path, value);
          }
        case Publish =>
          if worker.Publishing? {
            if !open {
              worker := Stopped;
            } else if |results| < MAX_PENDING_INSPECTIONS {
              results := results + [(worker.path, worker.value)];
              worker := Waiting;
            }
          }
      }
    }

    /** The worker thread runs on its own for a while. */
    method Interleave(steps: seq<Step>)
      requires Valid() && AllWorker(steps)
      modifies this`queue, this`results, this`worker, this`produced
      ensures Valid() && Value() == Run(old(Value()), steps)
    {
      assert steps[..0] == [];
      for i := 0 to |steps|
        invariant Valid() && Value() == Run(old(Value()), steps[..i])
      {
        hide Inv;
        assert steps[..i + 1] == steps[..i] + [steps[i]];
        RunOne(old(Value()), steps[..i], steps[i]);
        WorkerStep(steps[i]);
      }
      assert steps[..|steps|] == steps;
    }

    /** Takes one unread result into the cache, evicting an entry longest unused. */
    method DrainOne(now: nat) returns (ghost step: Step)
      requires Valid() && caller.Draining? && results != []
      modifies this`results, this`pending, this`entries
      ensures step.Drain? && Valid() && Value() == Next(old(Value()), step)
      ensures pending < old(pending)
    {
      hide Inv, WorkerNext;
      ghost var was := Value();
      var (path, value) := results[0];
      DrainedIsPending(was);
      results := results[1..];
      pending := pending - {path};
      var victim := path;
      if path !in entries && |entries| >= MAX_CACHE_ENTRIES {
        assert entries != map[];
        OldestExists(entries);
        victim :| victim in entries && forall p :: p in entries ==> entries[victim].accessedAt <= entries[p].accessedAt;
        entries := entries - {victim};
      }
      entries := entries[path := Entry(value, now, now)];
      step := Drain(now, victim);
      NextKeepsInv(was, step);
    }

    /** Empties the results before looking; terminates because every result taken
        takes one path out of `pending`, and the worker adds none. */
    method DrainAll(clock: nat -> nat, schedule: nat -> seq<Step>) returns (used: nat, ghost trace: seq<Step>)
      requires Valid() && caller.Draining? && forall n :: AllWorker(schedule(n))
      modifies this
      ensures Valid() && Value() == Run(old(Value()), trace)
      ensures caller == Looking(old(caller).path) && answers == old(answers)
    {
      hide Inv, Next;
      used, trace := 0, [];
      ghost var was := Value();
      while results != []
        invariant Valid() && Value() == Run(was, trace)
        invariant caller == was.caller && answers == was.answers
        decreases |pending|
      {
        ghost var before := pending;
        ghost var step := DrainOne(clock(used));
        RunOne(was, trace, step);
        trace := trace + [step];
        Smaller(pending, before);
        WorkerLeavesCaller(Value(), schedule(used));
        RunConcat(was, trace, schedule(used));
        Interleave(schedule(used));
        trace := trace + schedule(used);
        used := used + 1;
      }
      EndDrainMoves(Value());
      CallerStep(EndDrain, Looking(caller.path));
      RunOne(was, trace, EndDrain);
      trace := trace + [EndDrain];
    }

    /** A step of the caller that only moves it on. */
    ghost method CallerStep(step: Step, next: Caller)
      requires Valid() && !IsWorkerStep(step) && !next.Gone? && !caller.Gone?
      requires Next(Value(), step) == Value().(caller := next)
      modifies this`caller
      ensures Valid() && Value() == Next(old(Value()), step) && caller == next
    {
      hide Inv, Next;
      NextKeepsInv(Value(), step);
      caller := next;
    }

    /** A cached value young enough is returned at once; otherwise the caller goes on to ask. */
    method TakeFresh(directory: Path, now: nat) returns (young: Option<Metadata>)
      requires Valid() && caller == Looking(directory)
      modifies this`entries, this`caller, this`answers
      ensures Valid() && Value() == Next(old(Value()), Look(now))
      ensures match young
              case Some(value) => caller == Resting && answers == old(answers) + [(directory, value)]
              case None => caller == Requesting(directory) && answers == old(answers)
      ensures young.Some? <==> directory in old(entries) && now < old(entries)[directory].inspectedAt + 2000
      ensures young.Some? ==> directory in entries && young.value == old(entries)[directory].value
                              == entries[directory].value
    {
      hide Inv, Next;
      NextKeepsInv(Value(), Look(now));
      LookMoves(Value(), now);
      if directory in entries {
        var entry := entries[directory];
        entries := entries[directory := entry.(accessedAt := now)];
        if now < entry.inspectedAt + REFRESH_INTERVAL_MS {
          caller, answers := Resting, answers + [(directory, entry.value)];
          return Some(entry.value);
        }
      }
      caller := Requesting(directory);
      return None;
    }

    /** Sends the path unless it is already being inspected or 64 are; a send that
        is tried is never refused. */
    method Request(directory: Path, schedule: seq<Step>) returns (ghost trace: seq<Step>)
      requires Valid() && caller == Requesting(directory) && AllWorker(schedule)
      modifies this
      ensures Valid() && Value() == Run(old(Value()), trace)
      ensures caller == Answering(directory) && answers == old(answers)
      ensures pending == if |old(pending)| < MAX_PENDING_INSPECTIONS then old(pending) + {directory} else old(pending)
    {
      hide Inv, Next, Run;
      ghost var was := Value();
      NextKeepsInv(was, TrySend);
      TrySendMoves(was);
      if |pending| < MAX_PENDING_INSPECTIONS && directory !in pending {
        queue := queue + [directory];
        caller := Sent(directory);
        WorkerLeavesCaller(Value(), schedule);
        Interleave(schedule);
        NextKeepsInv(Value(), Record);
        RecordMoves(Value());
        Chain(was, TrySend, schedule, Record);
        pending := pending + {directory};
        caller := Answering(directory);
        trace := [TrySend] + schedule + [Record];
      } else {
        JustOne(was, TrySend);
        caller := Answering(directory);
        trace := [TrySend];
      }
    }

    /** The value the caller has after the worker has run alongside as it pleased; the
        whole call is one run of the two sides' steps. */
    method Inspect(directory: Path, clock: nat -> nat, schedule: nat -> seq<Step>)
      returns (value: Metadata, ghost trace: seq<Step>)
      requires Valid() && caller == Resting && forall n :: AllWorker(schedule(n))
      modifies this
      ensures Valid() && caller == Resting
      ensures Value() == Run(old(Value()), trace)
      ensures answers == old(answers) + [(directory, value)]
      ensures value == UNKNOWN || (directory, value) in produced
      ensures value == if directory in entries then entries[directory].value else Metadata("-", "-", "-", "-")
    {
      hide Inv, Next, Run;
      ghost var was := Value();
      CallerStepCall(directory);
      ghost var start := Value();
      var used, drained := DrainAll(clock, schedule);
      var now := clock(used);
      ghost var looked := Value();
      var cached := TakeFresh(directory, now);
      trace := [Call(directory)] + drained + [Look(now)];
      Chain(was, Call(directory), drained, Look(now));
      if cached.Some? {
        value := cached.value;
        LastAnswerGenuine(Value());
        return;
      }
      ghost var asked := Request(directory, schedule(used + 1));
      RunConcat(was, trace, asked);
      trace := trace + asked;
      value := Lookup(entries, directory);
      CallerAnswer(directory, value);
      RunOne(was, trace, Answer);
      trace := trace + [Answer];
      LastAnswerGenuine(Value());
    }

    ghost method CallerStepCall(directory: Path)
      requires Valid() && caller == Resting
      modifies this`caller
      ensures Valid() && caller == Draining(directory) && Value() == Next(old(Value()), Call(directory))
      ensures answers == old(answers)
    {
      hide Inv, Next;
      NextKeepsInv(Value(), Call(directory));
      DropMoves(Value());
      caller := Draining(directory);
    }

    ghost method CallerAnswer(directory: Path, value: Metadata)
      requires Valid() && caller == Answering(directory) && value == Lookup(entries, directory)
      modifies this`caller, this`answers
      ensures Valid() && caller == Resting && Value() == Next(old(Value()), Answer)
      ensures answers == old(answers) + [(directory, value)]
    {
      hide Inv, Next, Lookup;
      NextKeepsInv(Value(), Answer);
      AnswerMoves(Value());
      caller, answers := Resting, answers + [(directory, value)];
    }

    method MarkStopped()
      requires Valid() && caller == Resting
      modifies this`stopped, this`caller
      ensures Valid() && caller == Dropping && Value() == Next(old(Value()), SetStopped)
    {
      hide Inv, Next;
      NextKeepsInv(Value(), SetStopped);
      DropMoves(Value());
      stopped := true;
      caller := Dropping;
    }

    method CloseChannels()
      requires Valid() && caller == Dropping
      modifies this`open, this`caller
      ensures Valid() && caller == Gone && Value() == Next(old(Value()), Close)
    {
      hide Inv, Next;
      NextKeepsInv(Value(), Close);
      DropMoves(Value());
      open := false;
      caller := Gone;
    }

    /** Dropping: the stop mark first, then both channels; the worker may run in between. */
    method Drop(schedule: seq<Step>) returns (ghost trace: seq<Step>)
      requires Valid() && caller == Resting && AllWorker(schedule)
      modifies this
      ensures Valid() && caller == Gone && Value() == Run(old(Value()), trace)
      ensures trace == [SetStopped] + schedule + [Close]
    {
      hide Inv, Next, Run;
      ghost var was := Value();
      MarkStopped();
      WorkerLeavesCaller(Value(), schedule);
      Interleave(schedule);
      CloseChannels();
      trace := [SetStopped] + schedule + [Close];
      Chain(was, SetStopped, schedule, Close);
    }
  }

  lemma EndDrainMoves(s: System)
    requires s.caller.Draining? && s.results == []
    ensures Next(s, EndDrain) == s.(caller := Looking(s.caller.path))
  {
  }

  lemma LookMoves(s: System, now: nat)
    requires s.caller.Looking?
    ensures var path := s.caller.path;
            Next(s, Look(now)) ==
            if path !in s.entries then s.(caller := Requesting(path))
            else
              var entry := s.entries[path];
              var t := s.(entries := s.entries[path := entry.(accessedAt := now)]);
              if now < entry.inspectedAt + REFRESH_INTERVAL_MS
              then t.(caller := Resting, answers := s.answers + [(path, entry.value)])
              else t.(caller := Requesting(path))
  {
  }

  lemma TrySendMoves(s: System)
    requires Inv(s) && s.caller.Requesting?
    ensures var path := s.caller.path;
            Next(s, TrySend) ==
            if |s.pending| < MAX_PENDING_INSPECTIONS && path !in s.pending
            then s.(queue := s.queue + [path], caller := Sent(path))
            else s.(caller := Answering(path))
  {
    if |s.pending| < MAX_PENDING_INSPECTIONS {
      RoomToSend(s);
    }
  }

  lemma RecordMoves(s: System)
    requires s.caller.Sent?
    ensures Next(s, Record) == s.(pending := s.pending + {s.caller.path}, caller := Answering(s.caller.path))
  {
  }

  lemma AnswerMoves(s: System)
    requires s.caller.Answering?
    ensures Next(s, Answer)
            == s.(caller := Resting, answers := s.answers + [(s.caller.path, Lookup(s.entries, s.caller.path))])
  {
  }

  lemma DropMoves(s: System)
    ensures s.caller.Resting? ==> Next(s, SetStopped) == s.(caller := Dropping, stopped := true)
    ensures s.caller.Dropping? ==> Next(s, Close) == s.(caller := Gone)
    ensures s.caller.Resting? ==> forall path :: Next(s, Call(path)) == s.(caller := Draining(path))
  {
  }

  lemma Smaller(a: set<Path>, b: set<Path>)
    requires a < b
    ensures |a| < |b|
  {
    var x :| x in b && x !in a;
    assert b == (b - a) + a;
    assert |b - a| > 0;
  }

  lemma RoomToSend(s: System)
    requires Inv(s) && s.caller.Requesting? && |s.pending| < MAX_PENDING_INSPECTIONS
    ensures |s.queue| < MAX_PENDING_INSPECTIONS && !s.worker.Stopped?
  {
    FlightSize(s);
  }

  lemma LastAnswerGenuine(s: System)
    requires Inv(s) && s.answers != []
    ensures var (path, value) := s.answers[|s.answers| - 1]; value == UNKNOWN || (path, value) in s.produced
  {
    assert Genuine(s, s.answers[|s.answers| - 1]);
  }

  lemma JustOne(s: System, step: Step)
    ensures Run(s, [step]) == Next(s, step)
  {
    RunOne(s, [], step);
    assert [] + [step] == [step];
  }

  lemma Chain(s: System, first: Step, middle: seq<Step>, last: Step)
    ensures Run(s, [first] + middle + [last]) == Next(Run(Next(s, first), middle), last)
  {
    RunOne(s, [], first);
    assert [] + [first] == [first];
    RunConcat(s, [first], middle);
    RunOne(s, [first] + middle, last);
  }

  lemma DrainedIsPending(s: System)
    requires Inv(s) && s.caller.Draining? && s.results != []
    ensures s.results[0].0 in s.pending
  {
    assert s.results[0].0 in InFlight(s);
    assert Expected(s) == s.pending;
  }
}
