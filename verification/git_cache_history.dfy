/** The cache over a whole run: what was sent comes back in order, what came back last is
    what is known, and every answer is what is known at that moment. */
module GitCacheHistory {
  import opened Basics
  import opened GitCacheSteps

  /** One result taken in: what it says, when, and the path that made room for it, if one had to. */
  datatype Arrival = Arrival(path: Path, value: Metadata, at: nat, evicted: Option<Path>)

  /** The paths the caller has sent to the worker, in order. */
  function SentPaths(s: System, steps: seq<Step>): seq<Path> {
    if steps == [] then []
    else
      var before, after := Run(s, steps[..|steps| - 1]), Run(s, steps);
      SentPaths(s, steps[..|steps| - 1])
      + if before.caller.Requesting? && after.caller.Sent? then [after.caller.path] else []
  }

  /** A drain takes effect unless it would have to evict an entry that is not longest unused. */
  predicate Takes(s: System, step: Step) {
    && step.Drain? && s.caller.Draining? && s.results != []
    && (Full(s) ==> Oldest(s.entries, step.victim))
  }

  predicate Full(s: System)
    requires s.results != []
  {
    s.results[0].0 !in s.entries && |s.entries| >= MAX_CACHE_ENTRIES
  }

  /** The results taken in, in order. */
  function Arrivals(s: System, steps: seq<Step>): seq<Arrival> {
    if steps == [] then []
    else
      var before, step := Run(s, steps[..|steps| - 1]), steps[|steps| - 1];
      Arrivals(s, steps[..|steps| - 1])
      + if !Takes(before, step) then []
        else [Arrival(before.results[0].0, before.results[0].1, step.now,
                      if Full(before) then Some(step.victim) else None)]
  }

  function PathsOf(arrivals: seq<Arrival>): seq<Path> {
    seq(|arrivals|, i requires 0 <= i < |arrivals| => arrivals[i].path)
  }

  function PathsIn(results: seq<Inspection>): seq<Path> {
    seq(|results|, i requires 0 <= i < |results| => results[i].0)
  }

  function HandPath(w: Worker): seq<Path> {
    if w.Waiting? || w.Stopped? then [] else [w.path]
  }

  function Line(s: System): seq<Path> {
    PathsIn(s.results) + HandPath(s.worker) + s.queue
  }

  /** What the arrivals say of a path: the last one, unless it was evicted since. */
  function Latest(arrivals: seq<Arrival>, path: Path): Option<Arrival> {
    if arrivals == [] then None
    else
      var last := arrivals[|arrivals| - 1];
      if last.path == path then Some(last)
      else if last.evicted == Some(path) then None
      else Latest(arrivals[..|arrivals| - 1], path)
  }

  // ---------- first in, first out ----------

  lemma OneArrived(arrivals: seq<Arrival>, a: Arrival)
    ensures PathsOf(arrivals + [a]) == PathsOf(arrivals) + [a.path]
    ensures (arrivals + [a])[..|arrivals|] == arrivals
  {
  }

  lemma OnePublished(results: seq<Inspection>, r: Inspection)
    ensures PathsIn(results + [r]) == PathsIn(results) + [r.0]
  {
  }

  lemma FirstRead(results: seq<Inspection>)
    requires results != []
    ensures PathsIn(results) == [results[0].0] + PathsIn(results[1..])
  {
  }

  lemma WorkerKeepsLine(s: System, step: Step)
    requires IsWorkerStep(step) && !s.stopped && !s.caller.Gone?
    ensures Line(WorkerNext(s, step)) == Line(s)
  {
    var t := WorkerNext(s, step);
    var read, queue := PathsIn(s.results), s.queue;
    if step.Receive? && s.worker.Waiting? && s.queue != [] {
      assert s.queue == [s.queue[0]] + s.queue[1..];
      assert read + [] + s.queue == read + [s.queue[0]] + s.queue[1..];
    } else if step.Publish? && s.worker.Publishing? && |s.results| < MAX_PENDING_INSPECTIONS {
      OnePublished(s.results, (s.worker.path, s.worker.value));
      assert read + [s.worker.path] + [] + s.queue == read + [s.worker.path] + s.queue;
    }
  }

  /** One step of the caller: what it sends joins the line last, what it takes in leaves it first. */
  lemma CallerMovesLine(s: System, step: Step)
    requires !IsWorkerStep(step)
    ensures var t := CallerNext(s, step);
            var sent := if s.caller.Requesting? && t.caller.Sent? then [t.caller.path] else [];
            var taken := if Takes(s, step) then [s.results[0].0] else [];
            taken + Line(t) == Line(s) + sent
  {
    hide Oldest, Lookup, Insert;
    var t := CallerNext(s, step);
    if Takes(s, step) {
      FirstRead(s.results);
      assert [s.results[0].0] + (PathsIn(t.results) + HandPath(t.worker) + t.queue)
          == [s.results[0].0] + PathsIn(t.results) + HandPath(t.worker) + t.queue;
    } else if s.caller.Requesting? && t.caller.Sent? {
      assert PathsIn(s.results) + HandPath(s.worker) + (s.queue + [t.caller.path])
          == PathsIn(s.results) + HandPath(s.worker) + s.queue + [t.caller.path];
    } else {
      assert t.results == s.results && t.worker == s.worker && t.queue == s.queue;
    }
  }

  lemma RunLast(s: System, steps: seq<Step>)
    requires steps != []
    ensures Run(s, steps) == Next(Run(s, steps[..|steps| - 1]), steps[|steps| - 1])
  {
  }

  lemma {:induction false} StopIsDrop(steps: seq<Step>)
    ensures var s := Run(FRESH, steps); s.stopped <==> Dropped(s)
  {
    hide Insert, MustEvict, Oldest, Lookup;
    if steps != [] {
      StopIsDrop(steps[..|steps| - 1]);
    }
  }

  /** Until the cache is dropped the paths sent are, in this order, those taken in, those
      waiting to be read, the one in the worker's hand and those queued: nothing is lost,
      repeated or overtaken. */
  lemma {:induction false} FirstInFirstOut(steps: seq<Step>)
    requires !Dropped(Run(FRESH, steps))
    ensures var s := Run(FRESH, steps);
            SentPaths(FRESH, steps) == PathsOf(Arrivals(FRESH, steps)) + Line(s)
  {
    hide Run, Next, CallerNext, WorkerNext, Line, PathsOf, Full, Oldest;
    if steps == [] {
      NothingSent();
    } else {
      var init, step := steps[..|steps| - 1], steps[|steps| - 1];
      var s, t := Run(FRESH, init), Run(FRESH, steps);
      RunLast(FRESH, steps);
      NotYetDropped(s, step);
      FirstInFirstOut(init);
      StopIsDrop(init);
      LineMoves(s, step);
      var arrived := PathsOf(Arrivals(FRESH, init));
      if Takes(s, step) {
        OneArrived(Arrivals(FRESH, init), Arrivals(FRESH, steps)[|Arrivals(FRESH, init)|]);
        assert arrived + ([s.results[0].0] + Line(t)) == arrived + [s.results[0].0] + Line(t);
      } else {
        assert Arrivals(FRESH, init) + [] == Arrivals(FRESH, init);
        assert [] + Line(t) == Line(t);
      }
      var sent := if s.caller.Requesting? && t.caller.Sent? then [t.caller.path] else [];
      assert arrived + (Line(s) + sent) == arrived + Line(s) + sent;
    }
  }

  lemma NothingSent()
    ensures SentPaths(FRESH, []) == PathsOf(Arrivals(FRESH, [])) + Line(Run(FRESH, []))
  {
  }

  lemma NotYetDropped(s: System, step: Step)
    requires !Dropped(Next(s, step))
    ensures !Dropped(s)
  {
    hide Insert, MustEvict, Oldest, Lookup;
  }

  lemma LineMoves(s: System, step: Step)
    requires !s.stopped && !Dropped(s)
    ensures var t := Next(s, step);
            var sent := if s.caller.Requesting? && t.caller.Sent? then [t.caller.path] else [];
            var taken := if Takes(s, step) then [s.results[0].0] else [];
            taken + Line(t) == Line(s) + sent
  {
    hide CallerNext, Line;
    if IsWorkerStep(step) {
      WorkerKeepsLine(s, step);
      assert [] + Line(s) == Line(s) + [];
    } else {
      CallerMovesLine(s, step);
    }
  }

  // ---------- what is known ----------

  /** The cache holds exactly what the arrivals say. */
  ghost predicate Holds(entries: map<Path, Entry>, arrivals: seq<Arrival>) {
    forall path :: Agrees(entries, path, Latest(arrivals, path))
  }

  ghost predicate Agrees(entries: map<Path, Entry>, path: Path, latest: Option<Arrival>) {
    if latest.None? then path !in entries
    else path in entries && entries[path].value == latest.value.value && entries[path].inspectedAt == latest.value.at
  }

  lemma TakenIn(s: System, step: Step, arrivals: seq<Arrival>)
    requires Takes(s, step) && Holds(s.entries, arrivals)
    ensures var a := Arrival(s.results[0].0, s.results[0].1, step.now,
                             if Full(s) then Some(step.victim) else None);
            Holds(CallerNext(s, step).entries, arrivals + [a])
  {
    hide Latest;
    var a := Arrival(s.results[0].0, s.results[0].1, step.now, if Full(s) then Some(step.victim) else None);
    var t := CallerNext(s, step);
    forall path
      ensures Agrees(t.entries, path, Latest(arrivals + [a], path))
    {
      LatestAfter(arrivals, a, path);
      assert Agrees(s.entries, path, Latest(arrivals, path));
    }
  }

  lemma LatestAfter(arrivals: seq<Arrival>, a: Arrival, path: Path)
    ensures Latest(arrivals + [a], path)
            == if a.path == path then Some(a)
               else if a.evicted == Some(path) then None else Latest(arrivals, path)
  {
    assert (arrivals + [a])[..|arrivals|] == arrivals;
  }

  lemma NotTakenIn(s: System, step: Step, arrivals: seq<Arrival>)
    requires !Takes(s, step) && Holds(s.entries, arrivals)
    ensures Holds(Next(s, step).entries, arrivals)
  {
    hide Latest, Oldest;
    forall path
      ensures Agrees(Next(s, step).entries, path, Latest(arrivals, path))
    {
      assert Agrees(s.entries, path, Latest(arrivals, path));
    }
  }

  /** Over every interleaving the cache holds exactly what came back last for each path and
      was not evicted since, with the time it came. */
  lemma {:induction false} CacheHoldsLatest(steps: seq<Step>)
    ensures Holds(Run(FRESH, steps).entries, Arrivals(FRESH, steps))
  {
    hide Run, Holds, CallerNext, Next, Takes, Full, Latest;
    if steps == [] {
      NothingKnown();
    } else {
      var init, step := steps[..|steps| - 1], steps[|steps| - 1];
      var s := Run(FRESH, init);
      RunLast(FRESH, steps);
      CacheHoldsLatest(init);
      if Takes(s, step) {
        DrainIsCaller(s, step);
        TakenIn(s, step, Arrivals(FRESH, init));
      } else {
        NotTakenIn(s, step, Arrivals(FRESH, init));
        assert Arrivals(FRESH, init) + [] == Arrivals(FRESH, init);
      }
    }
  }

  lemma NothingKnown()
    ensures Holds(Run(FRESH, []).entries, Arrivals(FRESH, []))
  {
  }

  lemma DrainIsCaller(s: System, step: Step)
    requires Takes(s, step)
    ensures Next(s, step) == CallerNext(s, step)
  {
    hide CallerNext;
  }

  /** What is evicted is longest unused in a cache that is full of other paths. */
  lemma OnlyTheOldestIsEvicted(steps: seq<Step>, i: nat)
    requires i < |steps| && Takes(Run(FRESH, steps[..i]), steps[i])
    ensures var s := Run(FRESH, steps[..i]);
            var t := Run(FRESH, steps[..i + 1]);
            forall path :: path in s.entries && path !in t.entries ==>
              && |s.entries| == MAX_CACHE_ENTRIES && s.results[0].0 !in s.entries
              && forall p :: p in s.entries ==> s.entries[path].accessedAt <= s.entries[p].accessedAt
  {
    hide Inv;
    assert steps[..i + 1][..i] == steps[..i];
    FreshInv();
    RunKeepsInv(FRESH, steps[..i]);
    FewEntries(Run(FRESH, steps[..i]));
  }

  lemma FewEntries(s: System)
    requires Inv(s)
    ensures |s.entries| <= MAX_CACHE_ENTRIES
  {
  }

  // ---------- answers ----------

  /** What an answer must be: what is known of the path, or the default when nothing is. */
  function Due(latest: Option<Arrival>): Metadata {
    match latest
    case None => Metadata("-", "-", "-", "-")
    case Some(a) => a.value
  }

  lemma AnswerIsDue(s: System, step: Step, arrivals: seq<Arrival>)
    requires Holds(s.entries, arrivals)
    ensures var t := Next(s, step);
            || t.answers == s.answers
            || (Asking(s) && t.answers == s.answers + [(s.caller.path, Due(Latest(arrivals, s.caller.path)))])
  {
    hide Latest, Oldest, Insert, MustEvict, Holds;
    if Asking(s) {
      KnownHere(s.entries, arrivals, s.caller.path);
    }
  }

  lemma KnownHere(entries: map<Path, Entry>, arrivals: seq<Arrival>, path: Path)
    requires Holds(entries, arrivals)
    ensures Agrees(entries, path, Latest(arrivals, path))
  {
  }

  predicate Asking(s: System) {
    s.caller.Looking? || s.caller.Answering?
  }

  /** Every answer is what is known of its path at that moment: what came back last and was not
      evicted since, or the default if and only if there is no such thing. */
  lemma AnswersAreDue(steps: seq<Step>, step: Step)
    ensures var s, t := Run(FRESH, steps), Run(FRESH, steps + [step]);
            || t.answers == s.answers
            || (Asking(s)
                && t.answers == s.answers + [(s.caller.path, Due(Latest(Arrivals(FRESH, steps), s.caller.path)))])
  {
    hide Run, Next, Latest, Holds;
    assert (steps + [step])[..|steps|] == steps;
    RunLast(FRESH, steps + [step]);
    CacheHoldsLatest(steps);
    AnswerIsDue(Run(FRESH, steps), step, Arrivals(FRESH, steps));
  }

  /** A look answers at once what came back less than two seconds ago, and otherwise goes on
      to ask for the path again. */
  lemma LookIsExact(steps: seq<Step>, now: nat)
    requires Run(FRESH, steps).caller.Looking?
    ensures var s := Run(FRESH, steps);
            var t, latest := Next(s, Look(now)), Latest(Arrivals(FRESH, steps), s.caller.path);
            if latest.Some? && now < latest.value.at + 2000
            then t.caller == Resting && t.answers == s.answers + [(s.caller.path, latest.value.value)]
            else t.caller == Requesting(s.caller.path) && t.answers == s.answers
  {
    hide Run, Latest, Holds;
    CacheHoldsLatest(steps);
    KnownHere(Run(FRESH, steps).entries, Arrivals(FRESH, steps), Run(FRESH, steps).caller.path);
  }

  /** Before it looks, a call has taken in everything that was published: it moves on only
      with nothing left to read, and only by answering or asking it comes to rest. */
  lemma NothingUnreadIsOverlooked(s: System, step: Step)
    requires s.caller.Draining? && !Next(s, step).caller.Draining?
    ensures s.results == [] && Next(s, step) == s.(caller := Looking(s.caller.path))
  {
    hide Insert, MustEvict, Oldest, Lookup;
  }

  /** A path asked for is sent, once, unless it is under way already or as many are as may be. */
  lemma AskingSends(steps: seq<Step>)
    requires Run(FRESH, steps).caller.Requesting? && !Dropped(Run(FRESH, steps))
    ensures var s := Run(FRESH, steps);
            var path, t := s.caller.path, Next(s, TrySend);
            if path in Line(s) || |Line(s)| >= 64 then t.caller == Answering(path) && Line(t) == Line(s)
            else t.caller == Sent(path) && Line(t) == Line(s) + [path]
  {
    hide Run, Inv;
    var s := Run(FRESH, steps);
    FreshInv();
    RunKeepsInv(FRESH, steps);
    LineIsPending(s);
    NeverRefusedHere(s);
    CallerMovesLine(s, TrySend);
    assert [] + Line(Next(s, TrySend)) == Line(Next(s, TrySend));
    assert Line(s) + [] == Line(s);
  }

  lemma NeverRefusedHere(s: System)
    requires Inv(s) && !Dropped(s) && s.caller.Requesting?
    ensures |s.pending| < MAX_PENDING_INSPECTIONS && s.caller.path !in s.pending ==>
              CallerNext(s, TrySend).caller == Sent(s.caller.path)
  {
    NeverRefused(s);
  }

  lemma {:induction false} UnreadPaths(results: seq<Inspection>)
    ensures multiset(PathsIn(results)) == Unread(results)
  {
    if results != [] {
      FirstRead(results);
      UnreadPaths(results[1..]);
    } else {
      assert PathsIn(results) == [];
    }
  }

  lemma LineIsPending(s: System)
    requires Inv(s) && !Dropped(s) && !s.caller.Sent?
    ensures |Line(s)| == |s.pending| && forall p :: p in Line(s) <==> p in s.pending
  {
    UnreadPaths(s.results);
    assert multiset(Line(s)) == Unread(s.results) + multiset(HandPath(s.worker)) + multiset(s.queue);
    assert multiset(HandPath(s.worker)) == InHand(s.worker);
    assert multiset(Line(s)) == InFlight(s);
    assert Expected(s) == s.pending;
    assert forall p :: p in Line(s) <==> p in multiset(Line(s));
    assert |multiset(Line(s))| == |Line(s)| && |multiset(s.pending)| == |s.pending|;
  }

  // ---------- after the drop ----------

  /** The step the worker's loop takes next; v is what an inspection would return. */
  function WorkerTurn(w: Worker, v: Metadata): Step {
    match w
    case Waiting => Receive
    case Checking(_) => Check
    case Inspecting(_) => Inspect(v)
    case Publishing(_, _) => Publish
    case Stopped => Receive
  }

  /** Once the cache is gone the worker's loop ends within two of its steps. */
  lemma DroppedWorkerStops(steps: seq<Step>, v: Metadata)
    requires Run(FRESH, steps).caller.Gone?
    ensures var s := Run(FRESH, steps);
            var t := Next(s, WorkerTurn(s.worker, v));
            Next(t, WorkerTurn(t.worker, v)).worker.Stopped?
  {
    hide Run;
    StopIsDrop(steps);
  }
}
