/** The client's version negotiation and its replay discipline, against any daemon. */
module ClientProtocol {
  import opened Basics

  const MIN_PROTOCOL_VERSION: nat := 47
  const PROTOCOL_VERSION: nat := 57
  const GIT_WORKTREE_CLEANUP_VERSION: nat := 57
  const VERSIONS: nat := PROTOCOL_VERSION - MIN_PROTOCOL_VERSION + 1

  /** A request other than a ping may need a feature that begins at some version. */
  datatype Request = Ping | Operation(id: nat, required: Option<nat>)

  datatype ErrorCode = UnsupportedVersion | PersistenceFailed | OutcomeUnknown | Timeout | OtherCode

  datatype IoKind = ConnectionReset | BrokenPipe | ConnectionAborted | NotConnected | TimedOut | UnexpectedEof
                  | InvalidData | OtherKind

  datatype Response = Pong | Error(code: Option<ErrorCode>) | Answer(payload: nat)

  /** What one exchange with the daemon comes to: an I/O error somewhere on the way, or a reply. */
  datatype Wire = ConnectFailed(connectKind: IoKind) | IoFailed(kind: IoKind) | Reply(version: nat, response: Response)

  datatype ClientError =
    | Remote(code: Option<ErrorCode>)
    | VersionMismatch(expected: nat, actual: nat)
    | Unsupported
    | InvalidMessage
    | Transport(kind: IoKind)
    | Unexpected

  type Outcome<+T> = Result<T, ClientError>

  datatype Transmission = Transmission(request: Request, version: nat)

  /** Any daemon: what it does may depend on everything sent to it so far. */
  type Daemon = seq<Transmission> -> Wire

  predicate Supports(request: Request, version: nat) {
    request.Operation? && request.required.Some? ==> version >= request.required.value
  }

  function Classify(kind: IoKind): ClientError {
    if kind == InvalidData then InvalidMessage else Transport(kind)
  }

  function Interpret(wire: Wire, version: nat): Outcome<Response> {
    match wire
    case ConnectFailed(kind) => Failure(Transport(kind))
    case IoFailed(kind) => Failure(Classify(kind))
    case Reply(actual, response) =>
      if actual != version then
        if response == Error(Some(UnsupportedVersion)) then Failure(Remote(Some(UnsupportedVersion)))
        else Failure(VersionMismatch(version, actual))
      else if response.Error? then Failure(Remote(response.code))
      else Success(response)
  }

  predicate IsProtocolRejection(error: ClientError) {
    error == Remote(Some(UnsupportedVersion)) || error.VersionMismatch?
  }

  predicate IsRetryable(error: ClientError) {
    || (error.Remote? && error.code in {Some(PersistenceFailed), Some(OutcomeUnknown), Some(Timeout)})
    || (error.Transport? && error.kind in {ConnectionReset, BrokenPipe, ConnectionAborted, NotConnected, TimedOut,
                                           UnexpectedEof})
  }

  /** What came of the k-th transmission. */
  function Came(daemon: Daemon, log: seq<Transmission>, k: nat): Outcome<Response>
    requires k < |log|
  {
    Interpret(daemon(log[..k + 1]), log[k].version)
  }

  predicate Rejected(r: Outcome<Response>) {
    r.Failure? && IsProtocolRejection(r.error)
  }

  predicate Extends(after: seq<Transmission>, before: seq<Transmission>) {
    |before| <= |after| && after[..|before|] == before
  }

  /** From position `from` on, one ping at each version from the latest down to v, the
      last one answered and every one before it rejected: v is the greatest accepted. */
  predicate GreatestAccepted(daemon: Daemon, log: seq<Transmission>, from: nat, v: nat) {
    && MIN_PROTOCOL_VERSION <= v <= PROTOCOL_VERSION
    && |log| == from + (PROTOCOL_VERSION - v) + 1
    && (forall k :: from <= k < |log| ==> log[k] == Transmission(Ping, PROTOCOL_VERSION - (k - from)))
    && (forall k :: from <= k < |log| - 1 ==> Rejected(Came(daemon, log, k)))
    && Came(daemon, log, |log| - 1) == Success(Pong)
  }

  predicate OnlyPings(log: seq<Transmission>, from: nat, until: nat)
    requires until <= |log|
  {
    forall k :: from <= k < until ==> log[k].request == Ping
  }

  /** Every transmission of the request since `from` is at a version that supports it,
      and one that is repeated was answered in a way that allows it. */
  predicate Disciplined(daemon: Daemon, log: seq<Transmission>, from: nat, request: Request, retries: bool) {
    && (forall k :: from <= k < |log| && log[k].request == request ==> Supports(request, log[k].version))
    && (forall j, k :: from <= j < k < |log| && log[j].request == request && log[k].request == request ==>
          var came := Came(daemon, log, j);
          Rejected(came) || (retries && came.Failure? && IsRetryable(came.error)))
  }

  function Times(log: seq<Transmission>, from: nat, request: Request): nat
    requires from <= |log|
    decreases |log| - from
  {
    if from == |log| then 0 else (if log[from].request == request then 1 else 0) + Times(log, from + 1, request)
  }

  lemma {:induction false} TimesOfPings(log: seq<Transmission>, from: nat, until: nat, request: Request)
    requires from <= until <= |log| && OnlyPings(log, from, until) && request != Ping
    ensures Times(log, from, request) == Times(log, until, request)
    decreases until - from
  {
    if from < until {
      TimesOfPings(log, from + 1, until, request);
    }
  }

  lemma CameBefore(daemon: Daemon, before: seq<Transmission>, after: seq<Transmission>, k: nat)
    requires Extends(after, before) && k < |before|
    ensures Came(daemon, after, k) == Came(daemon, before, k)
  {
    assert after[..k + 1] == before[..k + 1];
  }

  lemma CamesBefore(daemon: Daemon, before: seq<Transmission>, after: seq<Transmission>)
    requires Extends(after, before)
    ensures forall k :: 0 <= k < |before| ==> Came(daemon, after, k) == Came(daemon, before, k)
  {
    forall k | 0 <= k < |before|
      ensures Came(daemon, after, k) == Came(daemon, before, k)
    {
      CameBefore(daemon, before, after, k);
    }
  }

  /** What became of the request so far: each transmission of it was at a supporting
      version and rejected, except possibly the very last one, which came to r. */
  predicate Accounted(daemon: Daemon, log: seq<Transmission>, from: nat, request: Request, r: Outcome<Response>) {
    forall k :: from <= k < |log| && log[k].request == request ==>
      && Supports(request, log[k].version)
      && (Rejected(Came(daemon, log, k)) || (k == |log| - 1 && Came(daemon, log, k) == r))
  }

  predicate Unsent(log: seq<Transmission>, from: nat, request: Request) {
    forall k :: from <= k < |log| ==> log[k].request != request
  }

  lemma {:induction false} TimesUnsent(log: seq<Transmission>, from: nat, request: Request)
    requires from <= |log| && Unsent(log, from, request)
    ensures Times(log, from, request) == 0
    decreases |log| - from
  {
    if from < |log| {
      TimesUnsent(log, from + 1, request);
    }
  }

  lemma {:induction false} TimesConcat(log: seq<Transmission>, from: nat, more: seq<Transmission>, request: Request)
    requires from <= |log|
    ensures Times(log + more, from, request) == Times(log, from, request) + Times(log + more, |log|, request)
    decreases |log| - from
  {
    if from < |log| {
      TimesConcat(log, from + 1, more, request);
    }
  }

  lemma TimesSplit(after: seq<Transmission>, before: seq<Transmission>, from: nat, request: Request)
    requires from <= |before| && Extends(after, before)
    ensures Times(after, from, request) == Times(before, from, request) + Times(after, |before|, request)
  {
    assert after == before + after[|before|..];
    TimesConcat(before, from, after[|before|..], request);
  }

  lemma TimesSend(before: seq<Transmission>, from: nat, request: Request, version: nat)
    requires from <= |before|
    ensures Times(before + [Transmission(request, version)], from, request) == Times(before, from, request) + 1
  {
    TimesConcat(before, from, [Transmission(request, version)], request);
  }

  /** Every transmission of the request since `from` was at a supporting version and rejected. */
  predicate AllRejected(daemon: Daemon, log: seq<Transmission>, from: nat, request: Request) {
    forall k :: from <= k < |log| && log[k].request == request ==>
      Supports(request, log[k].version) && Rejected(Came(daemon, log, k))
  }

  lemma StartsRejected(daemon: Daemon, log: seq<Transmission>, request: Request)
    ensures AllRejected(daemon, log, |log|, request) && Extends(log, log) && Times(log, |log|, request) == 0
  {
  }

  lemma NothingOpen(daemon: Daemon, log: seq<Transmission>, from: nat, request: Request, r: Outcome<Response>)
    requires AllRejected(daemon, log, from, request)
    ensures Accounted(daemon, log, from, request, r)
  {
  }

  lemma PingsKeepRejected(daemon: Daemon, start: seq<Transmission>, before: seq<Transmission>,
                          after: seq<Transmission>, request: Request)
    requires request != Ping && Extends(before, start) && AllRejected(daemon, before, |start|, request)
    requires Extends(after, before) && OnlyPings(after, |before|, |after|)
    ensures Extends(after, start) && AllRejected(daemon, after, |start|, request)
    ensures Times(after, |start|, request) == Times(before, |start|, request)
  {
    hide Came, Rejected, Supports;
    CamesBefore(daemon, before, after);
    TimesSplit(after, before, |start|, request);
    TimesUnsent(after, |before|, request);
    assert after[..|start|] == before[..|start|];
  }

  lemma SendAccounted(daemon: Daemon, start: seq<Transmission>, before: seq<Transmission>, request: Request,
                      version: nat)
    requires Extends(before, start) && AllRejected(daemon, before, |start|, request) && Supports(request, version)
    ensures var after := before + [Transmission(request, version)];
            && Extends(after, start)
            && Accounted(daemon, after, |start|, request, Came(daemon, after, |before|))
            && Times(after, |start|, request) == Times(before, |start|, request) + 1
  {
    hide Came, Rejected, Supports, Accounted, AllRejected, Times;
    var after := before + [Transmission(request, version)];
    ExtendsOne(start, before, Transmission(request, version));
    CamesBefore(daemon, before, after);
    TimesSend(before, |start|, request, version);
    LastOpen(daemon, before, |start|, request, version);
  }

  /** A request sent joins the account of an operation, or the pings. */
  lemma SendJoins(daemon: Daemon, start: seq<Transmission>, before: seq<Transmission>, request: Request,
                  version: nat)
    requires Extends(before, start)
    requires request.Operation? ==> AllRejected(daemon, before, |start|, request) && Supports(request, version)
    requires request == Ping ==> OnlyPings(before, |start|, |before|)
    ensures var after := before + [Transmission(request, version)];
            && Extends(after, start)
            && (request.Operation? ==>
                  && Accounted(daemon, after, |start|, request, Came(daemon, after, |before|))
                  && Times(after, |start|, request) == Times(before, |start|, request) + 1)
            && (request == Ping ==> OnlyPings(after, |start|, |after|) && Supports(request, version))
  {
    hide Came, Rejected, Accounted, AllRejected, Times;
    ExtendsOne(start, before, Transmission(request, version));
    if request.Operation? {
      SendAccounted(daemon, start, before, request, version);
    }
  }

  lemma ProbesJoin(daemon: Daemon, start: seq<Transmission>, before: seq<Transmission>,
                   after: seq<Transmission>, request: Request)
    requires Extends(before, start) && Extends(after, before) && OnlyPings(after, |before|, |after|)
    requires request.Operation? ==> AllRejected(daemon, before, |start|, request)
    requires request == Ping ==> OnlyPings(before, |start|, |before|)
    ensures Extends(after, start)
    ensures request.Operation? ==>
              AllRejected(daemon, after, |start|, request)
              && Times(after, |start|, request) == Times(before, |start|, request)
    ensures request == Ping ==> OnlyPings(after, |start|, |after|)
  {
    hide Came, Rejected, Supports, AllRejected, Times;
    if request.Operation? {
      PingsKeepRejected(daemon, start, before, after, request);
    } else {
      assert forall k :: 0 <= k < |before| ==> after[k] == after[..|before|][k];
    }
    assert after[..|start|] == after[..|before|][..|start|];
  }

  lemma NoPings(log: seq<Transmission>)
    ensures OnlyPings(log, |log|, |log|)
  {
  }

  lemma PingIsSupported(version: nat)
    ensures Supports(Ping, version)
  {
  }

  lemma RejectedMeans(came: Outcome<Response>)
    ensures Rejected(came) <==> came.Failure? && IsProtocolRejection(came.error)
  {
  }

  lemma AppendExtends(before: seq<Transmission>, t: Transmission)
    ensures Extends(before + [t], before)
  {
  }

  lemma ExtendsThrough(a: seq<Transmission>, b: seq<Transmission>, c: seq<Transmission>)
    requires Extends(b, a) && Extends(c, b)
    ensures Extends(c, a) && |a| <= |b| <= |c|
  {
    assert c[..|a|] == c[..|b|][..|a|];
  }

  lemma ExtendsOne(start: seq<Transmission>, before: seq<Transmission>, t: Transmission)
    requires Extends(before, start)
    ensures Extends(before + [t], start) && Extends(before + [t], before)
  {
    assert (before + [t])[..|before|] == before;
    assert (before + [t])[..|start|] == before[..|start|];
  }

  lemma LastOpen(daemon: Daemon, before: seq<Transmission>, from: nat, request: Request, version: nat)
    requires AllRejected(daemon, before, from, request) && Supports(request, version)
    requires var after := before + [Transmission(request, version)];
             forall k :: 0 <= k < |before| ==> Came(daemon, after, k) == Came(daemon, before, k)
    ensures var after := before + [Transmission(request, version)];
            Accounted(daemon, after, from, request, Came(daemon, after, |before|))
  {
    hide Came, Rejected, Supports;
    var after := before + [Transmission(request, version)];
    forall k | from <= k < |after| && after[k].request == request
      ensures Supports(request, after[k].version)
      ensures Rejected(Came(daemon, after, k)) || k == |before|
    {
      if k < |before| {
        assert after[k] == before[k];
      }
    }
  }

  lemma LastRejected(daemon: Daemon, log: seq<Transmission>, from: nat, request: Request, r: Outcome<Response>)
    requires Accounted(daemon, log, from, request, r) && Rejected(r)
    ensures AllRejected(daemon, log, from, request)
  {
  }

  // ---------- what a call sends, on the wire ----------

  /** The daemon turned this version down: by saying so, or by answering under another. */
  predicate TurnsDown(wire: Wire, version: nat) {
    wire.Reply? && (wire.version != version || wire.response == Error(Some(UnsupportedVersion)))
  }

  /** What comes of a transmission, read off the wire: an answer is a reply under the version
      sent, a rejection one that turns it down. */
  lemma CameMeaning(daemon: Daemon, log: seq<Transmission>, k: nat)
    requires k < |log|
    ensures var came, wire, version := Came(daemon, log, k), daemon(log[..k + 1]), log[k].version;
            && (forall x :: came == Success(x) <==> wire == Reply(version, x) && !x.Error?)
            && (Rejected(came) <==> TurnsDown(wire, version))
            && (wire.ConnectFailed? ==> came == Failure(Transport(wire.connectKind)))
            && (wire.IoFailed? ==> came == Failure(if wire.kind == InvalidData then InvalidMessage
                                                   else Transport(wire.kind)))
            && (wire.Reply? && wire.version == version && wire.response.Error? ==>
                  came == Failure(Remote(wire.response.code)))
  {
  }

  /** One negotiation, transmissions from..until: a ping at each version from the latest down,
      all but the last turned down; the last accepted, or failed otherwise, or turned down at
      the oldest version. */
  predicate Probes(daemon: Daemon, log: seq<Transmission>, from: nat, until: nat, r: Outcome<nat>) {
    && from < until <= |log| && until - from <= VERSIONS
    && (forall k :: from <= k < until ==> log[k] == Transmission(Ping, PROTOCOL_VERSION - (k - from)))
    && (forall k :: from <= k < until - 1 ==> TurnsDown(daemon(log[..k + 1]), log[k].version))
    && var wire, version := daemon(log[..until]), PROTOCOL_VERSION - (until - 1 - from);
       if wire == Reply(version, Pong) then r == Success(version)
       else if TurnsDown(wire, version) then version == MIN_PROTOCOL_VERSION && r == Failure(Unsupported)
       else r == Failure(match Interpret(wire, version) case Failure(error) => error case Success(_) => Unexpected)
  }

  /** The version read at the n-th load, if this one is held. */
  function Read(others: nat -> Option<nat>, n: nat, held: nat): nat {
    if others(n).Some? then others(n).value else held
  }

  function At(version: nat, came: Outcome<Response>): Outcome<(nat, Response)> {
    match came
    case Success(response) => Success((version, response))
    case Failure(error) => Failure(error)
  }

  /** The log ends with this request at this version, and r is what came of it. */
  predicate EndsWith(daemon: Daemon, log: seq<Transmission>, n: nat, request: Request, version: nat,
                     r: Outcome<(nat, Response)>)
  {
    |log| == n + 1 && log[n] == Transmission(request, version) && r == At(version, Came(daemon, log, n))
  }

  /** From n on the request is transmitted; turned down above the oldest version, it is
      negotiated and, if the version then read supports it, transmitted a second time. */
  ghost predicate Delivers(daemon: Daemon, others: nat -> Option<nat>, loads: nat, log: seq<Transmission>, n: nat,
                           request: Request, version: nat, r: Outcome<(nat, Response)>)
  {
    && n < |log| && log[n] == Transmission(request, version)
    && if TurnsDown(daemon(log[..n + 1]), version) && version > MIN_PROTOCOL_VERSION then
         exists until, probed :: Probes(daemon, log, n + 1, until, probed)
           && Resumes(daemon, others, loads, log, until, request, probed, r)
       else EndsWith(daemon, log, n, request, version, r)
  }

  /** After a negotiation: its failure is the answer; else the request follows, once, at the
      version read back, if that supports it. */
  predicate Resumes(daemon: Daemon, others: nat -> Option<nat>, loads: nat, log: seq<Transmission>, n: nat,
                    request: Request, probed: Outcome<nat>, r: Outcome<(nat, Response)>)
  {
    if probed.Failure? then |log| == n && r == Failure(probed.error)
    else
      var version := Read(others, loads, probed.value);
      if Supports(request, version) then EndsWith(daemon, log, n, request, version, r)
      else |log| == n && r == Failure(Unsupported)
  }

  /** All that one call does: it sends at the version held, or negotiates first if that does
      not support the request. */
  ghost predicate Sends(daemon: Daemon, others: nat -> Option<nat>, loads: nat, held: nat,
                        log: seq<Transmission>, n: nat, request: Request, r: Outcome<(nat, Response)>)
  {
    var version := Read(others, loads, held);
    if Supports(request, version) then Delivers(daemon, others, loads + 1, log, n, request, version, r)
    else
      exists until, probed :: Probes(daemon, log, n, until, probed)
        && if probed.Success? && Supports(request, Read(others, loads + 1, probed.value))
           then Delivers(daemon, others, loads + 2, log, until, request, Read(others, loads + 1, probed.value), r)
           else Resumes(daemon, others, loads + 1, log, until, request, probed, r)
  }

  function Bare(r: Outcome<(nat, Response)>): Outcome<Response> {
    match r
    case Success((_, response)) => Success(response)
    case Failure(error) => Failure(error)
  }

  /** Sent; and if that failed in a way that leaves the outcome in doubt, sent all over once. */
  ghost predicate SendsTwiceInDoubt(daemon: Daemon, others: nat -> Option<nat>, loads: nat, held: nat,
                                    log: seq<Transmission>, n: nat, request: Request, r: Outcome<Response>)
  {
    exists first, m: nat, loadsThen: nat, heldThen: nat ::
      && m <= |log| && Sends(daemon, others, loads, held, log[..m], n, request, first)
      && SecondIfInDoubt(daemon, others, loadsThen, heldThen, log, m, request, first, r)
  }

  ghost predicate SecondIfInDoubt(daemon: Daemon, others: nat -> Option<nat>, loads: nat, held: nat,
                                  log: seq<Transmission>, n: nat, request: Request,
                                  first: Outcome<(nat, Response)>, r: Outcome<Response>)
  {
    if first.Failure? && IsRetryable(first.error) then
      exists second :: Sends(daemon, others, loads, held, log, n, request, second) && r == Bare(second)
    else |log| == n && r == Bare(first)
  }

  /** In doubt, read off the wire: a broken connection or a timeout, or an error that says the
      outcome is unknown, was not saved or timed out. */
  lemma InDoubtMeaning(daemon: Daemon, log: seq<Transmission>, k: nat)
    requires k < |log|
    ensures var came, wire := Came(daemon, log, k), daemon(log[..k + 1]);
            var broken := {ConnectionReset, BrokenPipe, ConnectionAborted, NotConnected, TimedOut, UnexpectedEof};
            came.Failure? && IsRetryable(came.error) <==>
              match wire
              case ConnectFailed(kind) => kind in broken
              case IoFailed(kind) => kind in broken
              case Reply(version, response) =>
                version == log[k].version && response.Error?
                && response.code in {Some(PersistenceFailed), Some(OutcomeUnknown), Some(Timeout)}
  {
  }

  /** Negotiated, and then sent exactly once if the version accepted knows cleanups. */
  ghost predicate SendsCleanup(daemon: Daemon, log: seq<Transmission>, n: nat, request: Request, r: Outcome<nat>) {
    exists until: nat, probed :: Probes(daemon, log, n, until, probed)
      && if probed == Success(GIT_WORKTREE_CLEANUP_VERSION) then
           && |log| == until + 1 && log[until] == Transmission(request, GIT_WORKTREE_CLEANUP_VERSION)
           && r == PayloadOf(Came(daemon, log, until))
         else
           && |log| == until
           && r == Failure(if probed == Failure(Unsupported) then LastError(daemon, log)
                           else if probed.Failure? then probed.error else Unsupported)
  }

  function PayloadOf(came: Outcome<Response>): Outcome<nat> {
    match came
    case Failure(error) => Failure(error)
    case Success(Answer(payload)) => Success(payload)
    case Success(_) => Failure(Unexpected)
  }

  function LastError(daemon: Daemon, log: seq<Transmission>): ClientError {
    if log != [] && Came(daemon, log, |log| - 1).Failure? then Came(daemon, log, |log| - 1).error else Unsupported
  }

  lemma ProbesBefore(daemon: Daemon, before: seq<Transmission>, after: seq<Transmission>, from: nat, until: nat,
                     r: Outcome<nat>)
    requires Extends(after, before) && Probes(daemon, before, from, until, r)
    ensures Probes(daemon, after, from, until, r)
  {
    hide TurnsDown, Interpret;
    forall k | 0 <= k < until
      ensures after[k] == before[k] && after[..k + 1] == before[..k + 1]
    {
      assert before[k] == after[..|before|][k];
      assert after[..|before|][..k + 1] == after[..k + 1];
    }
    assert until - 1 >= 0 && after[..until] == before[..until];
  }

  /** Pings turned down one after the other, and one more. */
  lemma ProbedSoFar(daemon: Daemon, log: seq<Transmission>, from: nat)
    requires from < |log| && |log| - from <= VERSIONS
    requires forall k :: from <= k < |log| ==> log[k] == Transmission(Ping, PROTOCOL_VERSION - (k - from))
    requires forall k :: from <= k < |log| - 1 ==> Rejected(Came(daemon, log, k))
    ensures var came, version := Came(daemon, log, |log| - 1), log[|log| - 1].version;
            && (came == Success(Pong) ==> Probes(daemon, log, from, |log|, Success(version)))
            && (came.Success? && came.value != Pong ==> Probes(daemon, log, from, |log|, Failure(Unexpected)))
            && (came.Failure? && !IsProtocolRejection(came.error) ==>
                  Probes(daemon, log, from, |log|, Failure(came.error)))
            && (Rejected(came) && version == MIN_PROTOCOL_VERSION ==>
                  Probes(daemon, log, from, |log|, Failure(Unsupported)))
  {
    var last := |log| - 1;
    assert log[..last + 1] == log[..|log|];
    CameMeaning(daemon, log, last);
    forall k | from <= k < last
      ensures TurnsDown(daemon(log[..k + 1]), log[k].version)
    {
      CameMeaning(daemon, log, k);
    }
  }

  lemma SentOnce(daemon: Daemon, others: nat -> Option<nat>, loads: nat, before: seq<Transmission>, request: Request,
                 version: nat)
    requires var log := before + [Transmission(request, version)];
             !(Rejected(Came(daemon, log, |before|)) && version > MIN_PROTOCOL_VERSION)
    ensures var log := before + [Transmission(request, version)];
            Delivers(daemon, others, loads, log, |before|, request, version,
                     At(version, Came(daemon, log, |before|)))
  {
    hide Came, TurnsDown, Rejected, At;
    var log := before + [Transmission(request, version)];
    CameMeaning(daemon, log, |before|);
  }

  lemma SentAgain(daemon: Daemon, others: nat -> Option<nat>, loads: nat, before: seq<Transmission>, request: Request,
                  version: nat, log: seq<Transmission>, until: nat, probed: Outcome<nat>, r: Outcome<(nat, Response)>)
    requires Extends(log, before + [Transmission(request, version)]) && version > MIN_PROTOCOL_VERSION
    requires Rejected(Came(daemon, before + [Transmission(request, version)], |before|))
    requires Probes(daemon, log, |before| + 1, until, probed)
    requires Resumes(daemon, others, loads, log, until, request, probed, r)
    ensures Delivers(daemon, others, loads, log, |before|, request, version, r)
  {
    hide Came, TurnsDown, Rejected, Probes, Resumes;
    var sent := before + [Transmission(request, version)];
    CameMeaning(daemon, sent, |before|);
    assert log[..|before| + 1] == sent && sent[..|before| + 1] == sent;
    assert log[|before|] == log[..|before| + 1][|before|];
  }

  lemma ResumesWith(daemon: Daemon, others: nat -> Option<nat>, loads: nat, before: seq<Transmission>,
                    request: Request, probed: Outcome<nat>, version: nat)
    requires probed.Success? && version == Read(others, loads, probed.value) && Supports(request, version)
    ensures var log := before + [Transmission(request, version)];
            Resumes(daemon, others, loads, log, |before|, request, probed, At(version, Came(daemon, log, |before|)))
  {
    hide Came, At;
  }

  // ---------- a daemon of one version ----------

  /** It turns down every version but w, and at w answers pings and the request. */
  ghost predicate SpeaksOnly(daemon: Daemon, w: nat, payload: nat) {
    forall log: seq<Transmission> :: log != [] ==>
      var sent := log[|log| - 1];
      if sent.version != w then TurnsDown(daemon(log), sent.version)
      else daemon(log) == Reply(w, if sent.request == Ping then Pong else Answer(payload))
  }

  lemma Speaks(daemon: Daemon, w: nat, payload: nat, log: seq<Transmission>, k: nat)
    requires SpeaksOnly(daemon, w, payload) && k < |log|
    ensures if log[k].version != w then TurnsDown(daemon(log[..k + 1]), log[k].version)
            else daemon(log[..k + 1]) == Reply(w, if log[k].request == Ping then Pong else Answer(payload))
  {
    assert log[..k + 1][|log[..k + 1]| - 1] == log[k];
  }

  /** A negotiation finds the version the daemon speaks. */
  lemma ProbesFind(daemon: Daemon, w: nat, payload: nat, log: seq<Transmission>, from: nat, until: nat,
                   r: Outcome<nat>)
    requires SpeaksOnly(daemon, w, payload) && MIN_PROTOCOL_VERSION <= w <= PROTOCOL_VERSION
    requires Probes(daemon, log, from, until, r)
    ensures r == Success(w)
  {
    hide SpeaksOnly, Interpret;
    var last := until - 1;
    assert log[..last + 1] == log[..until];
    Speaks(daemon, w, payload, log, last);
    var k := from + (PROTOCOL_VERSION - w);
    if k < last {
      Speaks(daemon, w, payload, log, k);
      assert false;
    }
  }

  lemma EndsAt(daemon: Daemon, w: nat, payload: nat, log: seq<Transmission>, n: nat, request: Request, version: nat,
               r: Outcome<(nat, Response)>)
    requires SpeaksOnly(daemon, w, payload) && request.Operation? && EndsWith(daemon, log, n, request, version, r)
    ensures version == w ==> r == Success((w, Answer(payload)))
    ensures version != w ==> r.Failure? && IsProtocolRejection(r.error)
  {
    hide SpeaksOnly, IsProtocolRejection;
    Speaks(daemon, w, payload, log, n);
    CameMeaning(daemon, log, n);
    RejectedMeans(Came(daemon, log, n));
  }

  /** A request that such a daemon supports reaches it, whatever version is held, except from
      a client that holds the oldest version and never asks for another. */
  lemma DaemonIsReachedIff(daemon: Daemon, w: nat, payload: nat, loads: nat, held: nat, log: seq<Transmission>,
                           n: nat, request: Request, r: Outcome<(nat, Response)>)
    requires SpeaksOnly(daemon, w, payload) && MIN_PROTOCOL_VERSION <= w <= PROTOCOL_VERSION
    requires request.Operation? && held >= MIN_PROTOCOL_VERSION
    requires Sends(daemon, k => None, loads, held, log, n, request, r)
    ensures !Supports(request, w) ==> r == Failure(Unsupported)
    ensures Supports(request, w) ==>
              (r == Success((w, Answer(payload)))
               <==> held > MIN_PROTOCOL_VERSION || held == w || !Supports(request, held))
    ensures r == Success((w, Answer(payload))) || r.Failure?
  {
    hide SpeaksOnly, Probes;
    if Supports(request, held) {
      DeliversTo(daemon, w, payload, loads + 1, log, n, request, held, r);
    } else {
      var until, probed :| Probes(daemon, log, n, until, probed)
        && if probed.Success? && Supports(request, Read(k => None, loads + 1, probed.value))
           then Delivers(daemon, k => None, loads + 2, log, until, request, Read(k => None, loads + 1, probed.value), r)
           else Resumes(daemon, k => None, loads + 1, log, until, request, probed, r);
      ProbesFind(daemon, w, payload, log, n, until, probed);
      if Supports(request, w) {
        DeliversTo(daemon, w, payload, loads + 2, log, until, request, w, r);
      }
    }
  }

  lemma DeliversTo(daemon: Daemon, w: nat, payload: nat, loads: nat, log: seq<Transmission>, n: nat,
                   request: Request, held: nat, r: Outcome<(nat, Response)>)
    requires SpeaksOnly(daemon, w, payload) && MIN_PROTOCOL_VERSION <= w <= PROTOCOL_VERSION
    requires request.Operation? && Delivers(daemon, k => None, loads, log, n, request, held, r)
    ensures held == w ==> r == Success((w, Answer(payload)))
    ensures held != w && held > MIN_PROTOCOL_VERSION ==>
              r == if Supports(request, w) then Success((w, Answer(payload))) else Failure(Unsupported)
    ensures held != w && held <= MIN_PROTOCOL_VERSION ==> r.Failure? && IsProtocolRejection(r.error)
  {
    hide SpeaksOnly, Probes, EndsWith, IsProtocolRejection;
    Speaks(daemon, w, payload, log, n);
    if held != w && held > MIN_PROTOCOL_VERSION {
      var until, probed :| Probes(daemon, log, n + 1, until, probed)
        && Resumes(daemon, k => None, loads, log, until, request, probed, r);
      ProbesFind(daemon, w, payload, log, n + 1, until, probed);
      if Supports(request, w) {
        EndsAt(daemon, w, payload, log, until, request, w, r);
      }
    } else {
      EndsAt(daemon, w, payload, log, n, request, held, r);
    }
  }

  class Client {
    const daemon: Daemon
    /** Stores by other holders of the shared version, seen at the n-th load. */
    const others: nat -> Option<nat>
    var protocolVersion: nat
    var loads: nat
    var log: seq<Transmission>

    constructor (daemon: Daemon, others: nat -> Option<nat>)
      ensures this.daemon == daemon && this.others == others && log == [] && protocolVersion == PROTOCOL_VERSION
    {
      this.daemon, this.others := daemon, others;
      protocolVersion, loads, log := PROTOCOL_VERSION, 0, [];
    }

    method Load() returns (version: nat)
      modifies this`protocolVersion, this`loads
      ensures version == protocolVersion && loads == old(loads) + 1
      ensures version == if others(old(loads)).Some? then others(old(loads)).value else old(protocolVersion)
    {
      if others(loads).Some? {
        protocolVersion := others(loads).value;
      }
      loads := loads + 1;
      version := protocolVersion;
    }

    method SendWithVersion(request: Request, version: nat) returns (r: Outcome<Response>)
      modifies this`log
      ensures log == old(log) + [Transmission(request, version)]
      ensures r == Came(daemon, log, |log| - 1)
      ensures r.Success? ==> !r.value.Error?
    {
      log := log + [Transmission(request, version)];
      assert log[..|log|] == log;
      r := Interpret(daemon(log), version);
    }

    /** Pings from the latest version down; stores the greatest one accepted, or nothing. */
    method ProbeLatest() returns (r: Outcome<bool>)
      modifies this`log, this`protocolVersion
      ensures Extends(log, old(log)) && OnlyPings(log, |old(log)|, |log|)
      ensures |old(log)| < |log| <= |old(log)| + VERSIONS
      ensures r.Success? ==>
                GreatestAccepted(daemon, log, |old(log)|, protocolVersion)
                && r.value == (protocolVersion == PROTOCOL_VERSION)
      ensures r.Failure? ==> protocolVersion == old(protocolVersion)
      ensures r == Failure(Unsupported) ==>
                && |log| == |old(log)| + VERSIONS
                && forall k :: |old(log)| <= k < |log| ==> Rejected(Came(daemon, log, k))
      ensures Probes(daemon, log, |old(log)|, |log|,
                     if r.Success? then Success(protocolVersion) else Failure(r.error))
    {
      var version := PROTOCOL_VERSION;
      ghost var from := |log|;
      while true
        invariant MIN_PROTOCOL_VERSION <= version <= PROTOCOL_VERSION
        invariant protocolVersion == old(protocolVersion)
        invariant Extends(log, old(log)) && |log| == from + (PROTOCOL_VERSION - version)
        invariant forall k :: from <= k < |log| ==> log[k] == Transmission(Ping, PROTOCOL_VERSION - (k - from))
        invariant forall k :: from <= k < |log| ==> Rejected(Came(daemon, log, k))
        decreases version
      {
        ghost var before := log;
        var came := SendWithVersion(Ping, version);
        forall k | 0 <= k < |before|
          ensures Came(daemon, log, k) == Came(daemon, before, k)
        {
          CameBefore(daemon, before, log, k);
        }
        ProbedSoFar(daemon, log, from);
        if came.Success? {
          if came.value != Pong {
            return Failure(Unexpected);
          }
          protocolVersion := version;
          return Success(version == PROTOCOL_VERSION);
        }
        if !IsProtocolRejection(came.error) {
          return Failure(came.error);
        }
        if version == MIN_PROTOCOL_VERSION {
          return Failure(Unsupported);
        }
        version := version - 1;
      }
    }

    /** Sends the request at a version that supports it, and a second time when a daemon
        turned that very version down and a newer negotiation finds one that supports it;
        never a third. A ping needs no version, so it is sent, probed for at most once and
        sent again. */
    method Send(request: Request) returns (r: Outcome<(nat, Response)>)
      modifies this
      ensures Extends(log, old(log))
      ensures Sends(daemon, others, old(loads), old(protocolVersion), log, |old(log)|, request, r)
      ensures r.Success? ==> protocolVersion == r.value.0
      ensures request.Operation? ==>
                && Times(log, |old(log)|, request) <= 2
                && Accounted(daemon, log, |old(log)|, request,
                             if r.Success? then Success(r.value.1) else Failure(r.error))
      ensures request == Ping ==>
                OnlyPings(log, |old(log)|, |log|) && |old(log)| < |log| <= |old(log)| + 1 + VERSIONS + 1
      ensures r.Success? ==>
                && |log| > |old(log)|
                && log[|log| - 1] == Transmission(request, r.value.0) && Supports(request, r.value.0)
                && Came(daemon, log, |log| - 1) == Success(r.value.1)
    {
      hide Supports, Came, Rejected, Accounted, AllRejected, Extends, OnlyPings, Probes, Delivers, Resumes;
      ghost var start, first := log, loads;
      var version := Load();
      StartsRejected(daemon, start, request);
      NoPings(start);
      ghost var probed: Outcome<nat> := Success(version);
      if !Supports(request, version) {
        PingIsSupported(version);
        var negotiated;
        negotiated, probed := Renegotiate(request);
        PingsKeepRejected(daemon, start, start, log, request);
        if negotiated.Failure? {
          NothingOpen(daemon, log, |start|, request, Failure(negotiated.error));
          return Failure(negotiated.error);
        }
        version := negotiated.value;
      }
      ghost var asked := log;
      r := Deliver(request, version, start);
      if |asked| > |start| {
        ProbesBefore(daemon, asked, log, |start|, |asked|, probed);
      }
    }

    /** The request at this version and, once it was turned down, negotiated and sent again. */
    method Deliver(request: Request, version: nat, ghost start: seq<Transmission>)
      returns (r: Outcome<(nat, Response)>)
      requires Supports(request, version) && version == protocolVersion && Extends(log, start)
      requires request.Operation? ==>
                 AllRejected(daemon, log, |start|, request) && Times(log, |start|, request) == 0
      requires request == Ping ==> log == start
      modifies this
      ensures Extends(log, start) && Extends(log, old(log))
      ensures Delivers(daemon, others, old(loads), log, |old(log)|, request, version, r)
      ensures r.Success? ==> protocolVersion == r.value.0
      ensures request.Operation? ==>
                && Times(log, |start|, request) <= 2
                && Accounted(daemon, log, |start|, request,
                             if r.Success? then Success(r.value.1) else Failure(r.error))
      ensures request == Ping ==>
                OnlyPings(log, |start|, |log|) && |start| < |log| <= |start| + 1 + VERSIONS + 1
      ensures r.Success? ==>
                && |log| > |start|
                && log[|log| - 1] == Transmission(request, r.value.0) && Supports(request, r.value.0)
                && Came(daemon, log, |log| - 1) == Success(r.value.1)
    {
      hide Supports, Came, Rejected, Accounted, AllRejected, Extends, OnlyPings, Probes, Delivers, Resumes;
      ghost var asked, read := log, loads;
      NoPings(start);
      var came := SendWithVersion(request, version);
      SendJoins(daemon, start, asked, request, version);
      AppendExtends(asked, Transmission(request, version));
      ExtendsThrough(start, asked, log);
      RejectedMeans(came);
      if came.Success? {
        SentOnce(daemon, others, read, asked, request, version);
        return Success((version, came.value));
      }
      if !(version > MIN_PROTOCOL_VERSION && IsProtocolRejection(came.error)) {
        SentOnce(daemon, others, read, asked, request, version);
        return Failure(came.error);
      }
      ghost var sent := log;
      if request.Operation? {
        LastRejected(daemon, sent, |start|, request, came);
      }
      var again, probed := Renegotiate(request);
      ghost var reprobed := log;
      ProbesJoin(daemon, start, sent, log, request);
      ExtendsThrough(asked, sent, reprobed);
      if again.Failure? {
        if request.Operation? {
          NothingOpen(daemon, log, |start|, request, Failure(again.error));
        }
        SentAgain(daemon, others, read, asked, request, version, log, |log|, probed, Failure(again.error));
        return Failure(again.error);
      }
      came := SendWithVersion(request, again.value);
      SendJoins(daemon, start, reprobed, request, again.value);
      AppendExtends(reprobed, Transmission(request, again.value));
      ExtendsThrough(sent, reprobed, log);
      ExtendsThrough(asked, reprobed, log);
      r := if came.Success? then Success((again.value, came.value)) else Failure(came.error);
      ResumesWith(daemon, others, read, reprobed, request, probed, again.value);
      ProbesBefore(daemon, reprobed, log, |sent|, |reprobed|, probed);
      SentAgain(daemon, others, read, asked, request, version, log, |reprobed|, probed, r);
    }

    /** Probes, and reads the version back: another holder may have changed it meanwhile. */
    method Renegotiate(request: Request) returns (r: Outcome<nat>, ghost probed: Outcome<nat>)
      modifies this
      ensures Extends(log, old(log)) && OnlyPings(log, |old(log)|, |log|)
      ensures |old(log)| < |log| <= |old(log)| + VERSIONS
      ensures r.Success? ==> Supports(request, r.value) && protocolVersion == r.value
      ensures Probes(daemon, log, |old(log)|, |log|, probed)
      ensures r.Success? <==> probed.Success? && Supports(request, Read(others, old(loads), probed.value))
      ensures if r.Success? then r.value == Read(others, old(loads), probed.value) && loads == old(loads) + 1
              else Resumes(daemon, others, old(loads), log, |log|, request, probed, Failure(r.error))
    {
      hide Probes, Extends, OnlyPings;
      var came := ProbeLatest();
      probed := if came.Success? then Success(protocolVersion) else Failure(came.error);
      if came.Failure? {
        return Failure(came.error), probed;
      }
      var version := Load();
      if !Supports(request, version) {
        return Failure(Unsupported), probed;
      }
      return Success(version), probed;
    }

    /** Repeats a failed Workspace resource request once, and only when its outcome is in doubt. */
    method WorkspaceResourceRequest(request: Request) returns (r: Outcome<Response>)
      requires request.Operation?
      modifies this
      ensures Extends(log, old(log))
      ensures Times(log, |old(log)|, request) <= 4
      ensures Disciplined(daemon, log, |old(log)|, request, true)
      ensures SendsTwiceInDoubt(daemon, others, old(loads), old(protocolVersion), log, |old(log)|, request, r)
      ensures r.Success? ==> |log| > |old(log)| && log[|log| - 1].request == request
                             && Came(daemon, log, |log| - 1) == r
    {
      hide Supports, Came, Rejected, IsRetryable, Sends;
      ghost var from, loadsFirst, heldFirst := |log|, loads, protocolVersion;
      var first := Send(request);
      ghost var once := log;
      assert once[..|once|] == once;
      assert !(first.Failure? && IsRetryable(first.error)) ==>
          SecondIfInDoubt(daemon, others, loads, protocolVersion, log, |once|, request, first, Bare(first));
      if first.Success? {
        return Success(first.value.1);
      }
      if !IsRetryable(first.error) {
        return Failure(first.error);
      }
      ghost var loadsThen, heldThen := loads, protocolVersion;
      var second := Send(request);
      CamesBefore(daemon, once, log);
      TimesSplit(log, once, from, request);
      assert SecondIfInDoubt(daemon, others, loadsThen, heldThen, log, |once|, request, first, Bare(second));
      return if second.Success? then Success(second.value.1) else Failure(second.error);
    }

    /** Pings from the latest version down to the first one accepted; what it finds is not stored. */
    method NegotiateCleanup() returns (r: Outcome<nat>, ghost probed: Outcome<nat>)
      modifies this`log
      ensures Extends(log, old(log)) && OnlyPings(log, |old(log)|, |log|)
      ensures Probes(daemon, log, |old(log)|, |log|, probed)
      ensures if r.Success? then probed == r && GreatestAccepted(daemon, log, |old(log)|, r.value)
              else probed.Failure?
                   && r.error == if probed.error == Unsupported then LastError(daemon, log) else probed.error
    {
      var version := PROTOCOL_VERSION;
      ghost var from := |log|;
      while true
        invariant MIN_PROTOCOL_VERSION <= version <= PROTOCOL_VERSION
        invariant Extends(log, old(log)) && |log| == from + (PROTOCOL_VERSION - version)
        invariant forall k :: from <= k < |log| ==> log[k] == Transmission(Ping, PROTOCOL_VERSION - (k - from))
        invariant forall k :: from <= k < |log| ==> Rejected(Came(daemon, log, k))
        decreases version
      {
        ghost var before := log;
        var came := SendWithVersion(Ping, version);
        CamesBefore(daemon, before, log);
        ProbedSoFar(daemon, log, from);
        NeverUnsupported(daemon, log, |log| - 1);
        if came == Success(Pong) {
          return Success(version), Success(version);
        }
        if came.Success? {
          return Failure(Unexpected), Failure(Unexpected);
        }
        if !(IsProtocolRejection(came.error) && version > MIN_PROTOCOL_VERSION) {
          return Failure(came.error), Failure(if IsProtocolRejection(came.error) then Unsupported else came.error);
        }
        version := version - 1;
      }
    }

    /** Negotiates afresh, then sends the cleanup once; whatever comes of it, it is not sent again. */
    method GitCleanup(request: Request) returns (r: Outcome<nat>)
      requires request.Operation? && request.required == Some(GIT_WORKTREE_CLEANUP_VERSION)
      modifies this`log
      ensures Extends(log, old(log))
      ensures Times(log, |old(log)|, request) <= 1
      ensures Times(log, |old(log)|, request) == 1 ==>
                && log[|log| - 1].request == request
                && log[|log| - 1].version >= GIT_WORKTREE_CLEANUP_VERSION
                && GreatestAccepted(daemon, log[..|log| - 1], |old(log)|, log[|log| - 1].version)
      ensures SendsCleanup(daemon, log, |old(log)|, request, r)
      ensures r.Success? ==> Times(log, |old(log)|, request) == 1
                             && Came(daemon, log, |log| - 1) == Success(Answer(r.value))
    {
      hide Came, Probes, Times, GreatestAccepted;
      ghost var from, start := |log|, log;
      var negotiated, probed := NegotiateCleanup();
      TimesUnsent(log, from, request);
      if negotiated.Failure? {
        return Failure(negotiated.error);
      }
      var version := negotiated.value;
      LatestAtMost(daemon, log, from, version);
      if version < GIT_WORKTREE_CLEANUP_VERSION {
        return Failure(Unsupported);
      }
      ghost var before := log;
      TimesSend(log, from, request, version);
      var came := SendWithVersion(request, version);
      assert log[..|log| - 1] == before;
      AppendExtends(before, Transmission(request, version));
      ProbesBefore(daemon, before, log, from, |before|, probed);
      if came.Success? && came.value.Answer? {
        return Success(came.value.payload);
      }
      return Failure(if came.Failure? then came.error else Unexpected);
    }
  }

  lemma LatestAtMost(daemon: Daemon, log: seq<Transmission>, from: nat, version: nat)
    requires GreatestAccepted(daemon, log, from, version)
    ensures version <= PROTOCOL_VERSION
  {
  }

  /** No reply reads as this client's own refusal. */
  lemma NeverUnsupported(daemon: Daemon, log: seq<Transmission>, k: nat)
    requires k < |log|
    ensures Came(daemon, log, k) != Failure(Unsupported)
  {
  }
}
