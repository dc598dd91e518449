/** The loops that carry an attachment: terminal input to the daemon, and reconnection. */
module AttachPump {
  import opened Basics
  import opened FocusReports
  import opened FocusInputFilter

  /** What the daemon sends; of its output only the child's focus mode after it matters here. */
  datatype FromDaemon = Quiet | Output(focusMode: bool) | DetachedFrame | ReconnectFrame | InvalidFrame | Closed

  datatype FromTerminal = NoInput | Read(bytes: seq<Byte>) | EndOfInput

  /** One pass of the poll loop: what was ready, and the time. */
  datatype Turn = Turn(daemon: FromDaemon, terminal: FromTerminal, now: nat)

  datatype Frame = Input(bytes: seq<Byte>) | FocusGained | ReconnectAck | DetachFrame

  datatype Outcome = Running | Detached | Reconnect | Failed

  function SentBytes(frames: seq<Frame>): seq<Byte> {
    if frames == [] then []
    else
      SentBytes(frames[..|frames| - 1])
      + if frames[|frames| - 1].Input? then frames[|frames| - 1].bytes else []
  }

  function GainFrames(frames: seq<Frame>): nat {
    if frames == [] then 0
    else GainFrames(frames[..|frames| - 1]) + if frames[|frames| - 1].FocusGained? then 1 else 0
  }

  function TerminalBytes(turn: Turn): seq<Byte> {
    if turn.terminal.Read? then turn.terminal.bytes else []
  }

  function ReadBytes(script: seq<Turn>): seq<Byte> {
    if script == [] then [] else ReadBytes(script[..|script| - 1]) + TerminalBytes(script[|script| - 1])
  }

  lemma OneFrame(frames: seq<Frame>, frame: Frame)
    ensures SentBytes(frames + [frame]) == SentBytes(frames) + if frame.Input? then frame.bytes else []
    ensures GainFrames(frames + [frame]) == GainFrames(frames) + if frame.FocusGained? then 1 else 0
  {
    assert (frames + [frame])[..|frames|] == frames;
  }

  lemma OneEvent(events: seq<Event>, e: Event)
    ensures After(events + [e]) == Advance(After(events), e)
    ensures Typed(events + [e]) == Typed(events) + if e.Chunk? then e.bytes else []
  {
    assert (events + [e])[..|events|] == events;
  }

  lemma OneTurn(script: seq<Turn>, n: nat)
    requires n < |script|
    ensures ReadBytes(script[..n + 1]) == ReadBytes(script[..n]) + TerminalBytes(script[n])
  {
    assert script[..n + 1][..n] == script[..n];
  }

  /** Empty input frames are not sent. */
  method SendInput(frames: seq<Frame>, bytes: seq<Byte>) returns (r: seq<Frame>)
    ensures SentBytes(r) == SentBytes(frames) + bytes
    ensures GainFrames(r) == GainFrames(frames)
    ensures r == if bytes == [] then frames else frames + [Input(bytes)]
  {
    r := frames;
    if bytes != [] {
      OneFrame(frames, Input(bytes));
      r := frames + [Input(bytes)];
    }
  }

  /** What one chunk turns into: the forwarded bytes, if any, and then a frame for each gain. */
  function FramesFor(forwarded: seq<Byte>, gained: nat): seq<Frame> {
    (if forwarded == [] then [] else [Input(forwarded)]) + GainedFrames(gained)
  }

  function GainedFrames(gained: nat): seq<Frame> {
    if gained == 0 then [] else GainedFrames(gained - 1) + [FocusGained]
  }

  lemma FramesJoin(frames: seq<Frame>, forwarded: seq<Byte>, gained: nat)
    ensures (if forwarded == [] then frames else frames + [Input(forwarded)]) + GainedFrames(gained)
         == frames + FramesFor(forwarded, gained)
  {
    hide GainedFrames;
    assert frames + [Input(forwarded)] + GainedFrames(gained) == frames + ([Input(forwarded)] + GainedFrames(gained));
    assert [] + GainedFrames(gained) == GainedFrames(gained);
  }

  method SendGains(frames: seq<Frame>, gained: nat) returns (r: seq<Frame>)
    ensures SentBytes(r) == SentBytes(frames) && GainFrames(r) == GainFrames(frames) + gained
    ensures r == frames + GainedFrames(gained)
  {
    r := frames;
    for i := 0 to gained
      invariant SentBytes(r) == SentBytes(frames) && GainFrames(r) == GainFrames(frames) + i
      invariant r == frames + GainedFrames(i)
    {
      assert frames + GainedFrames(i) + [FocusGained] == frames + GainedFrames(i + 1);
      OneFrame(r, FocusGained);
      r := r + [FocusGained];
    }
  }

  /** The frames and the bytes held are those of one filtered session. */
  ghost predicate Synced(frames: seq<Frame>, held: seq<Byte>, events: seq<Event>) {
    After(events) == Session(SentBytes(frames), GainFrames(frames), held)
  }

  method FlushInput(focus: FocusInput, frames: seq<Frame>, ghost events: seq<Event>) returns (r: seq<Frame>)
    modifies focus
    ensures focus.Valid() && focus.pending == []
    ensures r == if old(focus.pending) == [] then frames else frames + [Input(old(focus.pending))]
    ensures Synced(frames, old(focus.pending), events) ==> Synced(r, [], events + [Flush])
    ensures Typed(events + [Flush]) == Typed(events)
  {
    hide After, Typed;
    OneEvent(events, Flush);
    var pending := focus.FlushPending();
    r := SendInput(frames, pending);
  }

  method FilterInput(focus: FocusInput, frames: seq<Frame>, bytes: seq<Byte>, mode: bool, now: nat,
                     ghost events: seq<Event>)
    returns (r: seq<Frame>)
    modifies focus
    ensures focus.Valid() && focus.pending == Rest(old(focus.pending) + bytes)
    ensures focus.pending != [] ==> focus.pendingSince == Some(now)
    ensures var tokens := Tokens(old(focus.pending) + bytes);
            r == frames + FramesFor(Render(tokens, mode), Gains(tokens))
    ensures Synced(frames, old(focus.pending), events) ==> Synced(r, focus.pending, events + [Chunk(bytes, mode)])
    ensures Typed(events + [Chunk(bytes, mode)]) == Typed(events) + bytes
  {
    hide After, Typed, Tokens, Rest, Render, Gains, FramesFor, GainedFrames;
    OneEvent(events, Chunk(bytes, mode));
    var forwarded, gained := focus.Process(bytes, mode, now);
    r := SendInput(frames, forwarded);
    r := SendGains(r, gained);
    FramesJoin(frames, forwarded, gained);
  }

  /** Every focus mode the child announces is this one. */
  predicate AlwaysMode(script: seq<Turn>, mode: bool) {
    forall i :: 0 <= i < |script| && script[i].daemon.Output? ==> script[i].daemon.focusMode == mode
  }

  ghost predicate Flagged(events: seq<Event>, mode: bool) {
    forall i :: 0 <= i < |events| && events[i].Chunk? ==> events[i].forward == mode
  }

  /** Either one filtered session over the bytes read, or exactly the bytes read. */
  ghost predicate Carried(enabled: bool, read: seq<Byte>, frames: seq<Frame>, held: seq<Byte>, events: seq<Event>) {
    if enabled then Typed(events) == read && Synced(frames, held, events)
    else SentBytes(frames) == read && GainFrames(frames) == 0 && held == []
  }

  // ---------- turn by turn ----------

  const DISAMBIGUATION: nat := ESCAPE_DISAMBIGUATION_MS * MILLISECOND

  /** How things stand after a turn: the frames sent so far, what is held, and since when. */
  datatype Moment = Moment(sent: nat, held: seq<Byte>, since: Option<nat>)

  function MomentBefore(moments: seq<Moment>, n: nat): Moment
    requires n <= |moments|
  {
    if n == 0 then Moment(0, [], None) else moments[n - 1]
  }

  /** The child's focus mode once the daemon's part of n turns is done. */
  function ModeAt(script: seq<Turn>, n: nat, mode: bool): bool
    requires n <= |script|
  {
    if n == 0 then mode
    else if script[n - 1].daemon.Output? then script[n - 1].daemon.focusMode
    else ModeAt(script, n - 1, mode)
  }

  lemma NextMode(script: seq<Turn>, n: nat, mode: bool)
    requires n <= |script|
    ensures n == 0 ==> ModeAt(script, n, mode) == mode
    ensures n < |script| && script[n].daemon.Output? ==> ModeAt(script, n + 1, mode) == script[n].daemon.focusMode
    ensures n < |script| && !script[n].daemon.Output? ==> ModeAt(script, n + 1, mode) == ModeAt(script, n, mode)
  {
  }

  lemma {:induction false} ModeKept(script: seq<Turn>, n: nat, mode: bool)
    requires AlwaysMode(script, mode) && n <= |script|
    ensures ModeAt(script, n, mode) == mode
  {
    if n > 0 {
      ModeKept(script, n - 1, mode);
    }
  }

  lemma FlushKeepsFlags(events: seq<Event>, mode: bool)
    ensures Flagged([], mode)
    ensures Flagged(events, mode) ==> Flagged(events + [Flush], mode)
  {
  }

  /** What one turn sends and leaves held. Bytes are held for less than the disambiguation
      time: a turn without input sends them if and only if that time has passed. */
  predicate TurnIsExact(enabled: bool, mode: bool, turn: Turn, before: Moment, sent: seq<Frame>, after: Moment) {
    && (after.since.Some? <==> after.held != [])
    && (after.since.Some? ==> turn.now < after.since.value + DISAMBIGUATION)
    && match turn.terminal
       case EndOfInput => false
       case NoInput =>
         if before.since.Some? && turn.now >= before.since.value + DISAMBIGUATION
         then sent == [Input(before.held)] && after.held == []
         else sent == [] && after.held == before.held && after.since == before.since
       case Read(bytes) =>
         if !enabled then sent == [Input(bytes)] && after.held == []
         else
           var tokens := Tokens(before.held + bytes);
           && sent == FramesFor(Render(tokens, mode), Gains(tokens))
           && after.held == Rest(before.held + bytes)
           && (after.held != [] ==> after.since == Some(turn.now))
  }

  /** Every turn so far was exact, and its frames follow those of the turns before. */
  predicate TurnsAreExact(enabled: bool, focusMode: bool, script: seq<Turn>, frames: seq<Frame>,
                          moments: seq<Moment>) {
    && |moments| <= |script|
    && forall n :: 0 <= n < |moments| ==>
         && MomentBefore(moments, n).sent <= moments[n].sent <= |frames|
         && TurnIsExact(enabled, ModeAt(script, n + 1, focusMode), script[n], MomentBefore(moments, n),
                        frames[MomentBefore(moments, n).sent..moments[n].sent], moments[n])
  }

  lemma NoTurns(enabled: bool, focusMode: bool, script: seq<Turn>)
    ensures TurnsAreExact(enabled, focusMode, script, [], [])
  {
  }

  lemma ExactTurn(enabled: bool, focusMode: bool, script: seq<Turn>, frames: seq<Frame>, moments: seq<Moment>, n: nat)
    requires TurnsAreExact(enabled, focusMode, script, frames, moments) && n < |moments|
    ensures n < |moments| <= |script| && MomentBefore(moments, n).sent <= moments[n].sent <= |frames|
    ensures TurnIsExact(enabled, ModeAt(script, n + 1, focusMode), script[n], MomentBefore(moments, n),
                        frames[MomentBefore(moments, n).sent..moments[n].sent], moments[n])
  {
    hide TurnIsExact, ModeAt;
  }

  lemma EachTurnExact(enabled: bool, focusMode: bool, script: seq<Turn>, frames: seq<Frame>, moments: seq<Moment>)
    requires |moments| <= |script|
    requires forall n :: 0 <= n < |moments| ==>
               && MomentBefore(moments, n).sent <= moments[n].sent <= |frames|
               && TurnIsExact(enabled, ModeAt(script, n + 1, focusMode), script[n], MomentBefore(moments, n),
                              frames[MomentBefore(moments, n).sent..moments[n].sent], moments[n])
    ensures TurnsAreExact(enabled, focusMode, script, frames, moments)
  {
    hide TurnIsExact, ModeAt, MomentBefore;
  }

  lemma SameSlice(frames: seq<Frame>, more: seq<Frame>, a: nat, b: nat)
    requires a <= b <= |frames| <= |more| && more[..|frames|] == frames
    ensures more[a..b] == frames[a..b]
  {
    assert forall k :: 0 <= k < |frames| ==> more[..|frames|][k] == more[k];
  }

  lemma MoreFrames(enabled: bool, focusMode: bool, script: seq<Turn>, frames: seq<Frame>, more: seq<Frame>,
                   moments: seq<Moment>)
    requires TurnsAreExact(enabled, focusMode, script, frames, moments)
    requires |frames| <= |more| && more[..|frames|] == frames
    ensures TurnsAreExact(enabled, focusMode, script, more, moments)
  {
    hide TurnsAreExact, TurnIsExact, ModeAt, MomentBefore;
    if moments != [] {
      ExactTurn(enabled, focusMode, script, frames, moments, 0);
    }
    forall n | 0 <= n < |moments|
      ensures MomentBefore(moments, n).sent <= moments[n].sent <= |more|
      ensures TurnIsExact(enabled, ModeAt(script, n + 1, focusMode), script[n], MomentBefore(moments, n),
                          more[MomentBefore(moments, n).sent..moments[n].sent], moments[n])
    {
      ExactTurn(enabled, focusMode, script, frames, moments, n);
      SameSlice(frames, more, MomentBefore(moments, n).sent, moments[n].sent);
    }
    EachTurnExact(enabled, focusMode, script, more, moments);
  }

  lemma MomentsBefore(moments: seq<Moment>, after: Moment, n: nat)
    requires n <= |moments|
    ensures MomentBefore(moments + [after], n) == MomentBefore(moments, n)
  {
  }

  lemma OneMoreTurn(enabled: bool, focusMode: bool, script: seq<Turn>, frames: seq<Frame>, more: seq<Frame>,
                    moments: seq<Moment>, after: Moment)
    requires TurnsAreExact(enabled, focusMode, script, frames, moments) && |moments| < |script|
    requires MomentBefore(moments, |moments|).sent == |frames| <= |more| == after.sent && more[..|frames|] == frames
    requires TurnIsExact(enabled, ModeAt(script, |moments| + 1, focusMode), script[|moments|],
                         MomentBefore(moments, |moments|), more[|frames|..], after)
    ensures TurnsAreExact(enabled, focusMode, script, more, moments + [after])
  {
    hide TurnsAreExact, TurnIsExact, ModeAt, MomentBefore;
    MoreFrames(enabled, focusMode, script, frames, more, moments);
    var all := moments + [after];
    forall n | 0 <= n < |all|
      ensures MomentBefore(all, n).sent <= all[n].sent <= |more|
      ensures TurnIsExact(enabled, ModeAt(script, n + 1, focusMode), script[n], MomentBefore(all, n),
                          more[MomentBefore(all, n).sent..all[n].sent], all[n])
    {
      MomentsBefore(moments, after, n);
      if n < |moments| {
        ExactTurn(enabled, focusMode, script, more, moments, n);
      } else {
        assert more[|frames|..] == more[|frames|..after.sent];
      }
    }
    EachTurnExact(enabled, focusMode, script, more, all);
  }

  /** The frames that follow the last whole turn: what is held, given up, and the closing
      frame, or nothing. */
  predicate EndsExactly(last: Moment, rest: seq<Frame>, held: seq<Byte>, frame: Option<Frame>) {
    if frame.None? then rest == [] && held == last.held
    else rest == (if last.held == [] then [] else [Input(last.held)]) + [frame.value] && held == []
  }

  /** How the attachment stands after this many whole turns. */
  function OutcomeAt(script: seq<Turn>, used: nat): Outcome
    requires used <= |script|
  {
    if used == |script| then Running
    else if script[used].daemon.Quiet? || script[used].daemon.Output? then Detached
    else OutcomeOf(script[used].daemon)
  }

  /** The frame it is closed with, if this side has to close it. */
  function LastFrame(script: seq<Turn>, used: nat): Option<Frame>
    requires used <= |script|
  {
    if used == |script| then None
    else
      match script[used].daemon
      case ReconnectFrame => Some(ReconnectAck)
      case Quiet => Some(DetachFrame)
      case Output(_) => Some(DetachFrame)
      case _ => None
  }

  lemma Ending(last: Moment, before: seq<Frame>, frames: seq<Frame>, held: seq<Byte>, frame: Option<Frame>)
    requires last.sent == |before|
    requires if frame.None? then frames == before && held == last.held
             else held == []
                  && frames == before + (if last.held == [] then [] else [Input(last.held)]) + [frame.value]
    ensures last.sent <= |frames| && EndsExactly(last, frames[last.sent..], held, frame)
  {
  }

  predicate EndsWith(frames: seq<Frame>, frame: Frame) {
    frames != [] && frames[|frames| - 1] == frame
  }

  lemma NothingCarried(enabled: bool, script: seq<Turn>)
    ensures Carried(enabled, ReadBytes(script[..0]), [], [], [])
  {
  }

  /** A frame that carries no input and no gain changes nothing of the account. */
  lemma OtherFrame(enabled: bool, read: seq<Byte>, frames: seq<Frame>, held: seq<Byte>, events: seq<Event>,
                   frame: Frame)
    requires Carried(enabled, read, frames, held, events) && (frame.ReconnectAck? || frame.DetachFrame?)
    ensures Carried(enabled, read, frames + [frame], held, events)
  {
    OneFrame(frames, frame);
  }

  /** What was ready at the terminal: nothing, its end, or bytes to pass on. */
  method TakeInput(focus: FocusInput, enabled: bool, mode: bool, turn: Turn, frames: seq<Frame>,
                   ghost read: seq<Byte>, ghost events: seq<Event>)
    returns (r: seq<Frame>, ghost after: seq<Event>)
    requires Carried(enabled, read, frames, focus.pending, events) && turn.terminal.Read?
    modifies focus
    ensures Carried(enabled, read + turn.terminal.bytes, r, focus.pending, after)
    ensures after == if enabled then events + [Chunk(turn.terminal.bytes, mode)] else events
    ensures old(focus.Valid()) ==> focus.Valid()
    ensures if !enabled then r == frames + [Input(turn.terminal.bytes)] && focus.pending == []
            else
              var tokens := Tokens(old(focus.pending) + turn.terminal.bytes);
              && r == frames + FramesFor(Render(tokens, mode), Gains(tokens))
              && focus.pending == Rest(old(focus.pending) + turn.terminal.bytes)
              && (focus.pending != [] ==> focus.pendingSince == Some(turn.now))
  {
    hide After, Typed, SentBytes, GainFrames, Tokens, Rest, Render, Gains, FramesFor;
    var bytes := turn.terminal.bytes;
    if enabled {
      r := FilterInput(focus, frames, bytes, mode, turn.now, events);
      after := events + [Chunk(bytes, mode)];
    } else {
      OneFrame(frames, Input(bytes));
      r := frames + [Input(bytes)];
      after := events;
    }
  }

  method GiveUpHeld(focus: FocusInput, enabled: bool, frames: seq<Frame>, ghost read: seq<Byte>,
                    ghost events: seq<Event>)
    returns (r: seq<Frame>, ghost after: seq<Event>)
    requires Carried(enabled, read, frames, focus.pending, events)
    modifies focus
    ensures focus.Valid() && focus.pending == []
    ensures Carried(enabled, read, r, [], after)
    ensures r == if old(focus.pending) == [] then frames else frames + [Input(old(focus.pending))]
    ensures after == events + [Flush]
  {
    hide After, Typed, SentBytes, GainFrames;
    r := FlushInput(focus, frames, events);
    after := events + [Flush];
  }

  function OutcomeOf(daemon: FromDaemon): Outcome {
    match daemon
    case Quiet => Running
    case Output(_) => Running
    case DetachedFrame => Detached
    case ReconnectFrame => Reconnect
    case InvalidFrame => Failed
    case Closed => Detached
  }

  function ModeAfter(daemon: FromDaemon, mode: bool): bool {
    if daemon.Output? then daemon.focusMode else mode
  }

  /** Gives up what is held and closes this attachment with one last frame. */
  method Close(focus: FocusInput, enabled: bool, frames: seq<Frame>, frame: Frame, ghost read: seq<Byte>,
               ghost events: seq<Event>)
    returns (r: seq<Frame>, ghost after: seq<Event>)
    requires Carried(enabled, read, frames, focus.pending, events) && (frame.ReconnectAck? || frame.DetachFrame?)
    modifies focus
    ensures focus.Valid() && focus.pending == [] && EndsWith(r, frame)
    ensures r == frames + (if old(focus.pending) == [] then [] else [Input(old(focus.pending))]) + [frame]
    ensures Carried(enabled, read, r, [], after)
    ensures after == events + [Flush]
  {
    hide Carried;
    r, after := GiveUpHeld(focus, enabled, frames, read, events);
    OtherFrame(enabled, read, r, [], after, frame);
    r := r + [frame];
  }

  /** What the daemon sent: only a reconnect gives up what is held and is answered. */
  method TakeFrame(focus: FocusInput, enabled: bool, mode: bool, daemon: FromDaemon, frames: seq<Frame>,
                   ghost read: seq<Byte>, ghost events: seq<Event>)
    returns (r: seq<Frame>, newMode: bool, outcome: Outcome, ghost after: seq<Event>)
    requires focus.Valid() && Carried(enabled, read, frames, focus.pending, events)
    modifies focus
    ensures focus.Valid() && Carried(enabled, read, r, focus.pending, after)
    ensures outcome == OutcomeOf(daemon) && newMode == ModeAfter(daemon, mode)
    ensures if daemon.ReconnectFrame?
            then
              && focus.pending == [] && EndsWith(r, ReconnectAck) && after == events + [Flush]
              && r == frames + (if old(focus.pending) == [] then [] else [Input(old(focus.pending))]) + [ReconnectAck]
            else r == frames && after == events && focus.pending == old(focus.pending)
                 && focus.pendingSince == old(focus.pendingSince)
  {
    hide Carried;
    r, newMode, after := frames, mode, events;
    match daemon {
      case Quiet => outcome := Running;
      case Output(m) => newMode, outcome := m, Running;
      case DetachedFrame => outcome := Detached;
      case ReconnectFrame =>
        r, after := Close(focus, enabled, frames, ReconnectAck, read, events);
        outcome := Reconnect;
      case InvalidFrame => outcome := Failed;
      case Closed => outcome := Detached;
    }
  }

  /** Input, if any, and then the bytes held too long. */
  method TakeTurn(focus: FocusInput, enabled: bool, mode: bool, turn: Turn, frames: seq<Frame>,
                  ghost read: seq<Byte>, ghost events: seq<Event>)
    returns (r: seq<Frame>, ghost after: seq<Event>)
    requires focus.Valid() && Carried(enabled, read, frames, focus.pending, events) && !turn.terminal.EndOfInput?
    modifies focus
    ensures focus.Valid()
    ensures Carried(enabled, read + TerminalBytes(turn), r, focus.pending, after)
    ensures Flagged(events, mode) ==> Flagged(after, mode)
    ensures |frames| <= |r| && r[..|frames|] == frames
    ensures TurnIsExact(enabled, mode, turn, Moment(|frames|, old(focus.pending), old(focus.pendingSince)),
                        r[|frames|..], Moment(|r|, focus.pending, focus.pendingSince))
  {
    hide Carried, Tokens, Rest, Render, Gains, FramesFor, Partial;
    if turn.terminal.Read? {
      r, after := TakeInput(focus, enabled, mode, turn, frames, read, events);
    } else {
      assert read + [] == read;
      r, after := frames, events;
    }
    if focus.Expired(turn.now) {
      r, after := GiveUpHeld(focus, enabled, r, read + TerminalBytes(turn), after);
    }
  }

  /** Carries input until the daemon or the terminal ends it. With reporting on, the
      frames sent are one filtered session over exactly the bytes read; with it off
      they are the bytes read. Turn by turn it sends what was read, filtered in the mode in
      force, and what was held too long, neither earlier nor later; at a reconnect or at the
      end of the input nothing is left held. */
  method PumpAttachment(focus: FocusInput, enabled: bool, focusMode: bool, script: seq<Turn>)
    returns (frames: seq<Frame>, outcome: Outcome, used: nat, ghost events: seq<Event>, ghost moments: seq<Moment>)
    requires focus.Valid() && focus.pending == []
    modifies focus
    ensures focus.Valid() && used <= |script| && (outcome == Running <==> used == |script|)
    ensures Carried(enabled, ReadBytes(script[..used]), frames, focus.pending, events)
    ensures AlwaysMode(script, focusMode) ==> Flagged(events, focusMode)
    ensures |moments| == used && TurnsAreExact(enabled, focusMode, script, frames, moments)
    ensures MomentBefore(moments, used).sent <= |frames|
    ensures outcome == OutcomeAt(script, used)
    ensures EndsExactly(MomentBefore(moments, used), frames[MomentBefore(moments, used).sent..], focus.pending,
                        LastFrame(script, used))
  {
    hide Carried, ReadBytes, TurnIsExact, TurnsAreExact, ModeAt, Partial, EndsWith, EndsExactly, AlwaysMode, Flagged;
    var mode := focusMode;
    NextMode(script, 0, focusMode);
    frames, outcome, used, events, moments := [], Running, 0, [], [];
    NothingCarried(enabled, script);
    FlushKeepsFlags([], focusMode);
    NoTurns(enabled, focusMode, script);
    while used < |script|
      invariant used <= |script| && focus.Valid() && outcome == Running
      invariant Carried(enabled, ReadBytes(script[..used]), frames, focus.pending, events)
      invariant AlwaysMode(script, focusMode) ==> Flagged(events, focusMode)
      invariant mode == ModeAt(script, used, focusMode) && |moments| == used
      invariant TurnsAreExact(enabled, focusMode, script, frames, moments)
      invariant MomentBefore(moments, used) == Moment(|frames|, focus.pending, focus.pendingSince)
    {
      var turn := script[used];
      ghost var read, before := ReadBytes(script[..used]), frames;
      FlushKeepsFlags(events, focusMode);
      frames, mode, outcome, events := TakeFrame(focus, enabled, mode, turn.daemon, frames, read, events);
      if outcome != Running {
        MoreFrames(enabled, focusMode, script, before, frames, moments);
        Ending(MomentBefore(moments, used), before, frames, focus.pending, LastFrame(script, used));
        return;
      }
      if turn.terminal.EndOfInput? {
        frames, events := Close(focus, enabled, frames, DetachFrame, read, events);
        outcome := Detached;
        MoreFrames(enabled, focusMode, script, before, frames, moments);
        Ending(MomentBefore(moments, used), before, frames, focus.pending, LastFrame(script, used));
        return;
      }
      OneTurn(script, used);
      NextMode(script, used, focusMode);
      if AlwaysMode(script, focusMode) {
        ModeKept(script, used + 1, focusMode);
      }
      frames, events := TakeTurn(focus, enabled, mode, turn, frames, read, events);
      ghost var after := Moment(|frames|, focus.pending, focus.pendingSince);
      OneMoreTurn(enabled, focusMode, script, before, frames, moments, after);
      used, moments := used + 1, moments + [after];
    }
    Ending(MomentBefore(moments, used), frames, frames, focus.pending, None);
  }

  /** Turn k sends exactly these bytes, the time of disambiguation having passed since they were read. */
  predicate ReleasedIn(script: seq<Turn>, frames: seq<Frame>, moments: seq<Moment>, k: nat, held: seq<Byte>,
                       read: nat)
    requires 0 < k < |moments| <= |script|
  {
    && script[k].now >= read + DISAMBIGUATION
    && moments[k - 1].sent <= moments[k].sent <= |frames|
    && frames[moments[k - 1].sent..moments[k].sent] == [Input(held)]
  }

  lemma HeldSinceRead(enabled: bool, mode: bool, turn: Turn, before: Moment, sent: seq<Frame>, after: Moment)
    requires TurnIsExact(enabled, mode, turn, before, sent, after) && turn.terminal.Read?
    ensures after.held != [] ==> after.since == Some(turn.now)
  {
    hide Tokens, Rest, Render, Gains, FramesFor;
  }

  /** Held bytes, last read in turn m, through turns without input: they are still held, the
      time of disambiguation not yet over, or one of these turns has sent them once it was. In
      the first turn that comes late enough, at the latest, they are sent. */
  lemma {:induction false} HeldBytesAreReleased(enabled: bool, focusMode: bool, script: seq<Turn>, frames: seq<Frame>,
                                                moments: seq<Moment>, m: nat, n: nat)
    requires TurnsAreExact(enabled, focusMode, script, frames, moments) && m <= n < |moments|
    requires script[m].terminal.Read? && forall k :: m < k <= n ==> script[k].terminal.NoInput?
    requires moments[m].held != []
    ensures |moments| <= |script|
    ensures || (moments[n].held == moments[m].held && moments[n].since == Some(script[m].now)
                && script[n].now < script[m].now + DISAMBIGUATION)
            || (moments[n].held == []
                && exists k :: m < k <= n && ReleasedIn(script, frames, moments, k, moments[m].held, script[m].now))
    decreases n - m
  {
    hide TurnsAreExact, Tokens, Rest, Render, Gains, FramesFor, ModeAt;
    ExactTurn(enabled, focusMode, script, frames, moments, n);
    if m == n {
      hide TurnIsExact;
      HeldSinceRead(enabled, ModeAt(script, n + 1, focusMode), script[n], MomentBefore(moments, n),
                    frames[MomentBefore(moments, n).sent..moments[n].sent], moments[n]);
      Held(enabled, ModeAt(script, n + 1, focusMode), script[n], MomentBefore(moments, n),
           frames[MomentBefore(moments, n).sent..moments[n].sent], moments[n]);
    } else {
      HeldBytesAreReleased(enabled, focusMode, script, frames, moments, m, n - 1);
      var before := moments[n - 1];
      assert MomentBefore(moments, n) == before;
      if before.held != [] && script[n].now >= script[m].now + DISAMBIGUATION {
        assert ReleasedIn(script, frames, moments, n, moments[m].held, script[m].now);
      }
    }
  }

  lemma Held(enabled: bool, mode: bool, turn: Turn, before: Moment, sent: seq<Frame>, after: Moment)
    requires TurnIsExact(enabled, mode, turn, before, sent, after) && after.held != []
    ensures after.since.Some? && turn.now < after.since.value + DISAMBIGUATION
  {
    hide Tokens, Rest, Render, Gains, FramesFor;
  }

  /** While the child keeps focus reporting on, what is sent, with what is still held, is
      the input byte for byte; while it keeps it off, it is the input with every focus
      report cut out that no timeout divided. Gains are counted as often as they occur so. */
  lemma SentIsInput(read: seq<Byte>, frames: seq<Frame>, held: seq<Byte>, events: seq<Event>, mode: bool)
    requires Carried(true, read, frames, held, events) && Flagged(events, mode)
    ensures mode ==> SentBytes(frames) + held == read
    ensures !mode ==>
              |held| <= |read| && SentBytes(frames) == Outside(read, Cuts(events), 0, |read| - |held|)
    ensures GainFrames(frames) == Occurrences(read, Cuts(events), 0, |read|)
    ensures (forall i :: 0 <= i < |events| ==> events[i].Chunk?) ==> Cuts(events) == {}
  {
    hide After, Typed, Outside, Occurrences, Cuts, LastCut;
    SessionIsExact(events);
    CutsMeaning(events);
    if mode {
      ForwardedSessionIsLossless(events);
    }
  }

  // ---------- reconnecting ----------

  const RECONNECT_ATTEMPTS: nat := 600

  /** What one attempt to attach again brings; an error may say that the exact run is gone. */
  datatype Attempt = Attached(attachment: nat) | Refused(runGone: bool, error: nat)

  datatype Reconnected = Reattached(attachment: nat) | GaveUp(error: nat) | TimedOut(error: nat)

  /** Retried only while attempts remain and no error proves the exact run gone. */
  predicate Retryable(a: Attempt, exact: bool) {
    a.Refused? && !(exact && a.runGone)
  }

  method ReconnectLoop(exact: bool, answers: nat -> Attempt) returns (r: Reconnected, attempts: nat)
    ensures 1 <= attempts <= RECONNECT_ATTEMPTS
    ensures forall n :: 0 <= n < attempts - 1 ==> Retryable(answers(n), exact)
    ensures r.Reattached? <==> answers(attempts - 1).Attached?
    ensures r.GaveUp? <==> answers(attempts - 1).Refused? && !Retryable(answers(attempts - 1), exact)
    ensures r.TimedOut? ==> attempts == RECONNECT_ATTEMPTS
    ensures match answers(attempts - 1)
            case Attached(attachment) => r == Reattached(attachment)
            case Refused(_, error) => r == GaveUp(error) || r == TimedOut(error)
  {
    var failures := 0;
    while true
      invariant failures < RECONNECT_ATTEMPTS
      invariant forall n :: 0 <= n < failures ==> Retryable(answers(n), exact)
      decreases RECONNECT_ATTEMPTS - failures
    {
      match answers(failures) {
        case Attached(attachment) => return Reattached(attachment), failures + 1;
        case Refused(runGone, error) =>
          failures := failures + 1;
          if exact && runGone {
            return GaveUp(error), failures;
          }
          if failures >= RECONNECT_ATTEMPTS {
            return TimedOut(error), failures;
          }
      }
    }
  }
}
