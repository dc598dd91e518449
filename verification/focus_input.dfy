/** The focus-report filter on an attached terminal's input, and the loop around it. */
module FocusReports {
  import opened Basics

  newtype Byte = b: int | 0 <= b < 256

  const ESC: Byte := 0x1B
  const BRACKET: Byte := 0x5B
  const GAINED: seq<Byte> := [ESC, BRACKET, 0x49]
  const LOST: seq<Byte> := [ESC, BRACKET, 0x4F]

  datatype Token = Plain(b: Byte) | Gain | Loss

  predicate StartsWith(s: seq<Byte>, last: Byte) {
    |s| >= 3 && s[0] == ESC && s[1] == BRACKET && s[2] == last
  }

  /** A proper prefix of a focus report, the empty one included. */
  predicate Partial(s: seq<Byte>) {
    |s| == 0 || (|s| == 1 && s[0] == ESC) || (|s| == 2 && s[0] == ESC && s[1] == BRACKET)
  }

  function Head(s: seq<Byte>): Token
    requires s != []
  {
    if StartsWith(s, 0x49) then Gain else if StartsWith(s, 0x4F) then Loss else Plain(s[0])
  }

  function Width(t: Token): nat {
    if t.Plain? then 1 else 3
  }

  /** The input cut into focus reports and other bytes. */
  function Tokens(s: seq<Byte>): seq<Token>
    decreases |s|
  {
    if Partial(s) then [] else [Head(s)] + Tokens(s[Width(Head(s))..])
  }

  /** The bytes at its end that may still become a focus report. */
  function Rest(s: seq<Byte>): (r: seq<Byte>)
    ensures Partial(r)
    decreases |s|
  {
    if Partial(s) then s else Rest(s[Width(Head(s))..])
  }

  function TokenBytes(t: Token, forward: bool): seq<Byte> {
    match t
    case Plain(b) => [b]
    case Gain => if forward then GAINED else []
    case Loss => if forward then LOST else []
  }

  function Render(ts: seq<Token>, forward: bool): seq<Byte> {
    if ts == [] then [] else TokenBytes(ts[0], forward) + Render(ts[1..], forward)
  }

  function Gains(ts: seq<Token>): nat {
    if ts == [] then 0 else (if ts[0].Gain? then 1 else 0) + Gains(ts[1..])
  }

  lemma {:induction false} RenderConcat(a: seq<Token>, b: seq<Token>, forward: bool)
    ensures Render(a + b, forward) == Render(a, forward) + Render(b, forward)
    ensures Gains(a + b) == Gains(a) + Gains(b)
  {
    if a == [] {
      assert a + b == b;
    } else {
      assert (a + b)[1..] == a[1..] + b;
      RenderConcat(a[1..], b, forward);
    }
  }

  lemma HeadBytes(s: seq<Byte>)
    requires !Partial(s)
    ensures TokenBytes(Head(s), true) == s[..Width(Head(s))]
  {
  }

  lemma RenderOne(t: Token, forward: bool)
    ensures Render([t], forward) == TokenBytes(t, forward) && Gains([t]) == if t.Gain? then 1 else 0
  {
    assert [t][1..] == [];
  }

  lemma TokensStep(s: seq<Byte>)
    requires !Partial(s)
    ensures Tokens(s) == [Head(s)] + Tokens(s[Width(Head(s))..])
    ensures Rest(s) == Rest(s[Width(Head(s))..])
  {
  }

  lemma Rejoin(s: seq<Byte>, n: nat, front: seq<Byte>, x: seq<Byte>, y: seq<Byte>)
    requires n <= |s| && front == s[..n] && x + y == s[n..]
    ensures front + x + y == s
  {
    assert s == s[..n] + s[n..];
  }

  lemma Regroup(a: seq<Byte>, b: seq<Byte>, c: seq<Byte>)
    ensures a + b + c == a + (b + c)
  {
  }

  /** With forwarding on nothing is lost: what is sent and what is held are the input. */
  lemma {:induction false} ForwardingIsLossless(s: seq<Byte>)
    ensures Render(Tokens(s), true) + Rest(s) == s
    decreases |s|
  {
    if !Partial(s) {
      hide Tokens, Rest, Render, Gains;
      var h := Head(s);
      var tail := s[Width(h)..];
      HeadBytes(s);
      TokensStep(s);
      ForwardingIsLossless(tail);
      RenderConcat([h], Tokens(tail), true);
      RenderOne(h, true);
      Rejoin(s, Width(h), TokenBytes(h, true), Render(Tokens(tail), true), Rest(tail));
    }
  }

  lemma SameHead(a: seq<Byte>, b: seq<Byte>)
    requires !Partial(a)
    ensures !Partial(a + b) && Head(a + b) == Head(a)
  {
  }

  /** Cutting the input in two makes no difference, wherever the cut falls. */
  lemma {:induction false} CutAnywhere(a: seq<Byte>, b: seq<Byte>)
    ensures Tokens(a + b) == Tokens(a) + Tokens(Rest(a) + b)
    ensures Rest(a + b) == Rest(Rest(a) + b)
    decreases |a|
  {
    if !Partial(a) {
      var n := Width(Head(a));
      SameHead(a, b);
      assert (a + b)[n..] == a[n..] + b;
      CutAnywhere(a[n..], b);
    }
  }

  // ---------- a reference definition by position ----------

  predicate ReportAt(s: seq<Byte>, last: Byte, i: int) {
    0 <= i && i + 3 <= |s| && s[i] == ESC && s[i + 1] == BRACKET && s[i + 2] == last
  }

  /** A report at j that no cut divides. A cut at c parts the bytes before c from the rest. */
  predicate Report(s: seq<Byte>, cuts: set<nat>, last: Byte, j: int) {
    ReportAt(s, last, j) && j + 1 !in cuts && j + 2 !in cuts
  }

  predicate InReport(s: seq<Byte>, cuts: set<nat>, i: int) {
    exists j :: i - 2 <= j <= i && (Report(s, cuts, 0x49, j) || Report(s, cuts, 0x4F, j))
  }

  /** How many undivided focus gains start in s from position i up to position n. */
  function Occurrences(s: seq<Byte>, cuts: set<nat>, i: nat, n: nat): nat
    requires i <= n <= |s|
    decreases n - i
  {
    if i == n then 0 else (if Report(s, cuts, 0x49, i) then 1 else 0) + Occurrences(s, cuts, i + 1, n)
  }

  /** The bytes of s from position i up to position n that lie in no undivided report. */
  function Outside(s: seq<Byte>, cuts: set<nat>, i: nat, n: nat): seq<Byte>
    requires i <= n <= |s|
    decreases n - i
  {
    if i == n then [] else (if InReport(s, cuts, i) then [] else [s[i]]) + Outside(s, cuts, i + 1, n)
  }

  lemma {:induction false} NoneNearEnd(s: seq<Byte>, i: nat)
    requires i <= |s| <= i + 2
    ensures Occurrences(s, {}, i, |s|) == 0
    decreases |s| - i
  {
    if i < |s| {
      NoneNearEnd(s, i + 1);
    }
  }

  lemma OutsideStep(s: seq<Byte>, cuts: set<nat>, i: nat, end: nat)
    requires i < end <= |s|
    ensures Outside(s, cuts, i, end)
            == if InReport(s, cuts, i) then Outside(s, cuts, i + 1, end) else [s[i]] + Outside(s, cuts, i + 1, end)
  {
    hide InReport;
  }

  lemma OccurrencesStep(s: seq<Byte>, cuts: set<nat>, i: nat, end: nat)
    requires i < end <= |s|
    ensures Occurrences(s, cuts, i, end)
            == (if Report(s, cuts, 0x49, i) then 1 else 0) + Occurrences(s, cuts, i + 1, end)
  {
    hide Report;
  }

  lemma ReportSpans(s: seq<Byte>, i: nat)
    requires ReportAt(s, 0x49, i) || ReportAt(s, 0x4F, i)
    ensures InReport(s, {}, i) && InReport(s, {}, i + 1) && InReport(s, {}, i + 2)
    ensures forall j :: i < j < i + 3 ==> !ReportAt(s, 0x49, j) && !ReportAt(s, 0x4F, j)
  {
    assert Report(s, {}, 0x49, i) || Report(s, {}, 0x4F, i);
  }

  /** A report found at i is cut out whole. */
  lemma ReportSkipped(s: seq<Byte>, i: nat, end: nat)
    requires ReportAt(s, 0x49, i) || ReportAt(s, 0x4F, i)
    requires i + 3 <= end <= |s|
    ensures Occurrences(s, {}, i, |s|) == (if ReportAt(s, 0x49, i) then 1 else 0) + Occurrences(s, {}, i + 3, |s|)
    ensures Outside(s, {}, i, end) == Outside(s, {}, i + 3, end)
    ensures forall j :: i < j < i + 3 ==> !ReportAt(s, 0x49, j) && !ReportAt(s, 0x4F, j)
  {
    hide InReport, ReportAt, Outside, Occurrences;
    ReportSpans(s, i);
    OutsideStep(s, {}, i, end);
    OutsideStep(s, {}, i + 1, end);
    OutsideStep(s, {}, i + 2, end);
    OccurrencesStep(s, {}, i, |s|);
    OccurrencesStep(s, {}, i + 1, |s|);
    OccurrencesStep(s, {}, i + 2, |s|);
  }

  lemma NoneReaches(s: seq<Byte>, i: nat)
    requires forall j :: i - 2 <= j <= i ==> !ReportAt(s, 0x49, j) && !ReportAt(s, 0x4F, j)
    ensures !InReport(s, {}, i)
  {
    hide ReportAt;
  }

  /** A byte that no report reaches is kept. */
  lemma PlainKept(s: seq<Byte>, i: nat, end: nat)
    requires forall j :: i - 2 <= j <= i ==> !ReportAt(s, 0x49, j) && !ReportAt(s, 0x4F, j)
    requires i < end <= |s|
    ensures Occurrences(s, {}, i, |s|) == Occurrences(s, {}, i + 1, |s|)
    ensures Outside(s, {}, i, end) == [s[i]] + Outside(s, {}, i + 1, end)
  {
    hide ReportAt, Outside, InReport, Occurrences;
    NoneReaches(s, i);
    OccurrencesStep(s, {}, i, |s|);
    OutsideStep(s, {}, i, end);
  }

  lemma HeadAt(s: seq<Byte>, i: nat)
    requires i <= |s| && !Partial(s[i..])
    ensures var h := Head(s[i..]);
            && i + Width(h) <= |s| && s[i..][Width(h)..] == s[i + Width(h)..]
            && (h.Gain? <==> ReportAt(s, 0x49, i)) && (h.Loss? <==> ReportAt(s, 0x4F, i))
            && (h.Plain? ==> h.b == s[i])
  {
    var t := s[i..];
    assert t[0] == s[i] && (|t| > 1 ==> t[1] == s[i + 1]) && (|t| > 2 ==> t[2] == s[i + 2]);
  }

  /** The scan consumes every report there is and no byte outside one: gains are
      counted exactly as often as they occur, and without forwarding what is sent is
      the input with every report cut out. */
  lemma {:induction false} ScanIsExact(s: seq<Byte>, i: nat)
    requires i <= |s|
    requires forall j :: i - 2 <= j < i ==> !ReportAt(s, 0x49, j) && !ReportAt(s, 0x4F, j)
    ensures Gains(Tokens(s[i..])) == Occurrences(s, {}, i, |s|)
    ensures |Rest(s[i..])| <= |s| - i
    ensures Render(Tokens(s[i..]), false) == Outside(s, {}, i, |s| - |Rest(s[i..])|)
    decreases |s| - i
  {
    hide Tokens, Rest, Render, Gains, Occurrences, Outside, ReportAt;
    var t := s[i..];
    if Partial(t) {
      NoneNearEnd(s, i);
      PartialHasNoToken(t);
      NothingRendered(false);
      NothingBetween(s, {}, i);
    } else {
      var h := Head(t);
      var n := Width(h);
      HeadAt(s, i);
      TokensStep(t);
      var tail := s[i + n..];
      RenderConcat([h], Tokens(tail), false);
      RenderOne(h, false);
      if h.Plain? {
        ScanIsExact(s, i + 1);
        PlainKept(s, i, |s| - |Rest(tail)|);
      } else {
        ReportSkipped(s, i, |s|);
        ScanIsExact(s, i + 3);
        ReportSkipped(s, i, |s| - |Rest(tail)|);
      }
    }
  }

  lemma NothingBetween(s: seq<Byte>, cuts: set<nat>, i: nat)
    requires i <= |s|
    ensures Outside(s, cuts, i, i) == [] && Occurrences(s, cuts, i, i) == 0
  {
  }

  // ---------- whole sessions ----------

  /** A chunk read under the current forwarding flag, or the held bytes given up. */
  datatype Event = Chunk(bytes: seq<Byte>, forward: bool) | Flush

  datatype Session = Session(sent: seq<Byte>, gained: nat, held: seq<Byte>)

  function Advance(s: Session, e: Event): Session {
    match e
    case Chunk(bytes, forward) =>
      var ts := Tokens(s.held + bytes);
      Session(s.sent + Render(ts, forward), s.gained + Gains(ts), Rest(s.held + bytes))
    case Flush => Session(s.sent + s.held, s.gained, [])
  }

  function After(events: seq<Event>): Session {
    if events == [] then Session([], 0, []) else Advance(After(events[..|events| - 1]), events[|events| - 1])
  }

  function Typed(events: seq<Event>): seq<Byte> {
    if events == [] then []
    else
      Typed(events[..|events| - 1])
      + (if events[|events| - 1].Chunk? then events[|events| - 1].bytes else [])
  }

  /** With one forwarding flag throughout, every cutting of the input into chunks
      sends, counts and holds what one pass over the whole input does. */
  lemma {:induction false} ChunksDoNotMatter(events: seq<Event>, forward: bool)
    requires forall i :: 0 <= i < |events| ==> events[i].Chunk? && events[i].forward == forward
    ensures var ts := Tokens(Typed(events));
            After(events) == Session(Render(ts, forward), Gains(ts), Rest(Typed(events)))
  {
    if events != [] {
      var init, last := events[..|events| - 1], events[|events| - 1];
      ChunksDoNotMatter(init, forward);
      CutAnywhere(Typed(init), last.bytes);
      RenderConcat(Tokens(Typed(init)), Tokens(Rest(Typed(init)) + last.bytes), forward);
    }
  }

  /** A byte sent on, or a whole focus report kept back. */
  datatype Mark = Passed(b: Byte) | Withheld(gain: bool)

  function Passes(s: seq<Byte>): seq<Mark> {
    if s == [] then [] else [Passed(s[0])] + Passes(s[1..])
  }

  function Marks(ts: seq<Token>, forward: bool): seq<Mark> {
    if ts == [] then []
    else
      (if ts[0].Plain? || forward then Passes(TokenBytes(ts[0], true)) else [Withheld(ts[0].Gain?)])
      + Marks(ts[1..], forward)
  }

  function Whole(ms: seq<Mark>): seq<Byte> {
    if ms == [] then []
    else
      (match ms[0] case Passed(b) => [b] case Withheld(gain) => if gain then GAINED else LOST) + Whole(ms[1..])
  }

  function Kept(ms: seq<Mark>): seq<Byte> {
    if ms == [] then [] else (if ms[0].Passed? then [ms[0].b] else []) + Kept(ms[1..])
  }

  lemma {:induction false} MarksConcat(a: seq<Mark>, b: seq<Mark>)
    ensures Whole(a + b) == Whole(a) + Whole(b) && Kept(a + b) == Kept(a) + Kept(b)
  {
    hide Whole, Kept;
    if a == [] {
      assert a + b == b;
      NoMarks();
    } else {
      assert (a + b)[1..] == a[1..] + b;
      MarksConcat(a[1..], b);
      MarksStep(a);
      MarksStep(a + b);
    }
  }

  lemma NoMarks()
    ensures Whole([]) == [] && Kept([]) == []
  {
  }

  lemma MarksStep(ms: seq<Mark>)
    requires ms != []
    ensures Whole(ms) == (match ms[0] case Passed(b) => [b] case Withheld(gain) => if gain then GAINED else LOST)
                         + Whole(ms[1..])
    ensures Kept(ms) == (if ms[0].Passed? then [ms[0].b] else []) + Kept(ms[1..])
  {
  }

  lemma {:induction false} PassesAreKept(s: seq<Byte>)
    ensures Whole(Passes(s)) == s && Kept(Passes(s)) == s
  {
    if s != [] {
      PassesAreKept(s[1..]);
      assert Passes(s)[1..] == Passes(s[1..]);
    }
  }

  lemma {:induction false} MarksOfTokens(ts: seq<Token>, forward: bool)
    ensures Whole(Marks(ts, forward)) == Render(ts, true)
    ensures Kept(Marks(ts, forward)) == Render(ts, forward)
  {
    if ts != [] {
      var first := if ts[0].Plain? || forward then Passes(TokenBytes(ts[0], true)) else [Withheld(ts[0].Gain?)];
      MarksOfTokens(ts[1..], forward);
      MarksConcat(first, Marks(ts[1..], forward));
      PassesAreKept(TokenBytes(ts[0], true));
      assert [Withheld(ts[0].Gain?)][1..] == [];
    }
  }

  /** How each byte typed so far fared. */
  function Account(events: seq<Event>): seq<Mark> {
    if events == [] then []
    else
      var init, last := events[..|events| - 1], events[|events| - 1];
      Account(init)
      + match last
        case Chunk(bytes, forward) => Marks(Tokens(After(init).held + bytes), forward)
        case Flush => Passes(After(init).held)
  }

  /** Whatever the chunks, flag changes and flushes: the input is what was sent with
      nothing but whole focus reports taken out, followed by what is still held. */
  lemma {:induction false} OnlyReportsAreWithheld(events: seq<Event>)
    ensures Whole(Account(events)) + After(events).held == Typed(events)
    ensures Kept(Account(events)) == After(events).sent
  {
    if events != [] {
      hide Tokens, Rest, Render, Gains, Marks, Whole, Kept, Passes;
      var init, last := events[..|events| - 1], events[|events| - 1];
      var s := After(init);
      OnlyReportsAreWithheld(init);
      var w := Whole(Account(init));
      if last.Chunk? {
        var c := s.held + last.bytes;
        var ts := Tokens(c);
        MarksOfTokens(ts, last.forward);
        MarksConcat(Account(init), Marks(ts, last.forward));
        ForwardingIsLossless(c);
        Regroup(w, Render(ts, true), Rest(c));
        Regroup(w, s.held, last.bytes);
      } else {
        PassesAreKept(s.held);
        MarksConcat(Account(init), Passes(s.held));
      }
    }
  }

  /** With forwarding on throughout, flushes included, the input itself is sent. */
  lemma {:induction false} ForwardedSessionIsLossless(events: seq<Event>)
    requires forall i :: 0 <= i < |events| && events[i].Chunk? ==> events[i].forward
    ensures After(events).sent + After(events).held == Typed(events)
  {
    if events != [] {
      hide Tokens, Rest, Render, Gains;
      var init, last := events[..|events| - 1], events[|events| - 1];
      ForwardedSessionIsLossless(init);
      if last.Chunk? {
        var s := After(init);
        var c := s.held + last.bytes;
        ForwardingIsLossless(c);
        Regroup(s.sent, s.held, last.bytes);
        Regroup(s.sent, Render(Tokens(c), true), Rest(c));
      }
    }
  }

  // ---------- reports in what is sent ----------

  /** The first position from i on that lies in no report, or n. */
  function NextOutside(s: seq<Byte>, cuts: set<nat>, i: nat, n: nat): (r: nat)
    requires i <= n <= |s|
    ensures i <= r <= n && (r < n ==> !InReport(s, cuts, r)) && forall m :: i <= m < r ==> InReport(s, cuts, m)
    decreases n - i
  {
    if i == n || !InReport(s, cuts, i) then i else NextOutside(s, cuts, i + 1, n)
  }

  lemma {:induction false} OutsideFrom(s: seq<Byte>, cuts: set<nat>, i: nat, n: nat)
    requires i <= n <= |s|
    ensures var j := NextOutside(s, cuts, i, n);
            Outside(s, cuts, i, n) == if j == n then [] else [s[j]] + Outside(s, cuts, j + 1, n)
    decreases n - i
  {
    hide InReport, Outside;
    if i == n {
      NothingBetween(s, cuts, i);
    } else {
      OutsideStep(s, cuts, i, n);
      if InReport(s, cuts, i) {
        OutsideFrom(s, cuts, i + 1, n);
      }
    }
  }

  /** An ESC, a '[' and a last byte of s that lie in no undivided report, with nothing but
      undivided reports between them. */
  predicate Split(s: seq<Byte>, cuts: set<nat>, last: Byte, i: int, j: int, k: int) {
    && 0 <= i < j < k < |s| && s[i] == ESC && s[j] == BRACKET && s[k] == last
    && !InReport(s, cuts, i) && !InReport(s, cuts, j) && !InReport(s, cuts, k)
    && forall m :: i < m < k && m != j ==> InReport(s, cuts, m)
  }

  lemma NextIs(s: seq<Byte>, cuts: set<nat>, i: nat, n: nat, j: nat)
    requires i <= j < n <= |s| && !InReport(s, cuts, j) && forall m :: i <= m < j ==> InReport(s, cuts, m)
    ensures NextOutside(s, cuts, i, n) == j
  {
    hide InReport;
    var r := NextOutside(s, cuts, i, n);
  }

  lemma ThirdOutside(s: seq<Byte>, cuts: set<nat>, last: Byte, n: nat, i: nat, j: nat, k: nat)
    requires i < n <= |s| && j == NextOutside(s, cuts, i + 1, n)
    requires k == if j < n then NextOutside(s, cuts, j + 1, n) else n
    ensures ReportAt([s[i]] + Outside(s, cuts, i + 1, n), last, 0)
            <==> k < n && s[i] == ESC && s[j] == BRACKET && s[k] == last
  {
    hide InReport, Outside;
    OutsideFrom(s, cuts, i + 1, n);
    if j < n {
      OutsideFrom(s, cuts, j + 1, n);
    }
  }

  lemma {:induction false} SplitOfOutput(s: seq<Byte>, cuts: set<nat>, last: Byte, i: nat, n: nat, p: int)
    returns (a: nat, b: nat, c: nat)
    requires i <= n <= |s| && ReportAt(Outside(s, cuts, i, n), last, p)
    ensures i <= a && Split(s, cuts, last, a, b, c)
    decreases n - i
  {
    hide InReport, Outside;
    OutsideFrom(s, cuts, i, n);
    a := NextOutside(s, cuts, i, n);
    if p == 0 {
      b := NextOutside(s, cuts, a + 1, n);
      c := if b < n then NextOutside(s, cuts, b + 1, n) else n;
      ThirdOutside(s, cuts, last, n, a, b, c);
    } else {
      a, b, c := SplitOfOutput(s, cuts, last, a + 1, n, p - 1);
    }
  }

  lemma {:induction false} OutputOfSplit(s: seq<Byte>, cuts: set<nat>, last: Byte, i: nat, n: nat,
                                         a: nat, b: nat, c: nat)
    returns (p: nat)
    requires i <= a && c < n <= |s| && Split(s, cuts, last, a, b, c)
    ensures ReportAt(Outside(s, cuts, i, n), last, p)
    decreases n - i
  {
    hide InReport, Outside, Split;
    SplitStart(s, cuts, last, i, n, a, b, c);
    OutsideFrom(s, cuts, i, n);
    var r := NextOutside(s, cuts, i, n);
    if r == a {
      SplitThird(s, cuts, last, n, a, b, c);
      p := 0;
    } else {
      p := OutputOfSplit(s, cuts, last, r + 1, n, a, b, c);
      p := p + 1;
    }
  }

  lemma SplitStart(s: seq<Byte>, cuts: set<nat>, last: Byte, i: nat, n: nat, a: nat, b: nat, c: nat)
    requires i <= a && c < n <= |s| && Split(s, cuts, last, a, b, c)
    ensures a < n && NextOutside(s, cuts, i, n) <= a
  {
    hide InReport;
  }

  lemma SplitThird(s: seq<Byte>, cuts: set<nat>, last: Byte, n: nat, a: nat, b: nat, c: nat)
    requires c < n <= |s| && Split(s, cuts, last, a, b, c)
    ensures a < n && ReportAt([s[a]] + Outside(s, cuts, a + 1, n), last, 0)
  {
    hide InReport, Outside;
    NextIs(s, cuts, a + 1, n, b);
    NextIs(s, cuts, b + 1, n, c);
    ThirdOutside(s, cuts, last, n, a, b, c);
  }

  lemma {:induction false} RestIsEnd(s: seq<Byte>)
    ensures |Rest(s)| <= |s| && Rest(s) == s[|s| - |Rest(s)|..]
    decreases |s|
  {
    if !Partial(s) {
      RestIsEnd(s[Width(Head(s))..]);
    }
  }

  lemma LastByteIsScanned(s: seq<Byte>, k: nat)
    requires k < |s| && s[k] != ESC && s[k] != BRACKET
    ensures k < |s| - |Rest(s)|
  {
    hide Rest;
    RestIsEnd(s);
    var r := Rest(s);
    assert forall m :: 0 <= m < |r| ==> r[m] == s[|s| - |r| + m];
  }

  lemma OutsideContainsReportIff(s: seq<Byte>, cuts: set<nat>, last: Byte, n: nat)
    requires n <= |s| && forall k :: n <= k < |s| ==> s[k] != last
    ensures (exists p :: ReportAt(Outside(s, cuts, 0, n), last, p)) <==> exists i, j, k :: Split(s, cuts, last, i, j, k)
  {
    hide Outside, InReport;
    if p :| ReportAt(Outside(s, cuts, 0, n), last, p) {
      var i, j, k := SplitOfOutput(s, cuts, last, 0, n, p);
    }
    if i, j, k :| Split(s, cuts, last, i, j, k) {
      assert s[k] == last;
      var p := OutputOfSplit(s, cuts, last, 0, n, i, j, k);
    }
  }

  /** The three bytes are parted by a whole report, or by a cut. */
  lemma SplitIsParted(s: seq<Byte>, cuts: set<nat>, last: Byte, i: int, j: int, k: int)
    requires (last == 0x49 || last == 0x4F) && Split(s, cuts, last, i, j, k)
    ensures k > i + 2 || i + 1 in cuts || i + 2 in cuts
  {
    assert Report(s, cuts, last, i) ==> InReport(s, cuts, i);
  }

  /** Without forwarding, what one pass sends contains a report if and only if the input
      holds the three bytes of one, themselves in no report and parted only by whole
      reports, at least one of them: cutting those out joins the three. */
  lemma OutputContainsReportIff(s: seq<Byte>, last: Byte)
    requires last == 0x49 || last == 0x4F
    ensures (exists p :: ReportAt(Render(Tokens(s), false), last, p))
            <==> exists i, j, k :: Split(s, {}, last, i, j, k)
    ensures forall i, j, k :: Split(s, {}, last, i, j, k) ==> k > i + 2
  {
    hide Tokens, Rest, Render, Gains, Outside, InReport, Split, ReportAt;
    NoneBefore(s);
    ScanIsExact(s, 0);
    assert s[0..] == s;
    RestIsUnended(s, last);
    OutsideContainsReportIff(s, {}, last, |s| - |Rest(s)|);
    forall i, j, k | Split(s, {}, last, i, j, k)
      ensures k > i + 2
    {
      SplitIsParted(s, {}, last, i, j, k);
    }
  }

  lemma NoneBefore(s: seq<Byte>)
    ensures forall j :: j < 0 ==> !ReportAt(s, 0x49, j) && !ReportAt(s, 0x4F, j)
  {
  }

  lemma RestIsUnended(s: seq<Byte>, last: Byte)
    requires last == 0x49 || last == 0x4F
    ensures |Rest(s)| <= |s| && forall k :: |s| - |Rest(s)| <= k < |s| ==> s[k] != last
  {
    hide Rest;
    RestIsEnd(s);
    forall k | |s| - |Rest(s)| <= k < |s|
      ensures s[k] != last
    {
      if s[k] == last {
        LastByteIsScanned(s, k);
      }
    }
  }

  // ---------- sessions with flushes ----------

  /** Where the input stood when held bytes were last given up. */
  function LastCut(events: seq<Event>): (c: nat)
    ensures c <= |Typed(events)|
  {
    if events == [] then 0
    else if events[|events| - 1].Flush? then |Typed(events)|
    else LastCut(events[..|events| - 1])
  }

  /** Where the input stood at each time held bytes were given up. */
  function Cuts(events: seq<Event>): set<nat> {
    if events == [] then {}
    else
      Cuts(events[..|events| - 1]) + if events[|events| - 1].Flush? then {|Typed(events)|} else {}
  }

  lemma {:induction false} CutsMeaning(events: seq<Event>)
    ensures forall c :: c in Cuts(events) ==> c <= LastCut(events)
    ensures LastCut(events) == 0 || LastCut(events) in Cuts(events)
    ensures (forall i :: 0 <= i < |events| ==> events[i].Chunk?) ==> Cuts(events) == {} && LastCut(events) == 0
  {
    if events != [] {
      CutsMeaning(events[..|events| - 1]);
    }
  }

  predicate CutUpTo(cuts: set<nat>, start: nat) {
    (start == 0 || start in cuts) && forall c :: c in cuts ==> c <= start
  }

  /** Past the last cut, reports are those of the piece that begins there. */
  lemma PieceReports(s: seq<Byte>, cuts: set<nat>, start: nat, x: nat)
    requires start + x <= |s| && CutUpTo(cuts, start)
    ensures InReport(s, cuts, start + x) <==> InReport(s[start..], {}, x)
    ensures Report(s, cuts, 0x49, start + x) <==> Report(s[start..], {}, 0x49, x)
  {
    var t := s[start..];
    assert forall j, last :: Report(s, cuts, last, start + j) && j >= 0 ==> Report(t, {}, last, j);
    assert forall j, last :: Report(t, {}, last, j) ==> Report(s, cuts, last, start + j);
    if j :| start + x - 2 <= j <= start + x && (Report(s, cuts, 0x49, j) || Report(s, cuts, 0x4F, j)) {
      assert j >= start;
      assert Report(t, {}, 0x49, j - start) || Report(t, {}, 0x4F, j - start);
    }
    if j :| x - 2 <= j <= x && (Report(t, {}, 0x49, j) || Report(t, {}, 0x4F, j)) {
      assert Report(s, cuts, 0x49, start + j) || Report(s, cuts, 0x4F, start + j);
    }
  }

  lemma {:induction false} PieceOutside(s: seq<Byte>, cuts: set<nat>, start: nat, x: nat, y: nat)
    requires x <= y && start + y <= |s| && CutUpTo(cuts, start)
    ensures Outside(s, cuts, start + x, start + y) == Outside(s[start..], {}, x, y)
    ensures Occurrences(s, cuts, start + x, start + y) == Occurrences(s[start..], {}, x, y)
    decreases y - x
  {
    hide InReport, Report, CutUpTo, Outside, Occurrences;
    var t := s[start..];
    if x == y {
      NothingBetween(s, cuts, start + x);
      NothingBetween(t, {}, x);
    } else {
      PieceReports(s, cuts, start, x);
      OutsideStep(s, cuts, start + x, start + y);
      OutsideStep(t, {}, x, y);
      OccurrencesStep(s, cuts, start + x, start + y);
      OccurrencesStep(t, {}, x, y);
      PieceOutside(s, cuts, start, x + 1, y);
    }
  }

  /** Before a cut, later input and later cuts change nothing. */
  lemma EarlierReports(s: seq<Byte>, cuts: set<nat>, start: nat, more: seq<Byte>, late: set<nat>, i: nat)
    requires i < start <= |s| && start in cuts && forall c :: c in late ==> c >= start
    ensures InReport(s + more, cuts + late, i) <==> InReport(s, cuts, i)
    ensures Report(s + more, cuts + late, 0x49, i) <==> Report(s, cuts, 0x49, i)
  {
    var t := s + more;
    assert forall j, last :: j < start ==> (Report(t, cuts + late, last, j) <==> Report(s, cuts, last, j));
    if j :| i - 2 <= j <= i && (Report(s, cuts, 0x49, j) || Report(s, cuts, 0x4F, j)) {
      assert Report(t, cuts + late, 0x49, j) || Report(t, cuts + late, 0x4F, j);
    }
    if j :| i - 2 <= j <= i && (Report(t, cuts + late, 0x49, j) || Report(t, cuts + late, 0x4F, j)) {
      assert Report(s, cuts, 0x49, j) || Report(s, cuts, 0x4F, j);
    }
  }

  lemma {:induction false} EarlierOutside(s: seq<Byte>, cuts: set<nat>, start: nat, more: seq<Byte>, late: set<nat>,
                                          i: nat)
    requires i <= start <= |s| && (start == 0 || start in cuts) && forall c :: c in late ==> c >= start
    ensures Outside(s + more, cuts + late, i, start) == Outside(s, cuts, i, start)
    ensures Occurrences(s + more, cuts + late, i, start) == Occurrences(s, cuts, i, start)
    decreases start - i
  {
    hide InReport, Report, Outside, Occurrences;
    var t := s + more;
    if i == start {
      NothingBetween(s, cuts, i);
      NothingBetween(t, cuts + late, i);
    } else {
      EarlierReports(s, cuts, start, more, late, i);
      OutsideStep(s, cuts, i, start);
      OutsideStep(t, cuts + late, i, start);
      OccurrencesStep(s, cuts, i, start);
      OccurrencesStep(t, cuts + late, i, start);
      EarlierOutside(s, cuts, start, more, late, i + 1);
    }
  }

  lemma {:induction false} OutsideConcat(s: seq<Byte>, cuts: set<nat>, i: nat, m: nat, n: nat)
    requires i <= m <= n <= |s|
    ensures Outside(s, cuts, i, n) == Outside(s, cuts, i, m) + Outside(s, cuts, m, n)
    ensures Occurrences(s, cuts, i, n) == Occurrences(s, cuts, i, m) + Occurrences(s, cuts, m, n)
    decreases m - i
  {
    hide InReport, Report, Outside, Occurrences;
    if i == m {
      NothingBetween(s, cuts, i);
    } else {
      OutsideStep(s, cuts, i, m);
      OutsideStep(s, cuts, i, n);
      OccurrencesStep(s, cuts, i, m);
      OccurrencesStep(s, cuts, i, n);
      OutsideConcat(s, cuts, i + 1, m, n);
    }
  }

  lemma RestOutside(s: seq<Byte>)
    ensures |Rest(s)| <= |s| && Outside(s, {}, |s| - |Rest(s)|, |s|) == Rest(s)
  {
    hide Rest, Outside, InReport;
    RestIsEnd(s);
    RestIsUnended(s, 0x49);
    RestIsUnended(s, 0x4F);
    AllOutside(s, |s| - |Rest(s)|);
  }

  lemma {:induction false} AllOutside(s: seq<Byte>, i: nat)
    requires i <= |s| && forall k :: i <= k < |s| ==> s[k] != 0x49 && s[k] != 0x4F
    ensures Outside(s, {}, i, |s|) == s[i..]
    decreases |s| - i
  {
    hide InReport, Outside;
    if i == |s| {
      NothingBetween(s, {}, i);
    } else {
      UnendedOutside(s, i);
      OutsideStep(s, {}, i, |s|);
      AllOutside(s, i + 1);
      assert s[i..] == [s[i]] + s[i + 1..];
    }
  }

  lemma UnendedOutside(s: seq<Byte>, i: nat)
    requires i < |s| && forall k :: i <= k < |s| ==> s[k] != 0x49 && s[k] != 0x4F
    ensures !InReport(s, {}, i)
  {
  }

  lemma PieceScanned(s: seq<Byte>, cuts: set<nat>, start: nat)
    requires start <= |s| && CutUpTo(cuts, start)
    ensures var piece := s[start..];
            && |Rest(piece)| <= |s| - start
            && Outside(s, cuts, start, |s| - |Rest(piece)|) == Render(Tokens(piece), false)
            && Outside(s, cuts, start, |s|) == Render(Tokens(piece), false) + Rest(piece)
            && Occurrences(s, cuts, start, |s|) == Gains(Tokens(piece))
  {
    hide Rest, Outside, InReport, Report, Tokens, Render, Gains, Occurrences, CutUpTo, ReportAt;
    var piece := s[start..];
    NoneBefore(piece);
    ScanIsExact(piece, 0);
    assert piece[0..] == piece;
    RestOutside(piece);
    var n := |piece| - |Rest(piece)|;
    PieceOutside(s, cuts, start, 0, n);
    PieceOutside(s, cuts, start, 0, |piece|);
    OutsideConcat(piece, {}, 0, n, |piece|);
  }

  /** How a session stands: all before the last cut settled, the rest one piece scanned. */
  ghost predicate Settled(s: Session, typed: seq<Byte>, cuts: set<nat>, start: nat, withheld: bool) {
    && start <= |typed| && CutUpTo(cuts, start)
    && s.held == Rest(typed[start..])
    && s.gained == Occurrences(typed, cuts, 0, start) + Gains(Tokens(typed[start..]))
    && (withheld ==> s.sent == Outside(typed, cuts, 0, start) + Render(Tokens(typed[start..]), false))
  }

  lemma ChunkSettles(s: Session, typed: seq<Byte>, cuts: set<nat>, start: nat, withheld: bool, e: Event)
    requires Settled(s, typed, cuts, start, withheld) && e.Chunk? && (withheld ==> !e.forward)
    ensures Settled(Advance(s, e), typed + e.bytes, cuts, start, withheld)
  {
    hide Rest, Outside, Tokens, Render, Gains, Occurrences;
    var piece := typed[start..];
    assert (typed + e.bytes)[start..] == piece + e.bytes;
    CutAnywhere(piece, e.bytes);
    RenderConcat(Tokens(piece), Tokens(Rest(piece) + e.bytes), false);
    EarlierOutside(typed, cuts, start, e.bytes, {}, 0);
    assert cuts + {} == cuts;
  }

  lemma FlushSettles(s: Session, typed: seq<Byte>, cuts: set<nat>, start: nat, withheld: bool)
    requires Settled(s, typed, cuts, start, withheld)
    ensures Settled(Advance(s, Flush), typed, cuts + {|typed|}, |typed|, withheld)
  {
    hide Rest, Outside, Tokens, Render, Gains, Occurrences;
    PieceScanned(typed, cuts, start);
    OutsideConcat(typed, cuts, 0, start, |typed|);
    FlushKeepsPast(typed, cuts, start);
    PartialHasNoToken([]);
    NothingRendered(false);
    assert typed[|typed|..] == [];
  }

  /** A cut at the end of the input divides nothing yet. */
  lemma FlushKeepsPast(typed: seq<Byte>, cuts: set<nat>, start: nat)
    requires start <= |typed|
    ensures Outside(typed, cuts + {|typed|}, 0, |typed|) == Outside(typed, cuts, 0, |typed|)
    ensures Occurrences(typed, cuts + {|typed|}, 0, |typed|) == Occurrences(typed, cuts, 0, |typed|)
  {
    EndCut(typed, cuts, 0);
  }

  lemma EndCutReports(s: seq<Byte>, cuts: set<nat>, i: nat)
    ensures InReport(s, cuts + {|s|}, i) <==> InReport(s, cuts, i)
    ensures Report(s, cuts + {|s|}, 0x49, i) <==> Report(s, cuts, 0x49, i)
  {
    assert forall j, last :: Report(s, cuts + {|s|}, last, j) <==> Report(s, cuts, last, j);
    if j :| i - 2 <= j <= i && (Report(s, cuts, 0x49, j) || Report(s, cuts, 0x4F, j)) {
      assert Report(s, cuts + {|s|}, 0x49, j) || Report(s, cuts + {|s|}, 0x4F, j);
    }
    if j :| i - 2 <= j <= i && (Report(s, cuts + {|s|}, 0x49, j) || Report(s, cuts + {|s|}, 0x4F, j)) {
      assert Report(s, cuts, 0x49, j) || Report(s, cuts, 0x4F, j);
    }
  }

  lemma {:induction false} EndCut(s: seq<Byte>, cuts: set<nat>, i: nat)
    requires i <= |s|
    ensures Outside(s, cuts + {|s|}, i, |s|) == Outside(s, cuts, i, |s|)
    ensures Occurrences(s, cuts + {|s|}, i, |s|) == Occurrences(s, cuts, i, |s|)
    decreases |s| - i
  {
    hide InReport, Report, Outside, Occurrences;
    var late := cuts + {|s|};
    if i == |s| {
      NothingBetween(s, cuts, i);
      NothingBetween(s, late, i);
    } else {
      EndCutReports(s, cuts, i);
      OutsideStep(s, cuts, i, |s|);
      OutsideStep(s, late, i, |s|);
      OccurrencesStep(s, cuts, i, |s|);
      OccurrencesStep(s, late, i, |s|);
      EndCut(s, cuts, i + 1);
    }
  }

  predicate Withholds(events: seq<Event>) {
    forall i :: 0 <= i < |events| && events[i].Chunk? ==> !events[i].forward
  }

  lemma {:induction false} SessionSettled(events: seq<Event>)
    ensures Settled(After(events), Typed(events), Cuts(events), LastCut(events), Withholds(events))
  {
    hide Settled;
    if events == [] {
      EmptySettled();
    } else {
      var init, last := events[..|events| - 1], events[|events| - 1];
      SessionSettled(init);
      WithholdsLast(events);
      if last.Chunk? {
        ForgetSent(After(init), Typed(init), Cuts(init), LastCut(init), Withholds(init), Withholds(events));
        ChunkSettles(After(init), Typed(init), Cuts(init), LastCut(init), Withholds(events), last);
        assert Cuts(init) + {} == Cuts(init);
      } else {
        FlushSettles(After(init), Typed(init), Cuts(init), LastCut(init), Withholds(init));
        assert Typed(init) + [] == Typed(init);
      }
    }
  }

  lemma EmptySettled()
    ensures Settled(Session([], 0, []), [], {}, 0, true)
  {
  }

  lemma WithholdsLast(events: seq<Event>)
    requires events != []
    ensures var init, last := events[..|events| - 1], events[|events| - 1];
            Withholds(events) <==> Withholds(init) && (last.Chunk? ==> !last.forward)
  {
  }

  lemma ForgetSent(s: Session, typed: seq<Byte>, cuts: set<nat>, start: nat, withheld: bool, less: bool)
    requires Settled(s, typed, cuts, start, withheld) && (less ==> withheld)
    ensures Settled(s, typed, cuts, start, less)
  {
  }

  /** Whatever the chunks, flags and flushes: gains are counted as often as a gain occurs in
      the input that no flush divides; and without forwarding, what is sent is the input up
      to what is held with every such report cut out. */
  lemma SessionIsExact(events: seq<Event>)
    ensures After(events).gained == Occurrences(Typed(events), Cuts(events), 0, |Typed(events)|)
    ensures |After(events).held| <= |Typed(events)|
    ensures Withholds(events) ==>
              After(events).sent
              == Outside(Typed(events), Cuts(events), 0, |Typed(events)| - |After(events).held|)
  {
    hide Outside, Occurrences, Tokens, Rest, Render, Gains, Cuts, LastCut, Withholds;
    SessionSettled(events);
    var typed, cuts, start := Typed(events), Cuts(events), LastCut(events);
    PieceScanned(typed, cuts, start);
    OutsideConcat(typed, cuts, 0, start, |typed|);
    OutsideConcat(typed, cuts, 0, start, |typed| - |After(events).held|);
  }

  /** Without forwarding, and however often held bytes are given up: what is sent contains a
      report if and only if the input holds its three bytes, in no report that no flush
      divides, and parted by nothing but such reports and flushes. */
  lemma SentContainsReportIff(events: seq<Event>, last: Byte)
    requires (last == 0x49 || last == 0x4F) && Withholds(events)
    ensures (exists p :: ReportAt(After(events).sent, last, p))
            <==> exists i, j, k :: Split(Typed(events), Cuts(events), last, i, j, k)
    ensures forall i, j, k :: Split(Typed(events), Cuts(events), last, i, j, k) ==>
              k > i + 2 || i + 1 in Cuts(events) || i + 2 in Cuts(events)
  {
    hide ReportAt, Split, Outside, Cuts, LastCut, Rest, Settled;
    var typed, cuts := Typed(events), Cuts(events);
    SessionIsExact(events);
    HeldIsUnended(events, last);
    OutsideContainsReportIff(typed, cuts, last, |typed| - |After(events).held|);
    forall i, j, k | Split(typed, cuts, last, i, j, k)
      ensures k > i + 2 || i + 1 in cuts || i + 2 in cuts
    {
      SplitIsParted(typed, cuts, last, i, j, k);
    }
  }

  lemma HeldIsUnended(events: seq<Event>, last: Byte)
    requires last == 0x49 || last == 0x4F
    ensures |After(events).held| <= |Typed(events)|
    ensures forall k :: |Typed(events)| - |After(events).held| <= k < |Typed(events)| ==> Typed(events)[k] != last
  {
    hide Rest, Outside, Occurrences, Tokens, Render, Gains, Cuts, LastCut, Withholds;
    SessionSettled(events);
    var typed, start := Typed(events), LastCut(events);
    var piece := typed[start..];
    RestIsUnended(piece, last);
    assert forall k :: start <= k < |typed| ==> typed[k] == piece[k - start];
  }

  /** What is sent may itself contain a report: cutting one out of the middle of
      another joins its halves. */
  lemma OutputMayContainReport()
    ensures Split([ESC, BRACKET, ESC, BRACKET, 0x49, 0x49], {}, 0x49, 0, 1, 5)
    ensures exists p :: ReportAt(Render(Tokens([ESC, BRACKET, ESC, BRACKET, 0x49, 0x49]), false), 0x49, p)
    ensures Render(Tokens([ESC, BRACKET, ESC, BRACKET, 0x49, 0x49]), false) == GAINED
  {
    NestedIsSplit();
    OutputContainsReportIff([ESC, BRACKET, ESC, BRACKET, 0x49, 0x49], 0x49);
    NestedRenders();
  }

  lemma NestedIsSplit()
    ensures Split([ESC, BRACKET, ESC, BRACKET, 0x49, 0x49], {}, 0x49, 0, 1, 5)
  {
    var s: seq<Byte> := [ESC, BRACKET, ESC, BRACKET, 0x49, 0x49];
    assert Report(s, {}, 0x49, 2);
  }

  lemma NestedTokens()
    ensures Tokens([ESC, BRACKET, ESC, BRACKET, 0x49, 0x49]) == [Plain(ESC), Plain(BRACKET), Gain, Plain(0x49)]
  {
    hide Tokens, Rest;
    var i: seq<Byte> := [0x49];
    PartialHasNoToken([]);
    assert i[1..] == [];
    TokensStep(i);
    assert (GAINED + i)[3..] == i;
    TokensStep(GAINED + i);
    assert ([BRACKET] + GAINED + i)[1..] == GAINED + i;
    TokensStep([BRACKET] + GAINED + i);
    assert ([ESC, BRACKET] + GAINED + i)[1..] == [BRACKET] + GAINED + i;
    TokensStep([ESC, BRACKET] + GAINED + i);
    assert [ESC, BRACKET] + GAINED + i == [ESC, BRACKET, ESC, BRACKET, 0x49, 0x49];
  }

  lemma NestedRenders()
    ensures Render(Tokens([ESC, BRACKET, ESC, BRACKET, 0x49, 0x49]), false) == GAINED
  {
    hide Tokens, Render;
    NestedTokens();
    RenderOne(Plain(ESC), false);
    RenderOne(Plain(BRACKET), false);
    RenderOne(Gain, false);
    RenderOne(Plain(0x49), false);
    RenderConcat([Plain(ESC)], [Plain(BRACKET)], false);
    RenderConcat([Plain(ESC)] + [Plain(BRACKET)], [Gain], false);
    RenderConcat([Plain(ESC)] + [Plain(BRACKET)] + [Gain], [Plain(0x49)], false);
    assert [Plain(ESC)] + [Plain(BRACKET)] + [Gain] + [Plain(0x49)]
        == [Plain(ESC), Plain(BRACKET), Gain, Plain(0x49)];
  }

  lemma NothingRendered(forward: bool)
    ensures Render([], forward) == [] && Gains([]) == 0
  {
  }

  lemma PartialHasNoToken(s: seq<Byte>)
    requires Partial(s)
    ensures Tokens(s) == [] && Rest(s) == s
  {
  }

  /** One turn of the scan, from its position in the input. */
  lemma ScanStep(s: seq<Byte>, offset: nat, done: seq<Token>, forward: bool)
    requires offset <= |s| && !Partial(s[offset..])
    requires Tokens(s) == done + Tokens(s[offset..]) && Rest(s) == Rest(s[offset..])
    ensures var h := Head(s[offset..]);
            && offset + Width(h) <= |s|
            && Tokens(s) == done + [h] + Tokens(s[offset + Width(h)..])
            && Rest(s) == Rest(s[offset + Width(h)..])
            && Render(done + [h], forward) == Render(done, forward) + TokenBytes(h, forward)
            && Gains(done + [h]) == Gains(done) + if h.Gain? then 1 else 0
  {
    hide Tokens, Rest, Render, Gains;
    var h := Head(s[offset..]);
    assert s[offset..][Width(h)..] == s[offset + Width(h)..];
    TokensStep(s[offset..]);
    RenderConcat(done, [h], forward);
    RenderOne(h, forward);
  }
}

module FocusInputFilter {
  import opened Basics
  import opened FocusReports

  const POLL_INTERVAL_MS: nat := 100
  const ESCAPE_DISAMBIGUATION_MS: nat := 10

  // The clock counts nanoseconds; waits are asked for in whole milliseconds.
  const MILLISECOND: nat := 1_000_000

  class FocusInput {
    var pending: seq<Byte>
    var pendingSince: Option<nat>

    ghost predicate Valid()
      reads this
    {
      Partial(pending) && (pendingSince.Some? <==> pending != [])
    }

    constructor ()
      ensures Valid() && pending == []
    {
      pending := [];
      pendingSince := None;
    }

    method Process(bytes: seq<Byte>, forward: bool, now: nat) returns (forwarded: seq<Byte>, gained: nat)
      modifies this
      ensures Valid()
      ensures forwarded == Render(Tokens(old(pending) + bytes), forward)
      ensures gained == Gains(Tokens(old(pending) + bytes))
      ensures pending == Rest(old(pending) + bytes)
      ensures pendingSince == if pending == [] then None else Some(now)
    {
      hide Tokens, Rest, Render, Gains;
      var combined := pending + bytes;
      pending, pendingSince := [], None;
      forwarded, gained := [], 0;
      var offset := 0;
      ghost var done: seq<Token> := [];
      PartialHasNoToken([]);
      NothingRendered(forward);
      while offset < |combined|
        invariant offset <= |combined|
        invariant pending == [] && pendingSince == None
        invariant Tokens(combined) == done + Tokens(combined[offset..])
        invariant Rest(combined) == Rest(combined[offset..])
        invariant forwarded == Render(done, forward) && gained == Gains(done)
      {
        var remaining := combined[offset..];
        if !Partial(remaining) {
          ScanStep(combined, offset, done, forward);
        }
        if StartsWith(remaining, 0x49) {
          gained := gained + 1;
          if forward {
            forwarded := forwarded + GAINED;
          }
          offset := offset + 3;
          done := done + [Gain];
        } else if StartsWith(remaining, 0x4F) {
          if forward {
            forwarded := forwarded + LOST;
          }
          offset := offset + 3;
          done := done + [Loss];
        } else if |remaining| < 3 && (remaining <= GAINED || remaining <= LOST) {
          PartialHasNoToken(remaining);
          pending := remaining;
          pendingSince := Some(now);
          break;
        } else {
          forwarded := forwarded + [combined[offset]];
          done := done + [Plain(combined[offset])];
          offset := offset + 1;
        }
      }
      assert pending == [] ==> combined[offset..] == [];
      assert done + [] == done;
      assert Tokens(combined) == done;
    }

    method FlushPending() returns (bytes: seq<Byte>)
      modifies this
      ensures Valid() && pending == [] && bytes == old(pending)
    {
      pendingSince := None;
      bytes := pending;
      pending := [];
    }

    /** How long to wait for input, in milliseconds. The wait never outlasts the held bytes'
        expiry; cut down to whole milliseconds, it may end just before, never by a whole one. */
    function PollTimeout(now: nat): (timeout: nat)
      reads this
      ensures timeout <= POLL_INTERVAL_MS
      ensures pendingSince.Some? && pendingSince.value <= now ==>
                && (timeout > 0 ==> now + timeout * MILLISECOND <= Expiry())
                && Expired(now + (timeout + 1) * MILLISECOND)
                && (Expired(now + timeout * MILLISECOND)
                    <==> Expired(now) || (now - pendingSince.value) % MILLISECOND == 0)
    {
      if pendingSince.None? then POLL_INTERVAL_MS
      else
        var elapsed := if now < pendingSince.value then 0 else now - pendingSince.value;
        var limit := ESCAPE_DISAMBIGUATION_MS * MILLISECOND;
        var remaining := if elapsed >= limit then 0 else limit - elapsed;
        if remaining / MILLISECOND < POLL_INTERVAL_MS then remaining / MILLISECOND else POLL_INTERVAL_MS
    }

    function Expiry(): nat
      requires pendingSince.Some?
      reads this
    {
      pendingSince.value + ESCAPE_DISAMBIGUATION_MS * MILLISECOND
    }

    predicate Expired(now: nat)
      reads this
    {
      pendingSince.Some? && now >= Expiry()
    }
  }
}
