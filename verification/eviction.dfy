/** The eviction loops: what they may drop, and what they leave alone. */
module Eviction {
  import opened Basics
  import opened StoreTypes
  import opened StoreOps

  /** b is what is left of a after dropping some of its oldest entries. */
  predicate IsSuffix<T(==)>(b: seq<T>, a: seq<T>) {
    |b| <= |a| && b == a[|a| - |b|..]
  }

  lemma SuffixOfTail<T>(b: seq<T>, a: seq<T>)
    requires a != [] && IsSuffix(b, a[1..])
    ensures IsSuffix(b, a)
  {
    assert a[1..][|a| - 1 - |b|..] == a[|a| - |b|..];
  }

  /** Only the completed ledgers differ, each by its oldest entries. */
  predicate OnlyEvicts(s: State, s': State) {
    && s'.workspaces == s.workspaces
    && s'.pendings == s.pendings
    && s'.pendingCwd == s.pendingCwd
    && s'.migrated == s.migrated
    && IsSuffix(s'.completed, s.completed)
    && IsSuffix(s'.completedCwd, s.completedCwd)
  }

  predicate OverLimit(s: State) {
    |s.completed| > MAX_COMPLETED_OPERATIONS || StoreBytes(s) > MAX_STORE_BYTES
  }

  /** The state with only its n newest completed operations left. */
  function Latest(s: State, n: nat): State
    requires n <= |s.completed|
  {
    s.(completed := s.completed[|s.completed| - n..])
  }

  lemma LatestOfTail(s: State, n: nat)
    requires n < |s.completed|
    ensures Latest(s.(completed := s.completed[1..]), n) == Latest(s, n)
  {
    assert s.completed[1..][|s.completed| - 1 - n..] == s.completed[|s.completed| - n..];
  }

  lemma LatestAll(s: State)
    ensures Latest(s, |s.completed|) == s
  {
    assert s.completed[0..] == s.completed;
  }

  /** Eviction at completion drops oldest entries of one ledger and never the newest
      one, and stops at the first state within both limits. */
  lemma {:induction false} EvictCompletedKeepsNewest(s: State)
    requires s.completed != [] && EvictCompleted(s).Success?
    ensures var s' := EvictCompleted(s).value;
            && 0 < |s'.completed| <= |s.completed|
            && s' == Latest(s, |s'.completed|)
            && !OverLimit(s')
            && (|s'.completed| < |s.completed| ==> OverLimit(Latest(s, |s'.completed| + 1)))
    decreases |s.completed|
  {
    LatestAll(s);
    if OverLimit(s) {
      var t := s.(completed := s.completed[1..]);
      EvictCompletedKeepsNewest(t);
      var n := |EvictCompleted(t).value.completed|;
      LatestOfTail(s, n);
      if n + 1 < |s.completed| {
        LatestOfTail(s, n + 1);
      }
    }
  }

  /** It fails exactly when the newest entry alone does not fit. */
  lemma {:induction false} EvictCompletedFails(s: State)
    requires s.completed != []
    ensures EvictCompleted(s).Failure? <==> StoreBytes(Latest(s, 1)) > MAX_STORE_BYTES
    decreases |s.completed|
  {
    LatestAll(s);
    LatestIsLightest(s);
    if OverLimit(s) && |s.completed| > 1 {
      LatestOfTail(s, 1);
      EvictCompletedFails(s.(completed := s.completed[1..]));
    }
  }

  lemma LatestIsLightest(s: State)
    requires s.completed != []
    ensures StoreBytes(Latest(s, 1)) <= StoreBytes(s)
  {
    var n := |s.completed| - 1;
    assert s.completed == s.completed[..n] + s.completed[n..];
    SumByConcat(s.completed[..n], s.completed[n..], CompletedBytes);
  }

  lemma {:induction false} EvictCompletedError(s: State)
    ensures EvictCompleted(s).Failure? ==> EvictCompleted(s).error == StoreFull
    decreases |s.completed|
  {
    if |s.completed| > 1 {
      EvictCompletedError(s.(completed := s.completed[1..]));
    }
  }

  function Bare(s: State): State {
    s.(completed := [], completedCwd := [])
  }

  lemma BareIsLightest(s: State)
    ensures StoreBytes(Bare(s)) <= StoreBytes(s)
  {
  }

  /** Compaction drops completed resources first and completed cwd operations only
      when none is left; it fails only when what is pending alone does not fit. */
  lemma {:induction false} CompactMeaning(s: State)
    ensures Compact(s).Success? ==>
              var s' := Compact(s).value;
              && OnlyEvicts(s, s') && StoreBytes(s') <= MAX_STORE_BYTES
              && (|s'.completedCwd| < |s.completedCwd| ==> s'.completed == [])
    ensures Compact(s).Failure? <==> StoreBytes(Bare(s)) > MAX_STORE_BYTES
    decreases |s.completed| + |s.completedCwd|
  {
    hide StoreBytes, OnlyEvicts;
    BareIsLightest(s);
    EvictsNothing(s);
    if StoreBytes(s) > MAX_STORE_BYTES {
      if s.completed != [] {
        var t := s.(completed := s.completed[1..]);
        CompactMeaning(t);
        assert Bare(t) == Bare(s);
        if Compact(t).Success? {
          EvictsOneMore(s, t, Compact(t).value);
        }
      } else if s.completedCwd != [] {
        var t := s.(completedCwd := s.completedCwd[1..]);
        CompactMeaning(t);
        assert Bare(t) == Bare(s);
        if Compact(t).Success? {
          EvictsOneMore(s, t, Compact(t).value);
        }
      } else {
        assert Bare(s) == s;
      }
    }
  }

  lemma EvictsNothing(s: State)
    ensures OnlyEvicts(s, s)
  {
  }

  /** One oldest record dropped, then others. */
  lemma EvictsOneMore(s: State, t: State, u: State)
    requires OnlyEvicts(t, u)
    requires || (s.completed != [] && t == s.(completed := s.completed[1..]))
             || (s.completedCwd != [] && t == s.(completedCwd := s.completedCwd[1..]))
    ensures OnlyEvicts(s, u)
    ensures u.completed == [] <== t.completed == []
  {
    if s.completed != [] && t == s.(completed := s.completed[1..]) {
      SuffixOfTail(u.completed, s.completed);
    } else {
      SuffixOfTail(u.completedCwd, s.completedCwd);
    }
  }

  /** The store with nothing completed but the latest directory record. */
  function OnlyLatestCwd(s: State): State
    requires s.completedCwd != []
  {
    s.(completed := [], completedCwd := [s.completedCwd[|s.completedCwd| - 1]])
  }

  /** The latest directory record is the last to be dropped: only when what is pending and
      that record alone do not fit. */
  lemma {:induction false} LatestCwdKeptIff(s: State)
    requires s.completedCwd != [] && Compact(s).Success?
    ensures Compact(s).value.completedCwd != [] <==> StoreBytes(OnlyLatestCwd(s)) <= MAX_STORE_BYTES
    decreases |s.completed| + |s.completedCwd|
  {
    hide StoreBytes;
    LatestCwdIsLighter(s);
    if StoreBytes(s) > MAX_STORE_BYTES {
      if s.completed != [] {
        LatestCwdKeptIff(s.(completed := s.completed[1..]));
      } else if |s.completedCwd| > 1 {
        LatestCwdKeptIff(s.(completedCwd := s.completedCwd[1..]));
      } else {
        assert s == OnlyLatestCwd(s);
        CompactMeaning(s.(completedCwd := s.completedCwd[1..]));
      }
    }
  }

  lemma LatestCwdIsLighter(s: State)
    requires s.completedCwd != []
    ensures StoreBytes(OnlyLatestCwd(s)) <= StoreBytes(s)
  {
    hide CompletedCwdBytes, CompletedBytes, WorkspaceBytes, PendingBytes, PendingCwdBytes;
    var es := s.completedCwd;
    var init, last := es[..|es| - 1], es[|es| - 1];
    assert es == init + [last];
    SumByAppend(init, last, CompletedCwdBytes);
    assert [last][1..] == [];
    assert SumBy([last], CompletedCwdBytes) == CompletedCwdBytes(last) + SumBy([], CompletedCwdBytes);
    assert SumBy<Completed>([], CompletedBytes) == 0;
  }

  lemma CompactKeeps(s: State)
    requires Compact(s).Success?
    ensures OnlyEvicts(s, Compact(s).value) && StoreBytes(Compact(s).value) <= MAX_STORE_BYTES
  {
    CompactMeaning(s);
  }

  /** Keeping the n newest only evicts, and keeps the newest of all. */
  lemma LatestOnlyEvicts(t: State, n: nat)
    requires 0 < n <= |t.completed|
    ensures var l := Latest(t, n);
            && OnlyEvicts(t, l) && l.completedCwd == t.completedCwd
            && |l.completed| == n && l.completed[n - 1] == t.completed[|t.completed| - 1]
  {
  }

  lemma WithinLimits(s: State)
    requires !OverLimit(s)
    ensures |s.completed| <= MAX_COMPLETED_OPERATIONS && StoreBytes(s) <= MAX_STORE_BYTES
  {
    hide StoreBytes;
  }

  lemma EvictionMeaning(t: State)
    requires t.completed != [] && EvictCompleted(t).Success?
    ensures var s' := EvictCompleted(t).value;
            && OnlyEvicts(t, s') && s'.completedCwd == t.completedCwd
            && s'.completed != [] && s'.completed[|s'.completed| - 1] == t.completed[|t.completed| - 1]
            && |s'.completed| <= MAX_COMPLETED_OPERATIONS && StoreBytes(s') <= MAX_STORE_BYTES
  {
    hide StoreBytes, OverLimit, OnlyEvicts, Latest, EvictCompleted;
    EvictCompletedKeepsNewest(t);
    var s' := EvictCompleted(t).value;
    LatestOnlyEvicts(t, |s'.completed|);
    WithinLimits(s');
  }

  /** Recording a completion never loses that completion. */
  lemma PushCompletedMeaning(s: State, c: Completed)
    ensures PushCompleted(s, c).Success? ==>
              var s' := PushCompleted(s, c).value;
              && (if IsCompleted(s.completed, c.operation) then s' == s && c in s.completed
                  else
                    && OnlyEvicts(s.(completed := s.completed + [c]), s')
                    && s'.completedCwd == s.completedCwd
                    && s'.completed != [] && s'.completed[|s'.completed| - 1] == c
                    && |s'.completed| <= MAX_COMPLETED_OPERATIONS
                    && StoreBytes(s') <= MAX_STORE_BYTES)
  {
    hide StoreBytes, EvictCompleted, OnlyEvicts;
    if IsCompleted(s.completed, c.operation) {
      assert s.completed[CompletedIndex(s.completed, c.operation)] in s.completed;
    } else {
      var t := s.(completed := s.completed + [c]);
      if EvictCompleted(t).Success? {
        EvictionMeaning(t);
      }
    }
  }
}
