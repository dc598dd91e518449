/** The close protocol from its beginning to its end: confirmed placement by placement, in any
    order, a closing Workspace loses exactly what is confirmed and goes with the last. */
module Closing {
  import opened Basics
  import opened StoreTypes
  import opened Placements
  import opened StoreOps
  import opened StoreInvariant
  import opened StoreSteps
  import opened Lifecycle
  import opened Aliases

  // A placement's Node and owner.
  type Pair = (Id, Id)

  function PairOf(l: Placement): Pair {
    (l.node, l.ownerId)
  }

  function Confirms(id: Id, pairs: seq<Pair>): seq<Op> {
    seq(|pairs|, i requires 0 <= i < |pairs| => OpConfirmClosed(id, pairs[i].0, pairs[i].1))
  }

  predicate Distinct(pairs: seq<Pair>) {
    forall i, j :: 0 <= i < j < |pairs| ==> pairs[i] != pairs[j]
  }

  predicate Linked(w: Workspace, pair: Pair) {
    exists l :: l in w.placements && PairOf(l) == pair
  }

  predicate AllConfirmed(w: Workspace, pairs: seq<Pair>) {
    forall l :: l in w.placements ==> PairOf(l) in pairs
  }

  /** v is what is left of w: its unconfirmed placements, one revision further for each confirmed. */
  ghost predicate Remains(w: Workspace, v: Workspace, pairs: seq<Pair>) {
    && v.id == w.id && v.name == w.name && v.closing && v.revision == w.revision + |pairs|
    && forall l :: l in v.placements <==> l in w.placements && PairOf(l) !in pairs
  }

  lemma {:induction false} RetainLighter(pl: seq<Placement>, node: Id, owner: Id, x: Placement)
    requires x in pl && PairOf(x) == (node, owner)
    ensures SumBy(RetainOthers(pl, node, owner), PlacementBytes) + 2 <= SumBy(pl, PlacementBytes)
  {
    var init, last := pl[..|pl| - 1], pl[|pl| - 1];
    assert pl == init + [last];
    SumByAppend(init, last, PlacementBytes);
    SumByAppend(RetainOthers(init, node, owner), last, PlacementBytes);
    if x in init {
      RetainLighter(init, node, owner, x);
    } else {
      RetainNoHeavier(init, node, owner);
    }
  }

  lemma {:induction false} RetainNoHeavier(pl: seq<Placement>, node: Id, owner: Id)
    ensures SumBy(RetainOthers(pl, node, owner), PlacementBytes) <= SumBy(pl, PlacementBytes)
  {
    if pl != [] {
      var init, last := pl[..|pl| - 1], pl[|pl| - 1];
      assert pl == init + [last];
      SumByAppend(init, last, PlacementBytes);
      SumByAppend(RetainOthers(init, node, owner), last, PlacementBytes);
      RetainNoHeavier(init, node, owner);
    }
  }

  /** Confirming what is linked makes the store lighter, a longer revision included. */
  lemma ConfirmShrinks(s: State, id: Id, pair: Pair)
    requires Known(s.workspaces, id) && Linked(Lookup(s.workspaces, id), pair)
    requires ConfirmClosed(s, id, pair.0, pair.1).Success?
    ensures StoreBytes(ConfirmClosed(s, id, pair.0, pair.1).value.0) <= StoreBytes(s)
  {
    hide SumBy, PlacementBytes, PendingBytes, CompletedBytes, PendingCwdBytes, CompletedCwdBytes, RetainOthers;
    var k := WorkspaceIndex(s.workspaces, id);
    var w := s.workspaces[k];
    var kept := RetainOthers(w.placements, pair.0, pair.1);
    if kept == [] {
      SumByWithout(s.workspaces, k, WorkspaceBytes);
    } else {
      var x :| x in w.placements && PairOf(x) == pair;
      RetainLighter(w.placements, pair.0, pair.1, x);
      NextDigits(w.revision);
      SumByUpdate(s.workspaces, k, w.(placements := kept, revision := w.revision + 1), WorkspaceBytes);
    }
  }

  /** One confirmation of a linked placement always commits. */
  lemma ConfirmCommits(s: State, id: Id, pair: Pair)
    requires Sound(s) && Known(s.workspaces, id) && Lookup(s.workspaces, id).closing
    requires Linked(Lookup(s.workspaces, id), pair) && Lookup(s.workspaces, id).revision < U64_MAX
    ensures ConfirmClosed(s, id, pair.0, pair.1).Success?
    ensures Step(s, OpConfirmClosed(id, pair.0, pair.1)) == Success(ConfirmClosed(s, id, pair.0, pair.1).value.0)
  {
    hide IsValid, IsCoherent, StoreBytes, RetainOthers, Step, Linked;
    ConfirmClosedIsValid(s, id, pair.0, pair.1);
    ConfirmShrinks(s, id, pair);
    ValidCommits(s, OpConfirmClosed(id, pair.0, pair.1), ConfirmClosed(s, id, pair.0, pair.1).value.0);
  }

  lemma ConfirmLeaves(s: State, k: nat, w: Workspace, v: Workspace, pairs: seq<Pair>, pair: Pair)
    requires Sound(s) && k < |s.workspaces| && s.workspaces[k] == v && WorkspaceIndex(s.workspaces, v.id) == k
    requires v.closing && v.revision < U64_MAX && Remains(w, v, pairs)
    ensures var r := ConfirmClosed(s, v.id, pair.0, pair.1);
            && r.Success?
            && if AllConfirmed(w, pairs + [pair]) then r.value.0 == s.(workspaces := Without(s.workspaces, k))
               else
                 var u := v.(placements := RetainOthers(v.placements, pair.0, pair.1), revision := v.revision + 1);
                 r.value.0 == s.(workspaces := s.workspaces[k := u]) && Remains(w, u, pairs + [pair])
  {
    hide IsValid, IsCoherent, StoreBytes, RetainOthers, Without;
    PlacementsAreSorted(s, k);
    RetainMeaning(v.placements, pair.0, pair.1);
    var kept := RetainOthers(v.placements, pair.0, pair.1);
    if kept != [] {
      assert kept[0] in kept && PairOf(kept[0]) !in pairs + [pair];
    }
  }

  lemma ConfirmsInit(id: Id, pairs: seq<Pair>)
    requires pairs != []
    ensures var n := |pairs| - 1;
            Confirms(id, pairs)[..n] == Confirms(id, pairs[..n])
            && Confirms(id, pairs)[n] == OpConfirmClosed(id, pairs[n].0, pairs[n].1)
  {
  }

  /** Confirming distinct linked placements, in any order, always succeeds: what is confirmed
      is gone and all else stands; with the last placement the Workspace goes, and nothing else. */
  lemma {:induction false} ConfirmingCloses(s: State, id: Id, pairs: seq<Pair>)
    requires Sound(s) && Known(s.workspaces, id) && Lookup(s.workspaces, id).closing && Distinct(pairs)
    requires forall i :: 0 <= i < |pairs| ==> Linked(Lookup(s.workspaces, id), pairs[i])
    requires Lookup(s.workspaces, id).revision + |pairs| <= U64_MAX
    ensures var t, w, k := Run(s, Confirms(id, pairs)), Lookup(s.workspaces, id), WorkspaceIndex(s.workspaces, id);
            && Sound(t)
            && if pairs != [] && AllConfirmed(w, pairs) then t == s.(workspaces := Without(s.workspaces, k))
               else
                 && |t.workspaces| == |s.workspaces| && Remains(w, t.workspaces[k], pairs)
                 && t == s.(workspaces := s.workspaces[k := t.workspaces[k]])
    decreases |pairs|
  {
    hide Sound, Step, Linked, AllConfirmed, Remains;
    var w, k := Lookup(s.workspaces, id), WorkspaceIndex(s.workspaces, id);
    RunKeepsSound(s, Confirms(id, pairs));
    if pairs == [] {
      NothingConfirmed(w);
    } else {
      var n := |pairs| - 1;
      var init, pair := pairs[..n], pairs[n];
      ConfirmingCloses(s, id, init);
      ConfirmsInit(id, pairs);
      NotYetConfirmed(w, init, pair);
      assert pairs == init + [pair];
      ConfirmNext(s, Run(s, Confirms(id, init)), id, init, pair);
    }
  }

  /** One more confirmation of a Workspace that some were made of. */
  lemma ConfirmNext(s: State, t: State, id: Id, pairs: seq<Pair>, pair: Pair)
    requires Sound(t) && Known(s.workspaces, id) && |t.workspaces| == |s.workspaces|
    requires var w, k := Lookup(s.workspaces, id), WorkspaceIndex(s.workspaces, id);
             && w.closing && w.revision + |pairs| < U64_MAX && Linked(w, pair) && pair !in pairs
             && Remains(w, t.workspaces[k], pairs)
             && t == s.(workspaces := s.workspaces[k := t.workspaces[k]])
    ensures Step(t, OpConfirmClosed(id, pair.0, pair.1)).Success?
    ensures var u, w, k := Step(t, OpConfirmClosed(id, pair.0, pair.1)).value, Lookup(s.workspaces, id),
                           WorkspaceIndex(s.workspaces, id);
            if AllConfirmed(w, pairs + [pair]) then u == s.(workspaces := Without(s.workspaces, k))
            else
              && |u.workspaces| == |s.workspaces| && Remains(w, u.workspaces[k], pairs + [pair])
              && u == s.(workspaces := s.workspaces[k := u.workspaces[k]])
  {
    hide Sound, Step, Linked, AllConfirmed, Remains, ConfirmClosed;
    var w, k := Lookup(s.workspaces, id), WorkspaceIndex(s.workspaces, id);
    var v := t.workspaces[k];
    StillLinked(s.workspaces, k, w, v, pairs, pair);
    ConfirmCommits(t, id, pair);
    ConfirmLeaves(t, k, w, v, pairs, pair);
    assert Without(t.workspaces, k) == Without(s.workspaces, k);
  }

  lemma NothingConfirmed(w: Workspace)
    ensures w.closing ==> Remains(w, w, [])
  {
  }

  lemma NotYetConfirmed(w: Workspace, pairs: seq<Pair>, pair: Pair)
    requires Linked(w, pair) && pair !in pairs
    ensures !AllConfirmed(w, pairs)
  {
  }

  lemma StillLinked(ws: seq<Workspace>, k: nat, w: Workspace, v: Workspace, pairs: seq<Pair>, pair: Pair)
    requires k < |ws| && ws[k] == w && WorkspaceIndex(ws, w.id) == k
    requires Remains(w, v, pairs) && Linked(w, pair) && pair !in pairs
    ensures WorkspaceIndex(ws[k := v], w.id) == k && v.id == w.id && Linked(v, pair) && v.closing
    ensures v.revision == w.revision + |pairs|
  {
    var l :| l in w.placements && PairOf(l) == pair;
    assert l in v.placements;
    var vs := ws[k := v];
    assert vs[k].id == w.id && forall j :: 0 <= j < k ==> vs[j].id != w.id;
  }

  lemma CloseBegun(s: State, id: Id, expected: nat)
    requires IsCoherent(s) && BeginClose(s, id, expected).Success?
    ensures var t, w, k := BeginClose(s, id, expected).value.0, Lookup(s.workspaces, id),
                           WorkspaceIndex(s.workspaces, id);
            && Known(s.workspaces, id) && Known(t.workspaces, id) && WorkspaceIndex(t.workspaces, id) == k
            && var v := Lookup(t.workspaces, id);
               && v.closing && v.revision <= w.revision + 1
               && t == s.(workspaces := s.workspaces[k := v])
               && (forall pair :: Linked(v, pair) <==> Linked(w, pair))
  {
    hide HasPending, CloseAll, IsCoherent;
    var k := WorkspaceIndex(s.workspaces, id);
    var w, v := s.workspaces[k], BeginClose(s, id, expected).value.1;
    var vs := s.workspaces[k := v];
    assert vs[k].id == id && forall j :: 0 <= j < k ==> vs[j].id != id;
    forall pair
      ensures Linked(v, pair) <==> Linked(w, pair)
    {
      if Linked(w, pair) {
        var i :| 0 <= i < |w.placements| && PairOf(w.placements[i]) == pair;
        assert v.placements[i] in v.placements && PairOf(v.placements[i]) == pair;
      }
      if Linked(v, pair) {
        var i :| 0 <= i < |v.placements| && PairOf(v.placements[i]) == pair;
        assert w.placements[i] in w.placements && PairOf(w.placements[i]) == pair;
      }
    }
  }

  /** A close that began and was confirmed by every owner, in any order, has removed the
      Workspace and changed nothing else. */
  lemma CloseRemoves(s: State, id: Id, expected: nat, pairs: seq<Pair>)
    requires Sound(s) && Step(s, OpBeginClose(id, expected)).Success?
    requires Known(s.workspaces, id) && Distinct(pairs) && pairs != []
    requires forall pair :: pair in pairs <==> Linked(Lookup(s.workspaces, id), pair)
    requires Lookup(s.workspaces, id).revision + 1 + |pairs| <= U64_MAX
    ensures Run(s, [OpBeginClose(id, expected)] + Confirms(id, pairs))
            == s.(workspaces := Without(s.workspaces, WorkspaceIndex(s.workspaces, id)))
  {
    hide Sound, Step, BeginClose, Linked;
    var begin := OpBeginClose(id, expected);
    var t := Step(s, begin).value;
    BegunSound(s, id, expected);
    assert [begin][..0] == [];
    assert Run(s, []) == s && Run(s, [begin]) == t;
    RunConcat(s, [begin], Confirms(id, pairs));
    ConfirmingCloses(t, id, pairs);
    EveryPairConfirmed(Lookup(t.workspaces, id), pairs);
    var k := WorkspaceIndex(s.workspaces, id);
    assert Without(t.workspaces, k) == Without(s.workspaces, k);
  }

  lemma BegunSound(s: State, id: Id, expected: nat)
    requires Sound(s) && Step(s, OpBeginClose(id, expected)).Success?
    ensures BeginClose(s, id, expected).Success?
    ensures var t := Step(s, OpBeginClose(id, expected)).value;
            t == BeginClose(s, id, expected).value.0 && Sound(t)
    ensures var t, w, k := Step(s, OpBeginClose(id, expected)).value, Lookup(s.workspaces, id),
                           WorkspaceIndex(s.workspaces, id);
            && Known(s.workspaces, id) && Known(t.workspaces, id) && WorkspaceIndex(t.workspaces, id) == k
            && var v := Lookup(t.workspaces, id);
               && v.closing && v.revision <= w.revision + 1
               && t == s.(workspaces := s.workspaces[k := v])
               && (forall pair :: Linked(v, pair) <==> Linked(w, pair))
  {
    hide IsValid, IsCoherent, StoreBytes, BeginClose, Step, Linked;
    StepKeepsSound(s, OpBeginClose(id, expected));
    CloseBegun(s, id, expected);
  }

  lemma EveryPairConfirmed(w: Workspace, pairs: seq<Pair>)
    requires forall pair :: pair in pairs <==> Linked(w, pair)
    ensures AllConfirmed(w, pairs)
  {
    forall l | l in w.placements
      ensures PairOf(l) in pairs
    {
      assert Linked(w, PairOf(l));
    }
  }
}
