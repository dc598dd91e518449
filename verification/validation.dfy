/** `validate`: one pass over the record with hash sets, against the plain statement IsValid. */
module Validation {
  import opened Basics
  import opened StoreTypes
  import opened StoreOps

  type Pair = (Id, Id)

  function PairsOf(pl: seq<Placement>): set<Pair> {
    set l | l in pl :: (l.node, l.ownerId)
  }

  function AllPairs(ws: seq<Workspace>): set<Pair> {
    if ws == [] then {} else AllPairs(ws[..|ws| - 1]) + PairsOf(ws[|ws| - 1].placements)
  }

  function IdsOf(ws: seq<Workspace>): set<Id> {
    set w | w in ws :: w.id
  }

  function NamesOf(ws: seq<Workspace>): set<string> {
    set w | w in ws :: w.name
  }

  lemma {:induction false} AllPairsMeaning(ws: seq<Workspace>, pair: Pair)
    ensures pair in AllPairs(ws) <==> exists w :: w in ws && PairIn(w.placements, pair.0, pair.1)
  {
    if ws != [] {
      var init, last := ws[..|ws| - 1], ws[|ws| - 1];
      AllPairsMeaning(init, pair);
      assert ws == init + [last];
      assert pair in PairsOf(last.placements) <==> PairIn(last.placements, pair.0, pair.1);
      assert last in ws;
    }
  }

  /** The i-th Workspace is acceptable after those before it. */
  predicate Joinable(ws: seq<Workspace>, w: Workspace) {
    && ValidWorkspace(w)
    && w.id !in IdsOf(ws)
    && w.name !in NamesOf(ws)
    && PairsDistinctWithin(w.placements)
    && AllPairs(ws) !! PairsOf(w.placements)
  }

  lemma UnsharedMeaning(ws: seq<Workspace>, w: Workspace)
    ensures AllPairs(ws) !! PairsOf(w.placements) <==> forall i :: 0 <= i < |ws| ==> !SharesPair(ws[i], w)
  {
    if i :| 0 <= i < |ws| && SharesPair(ws[i], w) {
      var l, m :| l in ws[i].placements && m in w.placements && l.node == m.node && l.ownerId == m.ownerId;
      AllPairsMeaning(ws, (m.node, m.ownerId));
      assert (m.node, m.ownerId) in AllPairs(ws) && (m.node, m.ownerId) in PairsOf(w.placements);
    } else {
      forall pair | pair in PairsOf(w.placements)
        ensures pair !in AllPairs(ws)
      {
        AllPairsMeaning(ws, pair);
      }
    }
  }

  lemma SeenMeaning(ws: seq<Workspace>, w: Workspace)
    ensures w.id in IdsOf(ws) <==> exists n :: 0 <= n < |ws| && ws[n].id == w.id
    ensures w.name in NamesOf(ws) <==> exists n :: 0 <= n < |ws| && ws[n].name == w.name
  {
    assert forall n :: 0 <= n < |ws| ==> ws[n] in ws;
  }

  lemma ValidPrefix(ws: seq<Workspace>, i: nat)
    requires i < |ws| && ValidWorkspaces(ws[..i])
    ensures ValidWorkspaces(ws[..i + 1]) <==> Joinable(ws[..i], ws[i])
  {
    var vs, w := ws[..i], ws[i];
    var us := ws[..i + 1];
    assert us[i] == w && forall n :: 0 <= n < i ==> us[n] == vs[n];
    UnsharedMeaning(vs, w);
    SeenMeaning(vs, w);
    hide ValidWorkspace, PairsDistinctWithin, SharesPair, AllPairs, PairsOf, IdsOf, NamesOf;
    if Joinable(vs, w) {
      forall a, b | 0 <= a < b < |us|
        ensures us[a].id != us[b].id && us[a].name != us[b].name && !SharesPair(us[a], us[b])
      {
        assert b < i ==> !SharesPair(vs[a], vs[b]);
      }
    }
    if ValidWorkspaces(us) {
      assert forall n :: 0 <= n < i ==> !SharesPair(us[n], us[i]);
    }
  }

  lemma InvalidPrefix(ws: seq<Workspace>, i: nat)
    requires i <= |ws| && ValidWorkspaces(ws)
    ensures ValidWorkspaces(ws[..i])
  {
    var vs := ws[..i];
    forall a, b | 0 <= a < b < i
      ensures !SharesPair(vs[a], vs[b])
    {
      assert !SharesPair(ws[a], ws[b]);
    }
  }

  lemma SetsOfPrefix(ws: seq<Workspace>, i: nat)
    requires i < |ws|
    ensures IdsOf(ws[..i + 1]) == IdsOf(ws[..i]) + {ws[i].id}
    ensures NamesOf(ws[..i + 1]) == NamesOf(ws[..i]) + {ws[i].name}
    ensures AllPairs(ws[..i + 1]) == AllPairs(ws[..i]) + PairsOf(ws[i].placements)
  {
    assert ws[..i + 1] == ws[..i] + [ws[i]] && ws[..i + 1][..i] == ws[..i];
  }

  lemma RejectedPrefix(ws: seq<Workspace>, i: nat)
    requires i < |ws| && ValidWorkspaces(ws[..i]) && !Joinable(ws[..i], ws[i])
    ensures !ValidWorkspaces(ws)
  {
    ValidPrefix(ws, i);
    if ValidWorkspaces(ws) {
      InvalidPrefix(ws, i + 1);
    }
  }

  /** Walks one Workspace's placements, adding each (Node, owner) pair to the set of owners seen. */
  method ValidatePlacements(w: Workspace, seen: set<Pair>) returns (ok: bool, owners: set<Pair>)
    ensures ok == (PairsDistinctWithin(w.placements) && seen !! PairsOf(w.placements) && ClosingConsistent(w))
    ensures ok ==> owners == seen + PairsOf(w.placements)
  {
    ok, owners := true, seen;
    for i := 0 to |w.placements|
      invariant owners == seen + PairsOf(w.placements[..i])
      invariant PairsDistinctWithin(w.placements[..i]) && seen !! PairsOf(w.placements[..i])
      invariant forall j :: 0 <= j < i ==> (w.closing <==> w.placements[j].state == ClosePending)
    {
      var l := w.placements[i];
      var pair := (l.node, l.ownerId);
      assert l in w.placements;
      assert w.placements[..i + 1] == w.placements[..i] + [l];
      if pair in owners {
        if pair in seen {
          assert pair in PairsOf(w.placements);
        } else {
          var m :| m in w.placements[..i] && (m.node, m.ownerId) == pair;
          var j :| 0 <= j < i && w.placements[j] == m;
        }
        return false, owners;
      }
      if w.closing != (l.state == ClosePending) {
        return false, owners;
      }
      assert PairsOf(w.placements[..i + 1]) == PairsOf(w.placements[..i]) + {pair};
      forall a, b | 0 <= a < b < i + 1
        ensures w.placements[a].node != w.placements[b].node || w.placements[a].ownerId != w.placements[b].ownerId
      {
        if b < i {
          assert w.placements[..i][a] == w.placements[a] && w.placements[..i][b] == w.placements[b];
        } else {
          assert w.placements[..i][a] in w.placements[..i];
        }
      }
      owners := owners + {pair};
    }
    assert w.placements[..|w.placements|] == w.placements;
  }

  method ValidateWorkspaces(ws: seq<Workspace>) returns (ok: bool, ids: set<Id>)
    ensures ok == ValidWorkspaces(ws)
    ensures ok ==> ids == IdsOf(ws)
  {
    var names: set<string>, owners: set<Pair> := {}, {};
    ok, ids := true, {};
    assert ws[..0] == [];
    for i := 0 to |ws|
      invariant ValidWorkspaces(ws[..i])
      invariant ids == IdsOf(ws[..i]) && names == NamesOf(ws[..i]) && owners == AllPairs(ws[..i])
    {
      hide ValidWorkspaces, AllPairs, IdsOf, NamesOf, PairsOf, ClosingConsistent, PairsDistinctWithin;
      var w := ws[i];
      ValidPrefix(ws, i);
      SetsOfPrefix(ws, i);
      if !ValidName(w.name) || w.revision == 0 || |w.placements| > MAX_PLACEMENTS || w.id in ids || w.name in names {
        RejectedPrefix(ws, i);
        return false, ids;
      }
      var distinct, more := ValidatePlacements(w, owners);
      if !distinct {
        RejectedPrefix(ws, i);
        return false, ids;
      }
      ids, names, owners := ids + {w.id}, names + {w.name}, more;
    }
    assert ws[..|ws|] == ws;
  }

  method ValidatePendings(ps: seq<Pending>, ws: seq<Workspace>, ids: set<Id>) returns (ok: bool, pending: set<Id>)
    requires ids == IdsOf(ws)
    ensures ok == ((forall i :: 0 <= i < |ps| ==> ValidPending(ps[i], ws)) && PendingsDistinct(ps))
    ensures ok ==> forall o :: o in pending <==> IsPending(ps, o)
  {
    ok, pending := true, {};
    for i := 0 to |ps|
      invariant forall j :: 0 <= j < i ==> ValidPending(ps[j], ws)
      invariant forall a, b :: 0 <= a < b < i ==> ps[a].operation != ps[b].operation
      invariant forall o :: o in pending <==> exists j :: 0 <= j < i && ps[j].operation == o
    {
      var p := ps[i];
      assert p.workspace in ids <==> Known(ws, p.workspace) by {
        if p.workspace in ids {
          var w :| w in ws && w.id == p.workspace;
        } else {
          assert forall k :: 0 <= k < |ws| ==> ws[k] in ws;
        }
      }
      if p.expectedRevision == 0 || p.workspace !in ids || p.operation in pending
         || p.reservation > MAX_COMPLETION_RESERVATION_BYTES || !ValidName(p.ownerName)
      {
        return false, pending;
      }
      pending := pending + {p.operation};
    }
  }

  method ValidateCompleted(cs: seq<Completed>, ps: seq<Pending>, pending: set<Id>)
    returns (ok: bool, completed: set<Id>)
    requires forall o :: o in pending <==> IsPending(ps, o)
    ensures ok == ((forall i :: 0 <= i < |cs| ==> ValidCompleted(cs[i], ps)) && CompletedDistinct(cs))
    ensures ok ==> forall o :: o in completed <==> IsCompleted(cs, o)
  {
    ok, completed := true, {};
    for i := 0 to |cs|
      invariant forall j :: 0 <= j < i ==> ValidCompleted(cs[j], ps)
      invariant forall a, b :: 0 <= a < b < i ==> cs[a].operation != cs[b].operation
      invariant forall o :: o in completed <==> exists j :: 0 <= j < i && cs[j].operation == o
    {
      var c := cs[i];
      if !RecordsOwner(c) || c.workspace.revision == 0 || |c.workspace.placements| > MAX_PLACEMENTS
         || c.operation in completed || c.operation in pending
      {
        return false, completed;
      }
      completed := completed + {c.operation};
    }
  }

  method ValidatePendingCwd(s: State, ids: set<Id>, pending: set<Id>, completed: set<Id>)
    returns (ok: bool, operations: set<Id>)
    requires ids == IdsOf(s.workspaces)
    requires forall o :: o in pending <==> IsPending(s.pendings, o)
    requires forall o :: o in completed <==> IsCompleted(s.completed, o)
    ensures ok == ValidPendingCwds(s)
    ensures ok ==> forall o :: o in operations <==> CwdIndex(s.pendingCwd, o) < |s.pendingCwd|
  {
    hide IsAbsolute, IsPending, IsCompleted;
    ok, operations := true, {};
    for i := 0 to |s.pendingCwd|
      invariant forall j :: 0 <= j < i ==> ValidPendingCwd(s.pendingCwd[j], s)
      invariant forall a, b :: 0 <= a < b < i ==> s.pendingCwd[a].operation != s.pendingCwd[b].operation
      invariant forall o :: o in operations <==> exists j :: 0 <= j < i && s.pendingCwd[j].operation == o
    {
      var d := s.pendingCwd[i];
      assert d.workspace in ids <==> Known(s.workspaces, d.workspace) by {
        if d.workspace in ids {
          var w :| w in s.workspaces && w.id == d.workspace;
        } else {
          assert forall k :: 0 <= k < |s.workspaces| ==> s.workspaces[k] in s.workspaces;
        }
      }
      if d.expectedRevision == 0 || d.expectedOwnerRevision == 0 || !IsAbsolute(d.cwd)
         || d.reservation != CWD_RESERVATION_BYTES || d.workspace !in ids || d.operation in pending
         || d.operation in completed || d.operation in operations
      {
        return false, operations;
      }
      operations := operations + {d.operation};
    }
  }

  method ValidateCompletedCwd(s: State, pending: set<Id>, completed: set<Id>, prepared: set<Id>) returns (ok: bool)
    requires forall o :: o in pending <==> IsPending(s.pendings, o)
    requires forall o :: o in completed <==> IsCompleted(s.completed, o)
    requires forall o :: o in prepared <==> CwdIndex(s.pendingCwd, o) < |s.pendingCwd|
    ensures ok == ValidCompletedCwds(s)
  {
    hide RevisionsAgree, IsAbsolute, IsPending, IsCompleted;
    var operations := prepared;
    for i := 0 to |s.completedCwd|
      invariant forall j :: 0 <= j < i ==> ValidCompletedCwd(s.completedCwd[j], s)
      invariant forall a, b :: 0 <= a < b < i
                  ==> s.completedCwd[a].request.operation != s.completedCwd[b].request.operation
      invariant forall o :: o in operations
                  <==> o in prepared || exists j :: 0 <= j < i && s.completedCwd[j].request.operation == o
    {
      var request, result := s.completedCwd[i].request, s.completedCwd[i].result;
      if request.expectedRevision == 0 || request.expectedOwnerRevision == 0 || !IsAbsolute(request.cwd)
         || request.reservation != 0 || result.workspace != request.workspace || result.node != request.node
         || result.owner != request.owner || result.cwd != request.cwd || !RevisionsAgree(s.completedCwd[i])
         || request.operation in pending || request.operation in completed || request.operation in operations
      {
        return false;
      }
      operations := operations + {request.operation};
    }
    return true;
  }

  /** The single pass accepts exactly the records that IsValid describes. */
  method Validate(s: State) returns (ok: bool)
    ensures ok == IsValid(s)
  {
    if |s.workspaces| > MAX_WORKSPACES || |s.pendings| > MAX_PENDING_RESOURCES
       || |s.completed| > MAX_COMPLETED_OPERATIONS || |s.pendingCwd| > MAX_PENDING_RESOURCES
       || |s.completedCwd| > MAX_COMPLETED_OPERATIONS
    {
      return false;
    }
    var workspacesValid, ids := ValidateWorkspaces(s.workspaces);
    if !workspacesValid {
      return false;
    }
    var pendingsValid, pending := ValidatePendings(s.pendings, s.workspaces, ids);
    if !pendingsValid {
      return false;
    }
    var completedValid, completed := ValidateCompleted(s.completed, s.pendings, pending);
    if !completedValid {
      return false;
    }
    var cwdValid, operations := ValidatePendingCwd(s, ids, pending, completed);
    if !cwdValid {
      return false;
    }
    ok := ValidateCompletedCwd(s, pending, completed, operations);
  }
}
