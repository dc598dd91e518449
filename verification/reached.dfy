/** What holds in every state that calls can reach, without the words of the validator. */
module Reached {
  import opened Basics
  import opened StoreTypes
  import opened StoreOps
  import opened StoreInvariant
  import opened StoreSteps

  /** Workspaces: told apart by id and by name, properly named, marked closing exactly where
      their placements are, and never two holding one owner Workspace of one Node. */
  lemma ReachedWorkspaces(ops: seq<Op>)
    ensures var ws := Run(EMPTY, ops).workspaces;
            && |ws| <= 1024
            && (forall i, j :: 0 <= i < j < |ws| ==> ws[i].id != ws[j].id)
            && (forall i, j :: 0 <= i < j < |ws| ==> ws[i].name != ws[j].name)
            && (forall i :: 0 <= i < |ws| ==> ws[i].revision > 0 && |ws[i].placements| <= 128)
            && (forall i :: 0 <= i < |ws| ==>
                  && ws[i].name != "" && TextBytes(ws[i].name) <= 256
                  && forall c :: c in ws[i].name ==> c as int >= 0x20 && !(0x7F <= c as int < 0xA0))
            && (forall i, l :: 0 <= i < |ws| && l in ws[i].placements ==>
                  (l.state == ClosePending <==> ws[i].closing))
            && (forall i, j, l, m ::
                  (0 <= i < |ws| && 0 <= j < |ws| && l in ws[i].placements && m in ws[j].placements
                   && l.node == m.node && l.ownerId == m.ownerId) ==> i == j && l == m)
  {
    hide Run, TextBytes, ValidWorkspace, PairsDistinct;
    var s := ReachedIsValid(ops);
    NoPairTwice(s.workspaces);
    Marked(s.workspaces);
    NamesAreProper(s.workspaces);
  }

  lemma ReachedIsValid(ops: seq<Op>) returns (s: State)
    ensures s == Run(EMPTY, ops) && WithinCounts(s) && ValidWorkspaces(s.workspaces) && ValidPendings(s)
    ensures ValidCompletions(s) && ValidPendingCwds(s) && ValidCompletedCwds(s)
    ensures StoreBytes(s) <= 1024 * 1024
  {
    hide Run, StoreBytes, IsCoherent, ValidWorkspaces, ValidPendings, ValidCompletions, ValidPendingCwds,
         ValidCompletedCwds;
    EveryRunIsSound(ops);
    s := Run(EMPTY, ops);
  }

  lemma Shared(v: Workspace, w: Workspace, l: Placement, m: Placement)
    requires l in v.placements && m in w.placements && l.node == m.node && l.ownerId == m.ownerId
    ensures SharesPair(v, w)
  {
  }

  lemma OnceWithin(pl: seq<Placement>, l: Placement, m: Placement)
    requires PairsDistinctWithin(pl) && l in pl && m in pl && l.node == m.node && l.ownerId == m.ownerId
    ensures l == m
  {
    var a :| 0 <= a < |pl| && pl[a] == l;
    var b :| 0 <= b < |pl| && pl[b] == m;
  }

  lemma PairIsOnce(ws: seq<Workspace>, i: nat, j: nat, l: Placement, m: Placement)
    requires PairsDistinct(ws) && i < |ws| && j < |ws| && l in ws[i].placements && m in ws[j].placements
    requires l.node == m.node && l.ownerId == m.ownerId
    ensures i == j && l == m
  {
    hide SharesPair, PairsDistinctWithin;
    Shared(ws[i], ws[j], l, m);
    Shared(ws[j], ws[i], m, l);
    if i == j {
      OnceWithin(ws[i].placements, l, m);
    }
  }

  lemma NoPairTwice(ws: seq<Workspace>)
    requires PairsDistinct(ws)
    ensures forall i, j, l, m ::
              (0 <= i < |ws| && 0 <= j < |ws| && l in ws[i].placements && m in ws[j].placements
               && l.node == m.node && l.ownerId == m.ownerId) ==> i == j && l == m
  {
    hide PairsDistinct;
    forall i, j, l, m | 0 <= i < |ws| && 0 <= j < |ws| && l in ws[i].placements && m in ws[j].placements
                        && l.node == m.node && l.ownerId == m.ownerId
      ensures i == j && l == m
    {
      PairIsOnce(ws, i, j, l, m);
    }
  }

  lemma Marked(ws: seq<Workspace>)
    requires forall i :: 0 <= i < |ws| ==> ValidWorkspace(ws[i])
    ensures forall i, l :: 0 <= i < |ws| && l in ws[i].placements ==> (l.state == ClosePending <==> ws[i].closing)
    ensures forall i :: 0 <= i < |ws| ==> ws[i].revision > 0 && |ws[i].placements| <= 128
  {
    hide ValidName;
  }

  lemma NamesAreProper(ws: seq<Workspace>)
    requires ValidWorkspaces(ws)
    ensures forall i :: 0 <= i < |ws| ==>
              && ws[i].name != "" && TextBytes(ws[i].name) <= 256
              && forall c :: c in ws[i].name ==> c as int >= 0x20 && !(0x7F <= c as int < 0xA0)
  {
    hide TextBytes, IdsDistinct, NamesDistinct, PairsDistinct;
    forall i, c | 0 <= i < |ws| && c in ws[i].name
      ensures c as int >= 0x20 && !(0x7F <= c as int < 0xA0)
    {
      assert ValidWorkspace(ws[i]);
      var k :| 0 <= k < |ws[i].name| && ws[i].name[k] == c;
      assert !IsControl(ws[i].name[k]);
    }
  }

  /** Resource operations: no id twice, each pending one for a Workspace that is there and with
      no more reserved than may be, each record naming an owner placed in the Workspace recorded. */
  lemma ReachedResources(ops: seq<Op>)
    ensures var s := Run(EMPTY, ops);
            && |s.pendings| <= 1024 && |s.completed| <= 256 && StoreBytes(s) <= 1024 * 1024
            && (forall i, j :: 0 <= i < j < |s.pendings| ==> s.pendings[i].operation != s.pendings[j].operation)
            && (forall i, j :: 0 <= i < j < |s.completed| ==> s.completed[i].operation != s.completed[j].operation)
            && (forall i :: 0 <= i < |s.pendings| ==>
                  var p := s.pendings[i];
                  && p.expectedRevision > 0 && p.reservation <= 768 * 1024 && p.ownerName != ""
                  && exists w :: w in s.workspaces && w.id == p.workspace)
            && (forall i :: 0 <= i < |s.completed| ==>
                  var c := s.completed[i];
                  && c.workspace.revision > 0 && !c.resource.OtherResult?
                  && exists l :: l in c.workspace.placements && l.ownerId == c.resource.ownerId)
  {
    hide Run, StoreBytes, ValidWorkspaces, ValidPendingCwds, ValidCompletedCwds, TextBytes;
    var s := ReachedIsValid(ops);
    forall i | 0 <= i < |s.pendings|
      ensures exists w :: w in s.workspaces && w.id == s.pendings[i].workspace
    {
      assert ValidPending(s.pendings[i], s.workspaces);
      var k := WorkspaceIndex(s.workspaces, s.pendings[i].workspace);
      assert s.workspaces[k] in s.workspaces;
    }
    forall i | 0 <= i < |s.completed|
      ensures exists l :: l in s.completed[i].workspace.placements && l.ownerId == s.completed[i].resource.ownerId
    {
      assert ValidCompleted(s.completed[i], s.pendings);
    }
  }

  /** Directory changes: no id twice, each pending one absolute and with its padding, each record
      answering its request, unchanged at equal revisions or updated with both one up. */
  lemma ReachedDirectories(ops: seq<Op>)
    ensures var s := Run(EMPTY, ops);
            && |s.pendingCwd| <= 1024 && |s.completedCwd| <= 256
            && (forall i, j :: 0 <= i < j < |s.pendingCwd| ==> s.pendingCwd[i].operation != s.pendingCwd[j].operation)
            && (forall i, j :: 0 <= i < j < |s.completedCwd| ==>
                  s.completedCwd[i].request.operation != s.completedCwd[j].request.operation)
            && (forall i :: 0 <= i < |s.pendingCwd| ==>
                  var d := s.pendingCwd[i];
                  && d.expectedRevision > 0 && d.expectedOwnerRevision > 0 && d.cwd != "" && d.cwd[0] == '/'
                  && d.reservation == 8 * 1024)
            && (forall i :: 0 <= i < |s.completedCwd| ==>
                  var d, r := s.completedCwd[i].request, s.completedCwd[i].result;
                  var step := if r.outcome == Updated then 1 else 0;
                  && r.workspace == d.workspace && r.node == d.node && r.owner == d.owner && r.cwd == d.cwd
                  && d.reservation == 0 && r.globalRevision == d.expectedRevision + step
                  && r.ownerRevision == d.expectedOwnerRevision + step)
  {
    hide Run, StoreBytes, ValidWorkspaces, ValidPendings, ValidCompletions;
    var s := ReachedIsValid(ops);
    forall i | 0 <= i < |s.completedCwd|
      ensures ValidCompletedCwd(s.completedCwd[i], s)
    {
    }
    forall i | 0 <= i < |s.pendingCwd|
      ensures ValidPendingCwd(s.pendingCwd[i], s)
    {
    }
  }
}
