/** Placements of one Workspace: kept strictly sorted by Node, one entry a Node. */
module Placements {
  import opened Basics
  import opened StoreTypes

  /** Strictly increasing Node ids, hence at most one placement a Node. */
  predicate Sorted(pl: seq<Placement>) {
    forall i, j :: 0 <= i < j < |pl| ==> pl[i].node < pl[j].node
  }

  predicate HasNode(pl: seq<Placement>, node: Id) {
    PlacementIndex(pl, node) < |pl|
  }

  /** Stable insertion by Node id. */
  function InsertByNode(pl: seq<Placement>, x: Placement): (r: seq<Placement>)
    ensures |r| == |pl| + 1
  {
    if pl == [] then [x]
    else if x.node < pl[|pl| - 1].node then InsertByNode(pl[..|pl| - 1], x) + [pl[|pl| - 1]]
    else pl + [x]
  }

  /** `sort_by` on the Node id: a stable sort. */
  function SortByNode(pl: seq<Placement>): (r: seq<Placement>)
    ensures |r| == |pl|
  {
    if pl == [] then [] else InsertByNode(SortByNode(pl[..|pl| - 1]), pl[|pl| - 1])
  }

  /** Overwrites the placement on x's Node, or pushes x and sorts. */
  function PlaceAt(pl: seq<Placement>, x: Placement): seq<Placement> {
    var i := PlacementIndex(pl, x.node);
    if i < |pl| then pl[i := x] else SortByNode(pl + [x])
  }

  lemma {:induction false} SortOfSorted(pl: seq<Placement>)
    requires Sorted(pl)
    ensures SortByNode(pl) == pl
  {
    if pl != [] {
      var init := pl[..|pl| - 1];
      SortOfSorted(init);
      assert init + [pl[|pl| - 1]] == pl;
    }
  }

  lemma {:induction false} InsertElements(pl: seq<Placement>, x: Placement)
    ensures forall y :: y in InsertByNode(pl, x) <==> y == x || y in pl
    ensures SumBy(InsertByNode(pl, x), PlacementBytes) == SumBy(pl, PlacementBytes) + PlacementBytes(x)
  {
    if pl != [] && x.node < pl[|pl| - 1].node {
      var init, last := pl[..|pl| - 1], pl[|pl| - 1];
      InsertElements(init, x);
      assert pl == init + [last];
      SumByAppend(init, last, PlacementBytes);
      SumByAppend(InsertByNode(init, x), last, PlacementBytes);
    } else if pl != [] {
      SumByAppend(pl, x, PlacementBytes);
    }
  }

  lemma {:induction false} InsertKeepsSorted(pl: seq<Placement>, x: Placement)
    requires Sorted(pl)
    requires forall i :: 0 <= i < |pl| ==> pl[i].node != x.node
    ensures Sorted(InsertByNode(pl, x))
  {
    if pl != [] && x.node < pl[|pl| - 1].node {
      var init, last := pl[..|pl| - 1], pl[|pl| - 1];
      InsertKeepsSorted(init, x);
      InsertElements(init, x);
      var inserted := InsertByNode(init, x);
      forall i | 0 <= i < |inserted|
        ensures inserted[i].node < last.node
      {
        assert inserted[i] in inserted;
      }
    }
  }

  lemma PushAndSort(pl: seq<Placement>, x: Placement)
    requires Sorted(pl)
    ensures SortByNode(pl + [x]) == InsertByNode(pl, x)
  {
    SortOfSorted(pl);
    assert (pl + [x])[..|pl|] == pl;
  }

  /** What placing does: sorted again, exactly x on x's Node, every other Node untouched. */
  lemma PlaceAtMeaning(pl: seq<Placement>, x: Placement)
    requires Sorted(pl)
    ensures Sorted(PlaceAt(pl, x))
    ensures forall y :: y in PlaceAt(pl, x) <==> y == x || (y in pl && y.node != x.node)
    ensures |PlaceAt(pl, x)| == |pl| + (if HasNode(pl, x.node) then 0 else 1)
  {
    var i := PlacementIndex(pl, x.node);
    if i < |pl| {
      var r := pl[i := x];
      forall y | y in pl && y.node != x.node
        ensures y in r
      {
        var k :| 0 <= k < |pl| && pl[k] == y;
        assert r[k] == y;
      }
      assert r[i] == x;
    } else {
      PushAndSort(pl, x);
      InsertKeepsSorted(pl, x);
      InsertElements(pl, x);
    }
  }

  lemma SameHead(a: seq<Placement>, b: seq<Placement>)
    requires Sorted(a) && Sorted(b) && a != [] && b != []
    requires a[0] in b && b[0] in a
    ensures a[0] == b[0]
  {
    var i :| 0 <= i < |b| && b[i] == a[0];
    var j :| 0 <= j < |a| && a[j] == b[0];
  }

  lemma InTail(a: seq<Placement>, y: Placement)
    requires Sorted(a) && a != []
    ensures y in a[1..] <==> y in a && y != a[0]
  {
    if y in a && y != a[0] {
      var k :| 0 <= k < |a| && a[k] == y;
      assert a[1..][k - 1] == y;
    }
  }

  /** Two sorted lists with the same elements are the same list. */
  lemma {:induction false} SortedExtensional(a: seq<Placement>, b: seq<Placement>)
    requires Sorted(a) && Sorted(b)
    requires forall y :: y in a <==> y in b
    ensures a == b
  {
    if a != [] {
      assert a[0] in a;
    }
    if b != [] {
      assert b[0] in b;
    }
    if a != [] && b != [] {
      SameHead(a, b);
      forall y
        ensures y in a[1..] <==> y in b[1..]
      {
        InTail(a, y);
        InTail(b, y);
      }
      SortedExtensional(a[1..], b[1..]);
      assert a == [a[0]] + a[1..] && b == [b[0]] + b[1..];
    }
  }

  lemma PlaceAtBytes(pl: seq<Placement>, x: Placement)
    requires Sorted(pl)
    ensures var i := PlacementIndex(pl, x.node);
            SumBy(PlaceAt(pl, x), PlacementBytes) + (if i < |pl| then PlacementBytes(pl[i]) else 0)
            == SumBy(pl, PlacementBytes) + PlacementBytes(x)
  {
    var i := PlacementIndex(pl, x.node);
    if i < |pl| {
      SumByUpdate(pl, i, x, PlacementBytes);
    } else {
      PushAndSort(pl, x);
      InsertKeepsSorted(pl, x);
      InsertElements(pl, x);
    }
  }

  lemma HasNodeMeaning(pl: seq<Placement>, node: Id)
    ensures HasNode(pl, node) <==> exists y :: y in pl && y.node == node
  {
    var i := PlacementIndex(pl, node);
    if i < |pl| {
      assert pl[i] in pl;
    }
  }
}
