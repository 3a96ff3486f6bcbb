/** The counts of one alias's listing as sizes of sets, so that they no longer depend on the order in
  * which the engine lists edges. */
module MergeSets {
  import opened Common
  import opened PropertyGraph
  import opened Store
  import opened MergeEdges
  import opened MergeCounts
  import opened Corrections

  /** The complete rows whose hop on one side is the entity. */
  ghost function OnSide(g: Graph, entity: Uuid, side: Side): set<Uuid> {
    set rn | rn in g.edges && g.Complete(rn) && g.Hop(rn, side) == Some(entity)
  }

  function RowOf(g: Graph, rn: Uuid): FullEdge
    requires rn in g.edges && g.Complete(rn)
  {
    FullEdge(rn, g.src[rn], g.dst[rn], g.edges[rn])
  }

  ghost predicate Rows(g: Graph, rows: set<Uuid>) {
    forall rn <- rows :: rn in g.edges && g.Complete(rn)
  }

  /** The rows for which the loop takes that branch. */
  ghost function Acting(g: Graph, m: Merge, rows: set<Uuid>, act: Action): set<Uuid>
    requires Rows(g, rows)
  {
    set rn | rn in rows && Decide(g, m, RowOf(g, rn)) == act
  }

  ghost function CountsOver(g: Graph, m: Merge, rows: set<Uuid>): Counts
    requires Rows(g, rows)
  {
    Counts(|Acting(g, m, rows, Rewrite)|, |Acting(g, m, rows, Deduplicate)|, |Acting(g, m, rows, SkipForeign)|)
  }

  ghost predicate HalfOf(g: Graph, half: seq<FullEdge>) {
    && (forall i :: 0 <= i < |half| ==> Snapshot(g, half[i]))
    && (forall i, j :: 0 <= i < j < |half| ==> half[i].uuid != half[j].uuid)
  }

  lemma VisitedRows(g: Graph, half: seq<FullEdge>)
    requires HalfOf(g, half)
    ensures Rows(g, Visited(half))
  {
    forall e <- half
      ensures e.uuid in g.edges && g.Complete(e.uuid)
    {
      var i :| 0 <= i < |half| && half[i] == e;
    }
  }

  lemma OneMoreActing(g: Graph, m: Merge, rows: set<Uuid>, rn: Uuid, act: Action)
    requires Rows(g, rows) && rn !in rows && rn in g.edges && g.Complete(rn)
    ensures Rows(g, rows + {rn})
    ensures |Acting(g, m, rows + {rn}, act)|
            == |Acting(g, m, rows, act)| + if Decide(g, m, RowOf(g, rn)) == act then 1 else 0
  {
    if Decide(g, m, RowOf(g, rn)) == act {
      assert Acting(g, m, rows + {rn}, act) == Acting(g, m, rows, act) + {rn};
    } else {
      assert Acting(g, m, rows + {rn}, act) == Acting(g, m, rows, act);
    }
  }

  /** One half of a listing, which repeats no row, is counted by the rows in it. */
  lemma {:induction false} HalfCounts(g: Graph, m: Merge, half: seq<FullEdge>)
    requires HalfOf(g, half)
    ensures Rows(g, Visited(half)) && DryCounts(g, m, half) == CountsOver(g, m, Visited(half))
  {
    VisitedRows(g, half);
    if half != [] {
      var front, e := half[..|half| - 1], half[|half| - 1];
      assert HalfOf(g, front);
      HalfCounts(g, m, front);
      VisitedStep(half);
      NotInFront(half);
      assert Snapshot(g, e) && RowOf(g, e.uuid) == e;
      OneMoreActing(g, m, Visited(front), e.uuid, Rewrite);
      OneMoreActing(g, m, Visited(front), e.uuid, Deduplicate);
      OneMoreActing(g, m, Visited(front), e.uuid, SkipForeign);
    }
  }

  lemma NotInFront(half: seq<FullEdge>)
    requires half != [] && forall i, j :: 0 <= i < j < |half| ==> half[i].uuid != half[j].uuid
    ensures half[|half| - 1].uuid !in Visited(half[..|half| - 1])
  {
    var front := half[..|half| - 1];
    forall e <- front
      ensures e.uuid != half[|half| - 1].uuid
    {
      var i :| 0 <= i < |front| && front[i] == e;
      assert half[i] == e;
    }
  }

  lemma CountPlus(a: Counts, b: Counts, d: Action)
    ensures Count(Plus(a, b), d) == Plus(a, Count(b, d))
  {
  }

  lemma DryCountsLast(g: Graph, m: Merge, es: seq<FullEdge>, e: FullEdge)
    ensures DryCounts(g, m, es + [e]) == Count(DryCounts(g, m, es), Decide(g, m, e))
  {
    assert (es + [e])[..|es|] == es;
  }

  lemma AppendOne(g: Graph, m: Merge, a: seq<FullEdge>, b: seq<FullEdge>)
    requires b != []
    requires var front := b[..|b| - 1]; DryCounts(g, m, a + front) == Plus(DryCounts(g, m, a), DryCounts(g, m, front))
    ensures DryCounts(g, m, a + b) == Plus(DryCounts(g, m, a), DryCounts(g, m, b))
  {
    var front, e := b[..|b| - 1], b[|b| - 1];
    LastSplits(a, b);
    DryCountsLast(g, m, a + front, e);
    DryCountsLast(g, m, front, e);
    CountPlus(DryCounts(g, m, a), DryCounts(g, m, front), Decide(g, m, e));
  }

  lemma LastSplits<T>(a: seq<T>, b: seq<T>)
    ensures b == [] ==> a + b == a
    ensures b != [] ==> a + b == (a + b[..|b| - 1]) + [b[|b| - 1]] && b == b[..|b| - 1] + [b[|b| - 1]]
  {
  }

  lemma PlusNothing(c: Counts)
    ensures Plus(c, ZERO) == c
  {
  }

  lemma AppendNothing(g: Graph, m: Merge, a: seq<FullEdge>, b: seq<FullEdge>)
    requires b == []
    ensures DryCounts(g, m, a + b) == Plus(DryCounts(g, m, a), DryCounts(g, m, b))
  {
    LastSplits(a, b);
    PlusNothing(DryCounts(g, m, a));
  }

  lemma {:induction false} DryCountsAppend(g: Graph, m: Merge, a: seq<FullEdge>, b: seq<FullEdge>)
    ensures DryCounts(g, m, a + b) == Plus(DryCounts(g, m, a), DryCounts(g, m, b))
    decreases |b|
  {
    if b == [] {
      AppendNothing(g, m, a, b);
    } else {
      DryCountsAppend(g, m, a, b[..|b| - 1]);
      AppendOne(g, m, a, b);
    }
  }

  lemma SideIsVisited(g: Graph, entity: Uuid, side: Side, rows: seq<FullEdge>)
    requires SideListing(g, entity, side, rows)
    ensures HalfOf(g, rows) && Visited(rows) == OnSide(g, entity, side)
  {
    forall rn
      ensures rn in Visited(rows) <==> rn in OnSide(g, entity, side)
    {
      if rn in Visited(rows) {
        var e :| e in rows && e.uuid == rn;
        var i :| 0 <= i < |rows| && rows[i] == e;
        assert Snapshot(g, rows[i]) && g.Hop(rows[i].uuid, side) == Some(entity);
      }
      if rn in OnSide(g, entity, side) {
        var i :| 0 <= i < |rows| && rows[i].uuid == rn;
        assert rows[i] in rows;
      }
    }
  }

  lemma ListingCounts(g: Graph, m: Merge, es: seq<FullEdge>, split: nat)
    requires Listing(g, m.alias, es, split)
    ensures DryCounts(g, m, es)
            == Plus(CountsOver(g, m, OnSide(g, m.alias, Src)), CountsOver(g, m, OnSide(g, m.alias, Dst)))
  {
    assert es == es[..split] + es[split..];
    DryCountsAppend(g, m, es[..split], es[split..]);
    SideIsVisited(g, m.alias, Src, es[..split]);
    SideIsVisited(g, m.alias, Dst, es[split..]);
    HalfCounts(g, m, es[..split]);
    HalfCounts(g, m, es[split..]);
  }

  // In the terms of `MergeEdges`.

  /** The affected edges whose redirected form is stated already. */
  ghost function Stated(g: Graph, m: Merge): set<Uuid> {
    set rn | rn in Moving(g, m) && StillStated(g, m, g, rn)
  }

  /** The active edges of other groups with that hop. */
  ghost function ForeignOn(g: Graph, m: Merge, side: Side): set<Uuid> {
    set rn | rn in OnSide(g, m.alias, side) && g.Active(rn) && g.edges[rn].group != m.group
  }

  lemma ActsAs(g: Graph, m: Merge, rn: Uuid, side: Side)
    requires rn in OnSide(g, m.alias, side)
    ensures var d := Decide(g, m, RowOf(g, rn));
            && (d == SkipForeign <==> rn in ForeignOn(g, m, side))
            && (d == Deduplicate <==> rn in Stated(g, m))
            && (d == Rewrite <==> rn in Moving(g, m) - Stated(g, m))
  {
  }

  /** A moving edge touches the alias at one end only. */
  lemma MovingSides(g: Graph, m: Merge, rn: Uuid)
    requires rn in Moving(g, m)
    ensures rn in OnSide(g, m.alias, Src) <==> rn !in OnSide(g, m.alias, Dst)
  {
  }

  lemma SplitBySide(g: Graph, m: Merge, part: set<Uuid>, act: Action)
    requires part <= Moving(g, m)
    requires forall rn, side :: rn in OnSide(g, m.alias, side) ==>
               (Decide(g, m, RowOf(g, rn)) == act <==> rn in part)
    ensures |Acting(g, m, OnSide(g, m.alias, Src), act)| + |Acting(g, m, OnSide(g, m.alias, Dst), act)| == |part|
  {
    var a, b := Acting(g, m, OnSide(g, m.alias, Src), act), Acting(g, m, OnSide(g, m.alias, Dst), act);
    forall rn
      ensures rn in part <==> rn in a + b
      ensures rn !in a || rn !in b
    {
      if rn in part {
        MovingSides(g, m, rn);
      }
      if rn in a {
        MovingSides(g, m, rn);
      }
    }
    assert part == a + b && a !! b;
  }

  lemma StatedBySide(g: Graph, m: Merge)
    ensures |Acting(g, m, OnSide(g, m.alias, Src), Deduplicate)| + |Acting(g, m, OnSide(g, m.alias, Dst), Deduplicate)|
            == |Stated(g, m)|
  {
    forall rn, side | rn in OnSide(g, m.alias, side)
      ensures Decide(g, m, RowOf(g, rn)) == Deduplicate <==> rn in Stated(g, m)
    {
      ActsAs(g, m, rn, side);
    }
    SplitBySide(g, m, Stated(g, m), Deduplicate);
  }

  lemma RewrittenBySide(g: Graph, m: Merge)
    ensures |Acting(g, m, OnSide(g, m.alias, Src), Rewrite)| + |Acting(g, m, OnSide(g, m.alias, Dst), Rewrite)|
            == |Moving(g, m) - Stated(g, m)|
  {
    forall rn, side | rn in OnSide(g, m.alias, side)
      ensures Decide(g, m, RowOf(g, rn)) == Rewrite <==> rn in Moving(g, m) - Stated(g, m)
    {
      ActsAs(g, m, rn, side);
    }
    SplitBySide(g, m, Moving(g, m) - Stated(g, m), Rewrite);
  }

  lemma ForeignBySide(g: Graph, m: Merge, side: Side)
    ensures Acting(g, m, OnSide(g, m.alias, side), SkipForeign) == ForeignOn(g, m, side)
  {
    forall rn | rn in OnSide(g, m.alias, side)
      ensures Decide(g, m, RowOf(g, rn)) == SkipForeign <==> rn in ForeignOn(g, m, side)
    {
      ActsAs(g, m, rn, side);
    }
  }

  lemma PartSizes(all: set<Uuid>, part: set<Uuid>)
    requires part <= all
    ensures |all - part| == |all| - |part|
  {
    assert all == (all - part) + part;
  }

  /** The counts of a dry run of one alias, in whatever order its edges are listed. */
  lemma DryCountsAreSets(g: Graph, m: Merge, es: seq<FullEdge>, split: nat)
    requires Listing(g, m.alias, es, split)
    ensures var c := DryCounts(g, m, es);
            && c.deduped == |Stated(g, m)|
            && c.rewritten + c.deduped == |Moving(g, m)|
            && c.foreignSkipped == |ForeignOn(g, m, Src)| + |ForeignOn(g, m, Dst)|
  {
    ListingCounts(g, m, es, split);
    StatedBySide(g, m);
    RewrittenBySide(g, m);
    ForeignBySide(g, m, Src);
    ForeignBySide(g, m, Dst);
    PartSizes(Moving(g, m), Stated(g, m));
  }
}
