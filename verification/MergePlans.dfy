/** Whole calls of a merge: what they conserve, and exactly when the plan that a dry run reports is what
  * a real run does. A dry run asks every question of the unchanged graph, one alias at a time; a real
  * run's later aliases see what its earlier ones did. */
module MergePlans {
  import opened Common
  import opened PropertyGraph
  import opened Forwarding
  import opened Store
  import opened MergeEdges
  import opened MergeCounts
  import opened MergeSets
  import opened Corrections
  import opened MergeInvariants

  // What the aliases done so far have moved.

  /** An active edge of the group, both hops bound, that touches a merged alias. */
  ghost predicate Touched(g: Graph, done: set<Uuid>, group: GroupId, rn: Uuid) {
    && g.Active(rn) && g.Complete(rn) && g.edges[rn].group == group
    && (g.src[rn] in done || g.dst[rn] in done)
  }

  /** Where an end is after the aliases in `done` have been merged into `c`. */
  function Sent(done: set<Uuid>, c: Uuid, u: Uuid): Uuid {
    if u in done then c else u
  }

  ghost predicate OldRow(g: Graph, done: set<Uuid>, group: GroupId, ts: Timestamp, gi: Graph, rn: Uuid) {
    rn in g.edges ==>
      && rn in gi.edges
      && gi.Hop(rn, Src) == g.Hop(rn, Src) && gi.Hop(rn, Dst) == g.Hop(rn, Dst)
      && gi.edges[rn] == if Touched(g, done, group, rn) then g.edges[rn].(invalidAt := Some(ts)) else g.edges[rn]
  }

  /** `q` states the fact of `rn` between its new ends, which differ. */
  ghost predicate Restated(g: Graph, done: set<Uuid>, c: Uuid, group: GroupId, rn: Uuid, gi: Graph, q: Uuid) {
    && Touched(g, done, group, rn) && q in gi.edges
    && gi.edges[q].name == g.edges[rn].name && gi.edges[q].group == group
    && gi.Hop(q, Src) == Some(Sent(done, c, g.src[rn]))
    && gi.Hop(q, Dst) == Some(Sent(done, c, g.dst[rn]))
    && Sent(done, c, g.src[rn]) != Sent(done, c, g.dst[rn])
  }

  ghost predicate NewRow(g: Graph, done: set<Uuid>, c: Uuid, group: GroupId, gi: Graph, q: Uuid) {
    gi.Active(q) && q !in g.edges ==> exists rn :: Restated(g, done, c, group, rn, gi, q)
  }

  ghost predicate FactSent(g: Graph, done: set<Uuid>, c: Uuid, group: GroupId, gi: Graph, rn: Uuid) {
    Touched(g, done, group, rn) && Sent(done, c, g.src[rn]) != Sent(done, c, g.dst[rn]) ==>
      gi.HasDirectedEdge(Sent(done, c, g.src[rn]), Sent(done, c, g.dst[rn]), g.edges[rn].name, group)
  }

  /** The graph after the aliases in `done`, in terms of the graph before any. */
  ghost predicate Moved(g: Graph, done: set<Uuid>, c: Uuid, group: GroupId, ts: Timestamp, gi: Graph) {
    && (forall rn :: OldRow(g, done, group, ts, gi, rn))
    && (forall q :: NewRow(g, done, c, group, gi, q))
    && (forall rn :: FactSent(g, done, c, group, gi, rn))
  }

  lemma NothingMoved(g: Graph, c: Uuid, group: GroupId, ts: Timestamp)
    ensures Moved(g, {}, c, group, ts, g)
  {
  }

  /** What one alias's rewrite does, as `MergeMovesExactlyTheAffected` states it. */
  ghost predicate OneMoved(g: Graph, m: Merge, g': Graph) {
    && (forall rn <- g.edges ::
          && rn in g'.edges
          && g'.Hop(rn, Src) == g.Hop(rn, Src) && g'.Hop(rn, Dst) == g.Hop(rn, Dst)
          && g'.edges[rn] == if Affected(g, m, rn) then g.edges[rn].(invalidAt := Some(m.ts)) else g.edges[rn])
    && (forall rn :: Affected(g, m, rn) && !Collapses(g, m, rn) ==> StillStated(g, m, g', rn))
    && (forall q <- g'.edges :: q !in g.edges ==>
          exists rn :: Affected(g, m, rn) && !Collapses(g, m, rn) && Restates(g, m, rn, g', q))
  }

  lemma OldRowStep(g: Graph, done: set<Uuid>, gi: Graph, m: Merge, g1: Graph, rn: Uuid)
    requires OldRow(g, done, m.group, m.ts, gi, rn) && OneMoved(gi, m, g1)
    ensures OldRow(g, done + {m.alias}, m.group, m.ts, g1, rn)
  {
  }

  lemma SentStep(done: set<Uuid>, m: Merge, u: Uuid)
    requires m.alias !in done && m.canonical !in done && m.canonical != m.alias
    ensures Redirect(m, Sent(done, m.canonical, u)) == Sent(done + {m.alias}, m.canonical, u)
    ensures Sent(done, m.canonical, u) == m.alias <==> u == m.alias
  {
  }

  lemma RestatedStays(g: Graph, done: set<Uuid>, gi: Graph, m: Merge, g1: Graph, rn: Uuid, q: Uuid)
    requires m.alias !in done && m.canonical !in done && m.canonical != m.alias
    requires OneMoved(gi, m, g1) && Restated(g, done, m.canonical, m.group, rn, gi, q)
    requires gi.Active(q) && g1.Active(q)
    ensures Restated(g, done + {m.alias}, m.canonical, m.group, rn, g1, q)
  {
    SentStep(done, m, g.src[rn]);
    SentStep(done, m, g.dst[rn]);
    assert !Affected(gi, m, q);
  }

  lemma RestatedFirst(g: Graph, done: set<Uuid>, gi: Graph, m: Merge, g1: Graph, r: Uuid, q: Uuid)
    requires m.alias !in done && m.canonical !in done && m.canonical != m.alias
    requires r in g.edges && OldRow(g, done, m.group, m.ts, gi, r)
    requires Affected(gi, m, r) && !Collapses(gi, m, r) && Restates(gi, m, r, g1, q)
    ensures Restated(g, done + {m.alias}, m.canonical, m.group, r, g1, q)
  {
    HopsAlike(g, gi, r);
    SentStep(done, m, g.src[r]);
    SentStep(done, m, g.dst[r]);
  }

  lemma HopsAlike(g: Graph, g': Graph, rn: Uuid)
    requires g'.Hop(rn, Src) == g.Hop(rn, Src) && g'.Hop(rn, Dst) == g.Hop(rn, Dst)
    ensures g'.Complete(rn) <==> g.Complete(rn)
    ensures g.Complete(rn) ==> g'.src[rn] == g.src[rn] && g'.dst[rn] == g.dst[rn]
  {
  }

  /** A new row that touches an alias still to come joins it to the canonical, and will collapse. */
  lemma NewRowsCollapse(g: Graph, done: set<Uuid>, gi: Graph, m: Merge, q: Uuid)
    requires m.alias !in done && m.canonical !in done && m.canonical != m.alias
    requires NewRow(g, done, m.canonical, m.group, gi, q) && q !in g.edges && Affected(gi, m, q)
    ensures Collapses(gi, m, q)
  {
    var rn :| Restated(g, done, m.canonical, m.group, rn, gi, q);
    SentStep(done, m, g.src[rn]);
    SentStep(done, m, g.dst[rn]);
  }

  /** So only rows that were there at the start move. */
  lemma OnlyOldRowsMove(g: Graph, done: set<Uuid>, gi: Graph, m: Merge)
    requires m.alias !in done && m.canonical !in done && m.canonical != m.alias
    requires Moved(g, done, m.canonical, m.group, m.ts, gi)
    ensures forall q :: q !in g.edges && Affected(gi, m, q) ==> Collapses(gi, m, q)
  {
    forall q | q !in g.edges && Affected(gi, m, q)
      ensures Collapses(gi, m, q)
    {
      assert NewRow(g, done, m.canonical, m.group, gi, q);
      NewRowsCollapse(g, done, gi, m, q);
    }
  }

  lemma NewRowStep(g: Graph, done: set<Uuid>, gi: Graph, m: Merge, g1: Graph, q: Uuid)
    requires m.alias !in done && m.canonical !in done && m.canonical != m.alias
    requires Moved(g, done, m.canonical, m.group, m.ts, gi) && OneMoved(gi, m, g1)
    ensures NewRow(g, done + {m.alias}, m.canonical, m.group, g1, q)
  {
    if g1.Active(q) && q !in g.edges {
      assert NewRow(g, done, m.canonical, m.group, gi, q);
      if q in gi.edges {
        var rn :| Restated(g, done, m.canonical, m.group, rn, gi, q);
        RestatedStays(g, done, gi, m, g1, rn, q);
      } else {
        var r :| Affected(gi, m, r) && !Collapses(gi, m, r) && Restates(gi, m, r, g1, q);
        OnlyOldRowsMove(g, done, gi, m);
        assert OldRow(g, done, m.group, m.ts, gi, r);
        RestatedFirst(g, done, gi, m, g1, r, q);
      }
    }
  }

  /** A linked fact is still linked, between redirected ends, after one alias more. */
  lemma LinkStep(gi: Graph, m: Merge, g1: Graph, q: Uuid, a: Uuid, b: Uuid, name: Name)
    requires OneMoved(gi, m, g1) && gi.Links(q, a, b, name, m.group) && Redirect(m, a) != Redirect(m, b)
    ensures g1.HasDirectedEdge(Redirect(m, a), Redirect(m, b), name, m.group)
  {
    if Affected(gi, m, q) {
      assert StillStated(gi, m, g1, q);
    } else {
      HopsAlike(gi, g1, q);
      assert g1.Links(q, a, b, name, m.group);
    }
  }

  lemma FactStep(g: Graph, done: set<Uuid>, gi: Graph, m: Merge, g1: Graph, rn: Uuid)
    requires m.alias !in done && m.canonical !in done && m.canonical != m.alias
    requires OneMoved(gi, m, g1)
    requires OldRow(g, done, m.group, m.ts, gi, rn) && FactSent(g, done, m.canonical, m.group, gi, rn)
    ensures FactSent(g, done + {m.alias}, m.canonical, m.group, g1, rn)
  {
    var c, done' := m.canonical, done + {m.alias};
    if Touched(g, done', m.group, rn) && Sent(done', c, g.src[rn]) != Sent(done', c, g.dst[rn]) {
      var a, b, name := Sent(done, c, g.src[rn]), Sent(done, c, g.dst[rn]), g.edges[rn].name;
      SentStep(done, m, g.src[rn]);
      SentStep(done, m, g.dst[rn]);
      if Touched(g, done, m.group, rn) {
        var q :| q in gi.edges && gi.Links(q, a, b, name, m.group);
        LinkStep(gi, m, g1, q, a, b, name);
      } else {
        HopsAlike(g, gi, rn);
        assert gi.Links(rn, a, b, name, m.group);
        LinkStep(gi, m, g1, rn, a, b, name);
      }
    }
  }

  lemma MovedStep(g: Graph, done: set<Uuid>, gi: Graph, m: Merge, g1: Graph)
    requires m.alias !in done && m.canonical !in done && m.canonical != m.alias
    requires Moved(g, done, m.canonical, m.group, m.ts, gi) && OneMoved(gi, m, g1)
    ensures Moved(g, done + {m.alias}, m.canonical, m.group, m.ts, g1)
  {
    var done' := done + {m.alias};
    forall rn
      ensures OldRow(g, done', m.group, m.ts, g1, rn)
      ensures FactSent(g, done', m.canonical, m.group, g1, rn)
    {
      assert OldRow(g, done, m.group, m.ts, gi, rn) && FactSent(g, done, m.canonical, m.group, gi, rn);
      OldRowStep(g, done, gi, m, g1, rn);
      FactStep(g, done, gi, m, g1, rn);
    }
    forall q
      ensures NewRow(g, done', m.canonical, m.group, g1, q)
    {
      NewRowStep(g, done, gi, m, g1, q);
    }
  }

  // One alias's turn against its plan.

  /** The moving edges of the alias that a merged alias has taken away. */
  ghost function Crossing(g: Graph, done: set<Uuid>, m: Merge): set<Uuid> {
    set rn | rn in Moving(g, m) && (g.src[rn] in done || g.dst[rn] in done)
  }

  /** A merged alias had an edge with the same name between the same redirected ends. */
  ghost predicate SentBefore(g: Graph, done: set<Uuid>, m: Merge, rn: Uuid)
    requires rn in g.edges && g.Complete(rn)
  {
    exists q :: Touched(g, done, m.group, q) && g.edges[q].name == g.edges[rn].name
                && Sent(done, m.canonical, g.src[q]) == Redirect(m, g.src[rn])
                && Sent(done, m.canonical, g.dst[q]) == Redirect(m, g.dst[rn])
  }

  lemma ForeignIsKept(g: Graph, done: set<Uuid>, gi: Graph, m: Merge, side: Side)
    requires Moved(g, done, m.canonical, m.group, m.ts, gi) && g.edges.Keys <= gi.edges.Keys
    ensures ForeignOn(gi, m, side) == ForeignOn(g, m, side)
  {
    forall rn
      ensures rn in ForeignOn(gi, m, side) <==> rn in ForeignOn(g, m, side)
    {
      assert OldRow(g, done, m.group, m.ts, gi, rn) && NewRow(g, done, m.canonical, m.group, gi, rn);
      if rn in g.edges {
        HopsAlike(g, gi, rn);
      }
    }
  }

  lemma MovingLater(g: Graph, done: set<Uuid>, gi: Graph, m: Merge)
    requires m.alias !in done && m.canonical !in done && m.canonical != m.alias
    requires Moved(g, done, m.canonical, m.group, m.ts, gi)
    ensures Moving(gi, m) == Moving(g, m) - Crossing(g, done, m)
  {
    OnlyOldRowsMove(g, done, gi, m);
    forall rn
      ensures rn in Moving(gi, m) <==> rn in Moving(g, m) - Crossing(g, done, m)
    {
      assert OldRow(g, done, m.group, m.ts, gi, rn);
      if rn in g.edges {
        HopsAlike(g, gi, rn);
      }
    }
  }

  /** Between ends that are no merged alias, what is stated later was stated before or has been sent
    * there. */
  lemma StatedLater(g: Graph, done: set<Uuid>, gi: Graph, m: Merge, rn: Uuid)
    requires Moved(g, done, m.canonical, m.group, m.ts, gi)
    requires rn in Moving(g, m) && Redirect(m, g.src[rn]) !in done && Redirect(m, g.dst[rn]) !in done
    ensures gi.HasDirectedEdge(Redirect(m, g.src[rn]), Redirect(m, g.dst[rn]), g.edges[rn].name, m.group)
            <==> StillStated(g, m, g, rn) || SentBefore(g, done, m, rn)
  {
    var a, b, name := Redirect(m, g.src[rn]), Redirect(m, g.dst[rn]), g.edges[rn].name;
    if q :| q in gi.edges && gi.Links(q, a, b, name, m.group) {
      assert OldRow(g, done, m.group, m.ts, gi, q) && NewRow(g, done, m.canonical, m.group, gi, q);
      if q in g.edges {
        HopsAlike(g, gi, q);
        assert g.Links(q, a, b, name, m.group);
      } else {
        var r :| Restated(g, done, m.canonical, m.group, r, gi, q);
        assert SentBefore(g, done, m, rn);
      }
    }
    if q :| q in g.edges && g.Links(q, a, b, name, m.group) {
      assert OldRow(g, done, m.group, m.ts, gi, q);
      HopsAlike(g, gi, q);
      assert gi.Links(q, a, b, name, m.group);
    }
    if q :| Touched(g, done, m.group, q) && g.edges[q].name == name
            && Sent(done, m.canonical, g.src[q]) == a && Sent(done, m.canonical, g.dst[q]) == b {
      assert FactSent(g, done, m.canonical, m.group, gi, q);
    }
  }

  /** The moving edges whose redirected form a merged alias has stated, and nothing before it. */
  ghost function Shared(g: Graph, done: set<Uuid>, m: Merge): set<Uuid> {
    set rn | rn in Moving(g, m) && SentBefore(g, done, m, rn) && !StillStated(g, m, g, rn)
  }

  /** With no crossing edge, the turn moves the planned edges and finds those stated that the plan found
    * plus the shared ones. */
  lemma SharedLater(g: Graph, done: set<Uuid>, gi: Graph, m: Merge)
    requires m.alias !in done && m.canonical !in done && m.canonical != m.alias
    requires Moved(g, done, m.canonical, m.group, m.ts, gi) && Crossing(g, done, m) == {}
    ensures Stated(gi, m) == Stated(g, m) + Shared(g, done, m)
  {
    MovingLater(g, done, gi, m);
    forall rn | rn in Moving(g, m)
      ensures rn in gi.edges && gi.Complete(rn)
      ensures StillStated(gi, m, gi, rn) <==> StillStated(g, m, g, rn) || SentBefore(g, done, m, rn)
    {
      assert rn !in Crossing(g, done, m);
      assert OldRow(g, done, m.group, m.ts, gi, rn);
      HopsAlike(g, gi, rn);
      StatedLater(g, done, gi, m, rn);
    }
  }

  /** What a run may do against its plan: as many foreign edges, no more moves - fewer exactly when edges
    * crossed - and otherwise no fewer duplicates - more exactly when facts were shared. */
  ghost predicate Tracks(plan: Counts, run: Counts, noneCrossed: bool, noneShared: bool) {
    && run.foreignSkipped == plan.foreignSkipped
    && run.rewritten + run.deduped <= plan.rewritten + plan.deduped
    && (run.rewritten + run.deduped == plan.rewritten + plan.deduped <==> noneCrossed)
    && (noneCrossed ==> run.deduped >= plan.deduped && (run.deduped == plan.deduped <==> noneShared))
  }

  lemma TracksTogether(p: Counts, q: Counts, x: bool, y: bool, p': Counts, q': Counts, x': bool, y': bool)
    requires Tracks(p, q, x, y) && Tracks(p', q', x', y')
    ensures Tracks(Plus(p, p'), Plus(q, q'), x && x', y && y')
  {
  }

  lemma TracksExactly(p: Counts, q: Counts, x: bool, y: bool)
    requires Tracks(p, q, x, y)
    ensures p == q <==> x && y
  {
  }

  lemma DisjointSizes(a: set<Uuid>, b: set<Uuid>)
    requires a !! b
    ensures |a + b| == |a| + |b|
  {
  }

  /** The counts of a real turn: as many moves as there are moving edges, and more duplicates than the stated
    * ones exactly when there are twins. */
  lemma RealCountsAreSets(g: Graph, m: Merge, es: seq<FullEdge>, split: nat)
    requires Sound(g, m) && Listing(g, m.alias, es, split)
    ensures var c := RealCounts(g, m, es);
            && c.rewritten + c.deduped == |Moving(g, m)|
            && c.foreignSkipped == |ForeignOn(g, m, Src)| + |ForeignOn(g, m, Dst)|
            && c.deduped >= |Stated(g, m)|
            && (c.deduped == |Stated(g, m)| <==> TwinFree(g, m))
  {
    ListingHoldsAll(g, m, es, split);
    ListingRepeatsOnlyLoops(g, m, es, split);
    DryRunTracksRealRun(g, m, es);
    DryCountsAreSets(g, m, es, split);
    TwinsAreListed(g, m, Visited(es));
  }

  lemma TwinsAreListed(g: Graph, m: Merge, done: set<Uuid>)
    requires forall rn :: Affected(g, m, rn) ==> rn in done
    ensures TwinsIn(g, m, done) <==> !TwinFree(g, m)
  {
    if r, q :| Twins(g, m, r, q) {
      assert r in done && q in done;
    }
  }

  /** A row that is there unchanged duplicates what it duplicated. */
  lemma DuplicatesCarry(g: Graph, gi: Graph, r: Uuid, q: Uuid)
    requires r in g.edges && q in g.edges && r in gi.edges && q in gi.edges
    requires gi.edges[r] == g.edges[r] && gi.edges[q] == g.edges[q]
    requires gi.Hop(r, Src) == g.Hop(r, Src) && gi.Hop(r, Dst) == g.Hop(r, Dst)
    requires gi.Hop(q, Src) == g.Hop(q, Src) && gi.Hop(q, Dst) == g.Hop(q, Dst)
    ensures Duplicates(gi, r, q) <==> Duplicates(g, r, q)
  {
    HopsAlike(g, gi, r);
    HopsAlike(g, gi, q);
  }

  /** Twins are moving edges that no one states yet. */
  lemma TwinsMove(g: Graph, m: Merge, r: Uuid, q: Uuid)
    requires m.canonical != m.alias
    ensures Twins(g, m, r, q) <==> r in Moving(g, m) && q in Moving(g, m) && r !in Stated(g, m) && Duplicates(g, r, q)
  {
  }

  /** Where nothing has crossed and nothing is shared, the turn meets the twins of the plan. */
  lemma TwinsLater(g: Graph, done: set<Uuid>, gi: Graph, m: Merge)
    requires m.alias !in done && m.canonical !in done && m.canonical != m.alias
    requires Moved(g, done, m.canonical, m.group, m.ts, gi)
    requires Moving(gi, m) == Moving(g, m) && Stated(gi, m) == Stated(g, m)
    ensures TwinFree(gi, m) <==> TwinFree(g, m)
  {
    forall r, q
      ensures Twins(gi, m, r, q) <==> Twins(g, m, r, q)
    {
      TwinsMove(g, m, r, q);
      TwinsMove(gi, m, r, q);
      if r in Moving(g, m) && q in Moving(g, m) {
        assert OldRow(g, done, m.group, m.ts, gi, r) && OldRow(g, done, m.group, m.ts, gi, q);
        assert r in Moving(gi, m) && q in Moving(gi, m);
        DuplicatesCarry(g, gi, r, q);
      }
    }
  }

  /** A turn that nothing has crossed finds the duplicates of its plan, the shared ones, and its twins. */
  lemma UncrossedTurn(g: Graph, done: set<Uuid>, gi: Graph, m: Merge, rows: seq<FullEdge>, split: nat)
    requires m.alias !in done && m.canonical !in done && Crossing(g, done, m) == {}
    requires Sound(gi, m) && Moved(g, done, m.canonical, m.group, m.ts, gi) && Listing(gi, m.alias, rows, split)
    ensures var c := RealCounts(gi, m, rows);
            && c.deduped >= |Stated(g, m)|
            && (c.deduped == |Stated(g, m)| <==> Shared(g, done, m) == {} && TwinFree(g, m))
  {
    RealCountsAreSets(gi, m, rows, split);
    MovingLater(g, done, gi, m);
    SharedLater(g, done, gi, m);
    DisjointSizes(Stated(g, m), Shared(g, done, m));
    if Shared(g, done, m) == {} {
      TwinsLater(g, done, gi, m);
    }
  }

  lemma TurnTracks(g: Graph, done: set<Uuid>, gi: Graph, m: Merge, plan: seq<FullEdge>, at: nat,
                   rows: seq<FullEdge>, split: nat)
    requires m.alias !in done && m.canonical !in done
    requires Sound(gi, m) && g.edges.Keys <= gi.edges.Keys
    requires Moved(g, done, m.canonical, m.group, m.ts, gi)
    requires Listing(g, m.alias, plan, at) && Listing(gi, m.alias, rows, split)
    ensures Tracks(DryCounts(g, m, plan), RealCounts(gi, m, rows), Crossing(g, done, m) == {},
                   Shared(g, done, m) == {} && TwinFree(g, m))
  {
    RealCountsAreSets(gi, m, rows, split);
    DryCountsAreSets(g, m, plan, at);
    ForeignIsKept(g, done, gi, m, Src);
    ForeignIsKept(g, done, gi, m, Dst);
    MovingLater(g, done, gi, m);
    PartSizes(Moving(g, m), Crossing(g, done, m));
    if Crossing(g, done, m) == {} {
      UncrossedTurn(g, done, gi, m, rows, split);
    }
  }

  // The whole call.

  ghost function Elems(aliases: seq<Uuid>): set<Uuid> {
    set a | a in aliases
  }

  lemma ElemsStep(aliases: seq<Uuid>)
    requires aliases != []
    ensures Elems(aliases) == Elems(aliases[..|aliases| - 1]) + {aliases[|aliases| - 1]}
  {
    assert aliases == aliases[..|aliases| - 1] + [aliases[|aliases| - 1]];
  }

  /** The last alias: no edge of it crosses to those before it. */
  ghost predicate LastUncrossed(g: Graph, aliases: seq<Uuid>, c: Uuid, group: GroupId, ts: Timestamp)
    requires aliases != []
  {
    var n := |aliases| - 1;
    Crossing(g, Elems(aliases[..n]), Merge(c, aliases[n], group, ts)) == {}
  }

  /** It shares no fact with those before it, and has no twins of its own. */
  ghost predicate LastUnshared(g: Graph, aliases: seq<Uuid>, c: Uuid, group: GroupId, ts: Timestamp)
    requires aliases != []
  {
    var n := |aliases| - 1;
    Shared(g, Elems(aliases[..n]), Merge(c, aliases[n], group, ts)) == {}
    && TwinFree(g, Merge(c, aliases[n], group, ts))
  }

  ghost predicate NoneCrossed(g: Graph, aliases: seq<Uuid>, c: Uuid, group: GroupId, ts: Timestamp) {
    aliases != [] ==>
      LastUncrossed(g, aliases, c, group, ts) && NoneCrossed(g, aliases[..|aliases| - 1], c, group, ts)
  }

  ghost predicate NoneShared(g: Graph, aliases: seq<Uuid>, c: Uuid, group: GroupId, ts: Timestamp) {
    aliases != [] ==>
      LastUnshared(g, aliases, c, group, ts) && NoneShared(g, aliases[..|aliases| - 1], c, group, ts)
  }

  lemma EntitiesDoNotMatter(g: Graph, done: set<Uuid>, c: Uuid, group: GroupId, ts: Timestamp, g1: Graph, g2: Graph)
    requires g2 == g1.(entities := g2.entities) && Moved(g, done, c, group, ts, g1)
    ensures Moved(g, done, c, group, ts, g2)
  {
    forall rn
      ensures OldRow(g, done, group, ts, g2, rn)
      ensures NewRow(g, done, c, group, g2, rn)
      ensures FactSent(g, done, c, group, g2, rn)
    {
      assert OldRow(g, done, group, ts, g1, rn);
      assert NewRow(g, done, c, group, g1, rn);
      assert FactSent(g, done, c, group, g1, rn);
      if g2.Active(rn) && rn !in g.edges {
        var r :| Restated(g, done, c, group, r, g1, rn);
        assert Restated(g, done, c, group, r, g2, rn);
      }
      if Touched(g, done, group, rn) && Sent(done, c, g.src[rn]) != Sent(done, c, g.dst[rn]) {
        var a, b, name := Sent(done, c, g.src[rn]), Sent(done, c, g.dst[rn]), g.edges[rn].name;
        var q :| q in g1.edges && g1.Links(q, a, b, name, group);
        assert g2.Links(q, a, b, name, group);
      }
    }
  }

  lemma VisitMoves(g: Graph, done: set<Uuid>, gi: Graph, v: Visit)
    requires Sound(gi, v.m) && Listing(gi, v.m.alias, v.rows, v.split)
    requires v.m.alias !in done && v.m.canonical !in done
    requires Moved(g, done, v.m.canonical, v.m.group, v.m.ts, gi)
    ensures Moved(g, done + {v.m.alias}, v.m.canonical, v.m.group, v.m.ts, AfterVisit(gi, v))
  {
    var m, g1 := v.m, Rewritten(gi, v.m, v.rows);
    MergeMovesExactlyTheAffected(gi, m, v.rows, v.split);
    MovedStep(g, done, gi, m, g1);
    EntitiesDoNotMatter(g, done + {m.alias}, m.canonical, m.group, m.ts, g1, AfterVisit(gi, v));
  }

  /** A run, and a plan for the same aliases. */
  ghost predicate Call(g: Graph, aliases: seq<Uuid>, c: Uuid, group: GroupId, ts: Timestamp,
                       visits: seq<Visit>, planned: seq<Visit>)
  {
    && WellFormed(g) && Mergeable(g.entities, aliases, c, group)
    && VisitsOf(visits, c, aliases, group, ts) && MergeRun(g, visits)
    && VisitsOf(planned, c, aliases, group, ts) && PlannedRun(g, planned)
  }

  lemma FrontOfCall(g: Graph, aliases: seq<Uuid>, c: Uuid, group: GroupId, ts: Timestamp,
                    visits: seq<Visit>, planned: seq<Visit>)
    requires Call(g, aliases, c, group, ts, visits, planned) && aliases != []
    ensures var n := |aliases| - 1;
            && Call(g, aliases[..n], c, group, ts, visits[..n], planned[..n])
            && aliases[n] !in Elems(aliases[..n]) && c !in Elems(aliases[..n])
            && visits[n].m == planned[n].m == Merge(c, aliases[n], group, ts)
            && Listing(g, planned[n].m.alias, planned[n].rows, planned[n].split)
            && Listing(AfterVisits(g, visits[..n]), visits[n].m.alias, visits[n].rows, visits[n].split)
  {
    var n := |aliases| - 1;
    FrontOfRun(g, aliases, c, group, ts, visits);
    assert planned[n] in planned;
    assert forall v <- planned[..n] :: v in planned;
    FrontOfAliases(g.entities, aliases, c, group);
  }

  lemma FrontOfAliases(ents: Entities, aliases: seq<Uuid>, c: Uuid, group: GroupId)
    requires Mergeable(ents, aliases, c, group) && aliases != []
    ensures aliases[|aliases| - 1] !in Elems(aliases[..|aliases| - 1]) && c !in Elems(aliases[..|aliases| - 1])
  {
    var n := |aliases| - 1;
    assert forall i :: 0 <= i < n ==> aliases[..n][i] == aliases[i] != aliases[n];
    assert forall a <- aliases[..n] :: a in aliases;
  }

  /** The graph before each turn is sound for it. */
  lemma BeforeTurn(g: Graph, aliases: seq<Uuid>, c: Uuid, group: GroupId, ts: Timestamp, visits: seq<Visit>, a: Uuid)
    requires WellFormed(g) && Mergeable(g.entities, aliases, c, group) && MayMerge(g.entities, a, c)
    requires VisitsOf(visits, c, aliases, group, ts) && MergeRun(g, visits)
    ensures var gi := AfterVisits(g, visits);
            Sound(gi, Merge(c, a, group, ts)) && g.edges.Keys <= gi.edges.Keys
  {
    VisitsKeep(g, visits, aliases, c, group, ts);
    TombstoneAllRows(g.entities, aliases, c);
  }

  /** The counts of one visit more. */
  lemma TotalsStep(g: Graph, visits: seq<Visit>, planned: seq<Visit>)
    requires visits != [] && planned != []
    ensures var n, k := |visits| - 1, |planned| - 1;
            && TotalCounts(g, visits)
               == Plus(TotalCounts(g, visits[..n]),
                       RealCounts(AfterVisits(g, visits[..n]), visits[n].m, visits[n].rows))
            && TotalPlanned(g, planned)
               == Plus(TotalPlanned(g, planned[..k]), DryCounts(g, planned[k].m, planned[k].rows))
            && AfterVisits(g, visits) == AfterVisit(AfterVisits(g, visits[..n]), visits[n])
  {
  }

  lemma RunTracksTurn(
      g: Graph, aliases: seq<Uuid>, c: Uuid, group: GroupId, ts: Timestamp, visits: seq<Visit>, planned: seq<Visit>)
    requires Call(g, aliases, c, group, ts, visits, planned) && aliases != []
    requires var n := |aliases| - 1;
             && Moved(g, Elems(aliases[..n]), c, group, ts, AfterVisits(g, visits[..n]))
    ensures Moved(g, Elems(aliases), c, group, ts, AfterVisits(g, visits))
    ensures var n := |aliases| - 1;
            var m := Merge(c, aliases[n], group, ts);
            && Tracks(DryCounts(g, m, planned[n].rows), RealCounts(AfterVisits(g, visits[..n]), m, visits[n].rows),
                      LastUncrossed(g, aliases, c, group, ts), LastUnshared(g, aliases, c, group, ts))
  {
    var n := |aliases| - 1;
    var done, m, gi := Elems(aliases[..n]), Merge(c, aliases[n], group, ts), AfterVisits(g, visits[..n]);
    FrontOfCall(g, aliases, c, group, ts, visits, planned);
    BeforeTurn(g, aliases[..n], c, group, ts, visits[..n], aliases[n]);
    VisitMoves(g, done, gi, visits[n]);
    ElemsStep(aliases);
    TotalsStep(g, visits, planned);
    TurnTracks(g, done, gi, m, planned[n].rows, planned[n].split, visits[n].rows, visits[n].split);
  }

  lemma {:induction false} RunTracksPlan(
      g: Graph, aliases: seq<Uuid>, c: Uuid, group: GroupId, ts: Timestamp, visits: seq<Visit>, planned: seq<Visit>)
    requires Call(g, aliases, c, group, ts, visits, planned)
    ensures Moved(g, Elems(aliases), c, group, ts, AfterVisits(g, visits))
    ensures Tracks(TotalPlanned(g, planned), TotalCounts(g, visits),
                   NoneCrossed(g, aliases, c, group, ts), NoneShared(g, aliases, c, group, ts))
    decreases |aliases|
  {
    if aliases == [] {
      NothingMoved(g, c, group, ts);
    } else {
      var n := |aliases| - 1;
      var m := Merge(c, aliases[n], group, ts);
      FrontOfCall(g, aliases, c, group, ts, visits, planned);
      RunTracksPlan(g, aliases[..n], c, group, ts, visits[..n], planned[..n]);
      RunTracksTurn(g, aliases, c, group, ts, visits, planned);
      TotalsStep(g, visits, planned);
      TracksTogether(TotalPlanned(g, planned[..n]), TotalCounts(g, visits[..n]),
                     NoneCrossed(g, aliases[..n], c, group, ts), NoneShared(g, aliases[..n], c, group, ts),
                     DryCounts(g, m, planned[n].rows), RealCounts(AfterVisits(g, visits[..n]), m, visits[n].rows),
                     LastUncrossed(g, aliases, c, group, ts), LastUnshared(g, aliases, c, group, ts));
    }
  }

  // In terms of the edges of the graph that the call is given.

  /** An active edge of the group that joins two different aliases. */
  ghost predicate JoinsAliases(g: Graph, aliases: seq<Uuid>, group: GroupId, rn: Uuid) {
    && g.Active(rn) && g.Complete(rn) && g.edges[rn].group == group
    && g.src[rn] in aliases && g.dst[rn] in aliases && g.src[rn] != g.dst[rn]
  }

  /** Moving edges of two different aliases that become the same fact, which is not stated yet. */
  ghost predicate Compete(g: Graph, m: Merge, m': Merge, rn: Uuid, q: Uuid) {
    && m.alias != m'.alias
    && rn in Moving(g, m) && q in Moving(g, m')
    && g.edges[q].name == g.edges[rn].name
    && Redirect(m', g.src[q]) == Redirect(m, g.src[rn])
    && Redirect(m', g.dst[q]) == Redirect(m, g.dst[rn])
    && !StillStated(g, m, g, rn)
  }

  lemma CrossingJoins(g: Graph, front: seq<Uuid>, m: Merge, rn: Uuid)
    requires m.alias !in front && rn in Crossing(g, Elems(front), m)
    ensures JoinsAliases(g, front + [m.alias], m.group, rn)
  {
    assert m.alias in front + [m.alias] && forall a <- front :: a in front + [m.alias];
  }

  lemma JoinCrosses(g: Graph, front: seq<Uuid>, m: Merge, rn: Uuid)
    requires m.alias !in front && m.canonical !in front && m.canonical != m.alias
    requires JoinsAliases(g, front + [m.alias], m.group, rn) && !JoinsAliases(g, front, m.group, rn)
    ensures rn in Crossing(g, Elems(front), m)
  {
    assert forall a :: a in front + [m.alias] <==> a in front || a == m.alias;
  }

  lemma JoinsMore(g: Graph, front: seq<Uuid>, a: Uuid, group: GroupId, rn: Uuid)
    requires JoinsAliases(g, front, group, rn)
    ensures JoinsAliases(g, front + [a], group, rn)
  {
  }

  ghost predicate NoneJoins(g: Graph, aliases: seq<Uuid>, group: GroupId) {
    forall rn :: !JoinsAliases(g, aliases, group, rn)
  }

  lemma NoneJoinsStep(g: Graph, front: seq<Uuid>, m: Merge)
    requires m.alias !in front && m.canonical !in front && m.canonical != m.alias
    ensures NoneJoins(g, front + [m.alias], m.group)
            <==> NoneJoins(g, front, m.group) && Crossing(g, Elems(front), m) == {}
  {
    forall rn
      ensures JoinsAliases(g, front, m.group, rn) ==> JoinsAliases(g, front + [m.alias], m.group, rn)
      ensures rn in Crossing(g, Elems(front), m) ==> JoinsAliases(g, front + [m.alias], m.group, rn)
      ensures JoinsAliases(g, front + [m.alias], m.group, rn) ==>
                JoinsAliases(g, front, m.group, rn) || rn in Crossing(g, Elems(front), m)
    {
      if JoinsAliases(g, front, m.group, rn) {
        JoinsMore(g, front, m.alias, m.group, rn);
      } else if JoinsAliases(g, front + [m.alias], m.group, rn) {
        JoinCrosses(g, front, m, rn);
      }
      if rn in Crossing(g, Elems(front), m) {
        CrossingJoins(g, front, m, rn);
      }
    }
  }

  lemma {:induction false} NoneCrossedIff(g: Graph, aliases: seq<Uuid>, c: Uuid, group: GroupId, ts: Timestamp)
    requires Distinct(aliases) && c !in aliases
    ensures NoneCrossed(g, aliases, c, group, ts) <==> NoneJoins(g, aliases, group)
    decreases |aliases|
  {
    if aliases != [] {
      var front, a := aliases[..|aliases| - 1], aliases[|aliases| - 1];
      FrontOfDistinct(aliases);
      NoneCrossedIff(g, front, c, group, ts);
      NoneJoinsStep(g, front, Merge(c, a, group, ts));
    }
  }

  lemma FrontOfDistinct(aliases: seq<Uuid>)
    requires Distinct(aliases) && aliases != []
    ensures var front, a := aliases[..|aliases| - 1], aliases[|aliases| - 1];
            && aliases == front + [a] && Distinct(front) && a !in front && a in aliases
            && forall b <- front :: b in aliases
  {
    var n := |aliases| - 1;
    assert forall i :: 0 <= i < n ==> aliases[..n][i] == aliases[i] != aliases[n];
  }

  // Shared facts.

  /** Where no edge joins two aliases, an edge of a merged alias has been sent where its own merge
    * redirects it. */
  lemma SentIsRedirected(g: Graph, aliases: seq<Uuid>, done: set<Uuid>, m: Merge, q: Uuid)
    requires NoneJoins(g, aliases, m.group)
    requires Touched(g, done, m.group, q) && m.alias in done && forall a <- done :: a in aliases
    requires (g.src[q] == m.alias || g.dst[q] == m.alias) && g.src[q] != g.dst[q]
    ensures Sent(done, m.canonical, g.src[q]) == Redirect(m, g.src[q])
    ensures Sent(done, m.canonical, g.dst[q]) == Redirect(m, g.dst[q])
  {
    assert !JoinsAliases(g, aliases, m.group, q);
  }

  ghost predicate NoneCompete(g: Graph, aliases: seq<Uuid>, c: Uuid, group: GroupId, ts: Timestamp) {
    forall a, b, rn, q :: a in aliases && b in aliases ==>
      !Compete(g, Merge(c, a, group, ts), Merge(c, b, group, ts), rn, q)
  }

  lemma CompeteBothWays(g: Graph, m: Merge, m': Merge, rn: Uuid, q: Uuid)
    requires m.group == m'.group && Compete(g, m, m', rn, q)
    ensures Compete(g, m', m, q, rn)
  {
  }

  lemma SharedCompetes(g: Graph, front: seq<Uuid>, m: Merge, rn: Uuid) returns (b: Uuid, q: Uuid)
    requires NoneJoins(g, front + [m.alias], m.group) && m.alias !in front && m.canonical !in front
    requires rn in Shared(g, Elems(front), m)
    ensures b in front && Compete(g, m, m.(alias := b), rn, q)
  {
    var done := Elems(front);
    q :| Touched(g, done, m.group, q) && g.edges[q].name == g.edges[rn].name
         && Sent(done, m.canonical, g.src[q]) == Redirect(m, g.src[rn])
         && Sent(done, m.canonical, g.dst[q]) == Redirect(m, g.dst[rn]);
    b := if g.src[q] in done then g.src[q] else g.dst[q];
    assert forall a <- done :: a in front + [m.alias];
    SentIsRedirected(g, front + [m.alias], done, m.(alias := b), q);
  }

  lemma CompetingIsShared(g: Graph, front: seq<Uuid>, m: Merge, b: Uuid, rn: Uuid, q: Uuid)
    requires NoneJoins(g, front + [m.alias], m.group) && m.alias !in front && m.canonical !in front
    requires b in front && Compete(g, m, m.(alias := b), rn, q)
    ensures rn in Shared(g, Elems(front), m)
  {
    var done := Elems(front);
    assert forall a <- done :: a in front + [m.alias];
    SentIsRedirected(g, front + [m.alias], done, m.(alias := b), q);
    assert SentBefore(g, done, m, rn);
  }

  lemma NoneCompeteStep(g: Graph, front: seq<Uuid>, m: Merge)
    requires NoneJoins(g, front + [m.alias], m.group) && m.alias !in front && m.canonical !in front
    ensures NoneCompete(g, front + [m.alias], m.canonical, m.group, m.ts)
            <==> NoneCompete(g, front, m.canonical, m.group, m.ts) && Shared(g, Elems(front), m) == {}
  {
    var all, c := front + [m.alias], m.canonical;
    assert forall a :: a in all <==> a in front || a == m.alias;
    if rn :| rn in Shared(g, Elems(front), m) {
      var b, q := SharedCompetes(g, front, m, rn);
      assert Compete(g, Merge(c, m.alias, m.group, m.ts), Merge(c, b, m.group, m.ts), rn, q);
    }
    if a, b, rn, q :| a in all && b in all
                      && Compete(g, Merge(c, a, m.group, m.ts), Merge(c, b, m.group, m.ts), rn, q) {
      CompetingPair(g, front, m, a, b, rn, q);
    }
  }

  /** A competing pair is one of the aliases before the last, or the last one's edge is shared. */
  lemma CompetingPair(g: Graph, front: seq<Uuid>, m: Merge, a: Uuid, b: Uuid, rn: Uuid, q: Uuid)
    requires NoneJoins(g, front + [m.alias], m.group) && m.alias !in front && m.canonical !in front
    requires (a in front || a == m.alias) && (b in front || b == m.alias)
    requires Compete(g, Merge(m.canonical, a, m.group, m.ts), Merge(m.canonical, b, m.group, m.ts), rn, q)
    ensures !NoneCompete(g, front, m.canonical, m.group, m.ts) || Shared(g, Elems(front), m) != {}
  {
    if a == m.alias {
      CompetingIsShared(g, front, m, b, rn, q);
    } else if b == m.alias {
      CompeteBothWays(g, Merge(m.canonical, a, m.group, m.ts), m, rn, q);
      CompetingIsShared(g, front, m, a, q, rn);
    } else {
      assert a in front && b in front;
    }
  }

  lemma {:induction false} NoneSharedIff(g: Graph, aliases: seq<Uuid>, c: Uuid, group: GroupId, ts: Timestamp)
    requires Distinct(aliases) && c !in aliases && NoneJoins(g, aliases, group)
    ensures NoneShared(g, aliases, c, group, ts)
            <==> NoneCompete(g, aliases, c, group, ts) && NoTwins(g, aliases, c, group, ts)
    decreases |aliases|
  {
    if aliases != [] {
      var front, a := aliases[..|aliases| - 1], aliases[|aliases| - 1];
      FrontOfDistinct(aliases);
      NoneJoinsStep(g, front, Merge(c, a, group, ts));
      NoneSharedIff(g, front, c, group, ts);
      NoneCompeteStep(g, front, Merge(c, a, group, ts));
      assert forall b :: b in aliases <==> b in front || b == a;
    }
  }

  /** No alias has two affected edges that state one fact anew. */
  ghost predicate NoTwins(g: Graph, aliases: seq<Uuid>, c: Uuid, group: GroupId, ts: Timestamp) {
    forall a :: a in aliases ==> TwinFree(g, Merge(c, a, group, ts))
  }

  /** In any graph, the plan that a dry run adds up over the aliases is what a real run of the same aliases
    * does if and only if no active edge of the group joins two of the aliases, no edges of two aliases become
    * one fact that the canonical does not state yet, and no alias has twins. */
  lemma PlanIsExactIff(
      g: Graph, aliases: seq<Uuid>, c: Uuid, group: GroupId, ts: Timestamp, visits: seq<Visit>, planned: seq<Visit>)
    requires Call(g, aliases, c, group, ts, visits, planned)
    ensures TotalPlanned(g, planned) == TotalCounts(g, visits)
            <==> && NoneJoins(g, aliases, group) && NoneCompete(g, aliases, c, group, ts)
                 && NoTwins(g, aliases, c, group, ts)
  {
    assert c !in aliases;
    RunTracksPlan(g, aliases, c, group, ts, visits, planned);
    NoneCrossedIff(g, aliases, c, group, ts);
    TracksExactly(TotalPlanned(g, planned), TotalCounts(g, visits),
                  NoneCrossed(g, aliases, c, group, ts), NoneShared(g, aliases, c, group, ts));
    if NoneJoins(g, aliases, group) {
      NoneSharedIff(g, aliases, c, group, ts);
    }
  }

  /** Unique active edges have no twins, so there the first two conditions decide. */
  lemma PlanIsExactIffUnique(
      g: Graph, aliases: seq<Uuid>, c: Uuid, group: GroupId, ts: Timestamp, visits: seq<Visit>, planned: seq<Visit>)
    requires Call(g, aliases, c, group, ts, visits, planned) && UniqueActive(g)
    ensures TotalPlanned(g, planned) == TotalCounts(g, visits)
            <==> NoneJoins(g, aliases, group) && NoneCompete(g, aliases, c, group, ts)
  {
    PlanIsExactIff(g, aliases, c, group, ts, visits, planned);
    UniqueMeansNoDuplicates(g);
  }

  /** Whatever it gets wrong, a plan never promises too few moves, and counts foreign edges exactly. */
  lemma PlanNeverUnderstates(
      g: Graph, aliases: seq<Uuid>, c: Uuid, group: GroupId, ts: Timestamp, visits: seq<Visit>, planned: seq<Visit>)
    requires Call(g, aliases, c, group, ts, visits, planned)
    ensures var plan, run := TotalPlanned(g, planned), TotalCounts(g, visits);
            && run.foreignSkipped == plan.foreignSkipped
            && run.rewritten + run.deduped <= plan.rewritten + plan.deduped
  {
    RunTracksPlan(g, aliases, c, group, ts, visits, planned);
  }

  /** For the calls of `merge_entities`: a dry run and a real run with the same parameters. */
  lemma CallPlanIsExactIff(g: Graph, p: MergeParams, ts: Timestamp, c: Uuid, visits: seq<Visit>, planned: seq<Visit>,
                           g': Graph)
    requires WellFormed(g) && Merged(g, p, ts, c, visits, g')
    requires VisitsOf(planned, c, LiveAliases(g.entities, p, c), p.Group(), ts) && PlannedRun(g, planned)
    ensures TotalPlanned(g, planned) == TotalCounts(g, visits)
            <==> && NoneJoins(g, LiveAliases(g.entities, p, c), p.Group())
                 && NoneCompete(g, LiveAliases(g.entities, p, c), c, p.Group(), ts)
                 && NoTwins(g, LiveAliases(g.entities, p, c), c, p.Group(), ts)
  {
    MergedIsMergeable(g, p, ts, c, visits, g');
    PlanIsExactIff(g, LiveAliases(g.entities, p, c), c, p.Group(), ts, visits, planned);
  }

  // Conservation.

  /** The self-loops that the turns of a run drop. */
  ghost function TotalCollapsed(g: Graph, visits: seq<Visit>): nat {
    if visits == [] then 0
    else
      var n := |visits| - 1;
      TotalCollapsed(g, visits[..n]) + |Collapsing(AfterVisits(g, visits[..n]), visits[n].m)|
  }

  /** Over a whole call the active edges lost are exactly those counted as deduplicated and the
    * self-loops dropped, whatever the graph. */
  lemma {:induction false} RunConservesEdges(
      g: Graph, aliases: seq<Uuid>, c: Uuid, group: GroupId, ts: Timestamp, visits: seq<Visit>)
    requires WellFormed(g) && Mergeable(g.entities, aliases, c, group)
    requires VisitsOf(visits, c, aliases, group, ts) && MergeRun(g, visits)
    ensures |AfterVisits(g, visits).ActiveEdges()| + TotalCounts(g, visits).deduped + TotalCollapsed(g, visits)
            == |g.ActiveEdges()|
    decreases |visits|
  {
    if visits != [] {
      var n := |visits| - 1;
      var v, gi := visits[n], AfterVisits(g, visits[..n]);
      FrontOfRun(g, aliases, c, group, ts, visits);
      RunConservesEdges(g, aliases[..n], c, group, ts, visits[..n]);
      BeforeTurn(g, aliases[..n], c, group, ts, visits[..n], aliases[n]);
      TurnConservesEdges(gi, v);
      TotalsStep(g, visits, visits);
    }
  }

  lemma TurnConservesEdges(gi: Graph, v: Visit)
    requires Sound(gi, v.m) && Listing(gi, v.m.alias, v.rows, v.split)
    ensures |AfterVisit(gi, v).ActiveEdges()| + RealCounts(gi, v.m, v.rows).deduped + |Collapsing(gi, v.m)|
            == |gi.ActiveEdges()|
  {
    MergeConservesEdges(gi, v.m, v.rows, v.split);
    assert AfterVisit(gi, v).ActiveEdges() == Rewritten(gi, v.m, v.rows).ActiveEdges();
  }

  lemma FrontOfRun(g: Graph, aliases: seq<Uuid>, c: Uuid, group: GroupId, ts: Timestamp, visits: seq<Visit>)
    requires Mergeable(g.entities, aliases, c, group)
    requires VisitsOf(visits, c, aliases, group, ts) && MergeRun(g, visits) && visits != []
    ensures var n := |visits| - 1;
            && Mergeable(g.entities, aliases[..n], c, group) && MayMerge(g.entities, aliases[n], c)
            && VisitsOf(visits[..n], c, aliases[..n], group, ts) && MergeRun(g, visits[..n])
            && visits[n].m == Merge(c, aliases[n], group, ts)
            && Listing(AfterVisits(g, visits[..n]), aliases[n], visits[n].rows, visits[n].split)
  {
    forall a <- aliases[..|visits| - 1]
      ensures a in aliases
    {
    }
  }

  /** The same for a call that merges; backdating the canonical changes no edge. */
  lemma CallConservesEdges(g: Graph, p: MergeParams, ts: Timestamp, c: Uuid, visits: seq<Visit>, g': Graph)
    requires WellFormed(g) && Merged(g, p, ts, c, visits, g')
    ensures |g'.ActiveEdges()| + TotalCounts(g, visits).deduped + TotalCollapsed(g, visits) == |g.ActiveEdges()|
  {
    MergedIsMergeable(g, p, ts, c, visits, g');
    RunConservesEdges(g, LiveAliases(g.entities, p, c), c, p.Group(), ts, visits);
    assert g'.ActiveEdges() == AfterVisits(g, visits).ActiveEdges();
  }
}
